/** When the escape terminal is reached, and when it is only mentioned. */
module GeneratorEscape {
  import opened Core
  import opened GeneratorSource
  import opened FrameCompiler
  import opened GeneratorGraph
  import opened GeneratorSteps

  /** A `break` or `continue` outside every loop. */
  predicate Strays(s: Stmt) {
    match s
    case Brk => true
    case Cont => true
    case Seq(a, b) => Strays(a) || Strays(b)
    case Ifte(_, t, e) => Strays(t) || Strays(e)
    case TryCatch(body, _, handler) => Strays(body) || Strays(handler)
    case TryFinally(body, fin) => Strays(body) || Strays(fin)
    case _ => false
  }

  /** A body is left by `break` or `continue`, which is what the escape terminal stands for,
  only where one of these stands outside every loop. */
  lemma {:induction false} OnlyStraysEscape(host: Host, declared: set<string>, fuel: nat, s: Stmt, st: Src)
    requires !Strays(s)
    ensures var ctl := Exec(host, declared, fuel, s, st).0; ctl != Broke && ctl != Continued
    decreases fuel, s, 0
  {
    hide Eval, EvalTest, EvalSrc, Truth, PlainTruth;
    match s
    case Seq(a, b) =>
      OnlyStraysEscape(host, declared, fuel, a, st);
      OnlyStraysEscape(host, declared, fuel, b, Exec(host, declared, fuel, a, st).1);
    case Ifte(c, t, e) =>
      var st1 := st.(tr := EvalTest(host, SourceCtx(declared, st), c, st.tr).1);
      OnlyStraysEscape(host, declared, fuel, t, st1);
      OnlyStraysEscape(host, declared, fuel, e, st1);
    case Loop(c, body) =>
      if fuel > 0 {
        var st1 := st.(tr := EvalTest(host, SourceCtx(declared, st), c, st.tr).1);
        OnlyStraysEscape(host, declared, fuel - 1, s, Exec(host, declared, fuel - 1, body, st1).1);
      }
    case ForIn(x, e, ready, body) =>
      var (r, st1) := EvalSrc(host, declared, e, st);
      if r.Ok? {
        LoopKeepsIn(host, declared, fuel, x, r.v, body, st1);
        var (got, tr2) := Ask(host, CallNamed("<python-iter>", [r.v]), st1.tr);
        if got.Ok? { LoopKeepsIn(host, declared, fuel, x, got.v, body, st1.(tr := tr2)); }
      }
    case TryCatch(body, x, handler) =>
      OnlyStraysEscape(host, declared, fuel, body, st);
      var (ctl, st1) := Exec(host, declared, fuel, body, st);
      if ctl.Raised? {
        OnlyStraysEscape(host, declared, fuel, handler, st1.(vars := st1.vars[x := Str(ctl.exn)]));
      }
    case TryFinally(body, fin) =>
      OnlyStraysEscape(host, declared, fuel, body, st);
      OnlyStraysEscape(host, declared, fuel, fin, Exec(host, declared, fuel, body, st).1);
    case _ =>
  }

  /** A loop keeps the jumps of its body to itself. */
  lemma {:induction false} LoopKeepsIn(host: Host, declared: set<string>, fuel: nat, x: string, it: Val, body: Stmt,
                                       st: Src)
    ensures var ctl := ExecFor(host, declared, fuel, x, it, body, st).0; ctl != Broke && ctl != Continued
    decreases fuel, body, 1
  {
    hide Eval, EvalTest, EvalSrc, Exec;
    if fuel > 0 {
      var st1 := Advance(host, x, it, st).1;
      LoopKeepsIn(host, declared, fuel - 1, x, it, body, Exec(host, declared, fuel - 1, body, st1).1);
    }
  }

  // ----- where a terminal is mentioned -----

  /** Which continuations of a statement are a given terminal. */
  datatype Ways = Ways(normal: bool, breaking: bool, continuing: bool, returning: bool, exceptional: bool)

  /** Whether the code of a statement starts at that terminal, having no node of its own to
  start at, and whether one of its nodes mentions it. */
  datatype Mention = Mention(entry: bool, inside: bool)

  function WaysTo(k: Conts, t: int): Ways {
    Ways(k.normal == t, k.breaking == t, k.continuing == t, k.returning == t, k.exceptional == t)
  }

  /** The jumps of a loop's body: only its returns and exceptions leave as they are. */
  function InLoop(w: Ways): Ways { Ways(false, w.normal, false, w.returning, w.exceptional) }

  function Mentions(s: Stmt, w: Ways): Mention
    decreases Size(s), 0
  {
    match s
    case Seq(_, _) => MentionsAll(Flatten(s), w)
    case Skip => Mention(w.normal, false)
    case Brk => Mention(w.breaking, false)
    case Cont => Mention(w.continuing, false)
    case Ret(_) => Mention(false, w.returning || w.exceptional)
    case Ifte(_, t, e) =>
      var yes, no := Mentions(t, w), Mentions(e, w);
      Mention(false, yes.entry || yes.inside || no.entry || no.inside || w.exceptional)
    case Loop(_, body) =>
      var m := Mentions(body, InLoop(w));
      Mention(false, m.entry || m.inside || w.normal || w.exceptional)
    case ForIn(_, _, _, body) =>
      var m := Mentions(body, InLoop(w));
      Mention(false, m.entry || m.inside || w.normal || w.exceptional)
    case TryCatch(body, _, handler) =>
      var h := Mentions(handler, w);
      var m := Mentions(body, w.(exceptional := false));
      Mention(m.entry, h.entry || h.inside || m.inside || w.exceptional)
    case TryFinally(body, fin) =>
      var x := Mentions(fin, w.(normal := false));
      var n, b := Mentions(fin, w), Mentions(fin, w.(normal := w.breaking));
      var c, r := Mentions(fin, w.(normal := w.continuing)), Mentions(fin, w.(normal := w.returning));
      var m := Mentions(body, Ways(n.entry, b.entry, c.entry, r.entry, false));
      Mention(m.entry, x.entry || x.inside || n.inside || b.inside || c.inside || r.inside || m.inside || w.exceptional)
    case _ => Mention(false, w.normal || w.exceptional)
  }

  function MentionsAll(items: seq<Stmt>, w: Ways): Mention
    decreases SizeAll(items), 1
  {
    if items == [] then Mention(w.normal, false) else
    var rest := MentionsAll(items[1..], w);
    var first := Mentions(items[0], w.(normal := rest.entry));
    Mention(first.entry, first.inside || rest.inside)
  }

  /** A node made between `g` and `g'` can set the program counter to `t`. */
  ghost predicate Hits(g: Graph, g': Graph, t: int) {
    exists i :: g.counter < i <= g'.counter && i in g'.nodes && t in Gotos(g'.nodes[i])
  }

  ghost predicate Mentioned(m: Mention, pc: int, g: Graph, g': Graph, t: int) {
    (pc == t <==> m.entry) && (Hits(g, g', t) <==> m.inside)
  }

  lemma HitsJoin(a: Graph, b: Graph, c: Graph, t: int)
    requires Bounded(a) && Bounded(b) && Extends(a, b) && Extends(b, c)
    ensures Hits(a, c, t) <==> Hits(a, b, t) || Hits(b, c, t)
  {
    hide Gotos;
    if i :| a.counter < i <= c.counter && i in c.nodes && t in Gotos(c.nodes[i]) {
      if i <= b.counter { assert i in b.nodes && t in Gotos(b.nodes[i]); }
    }
    if i :| a.counter < i <= b.counter && i in b.nodes && t in Gotos(b.nodes[i]) {
      assert i in c.nodes && t in Gotos(c.nodes[i]);
    }
  }

  lemma HitsNone(g: Graph, g': Graph, t: int)
    requires g'.counter == g.counter
    ensures !Hits(g, g', t)
  {}

  lemma HitsPut(g: Graph, body: Stmt, exceptional: int, t: int)
    requires Bounded(g) && Put(g, body, exceptional).Done?
    ensures var (pc, g') := Put(g, body, exceptional).v;
            && Bounded(g') && Extends(g, g') && pc == g.counter + 1
            && (Hits(g, g', t) <==> t in Gotos(body) || t == exceptional)
  {
    hide Gotos, Node;
    PutExtends(g, body, exceptional);
    NodeGotos(body, exceptional);
    var (pc, g') := Put(g, body, exceptional).v;
    assert g'.counter == g.counter + 1 && pc in g'.nodes;
  }

  /** A node reserved first and filled last. */
  lemma HitsHead(g: Graph, g1: Graph, g2: Graph, body: Stmt, exceptional: int, t: int)
    requires Bounded(g) && g1 == g.(counter := g.counter + 1, next := g1.next) && g.next <= g1.next
             && g1.counter <= MAX_NODES
    requires Bounded(g2) && Extends(g1, g2)
    ensures var g3 := Fill(g2, body, exceptional, g1.counter);
            && Bounded(g3) && Extends(g, g3)
            && (Hits(g, g3, t) <==> Hits(g1, g2, t) || t in Gotos(body) || t == exceptional)
  {
    hide Gotos, Node;
    HeadExtends(g, g1, g2, body, exceptional);
    NodeGotos(body, exceptional);
    var g3 := Fill(g2, body, exceptional, g1.counter);
    if i :| g1.counter < i <= g2.counter && i in g2.nodes && t in Gotos(g2.nodes[i]) {
      assert g3.nodes[i] == g2.nodes[i];
    }
    assert g1.counter in g3.nodes && g3.nodes[g1.counter] == Node(body, exceptional);
    if i :| g.counter < i <= g3.counter && i in g3.nodes && t in Gotos(g3.nodes[i]) {
      if i != g1.counter { assert i in g2.nodes && t in Gotos(g2.nodes[i]); }
    }
  }

  /** What the code of a statement mentions of a terminal is exactly what `Mentions` says. */
  lemma {:induction false} CompileMentions(declared: set<string>, s: Stmt, k: Conts, depth: nat, g: Graph, t: int)
    requires t < 0 && Bounded(g) && Compile(declared, s, k, depth, g).Done?
    ensures var (pc, g') := Compile(declared, s, k, depth, g).v; Mentioned(Mentions(s, WaysTo(k, t)), pc, g, g', t)
    decreases Size(s), 2
  {
    hide Compile, CompileNode, Mentions, Mentioned, WaysTo, Bounded;
    var depth := depth + 1;
    CompileNodeOf(declared, s, k, depth, g);
    match s
    case Seq(_, _) => SeqMentions(declared, s, k, depth, g, t);
    case Ifte(_, _, _) => IfMentions(declared, s, k, depth, g, t);
    case Loop(_, _) => LoopMentions(declared, s, k, depth, g, t);
    case TryCatch(_, _, _) => CatchMentions(declared, s, k, depth, g, t);
    case TryFinally(_, _) => FinallyMentions(declared, s, k, depth, g, t);
    case ForIn(_, _, _, _) => ForMentions(declared, s, k, depth, g, t);
    case Yield(_, _) => YieldMentions(declared, s, k, depth, g, t);
    case _ => LeafMentions(declared, s, k, depth, g, t);
  }

  lemma CompileNodeOf(declared: set<string>, s: Stmt, k: Conts, depth: nat, g: Graph)
    requires depth > 0 && Compile(declared, s, k, depth - 1, g).Done?
    ensures Compile(declared, s, k, depth - 1, g) == CompileNode(declared, s, k, depth, g)
  {
    hide CompileNode;
  }

  lemma LeafMentions(declared: set<string>, s: Stmt, k: Conts, depth: nat, g: Graph, t: int)
    requires !s.Seq? && !s.Ifte? && !s.Loop? && !s.Yield? && !s.TryCatch? && !s.TryFinally? && !s.ForIn?
    requires t < 0 && Bounded(g) && CompileNode(declared, s, k, depth, g).Done?
    ensures var (pc, g') := CompileNode(declared, s, k, depth, g).v; Mentioned(Mentions(s, WaysTo(k, t)), pc, g, g', t)
  {
    hide Gotos, Plain, Rewrite, Simple, Hits, Put;
    HitsNone(g, g, t);
    if s.Ret? {
      var first := SetField(Return, Rewrite(declared, s.r));
      ReturnGotos(Rewrite(declared, s.r));
      ThenGotos(first, k.returning);
      HitsPut(g, Seq2(first, Goto(k.returning)), k.exceptional, t);
    } else if !s.Skip? && !s.Brk? && !s.Cont? {
      SimpleGotos(declared, s);
      ThenGotos(Simple(declared, s), k.normal);
      HitsPut(g, Seq2(Simple(declared, s), Goto(k.normal)), k.exceptional, t);
    }
  }

  lemma YieldMentions(declared: set<string>, s: Stmt, k: Conts, depth: nat, g: Graph, t: int)
    requires s.Yield? && t < 0 && Bounded(g) && CompileNode(declared, s, k, depth, g).Done?
    ensures var (pc, g') := CompileNode(declared, s, k, depth, g).v; Mentioned(Mentions(s, WaysTo(k, t)), pc, g, g', t)
  {
    hide Gotos, Plain, Rewrite, Hits, Put, YieldBody, IsSuspension, Bounded, Extends;
    var (resume, g1) := YieldResume(s.target, k, g).v;
    HitsNone(g, g, t);
    SelfExtends(g);
    if s.target.Some? {
      var first := SetLocal(Source(s.target.value), Field(Sent));
      SetLocalGotos(Source(s.target.value), Field(Sent));
      ThenGotos(first, k.normal);
      HitsPut(g, Seq2(first, Goto(k.normal)), k.exceptional, t);
    }
    var body := YieldBody(Rewrite(declared, s.r), resume, k.exceptional);
    YieldGotos(Rewrite(declared, s.r), resume, k.exceptional);
    HitsPut(g1, body, k.exceptional, t);
    HitsJoin(g, g1, Put(g1, body, k.exceptional).v.1, t);
  }

  lemma SelfExtends(g: Graph)
    requires Bounded(g)
    ensures Extends(g, g)
  {}

  lemma {:induction false} SeqMentions(declared: set<string>, s: Stmt, k: Conts, depth: nat, g: Graph, t: int)
    requires s.Seq? && t < 0 && Bounded(g) && CompileNode(declared, s, k, depth, g).Done?
    ensures var (pc, g') := CompileNode(declared, s, k, depth, g).v; Mentioned(Mentions(s, WaysTo(k, t)), pc, g, g', t)
    decreases Size(s), 1
  {
    hide Mentioned, MentionsAll, CompileAll, Bounded;
    AllMention(declared, Flatten(s), k, depth, g, t);
  }

  lemma {:induction false} AllMention(declared: set<string>, items: seq<Stmt>, k: Conts, depth: nat, g: Graph, t: int)
    requires t < 0 && Bounded(g) && CompileAll(declared, items, k, depth, g).Done?
    ensures var (pc, g') := CompileAll(declared, items, k, depth, g).v; Mentioned(MentionsAll(items, WaysTo(k, t)), pc, g, g', t)
    decreases SizeAll(items), 3
  {
    hide Compile, Bounded, Extends, Hits, Mentions;
    if items == [] {
      HitsNone(g, g, t);
    } else {
      SizePositive(items[0]);
      AllMention(declared, items[1..], k, depth, g, t);
      var (next, g1) := CompileAll(declared, items[1..], k, depth, g).v;
      AllExtends(declared, items[1..], k, depth, g);
      var k1 := k.(normal := next);
      CompileMentions(declared, items[0], k1, depth, g1, t);
      CompileExtends(declared, items[0], k1, depth, g1);
      var (pc, g2) := Compile(declared, items[0], k1, depth, g1).v;
      HitsJoin(g, g1, g2, t);
      assert WaysTo(k1, t) == WaysTo(k, t).(normal := next == t);
    }
  }

  lemma {:induction false} IfMentions(declared: set<string>, s: Stmt, k: Conts, depth: nat, g: Graph, t: int)
    requires s.Ifte? && t < 0 && Bounded(g) && CompileNode(declared, s, k, depth, g).Done?
    ensures var (pc, g') := CompileNode(declared, s, k, depth, g).v; Mentioned(Mentions(s, WaysTo(k, t)), pc, g, g', t)
    decreases Size(s), 1
  {
    hide Gotos, Plain, Compile, Bounded, Extends, Rewrite, Branch, Hits, Put;
    CompileMentions(declared, s.t, k, depth, g, t);
    CompileExtends(declared, s.t, k, depth, g);
    var (yes, g1) := Compile(declared, s.t, k, depth, g).v;
    CompileMentions(declared, s.e, k, depth, g1, t);
    CompileExtends(declared, s.e, k, depth, g1);
    var (no, g2) := Compile(declared, s.e, k, depth, g1).v;
    var body := Branch(Rewrite(declared, s.c), yes, no);
    BranchGotos(Rewrite(declared, s.c), yes, no);
    HitsPut(g2, body, k.exceptional, t);
    HitsJoin(g, g1, g2, t);
    ExtendsTransitive(g, g1, g2);
    HitsJoin(g, g2, Put(g2, body, k.exceptional).v.1, t);
  }

  lemma {:induction false} LoopMentions(declared: set<string>, s: Stmt, k: Conts, depth: nat, g: Graph, t: int)
    requires s.Loop? && t < 0 && Bounded(g) && CompileNode(declared, s, k, depth, g).Done?
    ensures var (pc, g') := CompileNode(declared, s, k, depth, g).v; Mentioned(Mentions(s, WaysTo(k, t)), pc, g, g', t)
    decreases Size(s), 1
  {
    var (head, g1) := Reserve(g).v;
    assert Bounded(g1);
    hide Gotos, Plain, Compile, Bounded, Extends, Rewrite, Branch, Hits, Fill;
    var k1 := LoopConts(k, head);
    assert WaysTo(k1, t) == InLoop(WaysTo(k, t));
    CompileMentions(declared, s.body, k1, depth, g1, t);
    CompileExtends(declared, s.body, k1, depth, g1);
    var (entry, g2) := Compile(declared, s.body, k1, depth, g1).v;
    BranchGotos(Rewrite(declared, s.c), entry, k.normal);
    HitsHead(g, g1, g2, Branch(Rewrite(declared, s.c), entry, k.normal), k.exceptional, t);
  }

  lemma {:induction false} CatchMentions(declared: set<string>, s: Stmt, k: Conts, depth: nat, g: Graph, t: int)
    requires s.TryCatch? && t < 0 && Bounded(g) && CompileNode(declared, s, k, depth, g).Done?
    ensures var (pc, g') := CompileNode(declared, s, k, depth, g).v; Mentioned(Mentions(s, WaysTo(k, t)), pc, g, g', t)
    decreases Size(s), 1
  {
    hide Gotos, Plain, Compile, Bounded, Extends, Hits, Put;
    CompileMentions(declared, s.handler, k, depth, g, t);
    CompileExtends(declared, s.handler, k, depth, g);
    var (entry, g1) := Compile(declared, s.handler, k, depth, g).v;
    var first := SetLocal(Source(s.x), Field(Exception));
    SetLocalGotos(Source(s.x), Field(Exception));
    ThenGotos(first, entry);
    HitsPut(g1, Seq2(first, Goto(entry)), k.exceptional, t);
    var (bind, g2) := Put(g1, Seq2(first, Goto(entry)), k.exceptional).v;
    var k1 := k.(exceptional := bind);
    assert WaysTo(k1, t) == WaysTo(k, t).(exceptional := false);
    CompileMentions(declared, s.body, k1, depth, g2, t);
    CompileExtends(declared, s.body, k1, depth, g2);
    var (pc, g3) := Compile(declared, s.body, k1, depth, g2).v;
    HitsJoin(g, g1, g2, t);
    ExtendsTransitive(g, g1, g2);
    HitsJoin(g, g2, g3, t);
  }

  lemma {:induction false} ForMentions(declared: set<string>, s: Stmt, k: Conts, depth: nat, g: Graph, t: int)
    requires s.ForIn? && t < 0 && Bounded(g) && CompileNode(declared, s, k, depth, g).Done?
    ensures var (pc, g') := CompileNode(declared, s, k, depth, g).v; Mentioned(Mentions(s, WaysTo(k, t)), pc, g, g', t)
    decreases Size(s), 1
  {
    var p := ForPieces(declared, s, k, depth, g);
    assert Bounded(p.g1) && p.g1 == g.(counter := g.counter + 1, next := p.g1.next) && p.g1.counter <= MAX_NODES
           && p.head == p.g1.counter;
    hide Gotos, Plain, Compile, CompileNode, Bounded, Extends, Rewrite, Branch, Hits, Put, Fill, IteratorOf;
    var k1 := LoopConts(k, p.head);
    assert WaysTo(k1, t) == InLoop(WaysTo(k, t));
    CompileMentions(declared, s.body, k1, depth, p.g1, t);
    CompileExtends(declared, s.body, k1, depth, p.g1);
    var stop := Equal(Field(Exception), Lit(Str("StopIteration")));
    BranchGotos(stop, k.normal, k.exceptional);
    HitsPut(p.g2, Branch(stop, k.normal, k.exceptional), k.exceptional, t);
    HitsJoin(p.g1, p.g2, p.g3, t);
    ExtendsTransitive(p.g1, p.g2, p.g3);
    var next := SetLocal(Source(s.x), Call("<python-next>", [ReadLocal(Temp(g.next))]));
    SetLocalGotos(Source(s.x), Call("<python-next>", [ReadLocal(Temp(g.next))]));
    ThenGotos(next, p.entry);
    HitsHead(g, p.g1, p.g3, Seq2(next, Goto(p.entry)), p.exhausted, t);
    var g4 := Fill(p.g3, Seq2(next, Goto(p.entry)), p.exhausted, p.head);
    var make := SetLocal(Temp(g.next), IteratorOf(declared, s));
    SetLocalGotos(Temp(g.next), IteratorOf(declared, s));
    ThenGotos(make, p.head);
    HitsPut(g4, Seq2(make, Goto(p.head)), k.exceptional, t);
    HitsJoin(g, g4, p.g5, t);
  }

  lemma {:induction false} FinallyMentions(declared: set<string>, s: Stmt, k: Conts, depth: nat, g: Graph, t: int)
    requires s.TryFinally? && t < 0 && Bounded(g) && CompileNode(declared, s, k, depth, g).Done?
    ensures var (pc, g') := CompileNode(declared, s, k, depth, g).v; Mentioned(Mentions(s, WaysTo(k, t)), pc, g, g', t)
    decreases Size(s), 1
  {
    hide Compile, Bounded, Extends, Hits, CompileCleanups;
    CleanupsMention(declared, s.fin, k, depth, g, t);
    CleanupsExtend(declared, s.fin, k, depth, g);
    var (inner, g1) := CompileCleanups(declared, s.fin, k, depth, g).v;
    CompileMentions(declared, s.body, inner, depth, g1, t);
    CompileExtends(declared, s.body, inner, depth, g1);
    var (pc, g2) := Compile(declared, s.body, inner, depth, g1).v;
    HitsJoin(g, g1, g2, t);
  }

  /** One copy of a finally block, put after the graph so far. */
  lemma {:induction false} CopyMentions(declared: set<string>, fin: Stmt, k: Conts, target: int, depth: nat, g: Graph,
                                        a: Graph, t: int)
    requires t < 0 && Bounded(g) && Bounded(a) && Extends(g, a)
             && Compile(declared, fin, k.(normal := target), depth, a).Done?
    ensures var (pc, b) := Compile(declared, fin, k.(normal := target), depth, a).v;
            var m := Mentions(fin, WaysTo(k, t).(normal := target == t));
            && Bounded(b) && Extends(g, b) && (pc == t <==> m.entry) && (Hits(g, b, t) <==> Hits(g, a, t) || m.inside)
    decreases Size(fin), 3
  {
    hide Compile, Bounded, Extends, Hits, Mentions;
    var k1 := k.(normal := target);
    assert WaysTo(k1, t) == WaysTo(k, t).(normal := target == t);
    CompileMentions(declared, fin, k1, depth, a, t);
    CompileExtends(declared, fin, k1, depth, a);
    var (pc, b) := Compile(declared, fin, k1, depth, a).v;
    HitsJoin(g, a, b, t);
    ExtendsTransitive(g, a, b);
  }

  /** One instruction put after the graph so far. */
  lemma InstructionMentions(g: Graph, a: Graph, first: Stmt, target: int, exceptional: int, t: int)
    requires Bounded(g) && Bounded(a) && Extends(g, a) && Gotos(first) == {} && Plain(first)
    requires Put(a, Seq2(first, Goto(target)), exceptional).Done?
    ensures var (pc, b) := Put(a, Seq2(first, Goto(target)), exceptional).v;
            && Bounded(b) && Extends(g, b) && pc > 0
               && (Hits(g, b, t) <==> Hits(g, a, t) || t == target || t == exceptional)
  {
    hide Gotos, Plain, Bounded, Extends, Hits, Put;
    ThenGotos(first, target);
    HitsPut(a, Seq2(first, Goto(target)), exceptional, t);
    var b := Put(a, Seq2(first, Goto(target)), exceptional).v.1;
    HitsJoin(g, a, b, t);
    ExtendsTransitive(g, a, b);
  }

  lemma {:induction false} CleanupsMention(declared: set<string>, fin: Stmt, k: Conts, depth: nat, g: Graph, t: int)
    requires t < 0 && Bounded(g) && CompileCleanups(declared, fin, k, depth, g).Done?
    ensures var (inner, g') := CompileCleanups(declared, fin, k, depth, g).v;
            var w := WaysTo(k, t);
            var x := Mentions(fin, w.(normal := false));
            var n, b := Mentions(fin, w), Mentions(fin, w.(normal := w.breaking));
            var c, r := Mentions(fin, w.(normal := w.continuing)), Mentions(fin, w.(normal := w.returning));
            && WaysTo(inner, t) == Ways(n.entry, b.entry, c.entry, r.entry, false)
            && (Hits(g, g', t) <==> x.entry || x.inside || n.inside || b.inside || c.inside || r.inside || w.exceptional)
    decreases Size(fin), 4
  {
    hide Compile, Bounded, Extends, Hits, Mentions, CompileCleanups, Put, Gotos, Plain;
    var p := CleanupPieces(declared, fin, k, depth, g);
    var saved, g0 := Temp(g.next), g.(next := g.next + 1);
    FreshGraph(g);
    HitsNone(g, g0, t);
    ExceptionGotos(ReadLocal(saved));
    InstructionMentions(g, g0, SetField(Exception, ReadLocal(saved)), k.exceptional, k.exceptional, t);
    CopyMentions(declared, fin, k, p.restore, depth, g, p.g1, t);
    SetLocalGotos(saved, Field(Exception));
    InstructionMentions(g, p.g2, SetLocal(saved, Field(Exception)), p.unwind, k.exceptional, t);
    CopyMentions(declared, fin, k, k.normal, depth, g, p.g3, t);
    CopyMentions(declared, fin, k, k.breaking, depth, g, p.g4, t);
    CopyMentions(declared, fin, k, k.continuing, depth, g, p.g5, t);
    CopyMentions(declared, fin, k, k.returning, depth, g, p.g6, t);
    assert WaysTo(k, t).(normal := k.normal == t) == WaysTo(k, t);
  }

  lemma FreshGraph(g: Graph)
    requires Bounded(g)
    ensures Bounded(g.(next := g.next + 1)) && Extends(g, g.(next := g.next + 1))
  {}

  /** The escape terminal is mentioned, by the entry or by a node, exactly by the bodies whose
  `break` or `continue` continuation is mentioned at the top. */
  lemma EscapeMentioned(declared: set<string>, body: Stmt)
    requires CompileBody(declared, body).Done?
    ensures var (entry, g) := CompileBody(declared, body).v;
            var m := Mentions(body, Ways(false, true, true, false, false));
            (entry == ESCAPED || exists i :: i in g.nodes && ESCAPED in Gotos(g.nodes[i])) <==> m.entry || m.inside
  {
    hide Compile, Gotos, Mentions;
    var g0 := StartGraph(declared);
    var (entry, g) := CompileBody(declared, body).v;
    CompileMentions(declared, body, TOP, 0, g0, ESCAPED);
    CompileExtends(declared, body, TOP, 0, g0);
    assert WaysTo(TOP, ESCAPED) == Ways(false, true, true, false, false);
    if i :| i in g.nodes && ESCAPED in Gotos(g.nodes[i]) {
      assert g0.counter < i <= g.counter;
    }
  }

  /** A finally block outside every loop mentions the escape terminal when it is an
  expression, though nothing breaks, and does not when it is empty or always returns. */
  lemma FinallyMentionsEscape(e: Expr)
    ensures var top := Ways(false, true, true, false, false);
            && Mentions(TryFinally(ExprS(e), ExprS(e)), top).inside && !Strays(TryFinally(ExprS(e), ExprS(e)))
            && Mentions(TryFinally(ExprS(e), Skip), top) == Mention(false, false)
            && Mentions(TryFinally(ExprS(e), Ret(e)), top) == Mention(false, false)
  {}
}
