/** The shape of the compiled graph: every index is filled exactly once, and control
never leaves the graph except through the continuations it was given. */
module GeneratorGraph {
  import opened Core
  import opened GeneratorSource
  import opened FrameCompiler

  /** No index above the counter has been used. */
  ghost predicate Bounded(g: Graph) {
    forall i | i in g.nodes :: i <= g.counter
  }

  /** `g'` is `g` with exactly the indices after `g.counter` filled, each once, and never
  beyond the limit. */
  ghost predicate Extends(g: Graph, g': Graph) {
    && g.counter <= g'.counter
    && (g'.counter == g.counter || g'.counter <= MAX_NODES)
    && g.next <= g'.next
    && (forall i | i in g.nodes :: i in g'.nodes && g'.nodes[i] == g.nodes[i])
    && (forall i | i in g'.nodes :: i in g.nodes || g.counter < i <= g'.counter)
    && (forall i | g.counter < i <= g'.counter :: i in g'.nodes)
  }

  /** The program counters a statement can set. */
  function Gotos(s: Stmt): set<int> {
    match s
    case Seq(a, b) => Gotos(a) + Gotos(b)
    case Ifte(_, t, e) => Gotos(t) + Gotos(e)
    case TryCatch(body, _, handler) => Gotos(body) + Gotos(handler)
    case SetField(slot, e) => if slot.Pc? && e.Lit? && e.v.Int? then {e.v.i} else {}
    case _ => {}
  }

  /** A target inside the part of the graph between `g` and `g'`, or one of `ends`. */
  predicate Aims(t: int, g: Graph, g': Graph, ends: set<int>) {
    t in ends || g.counter < t <= g'.counter
  }

  /** A body that cannot return, loop or change the protocol state. */
  predicate Plain(s: Stmt) {
    match s
    case Skip => true
    case Seq(a, b) => Plain(a) && Plain(b)
    case Ifte(_, t, e) => Plain(t) && Plain(e)
    case RaiseS(_) => true
    case ExprS(_) => true
    case Effect(_, _) => true
    case HoleS(_) => true
    case Assign(_, _) => true
    case Del(_) => true
    case SetField(slot, e) => !slot.State? && (slot.Pc? ==> e.Lit? && e.v.Int?)
    case SetLocal(_, _) => true
    case DelLocal(_) => true
    case _ => false
  }

  ghost predicate IsSuspension(body: Stmt) {
    exists e, resume, exceptional :: body == YieldBody(e, resume, exceptional)
  }

  /** Every node is a guarded instruction: a plain body or a suspension. */
  ghost predicate IsNode(s: Stmt) {
    exists body, exceptional :: s == Node(body, exceptional) && (Plain(body) || IsSuspension(body))
  }

  /** The new nodes extend the graph and jump only among themselves or to `ends`. */
  ghost predicate Grown(g: Graph, g': Graph, ends: set<int>) {
    && Bounded(g) && Bounded(g') && Extends(g, g')
    && (forall i | g.counter < i <= g'.counter :: IsNode(g'.nodes[i]))
    && (forall i, t | g.counter < i <= g'.counter && t in Gotos(g'.nodes[i]) :: Aims(t, g, g', ends))
  }

  /** Whether a statement has code for `break` or `continue` continuations: one of these
  statements outside a loop, or a finally block outside a loop, whose copies lead there. */
  predicate Jumps(s: Stmt) {
    match s
    case Brk => true
    case Cont => true
    case TryFinally(_, _) => true
    case Seq(a, b) => Jumps(a) || Jumps(b)
    case Ifte(_, t, e) => Jumps(t) || Jumps(e)
    case TryCatch(body, _, handler) => Jumps(body) || Jumps(handler)
    case _ => false
  }

  function Exits(jumps: bool, k: Conts): set<int> {
    {k.normal, k.returning, k.exceptional} + (if jumps then {k.breaking, k.continuing} else {})
  }

  // ----- composing -----

  lemma PutExtends(g: Graph, body: Stmt, exceptional: int)
    requires Bounded(g) && Put(g, body, exceptional).Done?
    ensures var (pc, g') := Put(g, body, exceptional).v;
            Bounded(g') && Extends(g, g') && pc == g'.counter == g.counter + 1 && g'.next == g.next
            && g'.nodes[pc] == Node(body, exceptional)
  {
  }

  lemma NodeGotos(body: Stmt, exceptional: int)
    ensures Gotos(Node(body, exceptional)) == Gotos(body) + {exceptional}
  {
    var first, second := SetField(Exception, Name("<caught>")), Goto(exceptional);
    assert Gotos(first) == {};
    assert Gotos(second) == {exceptional};
    assert Gotos(Seq(second, Skip)) == {exceptional};
    assert Gotos(Seq2(first, second)) == {exceptional};
  }

  lemma ThenGotos(first: Stmt, target: int)
    requires Gotos(first) == {} && Plain(first)
    ensures Gotos(Seq2(first, Goto(target))) == {target} && Plain(Seq2(first, Goto(target)))
  {
    assert Gotos(Goto(target)) == {target};
    assert Gotos(Seq(Goto(target), Skip)) == {target};
    assert Plain(Goto(target)) && Plain(Skip);
    assert Plain(Seq(Goto(target), Skip));
  }

  lemma SimpleGotos(declared: set<string>, s: Stmt)
    requires s.Assign? || s.Del? || s.RaiseS? || s.ExprS? || s.Effect? || s.HoleS?
    ensures Gotos(Simple(declared, s)) == {} && Plain(Simple(declared, s))
  {
    hide Rewrite;
    if s.Del? {
      var read, del := ExprS(ReadLocal(Source(s.x))), DelLocal(Source(s.x));
      assert Plain(read) && Plain(del) && Plain(Skip) && Gotos(read) == {} && Gotos(del) == {};
      assert Plain(Seq(del, Skip)) && Gotos(Seq(del, Skip)) == {};
      assert Plain(Seq2(read, del)) && Gotos(Seq2(read, del)) == {};
    }
  }

  lemma YieldGotos(e: Expr, resume: int, exceptional: int)
    ensures Gotos(YieldBody(e, resume, exceptional)) == {resume} && IsSuspension(YieldBody(e, resume, exceptional))
  {
    var s1 := Seq(Ret(Name("<yielded>")), Skip);
    assert Gotos(s1) == {};
    var s2 := Seq(SetField(State, Lit(Int(1))), s1);
    assert Gotos(s2) == {};
    var s3 := Seq(SetField(Handler, Lit(Int(exceptional))), s2);
    assert Gotos(s3) == {};
    assert Gotos(Goto(resume)) == {resume};
    assert Gotos(Seq(Goto(resume), s3)) == {resume};
  }

  lemma PutGrows(g: Graph, body: Stmt, exceptional: int, ends: set<int>)
    requires Bounded(g) && Put(g, body, exceptional).Done?
    requires Gotos(body) <= ends && exceptional in ends && (Plain(body) || IsSuspension(body))
    ensures var (pc, g') := Put(g, body, exceptional).v;
            Grown(g, g', ends) && Aims(pc, g, g', {}) && g'.next == g.next
  {
    hide Gotos, Node, Plain, IsSuspension;
    PutExtends(g, body, exceptional);
    NodeGotos(body, exceptional);
  }

  lemma Composed(a: Graph, b: Graph, c: Graph, e1: set<int>, e2: set<int>, ends: set<int>)
    requires Grown(a, b, e1) && Grown(b, c, e2)
    requires forall t | t in e1 + e2 :: Aims(t, a, c, ends)
    ensures Grown(a, c, ends)
  {
    hide Gotos, IsNode;
    forall i, t | a.counter < i <= c.counter && t in Gotos(c.nodes[i])
      ensures Aims(t, a, c, ends)
    {
      if i <= b.counter {
        assert i in b.nodes && t in Gotos(b.nodes[i]);
        assert Aims(t, a, b, e1);
      } else {
        assert Aims(t, b, c, e2);
      }
    }
  }

  /** A node reserved before its body is compiled and filled afterwards. */
  lemma HeadGrows(g: Graph, g1: Graph, g2: Graph, body: Stmt, exceptional: int, e1: set<int>, ends: set<int>)
    requires Plain(body)
    requires Bounded(g) && g1 == g.(counter := g.counter + 1, next := g1.next) && g.next <= g1.next
             && g1.counter <= MAX_NODES
    requires Grown(g1, g2, e1)
    requires forall t | t in e1 + Gotos(body) + {exceptional} :: Aims(t, g, g2, ends)
    ensures var g3 := Fill(g2, body, exceptional, g1.counter);
            Grown(g, g3, ends)
            && forall i | g1.counter < i <= g2.counter :: g3.nodes[i] == g2.nodes[i]
  {
    hide Gotos, Node, Plain, IsSuspension;
    NodeGotos(body, exceptional);
    var g3 := Fill(g2, body, exceptional, g1.counter);
    forall i, t | g.counter < i <= g3.counter && t in Gotos(g3.nodes[i])
      ensures Aims(t, g, g3, ends)
    {
      if i != g1.counter {
        assert t in Gotos(g2.nodes[i]);
        assert Aims(t, g1, g2, e1);
        assert t in e1 ==> t in e1 + Gotos(body) + {exceptional};
      } else {
        assert t in e1 + Gotos(body) + {exceptional};
      }
    }
  }

  lemma Nothing(g: Graph, ends: set<int>)
    requires Bounded(g)
    ensures Grown(g, g, ends)
  {
  }

  // ----- every statement -----

  lemma {:induction false} CompileGrows(declared: set<string>, s: Stmt, k: Conts, depth: nat, g: Graph)
    requires Bounded(g) && Compile(declared, s, k, depth, g).Done?
    ensures var (pc, g') := Compile(declared, s, k, depth, g).v;
            Grown(g, g', Exits(Jumps(s), k)) && Aims(pc, g, g', Exits(Jumps(s), k))
    decreases Size(s), 1
  {
    hide Gotos, Plain, IsNode, IsSuspension, Grown, Bounded, Rewrite, Simple, CompileAll, CompileCleanups, Aims;
    var depth := depth + 1;
    match s
    case Seq(_, _) => SeqGrows(declared, s, k, depth, g);
    case Ifte(_, _, _) => IfGrows(declared, s, k, depth, g);
    case Loop(_, _) => LoopGrows(declared, s, k, depth, g);
    case Yield(_, _) => YieldGrows(declared, s, k, depth, g);
    case TryCatch(_, _, _) => CatchGrows(declared, s, k, depth, g);
    case TryFinally(_, _) => FinallyGrows(declared, s, k, depth, g);
    case ForIn(_, _, _, _) => ForGrows(declared, s, k, depth, g);
    case _ => LeafGrows(declared, s, k, depth, g);
  }

  lemma LeafGrows(declared: set<string>, s: Stmt, k: Conts, depth: nat, g: Graph)
    requires !s.Seq? && !s.Ifte? && !s.Loop? && !s.Yield? && !s.TryCatch? && !s.TryFinally? && !s.ForIn?
    requires Bounded(g) && CompileNode(declared, s, k, depth, g).Done?
    ensures var (pc, g') := CompileNode(declared, s, k, depth, g).v;
            Grown(g, g', Exits(Jumps(s), k)) && Aims(pc, g, g', Exits(Jumps(s), k))
  {
    hide Gotos, Plain, IsNode, IsSuspension, Rewrite, Simple, Grown;
    var ends := Exits(Jumps(s), k);
    if s.Skip? || s.Brk? || s.Cont? {
      Nothing(g, ends);
    } else if s.Ret? {
      var first := SetField(Return, Rewrite(declared, s.r));
      assert Gotos(first) == {} && Plain(first) by { ReturnGotos(Rewrite(declared, s.r)); }
      ThenGotos(first, k.returning);
      PutGrows(g, Seq2(first, Goto(k.returning)), k.exceptional, ends);
    } else {
      SimpleGotos(declared, s);
      ThenGotos(Simple(declared, s), k.normal);
      PutGrows(g, Seq2(Simple(declared, s), Goto(k.normal)), k.exceptional, ends);
    }
  }

  lemma ReturnGotos(e: Expr)
    ensures Gotos(SetField(Return, e)) == {} && Plain(SetField(Return, e))
  {
  }

  lemma YieldGrows(declared: set<string>, s: Stmt, k: Conts, depth: nat, g: Graph)
    requires s.Yield? && Bounded(g) && CompileNode(declared, s, k, depth, g).Done?
    ensures var (pc, g') := CompileNode(declared, s, k, depth, g).v;
            Grown(g, g', Exits(Jumps(s), k)) && Aims(pc, g, g', Exits(Jumps(s), k))
  {
    hide Gotos, Plain, IsNode, IsSuspension, Rewrite, Grown;
    var ends := Exits(Jumps(s), k);
    var (resume, g1) := YieldResume(s.target, k, g).v;
    if s.target.Some? {
      var first := SetLocal(Source(s.target.value), Field(Sent));
      assert Gotos(first) == {} && Plain(first) by { SetLocalGotos(Source(s.target.value), Field(Sent)); }
      ThenGotos(first, k.normal);
      PutGrows(g, Seq2(first, Goto(k.normal)), k.exceptional, ends);
      PutExtends(g, Seq2(first, Goto(k.normal)), k.exceptional);
    } else {
      Nothing(g, ends);
    }
    var body := YieldBody(Rewrite(declared, s.r), resume, k.exceptional);
    YieldGotos(Rewrite(declared, s.r), resume, k.exceptional);
    PutGrows(g1, body, k.exceptional, {resume, k.exceptional});
    PutExtends(g1, body, k.exceptional);
    Composed(g, g1, Put(g1, body, k.exceptional).v.1, ends, {resume, k.exceptional}, ends);
  }

  lemma SetLocalGotos(x: Var, e: Expr)
    ensures Gotos(SetLocal(x, e)) == {} && Plain(SetLocal(x, e))
  {
  }

  lemma BranchGotos(c: Expr, yes: int, no: int)
    ensures Gotos(Branch(c, yes, no)) == {yes, no} && Plain(Branch(c, yes, no))
  {
    assert Gotos(Goto(yes)) == {yes} && Gotos(Goto(no)) == {no};
  }

  lemma GrownCounters(g: Graph, g': Graph, ends: set<int>)
    requires Grown(g, g', ends)
    ensures Bounded(g') && Extends(g, g') && g.counter <= g'.counter
  {
  }

  lemma {:induction false} SeqGrows(declared: set<string>, s: Stmt, k: Conts, depth: nat, g: Graph)
    requires s.Seq? && Bounded(g) && CompileNode(declared, s, k, depth, g).Done?
    ensures var (pc, g') := CompileNode(declared, s, k, depth, g).v;
            Grown(g, g', Exits(Jumps(s), k)) && Aims(pc, g, g', Exits(Jumps(s), k))
    decreases Size(s), 0
  {
    FlattenJumps(s);
    hide Gotos, Plain, IsNode, IsSuspension, Grown, Bounded, Aims, Flatten, CompileAll, Exits;
    AllGrow(declared, Flatten(s), k, depth, g);
  }

  predicate JumpsAny(items: seq<Stmt>) {
    exists i | 0 <= i < |items| :: Jumps(items[i])
  }

  lemma FlattenJumps(s: Stmt)
    ensures JumpsAny(Flatten(s)) == Jumps(s)
  {
    if s.Seq? {
      FlattenJumps(s.s1);
      FlattenJumps(s.s2);
      var a, b := Flatten(s.s1), Flatten(s.s2);
      if i :| 0 <= i < |a| && Jumps(a[i]) {
        assert Jumps((a + b)[i]);
      } else if i :| 0 <= i < |b| && Jumps(b[i]) {
        assert Jumps((a + b)[|a| + i]);
      }
    } else {
      assert [s][0] == s;
    }
  }

  lemma {:induction false} AllGrow(declared: set<string>, items: seq<Stmt>, k: Conts, depth: nat, g: Graph)
    requires Bounded(g) && CompileAll(declared, items, k, depth, g).Done?
    ensures var (pc, g') := CompileAll(declared, items, k, depth, g).v;
            Grown(g, g', Exits(JumpsAny(items), k)) && Aims(pc, g, g', Exits(JumpsAny(items), k))
    decreases SizeAll(items), 2
  {
    var ends := Exits(JumpsAny(items), k);
    if items == [] {
      Nothing(g, ends);
    } else {
      hide Gotos, Plain, IsNode, IsSuspension, Grown, Bounded, Compile, Extends;
      SizePositive(items[0]);
      AllGrow(declared, items[1..], k, depth, g);
      assert forall i | 0 <= i < |items| - 1 :: items[1..][i] == items[i + 1];
      assert JumpsAny(items[1..]) ==> JumpsAny(items);
      assert Jumps(items[0]) ==> JumpsAny(items);
      var (next, g1) := CompileAll(declared, items[1..], k, depth, g).v;
      var e1 := Exits(JumpsAny(items[1..]), k);
      GrownCounters(g, g1, e1);
      var k1 := k.(normal := next);
      CompileGrows(declared, items[0], k1, depth, g1);
      var (pc, g2) := Compile(declared, items[0], k1, depth, g1).v;
      var e2 := Exits(Jumps(items[0]), k1);
      GrownCounters(g1, g2, e2);
      Composed(g, g1, g2, e1, e2, ends);
    }
  }

  lemma {:induction false} IfGrows(declared: set<string>, s: Stmt, k: Conts, depth: nat, g: Graph)
    requires s.Ifte? && Bounded(g) && CompileNode(declared, s, k, depth, g).Done?
    ensures var (pc, g') := CompileNode(declared, s, k, depth, g).v;
            Grown(g, g', Exits(Jumps(s), k)) && Aims(pc, g, g', Exits(Jumps(s), k))
    decreases Size(s), 0
  {
    hide Gotos, Plain, IsNode, IsSuspension, Grown, Bounded, Compile, Extends, Rewrite, Branch;
    var ends := Exits(Jumps(s), k);
    CompileGrows(declared, s.t, k, depth, g);
    var (yes, g1) := Compile(declared, s.t, k, depth, g).v;
    GrownCounters(g, g1, Exits(Jumps(s.t), k));
    CompileGrows(declared, s.e, k, depth, g1);
    var (no, g2) := Compile(declared, s.e, k, depth, g1).v;
    GrownCounters(g1, g2, Exits(Jumps(s.e), k));
    Composed(g, g1, g2, Exits(Jumps(s.t), k), Exits(Jumps(s.e), k), ends);
    var body := Branch(Rewrite(declared, s.c), yes, no);
    BranchGotos(Rewrite(declared, s.c), yes, no);
    PutGrows(g2, body, k.exceptional, {yes, no, k.exceptional});
    PutExtends(g2, body, k.exceptional);
    Composed(g, g2, Put(g2, body, k.exceptional).v.1, ends, {yes, no, k.exceptional}, ends);
  }

  lemma {:induction false} LoopGrows(declared: set<string>, s: Stmt, k: Conts, depth: nat, g: Graph)
    requires s.Loop? && Bounded(g) && CompileNode(declared, s, k, depth, g).Done?
    ensures var (pc, g') := CompileNode(declared, s, k, depth, g).v;
            Grown(g, g', Exits(Jumps(s), k)) && Aims(pc, g, g', Exits(Jumps(s), k))
    decreases Size(s), 0
  {
    var (head, g1) := Reserve(g).v;
    assert Bounded(g1);
    hide Gotos, Plain, IsNode, IsSuspension, Grown, Bounded, Compile, Extends, Rewrite, Branch;
    var ends := Exits(Jumps(s), k);
    var k1 := LoopConts(k, head);
    CompileGrows(declared, s.body, k1, depth, g1);
    var (entry, g2) := Compile(declared, s.body, k1, depth, g1).v;
    var e1 := Exits(Jumps(s.body), k1);
    GrownCounters(g1, g2, e1);
    BranchGotos(Rewrite(declared, s.c), entry, k.normal);
    HeadGrows(g, g1, g2, Branch(Rewrite(declared, s.c), entry, k.normal), k.exceptional, e1, ends);
  }

  lemma {:induction false} CatchGrows(declared: set<string>, s: Stmt, k: Conts, depth: nat, g: Graph)
    requires s.TryCatch? && Bounded(g) && CompileNode(declared, s, k, depth, g).Done?
    ensures var (pc, g') := CompileNode(declared, s, k, depth, g).v;
            Grown(g, g', Exits(Jumps(s), k)) && Aims(pc, g, g', Exits(Jumps(s), k))
    decreases Size(s), 0
  {
    hide Gotos, Plain, IsNode, IsSuspension, Grown, Bounded, Compile, Extends;
    var ends := Exits(Jumps(s), k);
    CompileGrows(declared, s.handler, k, depth, g);
    var (entry, g1) := Compile(declared, s.handler, k, depth, g).v;
    GrownCounters(g, g1, Exits(Jumps(s.handler), k));
    var first := SetLocal(Source(s.x), Field(Exception));
    SetLocalGotos(Source(s.x), Field(Exception));
    ThenGotos(first, entry);
    PutGrows(g1, Seq2(first, Goto(entry)), k.exceptional, {entry, k.exceptional});
    PutExtends(g1, Seq2(first, Goto(entry)), k.exceptional);
    var (bind, g2) := Put(g1, Seq2(first, Goto(entry)), k.exceptional).v;
    Composed(g, g1, g2, Exits(Jumps(s.handler), k), {entry, k.exceptional}, ends);
    var k1 := k.(exceptional := bind);
    CompileGrows(declared, s.body, k1, depth, g2);
    var (pc, g3) := Compile(declared, s.body, k1, depth, g2).v;
    GrownCounters(g2, g3, Exits(Jumps(s.body), k1));
    Composed(g, g2, g3, ends, Exits(Jumps(s.body), k1), ends);
  }

  lemma {:induction false} FinallyGrows(declared: set<string>, s: Stmt, k: Conts, depth: nat, g: Graph)
    requires s.TryFinally? && Bounded(g) && CompileNode(declared, s, k, depth, g).Done?
    ensures var (pc, g') := CompileNode(declared, s, k, depth, g).v;
            Grown(g, g', Exits(Jumps(s), k)) && Aims(pc, g, g', Exits(Jumps(s), k))
    decreases Size(s), 0
  {
    hide Gotos, Plain, IsNode, IsSuspension, Grown, Bounded, Compile, Extends, CompileCleanups;
    var ends := Exits(true, k);
    CleanupsGrow(declared, s.fin, k, depth, g);
    var (inner, g1) := CompileCleanups(declared, s.fin, k, depth, g).v;
    GrownCounters(g, g1, ends);
    CompileGrows(declared, s.body, inner, depth, g1);
    var (pc, g2) := Compile(declared, s.body, inner, depth, g1).v;
    GrownCounters(g1, g2, Exits(Jumps(s.body), inner));
    forall t | t in Exits(Jumps(s.body), inner)
      ensures Aims(t, g, g2, ends)
    {
      assert t in Exits(true, inner);
    }
    Composed(g, g1, g2, ends, Exits(Jumps(s.body), inner), ends);
  }

  lemma {:induction false} CopyGrows(declared: set<string>, fin: Stmt, k: Conts, target: int, depth: nat, g: Graph,
                                     a: Graph)
    requires Grown(g, a, Exits(true, k)) && Aims(target, g, a, Exits(true, k))
    requires Compile(declared, fin, k.(normal := target), depth, a).Done?
    ensures var (pc, b) := Compile(declared, fin, k.(normal := target), depth, a).v;
            Grown(g, b, Exits(true, k)) && Aims(pc, g, b, Exits(true, k)) && Extends(a, b) && Bounded(b)
              && g.counter <= a.counter <= b.counter
    decreases Size(fin), 2
  {
    hide Gotos, Plain, IsNode, IsSuspension, Grown, Bounded, Compile, Extends;
    var k1 := k.(normal := target);
    GrownCounters(g, a, Exits(true, k));
    CompileGrows(declared, fin, k1, depth, a);
    var (pc, b) := Compile(declared, fin, k1, depth, a).v;
    GrownCounters(a, b, Exits(Jumps(fin), k1));
    Composed(g, a, b, Exits(true, k), Exits(Jumps(fin), k1), Exits(true, k));
  }

  /** One instruction after a grown graph. */
  lemma PutAfter(g: Graph, a: Graph, first: Stmt, target: int, exceptional: int, ends: set<int>)
    requires Grown(g, a, ends) && Aims(target, g, a, ends) && exceptional in ends && Gotos(first) == {} && Plain(first)
    requires Put(a, Seq2(first, Goto(target)), exceptional).Done?
    ensures var (pc, b) := Put(a, Seq2(first, Goto(target)), exceptional).v;
            Grown(g, b, ends) && Aims(pc, g, b, {}) && Extends(a, b) && Bounded(b)
              && g.counter <= a.counter <= b.counter && a.next == b.next
  {
    hide Gotos, Plain, IsNode, IsSuspension, Grown, Bounded, Extends;
    GrownCounters(g, a, ends);
    ThenGotos(first, target);
    PutGrows(a, Seq2(first, Goto(target)), exceptional, {target, exceptional});
    PutExtends(a, Seq2(first, Goto(target)), exceptional);
    Composed(g, a, Put(a, Seq2(first, Goto(target)), exceptional).v.1, ends, {target, exceptional}, ends);
  }

  /** The graphs between the pieces of the code for a finally block. */
  datatype Pieces = Pieces(
    restore: int, g1: Graph, unwind: int, g2: Graph, save: int, g3: Graph,
    normal: int, g4: Graph, breaking: int, g5: Graph, continuing: int, g6: Graph, returning: int, g7: Graph)

  ghost predicate CleanupCode(declared: set<string>, fin: Stmt, k: Conts, depth: nat, g: Graph, p: Pieces) {
    var saved, g0 := Temp(g.next), g.(next := g.next + 1);
    && Put(g0, Seq2(SetField(Exception, ReadLocal(saved)), Goto(k.exceptional)), k.exceptional) ==
       Done((p.restore, p.g1))
    && Compile(declared, fin, k.(normal := p.restore), depth, p.g1) == Done((p.unwind, p.g2))
    && Put(p.g2, Seq2(SetLocal(saved, Field(Exception)), Goto(p.unwind)), k.exceptional) == Done((p.save, p.g3))
    && Compile(declared, fin, k.(normal := k.normal), depth, p.g3) == Done((p.normal, p.g4))
    && Compile(declared, fin, k.(normal := k.breaking), depth, p.g4) == Done((p.breaking, p.g5))
    && Compile(declared, fin, k.(normal := k.continuing), depth, p.g5) == Done((p.continuing, p.g6))
    && Compile(declared, fin, k.(normal := k.returning), depth, p.g6) == Done((p.returning, p.g7))
  }

  lemma CleanupPieces(declared: set<string>, fin: Stmt, k: Conts, depth: nat, g: Graph) returns (p: Pieces)
    requires CompileCleanups(declared, fin, k, depth, g).Done?
    ensures CleanupCode(declared, fin, k, depth, g, p)
    ensures CompileCleanups(declared, fin, k, depth, g) ==
            Done((Conts(p.normal, p.breaking, p.continuing, p.returning, p.save), p.g7))
  {
    hide Compile, Put;
    assert k.(normal := k.normal) == k;
    var (saved, g0) := Fresh(g);
    var (restore, g1) := Put(g0, Seq2(SetField(Exception, ReadLocal(saved)), Goto(k.exceptional)), k.exceptional).v;
    var (unwind, g2) := Compile(declared, fin, k.(normal := restore), depth, g1).v;
    var (save, g3) := Put(g2, Seq2(SetLocal(saved, Field(Exception)), Goto(unwind)), k.exceptional).v;
    var (normal, g4) := Compile(declared, fin, k, depth, g3).v;
    var (breaking, g5) := Compile(declared, fin, k.(normal := k.breaking), depth, g4).v;
    var (continuing, g6) := Compile(declared, fin, k.(normal := k.continuing), depth, g5).v;
    var (returning, g7) := Compile(declared, fin, k.(normal := k.returning), depth, g6).v;
    p := Pieces(restore, g1, unwind, g2, save, g3, normal, g4, breaking, g5, continuing, g6, returning, g7);
  }

  lemma {:induction false} CleanupsGrow(declared: set<string>, fin: Stmt, k: Conts, depth: nat, g: Graph)
    requires Bounded(g) && CompileCleanups(declared, fin, k, depth, g).Done?
    ensures var (inner, g') := CompileCleanups(declared, fin, k, depth, g).v;
            Grown(g, g', Exits(true, k)) && forall t | t in Exits(true, inner) :: Aims(t, g, g', Exits(true, k))
    decreases Size(fin), 3
  {
    hide Gotos, Plain, IsNode, IsSuspension, Grown, Bounded, Compile, Extends, CompileCleanups, Put;
    var p := CleanupPieces(declared, fin, k, depth, g);
    var ends := Exits(true, k);
    var saved, g0 := Temp(g.next), g.(next := g.next + 1);
    NextGrows(g, ends);
    ExceptionGotos(ReadLocal(saved));
    PutAfter(g, g0, SetField(Exception, ReadLocal(saved)), k.exceptional, k.exceptional, ends);
    CopyGrows(declared, fin, k, p.restore, depth, g, p.g1);
    SetLocalGotos(saved, Field(Exception));
    PutAfter(g, p.g2, SetLocal(saved, Field(Exception)), p.unwind, k.exceptional, ends);
    CopyGrows(declared, fin, k, k.normal, depth, g, p.g3);
    CopyGrows(declared, fin, k, k.breaking, depth, g, p.g4);
    CopyGrows(declared, fin, k, k.continuing, depth, g, p.g5);
    CopyGrows(declared, fin, k, k.returning, depth, g, p.g6);
  }

  lemma NextGrows(g: Graph, ends: set<int>)
    requires Bounded(g)
    ensures Grown(g, g.(next := g.next + 1), ends)
  {
    hide Gotos, IsNode;
  }

  lemma ExceptionGotos(e: Expr)
    ensures Gotos(SetField(Exception, e)) == {} && Plain(SetField(Exception, e))
  {
  }

  /** The graphs between the pieces of the code for a for loop. */
  datatype ForGraphs = ForGraphs(
    head: int, g1: Graph, entry: int, g2: Graph, exhausted: int, g3: Graph, init: int, g5: Graph)

  function IteratorOf(declared: set<string>, s: Stmt): Expr
    requires s.ForIn?
  {
    if s.ready then Rewrite(declared, s.r) else Call("<python-iter>", [Rewrite(declared, s.r)])
  }

  lemma ForPieces(declared: set<string>, s: Stmt, k: Conts, depth: nat, g: Graph) returns (p: ForGraphs)
    requires s.ForIn? && CompileNode(declared, s, k, depth, g).Done?
    ensures Reserve(g.(next := g.next + 1)) == Done((p.head, p.g1))
    ensures Compile(declared, s.body, LoopConts(k, p.head), depth, p.g1) == Done((p.entry, p.g2))
    ensures Put(p.g2, Branch(Equal(Field(Exception), Lit(Str("StopIteration"))), k.normal, k.exceptional), k.exceptional) == Done((p.exhausted, p.g3))
    ensures var g4 := Fill(p.g3, Seq2(SetLocal(Source(s.x), Call("<python-next>", [ReadLocal(Temp(g.next))])),
        Goto(p.entry)), p.exhausted, p.head);
            Put(g4, Seq2(SetLocal(Temp(g.next), IteratorOf(declared, s)), Goto(p.head)), k.exceptional) ==
              Done((p.init, p.g5))
    ensures CompileNode(declared, s, k, depth, g) == Done((p.init, p.g5))
  {
    hide Compile, Put, Rewrite;
    var (it, g0) := Fresh(g);
    var (head, g1) := Reserve(g0).v;
    var (entry, g2) := Compile(declared, s.body, LoopConts(k, head), depth, g1).v;
    var (exhausted, g3) := Put(g2, Branch(Equal(Field(Exception), Lit(Str("StopIteration"))), k.normal, k.exceptional), k.exceptional).v;
    var g4 := Fill(g3, Seq2(SetLocal(Source(s.x), Call("<python-next>", [ReadLocal(it)])), Goto(entry)), exhausted,
        head);
    var (init, g5) := Put(g4, Seq2(SetLocal(it, IteratorOf(declared, s)), Goto(head)), k.exceptional).v;
    p := ForGraphs(head, g1, entry, g2, exhausted, g3, init, g5);
  }

  /** The node that tells the end of the iteration from another exception. */
  lemma TestGrows(g1: Graph, g2: Graph, pc: int, g3: Graph, k: Conts, e1: set<int>)
    requires Bounded(g1) && Bounded(g2) && Grown(g1, g2, e1) && g1.counter <= g2.counter
    requires Put(g2, Branch(Equal(Field(Exception), Lit(Str("StopIteration"))), k.normal, k.exceptional), k.exceptional) == Done((pc, g3))
    ensures Bounded(g3) && Grown(g1, g3, e1 + Exits(false, k)) && g1.counter <= g3.counter
            && Aims(pc, g1, g3, Exits(false, k))
  {
    hide Gotos, Plain, IsNode, IsSuspension, Grown, Bounded, Extends, Branch, Put;
    var ends := Exits(false, k);
    var test := Branch(Equal(Field(Exception), Lit(Str("StopIteration"))), k.normal, k.exceptional);
    BranchGotos(Equal(Field(Exception), Lit(Str("StopIteration"))), k.normal, k.exceptional);
    PutGrows(g2, test, k.exceptional, ends);
    PutExtends(g2, test, k.exceptional);
    Composed(g1, g2, g3, e1, ends, e1 + ends);
    GrownCounters(g1, g3, e1 + ends);
  }

  lemma {:induction false} ForGrows(declared: set<string>, s: Stmt, k: Conts, depth: nat, g: Graph)
    requires s.ForIn? && Bounded(g) && CompileNode(declared, s, k, depth, g).Done?
    ensures var (pc, g') := CompileNode(declared, s, k, depth, g).v;
            Grown(g, g', Exits(Jumps(s), k)) && Aims(pc, g, g', Exits(Jumps(s), k))
    decreases Size(s), 0
  {
    var p := ForPieces(declared, s, k, depth, g);
    assert Bounded(p.g1) && p.g1 == g.(counter := g.counter + 1, next := p.g1.next) && p.g1.counter <= MAX_NODES
           && p.head == p.g1.counter;
    hide Gotos, Plain, IsNode, IsSuspension, Grown, Bounded, Compile, CompileNode, Extends, Rewrite, Branch, Put,
         IteratorOf;
    var ends := Exits(false, k);
    CompileGrows(declared, s.body, LoopConts(k, p.head), depth, p.g1);
    var e1 := Exits(Jumps(s.body), LoopConts(k, p.head));
    GrownCounters(p.g1, p.g2, e1);
    TestGrows(p.g1, p.g2, p.exhausted, p.g3, k, e1);
    var first := SetLocal(Source(s.x), Call("<python-next>", [ReadLocal(Temp(g.next))]));
    SetLocalGotos(Source(s.x), Call("<python-next>", [ReadLocal(Temp(g.next))]));
    ThenGotos(first, p.entry);
    HeadGrows(g, p.g1, p.g3, Seq2(first, Goto(p.entry)), p.exhausted, e1 + ends, ends);
    var g4 := Fill(p.g3, Seq2(first, Goto(p.entry)), p.exhausted, p.head);
    SetLocalGotos(Temp(g.next), IteratorOf(declared, s));
    PutAfter(g, g4, SetLocal(Temp(g.next), IteratorOf(declared, s)), p.head, k.exceptional, ends);
  }

  // ----- what the simulation needs -----

  lemma CompileExtends(declared: set<string>, s: Stmt, k: Conts, depth: nat, g: Graph)
    requires Bounded(g) && Compile(declared, s, k, depth, g).Done?
    ensures var g' := Compile(declared, s, k, depth, g).v.1; Bounded(g') && Extends(g, g')
  {
    hide Gotos, Plain, IsNode, IsSuspension, Compile, Bounded, Extends;
    CompileGrows(declared, s, k, depth, g);
  }

  lemma CleanupsExtend(declared: set<string>, fin: Stmt, k: Conts, depth: nat, g: Graph)
    requires Bounded(g) && CompileCleanups(declared, fin, k, depth, g).Done?
    ensures var g' := CompileCleanups(declared, fin, k, depth, g).v.1; Bounded(g') && Extends(g, g')
  {
    hide Gotos, Plain, IsNode, IsSuspension, CompileCleanups, Bounded, Extends;
    CleanupsGrow(declared, fin, k, depth, g);
  }

  lemma AllExtends(declared: set<string>, items: seq<Stmt>, k: Conts, depth: nat, g: Graph)
    requires Bounded(g) && CompileAll(declared, items, k, depth, g).Done?
    ensures var g' := CompileAll(declared, items, k, depth, g).v.1; Bounded(g') && Extends(g, g')
  {
    hide Gotos, Plain, IsNode, IsSuspension, CompileAll, Bounded, Extends;
    AllGrow(declared, items, k, depth, g);
  }

  lemma HeadExtends(g: Graph, g1: Graph, g2: Graph, body: Stmt, exceptional: int)
    requires Bounded(g) && g1 == g.(counter := g.counter + 1, next := g1.next) && g.next <= g1.next
             && g1.counter <= MAX_NODES
    requires Bounded(g2) && Extends(g1, g2)
    ensures var g3 := Fill(g2, body, exceptional, g1.counter);
            Bounded(g3) && Extends(g, g3)
            && forall i | g1.counter < i <= g2.counter :: g3.nodes[i] == g2.nodes[i]
  {
  }

  lemma ExtendsTransitive(a: Graph, b: Graph, c: Graph)
    requires Extends(a, b) && Extends(b, c)
    ensures Extends(a, c)
  {
  }

  // ----- the whole body -----

  /** Where a generator body is compiled to go. */
  const TOP: Conts := Conts(COMPLETED, ESCAPED, ESCAPED, COMPLETED, FAILED)

  function StartGraph(declared: set<string>): Graph {
    Graph(map[], 0, |declared|)
  }

  /** The compiled body of a generator whose locals are `declared`. */
  function CompileBody(declared: set<string>, body: Stmt): Result<(int, Graph)> {
    Compile(declared, body, TOP, 0, StartGraph(declared))
  }

  /** The graph is closed: its nodes are exactly `1..counter`, at most 4096 of them, and
  every jump leads to a node or to one of the three terminals. */
  lemma GraphIsClosed(declared: set<string>, body: Stmt)
    requires CompileBody(declared, body).Done?
    ensures var (entry, g) := CompileBody(declared, body).v;
            && (forall i: int :: i in g.nodes <==> 1 <= i <= g.counter)
            && g.counter <= 4096
            && (forall i | i in g.nodes :: IsNode(g.nodes[i]))
            && (entry in g.nodes || entry in {COMPLETED, FAILED, ESCAPED})
            && forall i, t | i in g.nodes && t in Gotos(g.nodes[i]) :: t in g.nodes || t in {COMPLETED, FAILED, ESCAPED}
  {
    hide Compile, Gotos, IsNode;
    var g0 := StartGraph(declared);
    var (entry, g) := CompileBody(declared, body).v;
    CompileGrows(declared, body, TOP, 0, g0);
    forall i, t | i in g.nodes && t in Gotos(g.nodes[i])
      ensures t in g.nodes || t in {COMPLETED, FAILED, ESCAPED}
    {
      assert Aims(t, g0, g, Exits(Jumps(body), TOP));
    }
  }
}
