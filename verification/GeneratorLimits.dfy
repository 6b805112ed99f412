/** Which bodies the compiler accepts: those of supported statements that need at most 4096
nodes and 128 levels of compilation. */
module GeneratorLimits {
  import opened Core
  import opened GeneratorSource
  import opened FrameCompiler
  import opened GeneratorGraph

  function Max(a: nat, b: nat): nat { if a < b then b else a }

  /** The nodes a statement is compiled to; a finally block is copied five times. */
  function Cost(s: Stmt): nat
    decreases Size(s), 0
  {
    match s
    case Seq(_, _) => CostAll(Flatten(s))
    case Skip => 0
    case Brk => 0
    case Cont => 0
    case Ifte(_, t, e) => Cost(t) + Cost(e) + 1
    case Loop(_, body) => Cost(body) + 1
    case ForIn(_, _, _, body) => Cost(body) + 3
    case Yield(target, _) => if target.Some? then 2 else 1
    case TryCatch(body, _, handler) => Cost(handler) + 1 + Cost(body)
    case TryFinally(body, fin) => 2 + 5 * Cost(fin) + Cost(body)
    case _ => 1
  }

  function CostAll(items: seq<Stmt>): nat
    decreases SizeAll(items), 1
  {
    if items == [] then 0 else CostAll(items[1..]) + Cost(items[0])
  }

  /** The nesting of compilations; a flattened sequence is one level however long. */
  function Levels(s: Stmt): nat
    decreases Size(s), 0
  {
    match s
    case Seq(_, _) => 1 + LevelsAll(Flatten(s))
    case Ifte(_, t, e) => 1 + Max(Levels(t), Levels(e))
    case Loop(_, body) => 1 + Levels(body)
    case ForIn(_, _, _, body) => 1 + Levels(body)
    case TryCatch(body, _, handler) => 1 + Max(Levels(body), Levels(handler))
    case TryFinally(body, fin) => 1 + Max(Levels(body), Levels(fin))
    case _ => 1
  }

  function LevelsAll(items: seq<Stmt>): nat
    decreases SizeAll(items), 1
  {
    if items == [] then 0 else Max(LevelsAll(items[1..]), Levels(items[0]))
  }

  predicate Supported(s: Stmt)
    decreases Size(s), 0
  {
    match s
    case Seq(_, _) => SupportedAll(Flatten(s))
    case Ifte(_, t, e) => Supported(t) && Supported(e)
    case Loop(_, body) => Supported(body)
    case ForIn(_, _, _, body) => Supported(body)
    case TryCatch(body, _, handler) => Supported(body) && Supported(handler)
    case TryFinally(body, fin) => Supported(body) && Supported(fin)
    case BreakBlock(_) => false
    case YieldFrom(_) => false
    case SetField(_, _) => false
    case SetLocal(_, _) => false
    case DelLocal(_) => false
    case _ => true
  }

  predicate SupportedAll(items: seq<Stmt>)
    decreases SizeAll(items), 1
  {
    items == [] || (SupportedAll(items[1..]) && Supported(items[0]))
  }

  /** Whether what needs `cost` nodes and `levels` levels fits after `g` at `depth`. */
  predicate Fits(ok: bool, cost: nat, levels: nat, depth: nat, g: Graph) {
    ok && g.counter + cost <= MAX_NODES && depth + levels <= MAX_DEPTH
  }

  ghost predicate Taken<T>(r: Result<(T, Graph)>, ok: bool, cost: nat, levels: nat, depth: nat, g: Graph) {
    && (r.Done? <==> Fits(ok, cost, levels, depth, g))
    && (r.Done? ==> r.v.1.counter == g.counter + cost)
  }

  /** A statement is compiled exactly when it is supported and fits, and takes exactly its
  cost of nodes. */
  lemma {:induction false} CompileTaken(declared: set<string>, s: Stmt, k: Conts, depth: nat, g: Graph)
    requires g.counter <= MAX_NODES && depth <= MAX_DEPTH
    ensures Taken(Compile(declared, s, k, depth, g), Supported(s), Cost(s), Levels(s), depth, g)
    decreases Size(s), 2
  {
    hide Put, Reserve, Rewrite, Simple, CompileCleanups, CompileAll, Cost, Levels, Supported, CompileNode;
    LevelsPositive(s);
    if depth + 1 <= MAX_DEPTH { NodeTaken(declared, s, k, depth + 1, g); }
  }

  lemma LevelsPositive(s: Stmt)
    ensures Levels(s) > 0
  {}

  lemma PutTaken(g: Graph, body: Stmt, exceptional: int)
    requires g.counter <= MAX_NODES
    ensures Put(g, body, exceptional).Done? <==> g.counter + 1 <= MAX_NODES
    ensures Put(g, body, exceptional).Done? ==> Put(g, body, exceptional).v.1.counter == g.counter + 1
  {}

  lemma {:induction false} NodeTaken(declared: set<string>, s: Stmt, k: Conts, depth: nat, g: Graph)
    requires g.counter <= MAX_NODES && 1 <= depth <= MAX_DEPTH
    ensures Taken(CompileNode(declared, s, k, depth, g), Supported(s), Cost(s), Levels(s), depth - 1, g)
    decreases Size(s), 1
  {
    hide Rewrite, Simple, CompileCleanups, Compile, CompileAll, Branch, YieldBody, Node, Put;
    match s
    case Seq(_, _) => AllTaken(declared, Flatten(s), k, depth, g);
    case Ifte(c, t, e) => IfTaken(declared, s, k, depth, g);
    case Loop(_, body) =>
      if g.counter + 1 <= MAX_NODES {
        var (head, g1) := Reserve(g).v;
        CompileTaken(declared, body, LoopConts(k, head), depth, g1);
      }
    case ForIn(_, _, _, _) => ForTaken(declared, s, k, depth, g);
    case Yield(target, e) => YieldTaken(declared, s, k, depth, g);
    case TryCatch(_, _, _) => CatchTaken(declared, s, k, depth, g);
    case TryFinally(body, fin) =>
      CleanupsTaken(declared, fin, k, depth, g);
      if CompileCleanups(declared, fin, k, depth, g).Done? {
        var (inner, g1) := CompileCleanups(declared, fin, k, depth, g).v;
        CompileTaken(declared, body, inner, depth, g1);
      }
    case Ret(e) => PutTaken(g, Seq2(SetField(Return, Rewrite(declared, e)), Goto(k.returning)), k.exceptional);
    case _ => PutTaken(g, Seq2(Simple(declared, s), Goto(k.normal)), k.exceptional);
  }

  lemma {:induction false} IfTaken(declared: set<string>, s: Stmt, k: Conts, depth: nat, g: Graph)
    requires s.Ifte? && g.counter <= MAX_NODES && 1 <= depth <= MAX_DEPTH
    ensures Taken(CompileNode(declared, s, k, depth, g), Supported(s), Cost(s), Levels(s), depth - 1, g)
    decreases Size(s), 0
  {
    hide Rewrite, Compile, Branch, Node, Put;
    CompileTaken(declared, s.t, k, depth, g);
    if Compile(declared, s.t, k, depth, g).Done? {
      var (yes, g1) := Compile(declared, s.t, k, depth, g).v;
      CompileTaken(declared, s.e, k, depth, g1);
      if Compile(declared, s.e, k, depth, g1).Done? {
        var (no, g2) := Compile(declared, s.e, k, depth, g1).v;
        PutTaken(g2, Branch(Rewrite(declared, s.c), yes, no), k.exceptional);
      }
    }
  }

  lemma {:induction false} CatchTaken(declared: set<string>, s: Stmt, k: Conts, depth: nat, g: Graph)
    requires s.TryCatch? && g.counter <= MAX_NODES && 1 <= depth <= MAX_DEPTH
    ensures Taken(CompileNode(declared, s, k, depth, g), Supported(s), Cost(s), Levels(s), depth - 1, g)
    decreases Size(s), 0
  {
    hide Compile, Node, Put;
    CompileTaken(declared, s.handler, k, depth, g);
    if Compile(declared, s.handler, k, depth, g).Done? {
      var (entry, g1) := Compile(declared, s.handler, k, depth, g).v;
      var bind := Seq2(SetLocal(Source(s.x), Field(Exception)), Goto(entry));
      PutTaken(g1, bind, k.exceptional);
      if Put(g1, bind, k.exceptional).Done? {
        var (pc, g2) := Put(g1, bind, k.exceptional).v;
        CompileTaken(declared, s.body, k.(exceptional := pc), depth, g2);
      }
    }
  }

  lemma YieldTaken(declared: set<string>, s: Stmt, k: Conts, depth: nat, g: Graph)
    requires s.Yield? && g.counter <= MAX_NODES && 1 <= depth <= MAX_DEPTH
    ensures Taken(CompileNode(declared, s, k, depth, g), Supported(s), Cost(s), Levels(s), depth - 1, g)
  {
    hide Rewrite, YieldBody, Node, Put;
    if s.target.Some? { PutTaken(g, Seq2(SetLocal(Source(s.target.value), Field(Sent)), Goto(k.normal)), k.exceptional); }
    if YieldResume(s.target, k, g).Done? {
      var (resume, g1) := YieldResume(s.target, k, g).v;
      PutTaken(g1, YieldBody(Rewrite(declared, s.r), resume, k.exceptional), k.exceptional);
    }
  }

  lemma {:induction false} ForTaken(declared: set<string>, s: Stmt, k: Conts, depth: nat, g: Graph)
    requires s.ForIn? && g.counter <= MAX_NODES && 1 <= depth <= MAX_DEPTH
    ensures Taken(CompileNode(declared, s, k, depth, g), Supported(s), Cost(s), Levels(s), depth - 1, g)
    decreases Size(s), 0
  {
    hide Rewrite, Compile, Branch, Node, Put;
    if g.counter + 1 <= MAX_NODES {
      var (it, g0) := Fresh(g);
      var (head, g1) := Reserve(g0).v;
      CompileTaken(declared, s.body, LoopConts(k, head), depth, g1);
      if Compile(declared, s.body, LoopConts(k, head), depth, g1).Done? {
        var (entry, g2) := Compile(declared, s.body, LoopConts(k, head), depth, g1).v;
        var test := Branch(Equal(Field(Exception), Lit(Str("StopIteration"))), k.normal, k.exceptional);
        PutTaken(g2, test, k.exceptional);
        if Put(g2, test, k.exceptional).Done? {
          var (exhausted, g3) := Put(g2, test, k.exceptional).v;
          var g4 := Fill(g3, Seq2(SetLocal(Source(s.x), Call("<python-next>", [ReadLocal(it)])), Goto(entry)),
              exhausted, head);
          var source := Rewrite(declared, s.r);
          PutTaken(g4, Seq2(SetLocal(it, if s.ready then source else Call("<python-iter>", [source])), Goto(head)),
              k.exceptional);
        }
      }
    }
  }

  lemma {:induction false} AllTaken(declared: set<string>, items: seq<Stmt>, k: Conts, depth: nat, g: Graph)
    requires g.counter <= MAX_NODES && depth <= MAX_DEPTH
    ensures Taken(CompileAll(declared, items, k, depth, g), SupportedAll(items), CostAll(items), LevelsAll(items), depth, g)
    decreases SizeAll(items), 3
  {
    hide Compile, Cost, Levels, Supported;
    if items != [] {
      SizePositive(items[0]);
      AllTaken(declared, items[1..], k, depth, g);
      if CompileAll(declared, items[1..], k, depth, g).Done? {
        var (next, g1) := CompileAll(declared, items[1..], k, depth, g).v;
        CompileTaken(declared, items[0], k.(normal := next), depth, g1);
      }
    }
  }

  lemma {:induction false} CleanupsTaken(declared: set<string>, fin: Stmt, k: Conts, depth: nat, g: Graph)
    requires g.counter <= MAX_NODES && depth <= MAX_DEPTH
    ensures Taken(CompileCleanups(declared, fin, k, depth, g), Supported(fin), 2 + 5 * Cost(fin), Levels(fin), depth, g)
    decreases Size(fin), 4
  {
    hide Compile, Cost, Levels, Supported, CompileUnwind;
    UnwindTaken(declared, fin, k, depth, g);
    if CompileUnwind(declared, fin, k, depth, g).Done? {
      var g3 := CompileUnwind(declared, fin, k, depth, g).v.1;
      CompileTaken(declared, fin, k, depth, g3);
      if Compile(declared, fin, k, depth, g3).Done? {
        var g4 := Compile(declared, fin, k, depth, g3).v.1;
        CompileTaken(declared, fin, k.(normal := k.breaking), depth, g4);
        if Compile(declared, fin, k.(normal := k.breaking), depth, g4).Done? {
          var g5 := Compile(declared, fin, k.(normal := k.breaking), depth, g4).v.1;
          CompileTaken(declared, fin, k.(normal := k.continuing), depth, g5);
          if Compile(declared, fin, k.(normal := k.continuing), depth, g5).Done? {
            CompileTaken(declared, fin, k.(normal := k.returning), depth,
                Compile(declared, fin, k.(normal := k.continuing), depth, g5).v.1);
          }
        }
      }
    }
  }

  lemma {:induction false} UnwindTaken(declared: set<string>, fin: Stmt, k: Conts, depth: nat, g: Graph)
    requires g.counter <= MAX_NODES && depth <= MAX_DEPTH
    ensures Taken(CompileUnwind(declared, fin, k, depth, g), Supported(fin), 2 + Cost(fin), Levels(fin), depth, g)
    decreases Size(fin), 3
  {
    hide Compile, Cost, Levels, Supported, Put;
    var (saved, g0) := Fresh(g);
    var first := Seq2(SetField(Exception, ReadLocal(saved)), Goto(k.exceptional));
    PutTaken(g0, first, k.exceptional);
    if Put(g0, first, k.exceptional).Done? {
      var (restore, g1) := Put(g0, first, k.exceptional).v;
      CompileTaken(declared, fin, k.(normal := restore), depth, g1);
      if Compile(declared, fin, k.(normal := restore), depth, g1).Done? {
        var (unwind, g2) := Compile(declared, fin, k.(normal := restore), depth, g1).v;
        PutTaken(g2, Seq2(SetLocal(saved, Field(Exception)), Goto(unwind)), k.exceptional);
      }
    }
  }

  /** A body is accepted exactly when its statements are supported, its nodes are at most 4096
  and its levels at most 128; its graph then has exactly its cost of nodes. */
  lemma AcceptedExactly(declared: set<string>, body: Stmt)
    ensures CompileBody(declared, body).Done? <==>
            Supported(body) && Cost(body) <= 4096 && Levels(body) <= 128
    ensures CompileBody(declared, body).Done? ==> CompileBody(declared, body).v.1.counter == Cost(body)
  {
    hide Compile, Cost, Levels, Supported;
    CompileTaken(declared, body, TOP, 0, StartGraph(declared));
  }
}
