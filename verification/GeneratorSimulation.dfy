/** The compiled graph simulates the structured semantics: a forward simulation that
counts dispatch steps, so that a body that runs forever keeps its graph running too. */
module GeneratorSimulation {
  import opened Core
  import opened GeneratorSource
  import opened FrameCompiler
  import opened GeneratorMachine
  import opened GeneratorGraph
  import opened GeneratorSteps

  /** The machine made `n` steps and landed, or is still running after `fuel` steps. */
  ghost predicate Followed(host: Host, declared: set<string>, nodes: map<int, Stmt>, k: Conts, fuel: nat, lo: nat,
                           hi: nat,
                           c: Cfg, end: (Ctl, Src), n: nat) {
    var c' := Steps(host, nodes, n, c);
    if end.0 == OutOfFuel then c'.mode == Running && fuel <= n
    else Landed(declared, k, end.0, end.1, c') && (c'.mode == Running ==> TempsKept(c.frame.temps, c'.frame.temps, lo, hi))
  }

  // ----- composing runs -----

  lemma TempsCompose(a: map<nat, Val>, b: map<nat, Val>, c: map<nat, Val>, lo: nat, hi: nat, lo1: nat, hi1: nat)
    requires lo <= lo1 && hi1 <= hi
    requires TempsKept(a, b, lo, hi) && TempsKept(b, c, lo1, hi1)
    ensures TempsKept(a, c, lo, hi)
  {
  }

  lemma TempsSame(a: map<nat, Val>, lo: nat, hi: nat)
    ensures TempsKept(a, a, lo, hi)
  {
  }

  /** `n1` steps and then a followed run make a followed run. */
  lemma After(host: Host, declared: set<string>, nodes: map<int, Stmt>, k: Conts, fuel: nat, fuel1: nat,
              lo: nat, hi: nat, lo1: nat, hi1: nat, c: Cfg, n1: nat, end: (Ctl, Src), n2: nat)
    requires TempsKept(c.frame.temps, Steps(host, nodes, n1, c).frame.temps, lo, hi)
    requires lo <= lo1 && hi1 <= hi && fuel <= fuel1 + n1
    requires Followed(host, declared, nodes, k, fuel1, lo1, hi1, Steps(host, nodes, n1, c), end, n2)
    ensures Followed(host, declared, nodes, k, fuel, lo, hi, c, end, n1 + n2)
  {
    StepsAdd(host, nodes, n1, n2, c);
    var c1 := Steps(host, nodes, n1, c);
    var c2 := Steps(host, nodes, n2, c1);
    if c2.mode == Running && end.0 != OutOfFuel {
      TempsCompose(c.frame.temps, c1.frame.temps, c2.frame.temps, lo, hi, lo1, hi1);
    }
  }

  /** A followed run that left in a way the language allows. */
  lemma Arrived(host: Host, declared: set<string>, nodes: map<int, Stmt>, k: Conts, fuel: nat, lo: nat, hi: nat,
                c: Cfg, end: (Ctl, Src), n: nat)
    requires Followed(host, declared, nodes, k, fuel, lo, hi, c, end, n) && LanguageExit(end.0)
    ensures var c' := Steps(host, nodes, n, c);
            && Landed(declared, k, end.0, end.1, c') && InStepAt(declared, end.1, c', Target(k, end.0))
            && (end.0.Raised? ==> c'.frame.exn == Some(Str(end.0.exn)))
            && TempsKept(c.frame.temps, c'.frame.temps, lo, hi)
  {
  }

  /** The same run, seen from continuations that agree on where it went. */
  lemma Redirected(host: Host, declared: set<string>, nodes: map<int, Stmt>, k: Conts, k1: Conts, fuel: nat, fuel1: nat,
                   lo: nat, hi: nat, lo1: nat, hi1: nat, c: Cfg, end: (Ctl, Src), n: nat)
    requires Followed(host, declared, nodes, k1, fuel1, lo1, hi1, c, end, n)
    requires LanguageExit(end.0) ==> Target(k1, end.0) == Target(k, end.0)
    requires lo <= lo1 && hi1 <= hi && fuel <= fuel1
    ensures Followed(host, declared, nodes, k, fuel, lo, hi, c, end, n)
  {
    var c' := Steps(host, nodes, n, c);
    if c'.mode == Running && end.0 != OutOfFuel {
      TempsSame(c.frame.temps, lo, hi);
      TempsCompose(c.frame.temps, c.frame.temps, c'.frame.temps, lo, hi, lo1, hi1);
    }
  }

  /** Leaving a loop from its body: a break becomes a normal exit. */
  lemma LeftLoop(host: Host, declared: set<string>, nodes: map<int, Stmt>, k: Conts, head: int, fuel: nat,
                 lo: nat, hi: nat, c: Cfg, end: (Ctl, Src), n: nat)
    requires Followed(host, declared, nodes, LoopConts(k, head), fuel, lo, hi, c, end, n)
    requires end.0 != Normal && end.0 != Continued
    ensures Followed(host, declared, nodes, k, fuel, lo, hi, c, (if end.0 == Broke then Normal else end.0, end.1), n)
  {
  }

  lemma Started(host: Host, declared: set<string>, nodes: map<int, Stmt>, k: Conts, lo: nat, hi: nat, c: Cfg, st: Src,
                pc: int)
    requires InStepAt(declared, st, c, pc)
    ensures Followed(host, declared, nodes, k, 0, lo, hi, c, (OutOfFuel, st), 0)
  {
  }

  /** A run of one step that lands. */
  lemma LandedInOne(host: Host, declared: set<string>, nodes: map<int, Stmt>, k: Conts, fuel: nat, lo: nat, hi: nat,
                    c: Cfg, end: (Ctl, Src))
    requires end.0 != OutOfFuel
    requires var c' := Step(host, nodes, c); Landed(declared, k, end.0, end.1, c') && c'.frame.temps == c.frame.temps
    ensures Followed(host, declared, nodes, k, fuel, lo, hi, c, end, 1)
  {
    OneStep(host, nodes, c);
  }

  /** How a test that gave no truth value ends the statement it belongs to. */
  lemma TestFailed(host: Host, declared: set<string>, nodes: map<int, Stmt>, k: Conts, fuel: nat, lo: nat, hi: nat,
                   test: Reply, st: Src, c: Cfg)
    requires !test.Ok?
    requires var c' := Step(host, nodes, c);
             && c'.frame.temps == c.frame.temps
             && (test.Raise? ==> InStepAt(declared, st, c', k.exceptional) && c'.frame.exn == Some(Str(test.exn)))
             && (test.Stuck? ==> c'.mode == Ended(Halted(test.tag)) && c'.outs == st.outs && c'.tr == st.tr && c'.inputs == st.inputs)
    ensures Followed(host, declared, nodes, k, fuel, lo, hi, c, (Abort(test), st), 1)
  {
    OneStep(host, nodes, c);
  }

  // ----- the simulation -----

  lemma {:induction false} Simulate(host: Host, declared: set<string>, nodes: map<int, Stmt>, fuel: nat, s: Stmt,
      k: Conts, depth: nat, g: Graph, st: Src, c: Cfg) returns (n: nat)
    requires Clean(declared, s) && Bounded(g)
    requires Compile(declared, s, k, depth, g).Done?
    requires var (pc, g') := Compile(declared, s, k, depth, g).v;
             Loaded(nodes, g, g') && InStepAt(declared, st, c, pc)
    ensures Followed(host, declared, nodes, k, fuel, g.next, Compile(declared, s, k, depth, g).v.1.next, c,
                     Exec(host, declared, fuel, s, st), n)
    decreases fuel, Size(s), 3
  {
    CompileIsNode(declared, s, k, depth, g);
    hide *;
    n := SimulateNode(host, declared, nodes, fuel, s, k, depth + 1, g, st, c);
  }

  lemma CompileIsNode(declared: set<string>, s: Stmt, k: Conts, depth: nat, g: Graph)
    requires Compile(declared, s, k, depth, g).Done?
    ensures Compile(declared, s, k, depth, g) == CompileNode(declared, s, k, depth + 1, g)
  {
    hide CompileNode;
  }

  lemma {:induction false} SimulateNode(host: Host, declared: set<string>, nodes: map<int, Stmt>, fuel: nat, s: Stmt,
      k: Conts, depth: nat, g: Graph, st: Src, c: Cfg) returns (n: nat)
    requires Clean(declared, s) && Bounded(g)
    requires CompileNode(declared, s, k, depth, g).Done?
    requires var (pc, g') := CompileNode(declared, s, k, depth, g).v;
             Loaded(nodes, g, g') && InStepAt(declared, st, c, pc)
    ensures Followed(host, declared, nodes, k, fuel, g.next, CompileNode(declared, s, k, depth, g).v.1.next, c,
                     Exec(host, declared, fuel, s, st), n)
    decreases fuel, Size(s), 2
  {
    hide *;
    if s.Seq? {
      n := SimulateSeq(host, declared, nodes, fuel, s, k, depth, g, st, c);
    } else if s.Ifte? {
      n := SimulateIf(host, declared, nodes, fuel, s, k, depth, g, st, c);
    } else if s.Loop? {
      n := SimulateLoop(host, declared, nodes, fuel, s, k, depth, g, st, c);
    } else if s.TryCatch? {
      n := SimulateCatch(host, declared, nodes, fuel, s, k, depth, g, st, c);
    } else if s.TryFinally? {
      n := SimulateFinally(host, declared, nodes, fuel, s, k, depth, g, st, c);
    } else if s.ForIn? {
      n := SimulateFor(host, declared, nodes, fuel, s, k, depth, g, st, c);
    } else if s.Yield? {
      n := SimulateYield(host, declared, nodes, fuel, s, k, depth, g, st, c);
    } else if s.Ret? {
      n := SimulateReturn(host, declared, nodes, fuel, s, k, depth, g, st, c);
    } else if s.Skip? || s.Brk? || s.Cont? {
      n := SimulateJump(host, declared, nodes, fuel, s, k, depth, g, st, c);
    } else {
      n := SimulateSimple(host, declared, nodes, fuel, s, k, depth, g, st, c);
    }
  }

  lemma {:induction false} SimulateJump(host: Host, declared: set<string>, nodes: map<int, Stmt>, fuel: nat, s: Stmt,
      k: Conts, depth: nat, g: Graph, st: Src, c: Cfg) returns (n: nat)
    requires (s.Skip? || s.Brk? || s.Cont?) && Clean(declared, s) && Bounded(g)
    requires CompileNode(declared, s, k, depth, g).Done?
    requires var (pc, g') := CompileNode(declared, s, k, depth, g).v;
             Loaded(nodes, g, g') && InStepAt(declared, st, c, pc)
    ensures Followed(host, declared, nodes, k, fuel, g.next, CompileNode(declared, s, k, depth, g).v.1.next, c,
                     Exec(host, declared, fuel, s, st), n)
    decreases fuel, Size(s), 1
  {
    n := 0;
    TempsSame(c.frame.temps, g.next, g.next);
  }

  lemma {:induction false} SimulateReturn(host: Host, declared: set<string>, nodes: map<int, Stmt>, fuel: nat, s: Stmt,
      k: Conts, depth: nat, g: Graph, st: Src, c: Cfg) returns (n: nat)
    requires s.Ret? && Clean(declared, s) && Bounded(g)
    requires CompileNode(declared, s, k, depth, g).Done?
    requires var (pc, g') := CompileNode(declared, s, k, depth, g).v;
             Loaded(nodes, g, g') && InStepAt(declared, st, c, pc)
    ensures Followed(host, declared, nodes, k, fuel, g.next, CompileNode(declared, s, k, depth, g).v.1.next, c,
                     Exec(host, declared, fuel, s, st), n)
    decreases fuel, Size(s), 1
  {
    hide Run, Step, Eval, EvalTest, Rewrite, Followed, Landed;
    PutExtends(g, Seq2(SetField(Return, Rewrite(declared, s.r)), Goto(k.returning)), k.exceptional);
    ReturnLands(host, declared, nodes, fuel, s.r, k, c.frame.pc.i, st, c);
    n := 1;
    LandedInOne(host, declared, nodes, k, fuel, g.next, g.next, c, Exec(host, declared, fuel, s, st));
  }

  lemma {:induction false} SimulateSimple(host: Host, declared: set<string>, nodes: map<int, Stmt>, fuel: nat, s: Stmt,
      k: Conts, depth: nat, g: Graph, st: Src, c: Cfg) returns (n: nat)
    requires !s.Seq? && !s.Ifte? && !s.Loop? && !s.TryCatch? && !s.TryFinally? && !s.ForIn?
             && !s.Yield? && !s.Ret? && !s.Skip? && !s.Brk? && !s.Cont? && Clean(declared, s) && Bounded(g)
    requires CompileNode(declared, s, k, depth, g).Done?
    requires var (pc, g') := CompileNode(declared, s, k, depth, g).v;
             Loaded(nodes, g, g') && InStepAt(declared, st, c, pc)
    ensures Followed(host, declared, nodes, k, fuel, g.next, CompileNode(declared, s, k, depth, g).v.1.next, c,
                     Exec(host, declared, fuel, s, st), n)
    decreases fuel, Size(s), 1
  {
    hide Run, Step, Eval, EvalTest, Rewrite, Simple, Followed, Landed, Exec;
    PutExtends(g, Seq2(Simple(declared, s), Goto(k.normal)), k.exceptional);
    SimpleLands(host, declared, nodes, fuel, s, k, c.frame.pc.i, st, c);
    n := 1;
    LandedInOne(host, declared, nodes, k, fuel, g.next, g.next, c, Exec(host, declared, fuel, s, st));
  }

  lemma {:induction false} SimulateYield(host: Host, declared: set<string>, nodes: map<int, Stmt>, fuel: nat, s: Stmt,
      k: Conts, depth: nat, g: Graph, st: Src, c: Cfg) returns (n: nat)
    requires s.Yield? && Clean(declared, s) && Bounded(g)
    requires CompileNode(declared, s, k, depth, g).Done?
    requires var (pc, g') := CompileNode(declared, s, k, depth, g).v;
             Loaded(nodes, g, g') && InStepAt(declared, st, c, pc)
    ensures Followed(host, declared, nodes, k, fuel, g.next, CompileNode(declared, s, k, depth, g).v.1.next, c,
                     Exec(host, declared, fuel, s, st), n)
    decreases fuel, Size(s), 1
  {
    var resume, pc, g' := YieldParts(declared, s.target, s.r, k, depth, g);
    assert CleanExpr(declared, s.r) && (s.target.Some? ==> s.target.value in declared);
    hide Run, Step, Steps, Eval, Rewrite, Landed, InStepAt, InStep, CompileNode, EvalSrc, CleanExpr, Loaded, Suspend;
    n := YieldLands(host, declared, nodes, s.target, s.r, k, resume, pc, st, c);
    TempsSame(c.frame.temps, g.next, g'.next);
  }

  lemma {:induction false} SimulateSeq(host: Host, declared: set<string>, nodes: map<int, Stmt>, fuel: nat, s: Stmt,
      k: Conts, depth: nat, g: Graph, st: Src, c: Cfg) returns (n: nat)
    requires s.Seq? && Clean(declared, s) && Bounded(g)
    requires CompileNode(declared, s, k, depth, g).Done?
    requires var (pc, g') := CompileNode(declared, s, k, depth, g).v;
             Loaded(nodes, g, g') && InStepAt(declared, st, c, pc)
    ensures Followed(host, declared, nodes, k, fuel, g.next, CompileNode(declared, s, k, depth, g).v.1.next, c,
                     Exec(host, declared, fuel, s, st), n)
    decreases fuel, Size(s), 1
  {
    CleanFlatten(declared, s);
    FlattenKeepsMeaning(host, declared, fuel, s, st);
    SeqIsAll(declared, s, k, depth, g);
    assert SizeAll(Flatten(s)) < Size(s);
    hide *;
    n := SimulateAll(host, declared, nodes, fuel, Flatten(s), k, depth, g, st, c);
  }

  lemma SeqIsAll(declared: set<string>, s: Stmt, k: Conts, depth: nat, g: Graph)
    requires s.Seq?
    ensures CompileNode(declared, s, k, depth, g) == CompileAll(declared, Flatten(s), k, depth, g)
  {
    hide CompileAll, Flatten;
  }

  /** The compilation and the execution of a nonempty sequence, one statement apart. */
  lemma AllParts(host: Host, declared: set<string>, fuel: nat, items: seq<Stmt>, k: Conts, depth: nat, g: Graph,
                 st: Src)
      returns (next: int, g1: Graph, pc: int, g2: Graph)
    requires items != [] && Bounded(g) && CompileAll(declared, items, k, depth, g).Done?
    ensures CompileAll(declared, items, k, depth, g) == Done((pc, g2))
    ensures CompileAll(declared, items[1..], k, depth, g) == Done((next, g1))
    ensures Compile(declared, items[0], k.(normal := next), depth, g1) == Done((pc, g2))
    ensures Bounded(g1) && g.next <= g1.next <= g2.next
    ensures forall nodes | Loaded(nodes, g, g2) :: Loaded(nodes, g, g1) && Loaded(nodes, g1, g2)
    ensures SizeAll(items[1..]) < SizeAll(items) && Size(items[0]) <= SizeAll(items)
    ensures var (ctl, st1) := Exec(host, declared, fuel, items[0], st);
            ExecAll(host, declared, fuel, items, st) ==
            if ctl == Normal then ExecAll(host, declared, fuel, items[1..], st1) else (ctl, st1)
  {
    hide Exec, Compile;
    SizePositive(items[0]);
    AllExtends(declared, items[1..], k, depth, g);
    var r := CompileAll(declared, items[1..], k, depth, g).v;
    next, g1 := r.0, r.1;
    CompileExtends(declared, items[0], k.(normal := next), depth, g1);
    var q := Compile(declared, items[0], k.(normal := next), depth, g1).v;
    pc, g2 := q.0, q.1;
  }

  lemma {:induction false} SimulateAll(host: Host, declared: set<string>, nodes: map<int, Stmt>, fuel: nat,
                                       items: seq<Stmt>,
      k: Conts, depth: nat, g: Graph, st: Src, c: Cfg) returns (n: nat)
    requires (forall i | 0 <= i < |items| :: Clean(declared, items[i])) && Bounded(g)
    requires CompileAll(declared, items, k, depth, g).Done?
    requires var (pc, g') := CompileAll(declared, items, k, depth, g).v;
             Loaded(nodes, g, g') && InStepAt(declared, st, c, pc)
    ensures Followed(host, declared, nodes, k, fuel, g.next, CompileAll(declared, items, k, depth, g).v.1.next, c,
                     ExecAll(host, declared, fuel, items, st), n)
    decreases fuel, SizeAll(items), 4
  {
    if items == [] {
      n := 0;
      TempsSame(c.frame.temps, g.next, g.next);
    } else {
      var next, g1, pc, g2 := AllParts(host, declared, fuel, items, k, depth, g, st);
      var k1 := k.(normal := next);
      var end := Exec(host, declared, fuel, items[0], st);
      hide Run, Step, Steps, Eval, EvalTest, EvalAll, Truth, Rewrite, Landed, InStepAt, InStep, Followed, TempsKept,
           Compile, CompileNode, CompileAll, CompileCleanups, Exec, ExecFor, ExecAll, Clean, CleanExpr, EvalSrc,
           SourceCtx, Loaded, Extends, Bounded;
      n := Simulate(host, declared, nodes, fuel, items[0], k1, depth, g1, st, c);
      if end.0 == Normal {
        Arrived(host, declared, nodes, k1, fuel, g1.next, g2.next, c, end, n);
        var c1 := Steps(host, nodes, n, c);
        TempsSame(c.frame.temps, g.next, g2.next);
        TempsCompose(c.frame.temps, c.frame.temps, c1.frame.temps, g.next, g2.next, g1.next, g2.next);
        var m := SimulateAll(host, declared, nodes, fuel, items[1..], k, depth, g, end.1, c1);
        After(host, declared, nodes, k, fuel, fuel, g.next, g2.next, g.next, g1.next, c, n,
              ExecAll(host, declared, fuel, items[1..], end.1), m);
        n := n + m;
      } else {
        Redirected(host, declared, nodes, k, k1, fuel, fuel, g.next, g2.next, g1.next, g2.next, c, end, n);
      }
    }
  }

  // ----- branches -----

  lemma IfParts(declared: set<string>, s: Stmt, k: Conts, depth: nat, g: Graph)
      returns (yes: int, g1: Graph, no: int, g2: Graph, pc: int, g3: Graph)
    requires s.Ifte? && Bounded(g) && CompileNode(declared, s, k, depth, g).Done?
    ensures CompileNode(declared, s, k, depth, g) == Done((pc, g3))
    ensures Compile(declared, s.t, k, depth, g) == Done((yes, g1))
    ensures Compile(declared, s.e, k, depth, g1) == Done((no, g2))
    ensures Bounded(g1) && g.next <= g1.next <= g2.next == g3.next
    ensures forall nodes | Loaded(nodes, g, g3) ::
              && Loaded(nodes, g, g1) && Loaded(nodes, g1, g2)
              && pc in nodes && nodes[pc] == Node(Branch(Rewrite(declared, s.c), yes, no), k.exceptional)
  {
    hide Compile, Rewrite;
    CompileExtends(declared, s.t, k, depth, g);
    var r := Compile(declared, s.t, k, depth, g).v;
    yes, g1 := r.0, r.1;
    CompileExtends(declared, s.e, k, depth, g1);
    var q := Compile(declared, s.e, k, depth, g1).v;
    no, g2 := q.0, q.1;
    PutExtends(g2, Branch(Rewrite(declared, s.c), yes, no), k.exceptional);
    var p := Put(g2, Branch(Rewrite(declared, s.c), yes, no), k.exceptional).v;
    pc, g3 := p.0, p.1;
  }

  lemma IfExec(host: Host, declared: set<string>, fuel: nat, s: Stmt, st: Src)
    requires s.Ifte? && Clean(declared, s)
    ensures Clean(declared, s.t) && Clean(declared, s.e) && CleanExpr(declared, s.c) && Size(s.t) < Size(s)
            && Size(s.e) < Size(s)
    ensures var (test, tr1) := EvalTest(host, SourceCtx(declared, st), s.c, st.tr);
            var st1 := st.(tr := tr1);
            Exec(host, declared, fuel, s, st) ==
            (if !test.Ok? then (Abort(test), st1)
             else if PlainTruth(test.v) then Exec(host, declared, fuel, s.t, st1)
             else Exec(host, declared, fuel, s.e, st1))
  {
    hide EvalTest, SourceCtx, PlainTruth, CleanExpr;
  }

  lemma {:induction false} SimulateIf(host: Host, declared: set<string>, nodes: map<int, Stmt>, fuel: nat, s: Stmt,
      k: Conts, depth: nat, g: Graph, st: Src, c: Cfg) returns (n: nat)
    requires s.Ifte? && Clean(declared, s) && Bounded(g)
    requires CompileNode(declared, s, k, depth, g).Done?
    requires var (pc, g') := CompileNode(declared, s, k, depth, g).v;
             Loaded(nodes, g, g') && InStepAt(declared, st, c, pc)
    ensures Followed(host, declared, nodes, k, fuel, g.next, CompileNode(declared, s, k, depth, g).v.1.next, c,
                     Exec(host, declared, fuel, s, st), n)
    decreases fuel, Size(s), 1
  {
    hide Run, Step, Steps, Eval, EvalTest, EvalAll, Truth, Rewrite, Landed, InStepAt, InStep, Followed, TempsKept,
         Compile, CompileNode, CompileAll, CompileCleanups, Exec, ExecFor, ExecAll, Clean, CleanExpr, EvalSrc,
         SourceCtx, Loaded, Extends, Bounded;
    var yes, g1, no, g2, pc, g3 := IfParts(declared, s, k, depth, g);
    IfExec(host, declared, fuel, s, st);
    var (test, tr1) := EvalTest(host, SourceCtx(declared, st), s.c, st.tr);
    var st1 := st.(tr := tr1);
    BranchLands(host, declared, nodes, s.c, yes, no, k.exceptional, pc, st, c);
    var c1 := Step(host, nodes, c);
    if !test.Ok? {
      TestFailed(host, declared, nodes, k, fuel, g.next, g3.next, test, st1, c);
      n := 1;
    } else {
      OneStep(host, nodes, c);
      TempsSame(c.frame.temps, g.next, g3.next);
      var m;
      if PlainTruth(test.v) {
        m := Simulate(host, declared, nodes, fuel, s.t, k, depth, g, st1, c1);
        After(host, declared, nodes, k, fuel, fuel, g.next, g3.next, g.next, g1.next, c, 1,
              Exec(host, declared, fuel, s.t, st1), m);
      } else {
        m := Simulate(host, declared, nodes, fuel, s.e, k, depth, g1, st1, c1);
        After(host, declared, nodes, k, fuel, fuel, g.next, g3.next, g1.next, g2.next, c, 1,
              Exec(host, declared, fuel, s.e, st1), m);
      }
      n := 1 + m;
    }
  }

  // ----- while loops -----

  lemma LoopParts(declared: set<string>, s: Stmt, k: Conts, depth: nat, g: Graph)
      returns (head: int, g1: Graph, entry: int, g2: Graph, g3: Graph)
    requires s.Loop? && Bounded(g) && CompileNode(declared, s, k, depth, g).Done?
    ensures CompileNode(declared, s, k, depth, g) == Done((head, g3))
    ensures Compile(declared, s.body, LoopConts(k, head), depth, g1) == Done((entry, g2))
    ensures Bounded(g1) && g.next == g1.next <= g2.next == g3.next
    ensures forall nodes | Loaded(nodes, g, g3) ::
              && Loaded(nodes, g1, g2)
              && head in nodes && nodes[head] == Node(Branch(Rewrite(declared, s.c), entry, k.normal), k.exceptional)
  {
    hide Rewrite, Compile;
    var r := Reserve(g).v;
    head, g1 := r.0, r.1;
    CompileExtends(declared, s.body, LoopConts(k, head), depth, g1);
    var b := Compile(declared, s.body, LoopConts(k, head), depth, g1).v;
    entry, g2 := b.0, b.1;
    HeadExtends(g, g1, g2, Branch(Rewrite(declared, s.c), entry, k.normal), k.exceptional);
    g3 := Fill(g2, Branch(Rewrite(declared, s.c), entry, k.normal), k.exceptional, head);
  }

  lemma LoopContsLead(k: Conts, head: int)
    ensures Target(LoopConts(k, head), Normal) == head == Target(LoopConts(k, head), Continued)
  {
  }

  lemma LoopClean(declared: set<string>, s: Stmt)
    requires (s.Loop? || s.ForIn?) && Clean(declared, s)
    ensures Clean(declared, s.body) && Size(s.body) < Size(s)
    ensures s.Loop? ==> CleanExpr(declared, s.c)
    ensures s.ForIn? ==> CleanExpr(declared, s.r) && s.x in declared
  {
    hide CleanExpr;
  }

  lemma LoopExec(host: Host, declared: set<string>, fuel: nat, s: Stmt, st: Src)
    requires s.Loop?
    ensures fuel == 0 ==> Exec(host, declared, fuel, s, st) == (OutOfFuel, st)
    ensures fuel > 0 ==>
            var (test, tr1) := EvalTest(host, SourceCtx(declared, st), s.c, st.tr);
            var st1 := st.(tr := tr1);
            var (ctl, st2) := Exec(host, declared, fuel - 1, s.body, st1);
            Exec(host, declared, fuel, s, st) ==
            (if !test.Ok? then (Abort(test), st1)
             else if !PlainTruth(test.v) then (Normal, st1)
             else if ctl == Normal || ctl == Continued then Exec(host, declared, fuel - 1, s, st2)
             else (if ctl == Broke then Normal else ctl, st2))
  {
    hide EvalTest, SourceCtx, PlainTruth;
  }

  lemma {:induction false} SimulateLoop(host: Host, declared: set<string>, nodes: map<int, Stmt>, fuel: nat, s: Stmt,
      k: Conts, depth: nat, g: Graph, st: Src, c: Cfg) returns (n: nat)
    requires s.Loop? && Clean(declared, s) && Bounded(g)
    requires CompileNode(declared, s, k, depth, g).Done?
    requires var (pc, g') := CompileNode(declared, s, k, depth, g).v;
             Loaded(nodes, g, g') && InStepAt(declared, st, c, pc)
    ensures Followed(host, declared, nodes, k, fuel, g.next, CompileNode(declared, s, k, depth, g).v.1.next, c,
                     Exec(host, declared, fuel, s, st), n)
    decreases fuel, Size(s), 1
  {
    hide Run, Step, Steps, Eval, EvalTest, EvalAll, Truth, Rewrite, Landed, InStepAt, InStep, Followed, TempsKept,
         Compile, CompileNode, CompileAll, CompileCleanups, Exec, ExecFor, ExecAll, Clean, CleanExpr, EvalSrc,
         SourceCtx, Loaded, Extends, Bounded, LoopConts;
    var head, g1, entry, g2, g3 := LoopParts(declared, s, k, depth, g);
    var k1 := LoopConts(k, head);
    LoopClean(declared, s);
    LoopContsLead(k, head);
    LoopExec(host, declared, fuel, s, st);
    if fuel == 0 {
      n := 0;
      Started(host, declared, nodes, k, g.next, g3.next, c, st, head);
    } else {
      var (test, tr1) := EvalTest(host, SourceCtx(declared, st), s.c, st.tr);
      var st1 := st.(tr := tr1);
      BranchLands(host, declared, nodes, s.c, entry, k.normal, k.exceptional, head, st, c);
      var c1 := Step(host, nodes, c);
      TempsSame(c.frame.temps, g.next, g3.next);
      OneStep(host, nodes, c);
      if !test.Ok? {
        TestFailed(host, declared, nodes, k, fuel, g.next, g3.next, test, st1, c);
        n := 1;
      } else if !PlainTruth(test.v) {
        LandedNormal(declared, k, st1, c1);
        LandedInOne(host, declared, nodes, k, fuel, g.next, g3.next, c, (Normal, st1));
        n := 1;
      } else {
        var m := Simulate(host, declared, nodes, fuel - 1, s.body, k1, depth, g1, st1, c1);
        var end := Exec(host, declared, fuel - 1, s.body, st1);
        After(host, declared, nodes, k1, fuel, fuel - 1, g.next, g3.next, g1.next, g2.next, c, 1, end, m);
        n := 1 + m;
        if end.0 == Normal || end.0 == Continued {
          Arrived(host, declared, nodes, k1, fuel, g.next, g3.next, c, end, n);
          var c2 := Steps(host, nodes, n, c);
          var r := SimulateLoop(host, declared, nodes, fuel - 1, s, k, depth, g, end.1, c2);
          After(host, declared, nodes, k, fuel, fuel - 1, g.next, g3.next, g.next, g3.next, c, n,
                Exec(host, declared, fuel - 1, s, end.1), r);
          n := n + r;
        } else {
          LeftLoop(host, declared, nodes, k, head, fuel, g.next, g3.next, c, end, n);
        }
      }
    }
  }

  lemma LandedNormal(declared: set<string>, k: Conts, st: Src, c: Cfg)
    requires InStepAt(declared, st, c, k.normal)
    ensures Landed(declared, k, Normal, st, c)
  {
  }

  // ----- try/except -----

  lemma CatchParts(declared: set<string>, s: Stmt, k: Conts, depth: nat, g: Graph)
      returns (entry: int, g1: Graph, bind: int, g2: Graph, pc: int, g3: Graph)
    requires s.TryCatch? && Bounded(g) && CompileNode(declared, s, k, depth, g).Done?
    ensures CompileNode(declared, s, k, depth, g) == Done((pc, g3))
    ensures Compile(declared, s.handler, k, depth, g) == Done((entry, g1))
    ensures Compile(declared, s.body, k.(exceptional := bind), depth, g2) == Done((pc, g3))
    ensures Bounded(g2) && g.next <= g1.next == g2.next <= g3.next
    ensures forall nodes | Loaded(nodes, g, g3) ::
              && Loaded(nodes, g, g1) && Loaded(nodes, g2, g3)
              && bind in nodes && nodes[bind] ==
                 Node(Seq2(SetLocal(Source(s.x), Field(Exception)), Goto(entry)), k.exceptional)
  {
    hide Compile;
    CompileExtends(declared, s.handler, k, depth, g);
    var r := Compile(declared, s.handler, k, depth, g).v;
    entry, g1 := r.0, r.1;
    var body := Seq2(SetLocal(Source(s.x), Field(Exception)), Goto(entry));
    PutExtends(g1, body, k.exceptional);
    var q := Put(g1, body, k.exceptional).v;
    bind, g2 := q.0, q.1;
    CompileExtends(declared, s.body, k.(exceptional := bind), depth, g2);
    var p := Compile(declared, s.body, k.(exceptional := bind), depth, g2).v;
    pc, g3 := p.0, p.1;
  }

  lemma CatchExec(host: Host, declared: set<string>, fuel: nat, s: Stmt, st: Src)
    requires s.TryCatch? && Clean(declared, s)
    ensures Clean(declared, s.body) && Clean(declared, s.handler) && s.x in declared
    ensures Size(s.body) < Size(s) && Size(s.handler) < Size(s)
    ensures var (ctl, st1) := Exec(host, declared, fuel, s.body, st);
            Exec(host, declared, fuel, s, st) ==
            if ctl.Raised? then Exec(host, declared, fuel, s.handler, st1.(vars := st1.vars[s.x := Str(ctl.exn)])) else (ctl, st1)
  {
  }

  lemma {:induction false} SimulateCatch(host: Host, declared: set<string>, nodes: map<int, Stmt>, fuel: nat, s: Stmt,
      k: Conts, depth: nat, g: Graph, st: Src, c: Cfg) returns (n: nat)
    requires s.TryCatch? && Clean(declared, s) && Bounded(g)
    requires CompileNode(declared, s, k, depth, g).Done?
    requires var (pc, g') := CompileNode(declared, s, k, depth, g).v;
             Loaded(nodes, g, g') && InStepAt(declared, st, c, pc)
    ensures Followed(host, declared, nodes, k, fuel, g.next, CompileNode(declared, s, k, depth, g).v.1.next, c,
                     Exec(host, declared, fuel, s, st), n)
    decreases fuel, Size(s), 1
  {
    hide Run, Step, Steps, Eval, EvalTest, EvalAll, Truth, Rewrite, Landed, InStepAt, InStep, Followed, TempsKept,
         Compile, CompileNode, CompileAll, CompileCleanups, Exec, ExecFor, ExecAll, Clean, CleanExpr, EvalSrc,
         SourceCtx, Loaded, Extends, Bounded;
    var entry, g1, bind, g2, pc, g3 := CatchParts(declared, s, k, depth, g);
    var k1 := k.(exceptional := bind);
    CatchExec(host, declared, fuel, s, st);
    var end := Exec(host, declared, fuel, s.body, st);
    n := Simulate(host, declared, nodes, fuel, s.body, k1, depth, g2, st, c);
    Redirected(host, declared, nodes, k1, k1, fuel, fuel, g.next, g3.next, g2.next, g3.next, c, end, n);
    if end.0.Raised? {
      Arrived(host, declared, nodes, k1, fuel, g.next, g3.next, c, end, n);
      var st2 := end.1.(vars := end.1.vars[s.x := Str(end.0.exn)]);
      var c1 := Steps(host, nodes, n, c);
      BindCaughtLands(host, declared, nodes, s.x, entry, k.exceptional, bind, end.1, c1);
      StepsAdd(host, nodes, n, 1, c);
      OneStep(host, nodes, c1);
      var c2 := Step(host, nodes, c1);
      var m := Simulate(host, declared, nodes, fuel, s.handler, k, depth, g, st2, c2);
      After(host, declared, nodes, k, fuel, fuel, g.next, g3.next, g.next, g1.next, c, n + 1,
            Exec(host, declared, fuel, s.handler, st2), m);
      n := n + 1 + m;
    } else {
      Redirected(host, declared, nodes, k, k1, fuel, fuel, g.next, g3.next, g.next, g3.next, c, end, n);
    }
  }

  // ----- try/finally -----

  /** What a finally block makes of the way its body was left. */
  function AfterFinally(host: Host, declared: set<string>, fuel: nat, fin: Stmt, ctl: Ctl, st: Src): (Ctl, Src) {
    var (ctl2, st2) := Exec(host, declared, fuel, fin, st);
    (if ctl2 == Normal then ctl else ctl2, st2)
  }

  lemma FinallyParts(declared: set<string>, s: Stmt, k: Conts, depth: nat, g: Graph)
      returns (inner: Conts, g1: Graph, pc: int, g2: Graph)
    requires s.TryFinally? && Bounded(g) && CompileNode(declared, s, k, depth, g).Done?
    ensures CompileNode(declared, s, k, depth, g) == Done((pc, g2))
    ensures CompileCleanups(declared, s.fin, k, depth, g) == Done((inner, g1))
    ensures Compile(declared, s.body, inner, depth, g1) == Done((pc, g2))
    ensures Bounded(g1) && g.next <= g1.next <= g2.next
    ensures forall nodes | Loaded(nodes, g, g2) :: Loaded(nodes, g, g1) && Loaded(nodes, g1, g2)
  {
    hide Compile, CompileCleanups;
    CleanupsExtend(declared, s.fin, k, depth, g);
    var r := CompileCleanups(declared, s.fin, k, depth, g).v;
    inner, g1 := r.0, r.1;
    CompileExtends(declared, s.body, inner, depth, g1);
    var p := Compile(declared, s.body, inner, depth, g1).v;
    pc, g2 := p.0, p.1;
  }

  lemma FinallyExec(host: Host, declared: set<string>, fuel: nat, s: Stmt, st: Src)
    requires s.TryFinally? && Clean(declared, s)
    ensures Clean(declared, s.body) && Clean(declared, s.fin) && Size(s.body) < Size(s) && Size(s.fin) < Size(s)
    ensures var (ctl, st1) := Exec(host, declared, fuel, s.body, st);
            Exec(host, declared, fuel, s, st) ==
            if LanguageExit(ctl) then AfterFinally(host, declared, fuel, s.fin, ctl, st1) else (ctl, st1)
  {
  }

  lemma {:induction false} SimulateFinally(host: Host, declared: set<string>, nodes: map<int, Stmt>, fuel: nat, s: Stmt,
      k: Conts, depth: nat, g: Graph, st: Src, c: Cfg) returns (n: nat)
    requires s.TryFinally? && Clean(declared, s) && Bounded(g)
    requires CompileNode(declared, s, k, depth, g).Done?
    requires var (pc, g') := CompileNode(declared, s, k, depth, g).v;
             Loaded(nodes, g, g') && InStepAt(declared, st, c, pc)
    ensures Followed(host, declared, nodes, k, fuel, g.next, CompileNode(declared, s, k, depth, g).v.1.next, c,
                     Exec(host, declared, fuel, s, st), n)
    decreases fuel, Size(s), 1
  {
    hide Run, Step, Steps, Eval, EvalTest, EvalAll, Truth, Rewrite, Landed, InStepAt, InStep, Followed, TempsKept,
         Compile, CompileNode, CompileAll, CompileCleanups, Exec, ExecFor, ExecAll, Clean, CleanExpr, EvalSrc,
         SourceCtx, Loaded, Extends, Bounded, AfterFinally;
    var inner, g1, pc, g2 := FinallyParts(declared, s, k, depth, g);
    FinallyExec(host, declared, fuel, s, st);
    var body := Exec(host, declared, fuel, s.body, st);
    var end := AfterFinally(host, declared, fuel, s.fin, body.0, body.1);
    n := Simulate(host, declared, nodes, fuel, s.body, inner, depth, g1, st, c);
    Redirected(host, declared, nodes, inner, inner, fuel, fuel, g.next, g2.next, g1.next, g2.next, c, body, n);
    if LanguageExit(body.0) {
      Arrived(host, declared, nodes, inner, fuel, g.next, g2.next, c, body, n);
      var c1 := Steps(host, nodes, n, c);
      var m;
      if body.0.Raised? {
        m := SimulateUnwind(host, declared, nodes, fuel, s.fin, k, depth, g, body.0, body.1, c1);
      } else {
        m := SimulateCleanup(host, declared, nodes, fuel, s.fin, k, depth, g, body.0, body.1, c1);
      }
      After(host, declared, nodes, k, fuel, fuel, g.next, g2.next, g.next, g1.next, c, n, end, m);
      n := n + m;
    } else {
      Redirected(host, declared, nodes, k, inner, fuel, fuel, g.next, g2.next, g.next, g2.next, c, body, n);
    }
  }

  /** The pieces extend one another in order. */
  lemma PiecesExtend(declared: set<string>, fin: Stmt, k: Conts, depth: nat, g: Graph, p: Pieces)
    requires Bounded(g) && CleanupCode(declared, fin, k, depth, g, p)
    ensures Bounded(p.g1) && Bounded(p.g2) && Bounded(p.g3) && Bounded(p.g4) && Bounded(p.g5) && Bounded(p.g6)
            && Bounded(p.g7)
    ensures Extends(g, p.g1) && Extends(p.g1, p.g2) && Extends(p.g2, p.g3) && Extends(p.g3, p.g4)
            && Extends(p.g4, p.g5) && Extends(p.g5, p.g6) && Extends(p.g6, p.g7)
    ensures p.g1.next == g.next + 1 && p.g1.counter == p.restore == g.counter + 1
            && p.g3.counter == p.save == p.g2.counter + 1
    ensures p.restore in p.g1.nodes
            && p.g1.nodes[p.restore] == Node(Seq2(SetField(Exception, ReadLocal(Temp(g.next))), Goto(k.exceptional)), k.exceptional)
    ensures p.save in p.g3.nodes
            && p.g3.nodes[p.save] == Node(Seq2(SetLocal(Temp(g.next), Field(Exception)), Goto(p.unwind)), k.exceptional)
  {
    hide Compile;
    var saved, g0 := Temp(g.next), g.(next := g.next + 1);
    PutExtends(g0, Seq2(SetField(Exception, ReadLocal(saved)), Goto(k.exceptional)), k.exceptional);
    CompileExtends(declared, fin, k.(normal := p.restore), depth, p.g1);
    PutExtends(p.g2, Seq2(SetLocal(saved, Field(Exception)), Goto(p.unwind)), k.exceptional);
    CompileExtends(declared, fin, k.(normal := k.normal), depth, p.g3);
    CompileExtends(declared, fin, k.(normal := k.breaking), depth, p.g4);
    CompileExtends(declared, fin, k.(normal := k.continuing), depth, p.g5);
    CompileExtends(declared, fin, k.(normal := k.returning), depth, p.g6);
  }

  /** Every piece extends the start and is extended by the end. */
  lemma PiecesNest(g: Graph, p: Pieces)
    requires Extends(g, p.g1) && Extends(p.g1, p.g2) && Extends(p.g2, p.g3) && Extends(p.g3, p.g4)
             && Extends(p.g4, p.g5) && Extends(p.g5, p.g6) && Extends(p.g6, p.g7)
    ensures Extends(g, p.g2) && Extends(g, p.g3) && Extends(g, p.g4) && Extends(g, p.g5) && Extends(g, p.g6)
    ensures Extends(p.g1, p.g7) && Extends(p.g2, p.g7) && Extends(p.g3, p.g7) && Extends(p.g4, p.g7)
            && Extends(p.g5, p.g7)
    ensures Extends(p.g7, p.g7)
  {
    assert Extends(p.g7, p.g7);
    hide Extends;
    ExtendsTransitive(g, p.g1, p.g2);
    ExtendsTransitive(g, p.g2, p.g3);
    ExtendsTransitive(g, p.g3, p.g4);
    ExtendsTransitive(g, p.g4, p.g5);
    ExtendsTransitive(g, p.g5, p.g6);
    ExtendsTransitive(p.g5, p.g6, p.g7);
    ExtendsTransitive(p.g4, p.g5, p.g7);
    ExtendsTransitive(p.g3, p.g4, p.g7);
    ExtendsTransitive(p.g2, p.g3, p.g7);
    ExtendsTransitive(p.g1, p.g2, p.g7);
  }

  lemma LoadedPart(nodes: map<int, Stmt>, g: Graph, a: Graph, b: Graph, g': Graph)
    requires Loaded(nodes, g, g') && Extends(g, a) && Extends(a, b) && Extends(b, g')
    ensures Loaded(nodes, a, b)
  {
  }

  /** Which copy of the finally block a way of leaving runs. */
  lemma CleanupParts(declared: set<string>, fin: Stmt, k: Conts, depth: nat, g: Graph, ctl: Ctl)
      returns (a: Graph, b: Graph, inner: Conts, g': Graph)
    requires LanguageExit(ctl) && !ctl.Raised? && Bounded(g) && CompileCleanups(declared, fin, k, depth, g).Done?
    ensures CompileCleanups(declared, fin, k, depth, g) == Done((inner, g'))
    ensures Compile(declared, fin, k.(normal := Target(k, ctl)), depth, a) == Done((Target(inner, ctl), b))
    ensures Bounded(a) && g.next <= a.next <= b.next <= g'.next
    ensures forall nodes | Loaded(nodes, g, g') :: Loaded(nodes, a, b)
  {
    hide Compile, CompileCleanups, Bounded, Put;
    var p := CleanupPieces(declared, fin, k, depth, g);
    PiecesExtend(declared, fin, k, depth, g, p);
    PiecesNest(g, p);
    inner, g' := Conts(p.normal, p.breaking, p.continuing, p.returning, p.save), p.g7;
    a, b := p.g3, p.g4;
    if ctl.Broke? {
      a, b := p.g4, p.g5;
    } else if ctl.Continued? {
      a, b := p.g5, p.g6;
    } else if ctl.Returned? {
      a, b := p.g6, p.g7;
    }
    NextsGrow(g, a, b, g');
    hide Extends;
    forall nodes | Loaded(nodes, g, g')
      ensures Loaded(nodes, a, b)
    {
      LoadedPart(nodes, g, a, b, g');
    }
  }

  lemma NextsGrow(g: Graph, a: Graph, b: Graph, g': Graph)
    requires Extends(g, a) && Extends(a, b) && Extends(b, g')
    ensures g.next <= a.next <= b.next <= g'.next && g.counter <= a.counter <= b.counter <= g'.counter
  {
  }

  /** Falling through, breaking, continuing and returning each have their own copy. */
  lemma {:induction false} SimulateCleanup(host: Host, declared: set<string>, nodes: map<int, Stmt>, fuel: nat,
                                           fin: Stmt,
      k: Conts, depth: nat, g: Graph, ctl: Ctl, st: Src, c: Cfg) returns (n: nat)
    requires LanguageExit(ctl) && !ctl.Raised? && Clean(declared, fin) && Bounded(g)
    requires CompileCleanups(declared, fin, k, depth, g).Done?
    requires var (inner, g') := CompileCleanups(declared, fin, k, depth, g).v;
             Loaded(nodes, g, g') && Landed(declared, inner, ctl, st, c)
    ensures Followed(host, declared, nodes, k, fuel, g.next, CompileCleanups(declared, fin, k, depth, g).v.1.next, c,
                     AfterFinally(host, declared, fuel, fin, ctl, st), n)
    decreases fuel, Size(fin), 4
  {
    hide Run, Step, Steps, Eval, EvalTest, EvalAll, Truth, Rewrite, InStep, InStepAt, TempsKept, Followed, Landed,
         Compile, CompileNode, CompileAll, CompileCleanups, Exec, ExecFor, ExecAll, Clean, CleanExpr, EvalSrc,
         SourceCtx, Loaded, Extends, Bounded;
    var a, b, inner, g' := CleanupParts(declared, fin, k, depth, g, ctl);
    var k1 := k.(normal := Target(k, ctl));
    var end := Exec(host, declared, fuel, fin, st);
    LandedAt(declared, inner, ctl, st, c);
    n := Simulate(host, declared, nodes, fuel, fin, k1, depth, a, st, c);
    if end.0 == Normal {
      Resumed(host, declared, nodes, k, k1, fuel, a.next, b.next, c, end.1, ctl, n);
      Redirected(host, declared, nodes, k, k, fuel, fuel, g.next, g'.next, a.next, b.next, c, (ctl, end.1), n);
    } else {
      Redirected(host, declared, nodes, k, k1, fuel, fuel, g.next, g'.next, a.next, b.next, c, end, n);
    }
  }

  /** After its finally block, control goes where it was going. */
  lemma Resumed(host: Host, declared: set<string>, nodes: map<int, Stmt>, k: Conts, k1: Conts, fuel: nat, lo: nat,
                hi: nat,
                c: Cfg, st: Src, ctl: Ctl, n: nat)
    requires LanguageExit(ctl) && !ctl.Raised? && k1 == k.(normal := Target(k, ctl))
    requires Followed(host, declared, nodes, k1, fuel, lo, hi, c, (Normal, st), n)
    ensures Followed(host, declared, nodes, k, fuel, lo, hi, c, (ctl, st), n)
  {
  }

  /** The code of the exceptional copy. */
  lemma UnwindParts(declared: set<string>, fin: Stmt, k: Conts, depth: nat, g: Graph)
      returns (restore: int, g1: Graph, unwind: int, g2: Graph, save: int, g': Graph)
    requires Bounded(g) && CompileCleanups(declared, fin, k, depth, g).Done?
    ensures Bounded(g1) && g1.next == g.next + 1 <= g2.next <= g'.next
    ensures var k1 := k.(normal := restore); Compile(declared, fin, k1, depth, g1) == Done((unwind, g2))
    ensures var r := CompileCleanups(declared, fin, k, depth, g).v; r.1 == g' && r.0.exceptional == save
    ensures forall nodes | Loaded(nodes, g, g') ::
              && Loaded(nodes, g1, g2)
              && restore in nodes && save in nodes
              && nodes[restore] == Node(Seq2(SetField(Exception, ReadLocal(Temp(g.next))), Goto(k.exceptional)), k.exceptional)
              && nodes[save] == Node(Seq2(SetLocal(Temp(g.next), Field(Exception)), Goto(unwind)), k.exceptional)
  {
    hide Compile, CompileCleanups, Bounded, Put;
    var p := CleanupPieces(declared, fin, k, depth, g);
    PiecesExtend(declared, fin, k, depth, g, p);
    PiecesNest(g, p);
    restore, g1, unwind, g2, save, g' := p.restore, p.g1, p.unwind, p.g2, p.save, p.g7;
    NextsGrow(g, g1, g2, g');
    assert g'.nodes[restore] == p.g1.nodes[restore];
    assert g'.nodes[save] == p.g3.nodes[save];
    NextsGrow(g, p.g2, p.g3, g');
    hide Extends;
    forall nodes | Loaded(nodes, g, g')
      ensures Loaded(nodes, g1, g2)
    {
      LoadedPart(nodes, g, g1, g2, g');
    }
  }

  /** The exceptional copy: save the pending exception, clean up, restore it. */
  lemma {:induction false} SimulateUnwind(host: Host, declared: set<string>, nodes: map<int, Stmt>, fuel: nat,
                                          fin: Stmt,
      k: Conts, depth: nat, g: Graph, ctl: Ctl, st: Src, c: Cfg) returns (n: nat)
    requires LanguageExit(ctl) && ctl.Raised? && Clean(declared, fin) && Bounded(g)
    requires CompileCleanups(declared, fin, k, depth, g).Done?
    requires var (inner, g') := CompileCleanups(declared, fin, k, depth, g).v;
             Loaded(nodes, g, g') && Landed(declared, inner, ctl, st, c)
    ensures Followed(host, declared, nodes, k, fuel, g.next, CompileCleanups(declared, fin, k, depth, g).v.1.next, c,
                     AfterFinally(host, declared, fuel, fin, ctl, st), n)
    decreases fuel, Size(fin), 4
  {
    hide Run, Step, Steps, Eval, EvalTest, EvalAll, Truth, Rewrite, InStep, InStepAt, TempsKept, Followed, Landed,
         Compile, CompileNode, CompileAll, CompileCleanups, Exec, ExecFor, ExecAll, Clean, CleanExpr, EvalSrc,
         SourceCtx, Loaded, Extends, Bounded;
    var restore, g1, unwind, g2, save, g' := UnwindParts(declared, fin, k, depth, g);
    var k1 := k.(normal := restore);
    var end := Exec(host, declared, fuel, fin, st);
    LandedAt(declared, CompileCleanups(declared, fin, k, depth, g).v.0, ctl, st, c);
    SaveLands(host, declared, nodes, g.next, unwind, k.exceptional, save, st, c);
    OneStep(host, nodes, c);
    var c1 := Step(host, nodes, c);
    TempsSaved(c.frame.temps, g.next, Str(ctl.exn), g'.next);
    var m := Simulate(host, declared, nodes, fuel, fin, k1, depth, g1, st, c1);
    n := 1 + m;
    if end.0 == Normal {
      Arrived(host, declared, nodes, k1, fuel, g1.next, g2.next, c1, end, m);
      var c2 := Steps(host, nodes, m, c1);
      TempSurvives(c1.frame.temps, c2.frame.temps, g.next, g1.next, g2.next);
      RestoreLands(host, declared, nodes, g.next, k.exceptional, k.exceptional, restore, end.1, c2);
      var c3 := Step(host, nodes, c2);
      LandedRaised(declared, k, ctl, end.1, c3);
      LandedInOne(host, declared, nodes, k, fuel, g1.next, g2.next, c2, (ctl, end.1));
      After(host, declared, nodes, k, fuel, fuel, g1.next, g2.next, g1.next, g2.next, c1, m, (ctl, end.1), 1);
      After(host, declared, nodes, k, fuel, fuel, g.next, g'.next, g1.next, g2.next, c, 1, (ctl, end.1), m + 1);
      n := 1 + (m + 1);
    } else {
      After(host, declared, nodes, k1, fuel, fuel, g.next, g'.next, g1.next, g2.next, c, 1, end, m);
      Redirected(host, declared, nodes, k, k1, fuel, fuel, g.next, g'.next, g.next, g'.next, c, end, n);
    }
  }

  lemma TempsSaved(temps: map<nat, Val>, n: nat, v: Val, hi: nat)
    requires n < hi
    ensures TempsKept(temps, temps[n := v], n, hi)
  {
  }

  lemma TempSurvives(before: map<nat, Val>, after: map<nat, Val>, n: nat, lo: nat, hi: nat)
    requires TempsKept(before, after, lo, hi) && n < lo && n in before
    ensures n in after && after[n] == before[n]
  {
  }

  lemma LandedAt(declared: set<string>, k: Conts, ctl: Ctl, st: Src, c: Cfg)
    requires LanguageExit(ctl) && Landed(declared, k, ctl, st, c)
    ensures InStepAt(declared, st, c, Target(k, ctl)) && (ctl.Raised? ==> c.frame.exn == Some(Str(ctl.exn)))
  {
  }

  lemma LandedRaised(declared: set<string>, k: Conts, ctl: Ctl, st: Src, c: Cfg)
    requires ctl.Raised? && InStepAt(declared, st, c, k.exceptional) && c.frame.exn == Some(Str(ctl.exn))
    ensures Landed(declared, k, ctl, st, c)
  {
  }

  // ----- for loops -----

  /** The code of a for loop. */
  lemma ForParts(declared: set<string>, s: Stmt, k: Conts, depth: nat, g: Graph)
      returns (head: int, g1: Graph, entry: int, g2: Graph, exhausted: int, init: int, g': Graph)
    requires s.ForIn? && Bounded(g) && CompileNode(declared, s, k, depth, g).Done?
    ensures CompileNode(declared, s, k, depth, g) == Done((init, g'))
    ensures Bounded(g1) && g1.next == g.next + 1 <= g2.next == g'.next
    ensures var k1 := LoopConts(k, head);
            Compile(declared, s.body, k1, depth, g1) == Done((entry, g2))
    ensures forall nodes | Loaded(nodes, g, g') ::
              && Loaded(nodes, g1, g2)
              && ForCode(declared, nodes, s, k, g.next, head, entry, exhausted)
              && init in nodes
              && nodes[init] == Node(Seq2(SetLocal(Temp(g.next), IteratorOf(declared, s)), Goto(head)), k.exceptional)
  {
    hide Rewrite, Compile, CompileNode, Put, Bounded, IteratorOf, Node;
    var p := ForPieces(declared, s, k, depth, g);
    ForBounded(g, p.head, p.g1);
    CompileExtends(declared, s.body, LoopConts(k, p.head), depth, p.g1);
    var test := Branch(Equal(Field(Exception), Lit(Str("StopIteration"))), k.normal, k.exceptional);
    PutExtends(p.g2, test, k.exceptional);
    ExtendsTransitive(p.g1, p.g2, p.g3);
    var next := Seq2(SetLocal(Source(s.x), Call("<python-next>", [ReadLocal(Temp(g.next))])), Goto(p.entry));
    HeadExtends(g, p.g1, p.g3, next, p.exhausted);
    var g4 := Fill(p.g3, next, p.exhausted, p.head);
    PutExtends(g4, Seq2(SetLocal(Temp(g.next), IteratorOf(declared, s)), Goto(p.head)), k.exceptional);
    head, g1, entry, g2, exhausted, init, g' := p.head, p.g1, p.entry, p.g2, p.exhausted, p.init, p.g5;
    ForNodes(declared, s, k, g, p, g4);
  }

  /** What the finished code of a for loop holds where. */
  lemma ForNodes(declared: set<string>, s: Stmt, k: Conts, g: Graph, p: ForGraphs, g4: Graph)
    requires s.ForIn?
    requires p.head == p.g1.counter == g.counter + 1 && p.exhausted == p.g3.counter == p.g2.counter + 1
             && p.init == p.g5.counter == p.g3.counter + 1
    requires Extends(p.g1, p.g2) && Extends(p.g2, p.g3)
    requires g4.nodes == p.g3.nodes[p.head := Node(Seq2(SetLocal(Source(s.x), Call("<python-next>", [ReadLocal(Temp(g.next))])), Goto(p.entry)), p.exhausted)]
    requires Extends(g4, p.g5) && g4.counter == p.g3.counter && p.init in p.g5.nodes
             && p.g5.nodes[p.init] == Node(Seq2(SetLocal(Temp(g.next), IteratorOf(declared, s)), Goto(p.head)), k.exceptional)
    requires p.exhausted in p.g3.nodes
             && p.g3.nodes[p.exhausted] == Node(Branch(Equal(Field(Exception), Lit(Str("StopIteration"))), k.normal, k.exceptional), k.exceptional)
    ensures forall nodes | Loaded(nodes, g, p.g5) ::
              && Loaded(nodes, p.g1, p.g2)
              && ForCode(declared, nodes, s, k, g.next, p.head, p.entry, p.exhausted)
              && p.init in nodes
              && nodes[p.init] == Node(Seq2(SetLocal(Temp(g.next), IteratorOf(declared, s)), Goto(p.head)), k.exceptional)
  {
    hide Node, Seq2, Branch, Goto, IteratorOf;
    assert p.g1.counter <= p.g2.counter;
    assert p.g5.nodes[p.head] == g4.nodes[p.head];
    assert p.g5.nodes[p.exhausted] == g4.nodes[p.exhausted];
    forall i | p.g1.counter < i <= p.g2.counter
      ensures i in p.g5.nodes && i in p.g2.nodes && p.g5.nodes[i] == p.g2.nodes[i]
    {
      assert p.g3.nodes[i] == p.g2.nodes[i];
      assert g4.nodes[i] == p.g3.nodes[i];
    }
  }

  lemma ForBounded(g: Graph, head: int, g1: Graph)
    requires Bounded(g) && Reserve(g.(next := g.next + 1)) == Done((head, g1))
    ensures Bounded(g1) && head == g1.counter == g.counter + 1 && g1.counter <= MAX_NODES && g1.next == g.next + 1
            && g1 == g.(counter := g.counter + 1, next := g1.next)
  {
  }

  ghost predicate ForCode(declared: set<string>, nodes: map<int, Stmt>, s: Stmt, k: Conts, it: nat, head: int,
                          entry: int, exhausted: int)
    requires s.ForIn?
  {
    && head in nodes && exhausted in nodes
    && nodes[head] == Node(Seq2(SetLocal(Source(s.x), Call("<python-next>", [ReadLocal(Temp(it))])), Goto(entry)), exhausted)
    && nodes[exhausted] == Node(Branch(Equal(Field(Exception), Lit(Str("StopIteration"))), k.normal, k.exceptional), k.exceptional)
  }

  /** Evaluating a call of a machinery function on one operand. */
  lemma CallOne(host: Host, ctx: Ctx, f: string, e: Expr, tr: Trace)
    requires f !in ctx.vars && f !in ctx.declared
    ensures Eval(host, ctx, Call(f, [e]), tr) ==
            var (r, tr1) := Eval(host, ctx, e, tr);
            if r.Ok? then Ask(host, CallNamed(f, [r.v]), tr1) else (r, tr1)
  {
    var (r, tr1) := Eval(host, ctx, e, tr);
    assert [e][1..] == [];
    assert EvalAll(host, ctx, [], tr1) == (All([]), tr1);
    if r.Ok? {
      assert [r.v] + [] == [r.v];
    }
  }

  lemma InitLands(host: Host, declared: set<string>, nodes: map<int, Stmt>, s: Stmt, it: nat, head: int,
                  exceptional: int, pc: int, st: Src, c: Cfg)
    requires s.ForIn? && CleanExpr(declared, s.r) && InStepAt(declared, st, c, pc)
    requires pc in nodes && nodes[pc] ==
             Node(Seq2(SetLocal(Temp(it), IteratorOf(declared, s)), Goto(head)), exceptional)
    ensures var (r, st1) := MakeIterator(host, declared, s, st);
            var c' := Step(host, nodes, c);
            match r
            case Ok(v) => InStepAt(declared, st1, c', head) && c'.frame.temps == c.frame.temps[it := v]
            case Raise(exn) => InStepAt(declared, st1, c', exceptional) && c'.frame.exn == Some(Str(exn))
              && c'.frame.temps == c.frame.temps
            case Stuck(l) => c'.mode == Ended(Halted(l)) && c'.outs == st1.outs && c'.tr == st1.tr && c'.inputs == st1.inputs && c'.frame.temps == c.frame.temps
  {
    hide Step, Rewrite, CleanExpr;
    var dst := Ctx(c.vars, {}, c.frame);
    RewriteKeepsMeaning(host, declared, s.r, SourceCtx(declared, st), dst, c.tr);
    CallOne(host, dst, "<python-iter>", Rewrite(declared, s.r), c.tr);
    InstructionStep(host, nodes, c, pc, SetLocal(Temp(it), IteratorOf(declared, s)), head, exceptional);
  }

  function MakeIterator(host: Host, declared: set<string>, s: Stmt, st: Src): (Reply, Src)
    requires s.ForIn?
  {
    var (r, st1) := EvalSrc(host, declared, s.r, st);
    if !r.Ok? || s.ready then (r, st1) else
    var (got, tr2) := Ask(host, CallNamed("<python-iter>", [r.v]), st1.tr);
    (got, st1.(tr := tr2))
  }

  lemma NextRuns(host: Host, x: string, it: nat, st: CoreSt)
    requires "<python-next>" !in st.vars && it in st.frame.temps
    ensures var (r, tr1) := Ask(host, CallNamed("<python-next>", [st.frame.temps[it]]), st.tr);
            Run(host, 0, SetLocal(Source(x), Call("<python-next>", [ReadLocal(Temp(it))])), st) ==
            if r.Ok? then (Normal, st.(tr := tr1, frame := st.frame.(locals := st.frame.locals[x := r.v])))
            else (Abort(r), st.(tr := tr1))
  {
    CallOne(host, Ctx(st.vars, {}, st.frame), "<python-next>", ReadLocal(Temp(it)), st.tr);
  }

  /** The head takes one step when there is an item, and the test after it one more when
  the iterator raised. */
  lemma AdvanceLands(host: Host, declared: set<string>, nodes: map<int, Stmt>, s: Stmt, k: Conts, it: nat, head: int,
                     entry: int, exhausted: int, st: Src, c: Cfg)
      returns (n: nat)
    requires s.ForIn? && s.x in declared && ForCode(declared, nodes, s, k, it, head, entry, exhausted)
    requires InStepAt(declared, st, c, head) && it in c.frame.temps
    ensures var (ctl, st1) := Advance(host, s.x, c.frame.temps[it], st);
            var c' := Steps(host, nodes, n, c);
            && n >= 1 && c'.frame.temps == c.frame.temps
            && Landed(declared, k.(normal := entry, breaking := k.normal), ctl, st1, c')
            && ctl != OutOfFuel && ctl != Core.Suspended
  {
    hide Run, Eval, Step, Branch, Rewrite;
    var first := SetLocal(Source(s.x), Call("<python-next>", [ReadLocal(Temp(it))]));
    NextRuns(host, s.x, it, St(c));
    InstructionStep(host, nodes, c, head, first, entry, exhausted);
    OneStep(host, nodes, c);
    n := 1;
    var c1 := Step(host, nodes, c);
    var (r, tr1) := Ask(host, CallNamed("<python-next>", [c.frame.temps[it]]), st.tr);
    if r.Raise? {
      ExhaustedLands(host, declared, nodes, r.exn, k, exhausted, st.(tr := tr1), c1);
      StepsAdd(host, nodes, 1, 1, c);
      OneStep(host, nodes, c1);
      n := 2;
    }
  }

  lemma ExhaustedLands(host: Host, declared: set<string>, nodes: map<int, Stmt>, exn: string, k: Conts, pc: int,
                       st: Src, c: Cfg)
    requires InStepAt(declared, st, c, pc) && c.frame.exn == Some(Str(exn))
    requires pc in nodes
    requires nodes[pc] == Node(Branch(Equal(Field(Exception), Lit(Str("StopIteration"))), k.normal, k.exceptional), k.exceptional)
    ensures var c' := Step(host, nodes, c);
            && c'.frame.temps == c.frame.temps && c'.frame.exn == c.frame.exn
            && InStepAt(declared, st, c', if exn == "StopIteration" then k.normal else k.exceptional)
  {
    var test := Equal(Field(Exception), Lit(Str("StopIteration")));
    var body := Branch(test, k.normal, k.exceptional);
    var ctx := Ctx(c.vars, {}, c.frame);
    assert Eval(host, ctx, Field(Exception), c.tr) == (Ok(Str(exn)), c.tr);
    assert Eval(host, ctx, test, c.tr) == (Ok(Bool(Str(exn) == Str("StopIteration"))), c.tr);
    BranchRuns(host, test, k.normal, k.exceptional, St(c));
    NodeNormal(host, nodes, c, pc, body, k.exceptional, Run(host, 0, body, St(c)).1);
  }

  /** `s` as what remains of it once its iterator is made. */
  lemma ForExec(host: Host, declared: set<string>, fuel: nat, s: Stmt, st: Src)
    requires s.ForIn?
    ensures var (r, st1) := MakeIterator(host, declared, s, st);
            Exec(host, declared, fuel, s, st) ==
            if r.Ok? then ExecFor(host, declared, fuel, s.x, r.v, s.body, st1) else (Abort(r), st1)
  {
    hide ExecFor, EvalSrc;
  }

  lemma {:induction false} SimulateFor(host: Host, declared: set<string>, nodes: map<int, Stmt>, fuel: nat, s: Stmt,
      k: Conts, depth: nat, g: Graph, st: Src, c: Cfg) returns (n: nat)
    requires s.ForIn? && Clean(declared, s) && Bounded(g)
    requires CompileNode(declared, s, k, depth, g).Done?
    requires var (pc, g') := CompileNode(declared, s, k, depth, g).v;
             Loaded(nodes, g, g') && InStepAt(declared, st, c, pc)
    ensures Followed(host, declared, nodes, k, fuel, g.next, CompileNode(declared, s, k, depth, g).v.1.next, c,
                     Exec(host, declared, fuel, s, st), n)
    decreases fuel, Size(s), 1
  {
    hide Run, Step, Steps, Eval, EvalTest, EvalAll, Truth, Rewrite, Landed, InStepAt, InStep, Followed, TempsKept,
         Compile, CompileNode, CompileAll, CompileCleanups, Exec, ExecFor, ExecAll, Clean, CleanExpr, EvalSrc,
         SourceCtx, Loaded, Extends, Bounded, MakeIterator, ForCode, IteratorOf;
    var head, g1, entry, g2, exhausted, init, g' := ForParts(declared, s, k, depth, g);
    ForExec(host, declared, fuel, s, st);
    LoopClean(declared, s);
    var (r, st1) := MakeIterator(host, declared, s, st);
    InitLands(host, declared, nodes, s, g.next, head, k.exceptional, init, st, c);
    n := 1;
    OneStep(host, nodes, c);
    var c1 := Step(host, nodes, c);
    if r.Ok? {
      TempsSaved(c.frame.temps, g.next, r.v, g'.next);
      var m := SimulateForLoop(host, declared, nodes, fuel, s, k, depth, g, head, entry, exhausted, g1, g2, r.v, st1,
          c1);
      After(host, declared, nodes, k, fuel, fuel, g.next, g'.next, g.next + 1, g2.next, c, 1,
            ExecFor(host, declared, fuel, s.x, r.v, s.body, st1), m);
      n := 1 + m;
    } else {
      TestFailed(host, declared, nodes, k, fuel, g.next, g'.next, r, st1, c);
    }
  }

  lemma ForLoopExec(host: Host, declared: set<string>, fuel: nat, x: string, it: Val, body: Stmt, st: Src)
    ensures fuel == 0 ==> ExecFor(host, declared, fuel, x, it, body, st) == (OutOfFuel, st)
    ensures fuel > 0 ==>
            var (ctl, st1) := Advance(host, x, it, st);
            var (ctl2, st2) := Exec(host, declared, fuel - 1, body, st1);
            ExecFor(host, declared, fuel, x, it, body, st) ==
            (if ctl != Normal then (if ctl == Broke then Normal else ctl, st1)
             else if ctl2 == Normal || ctl2 == Continued then ExecFor(host, declared, fuel - 1, x, it, body, st2)
             else (if ctl2 == Broke then Normal else ctl2, st2))
  {
    hide Exec, Advance;
  }

  lemma {:induction false} SimulateForLoop(host: Host, declared: set<string>, nodes: map<int, Stmt>, fuel: nat,
                                           s: Stmt, k: Conts, depth: nat, g: Graph,
      head: int, entry: int, exhausted: int, g1: Graph, g2: Graph, it: Val, st: Src, c: Cfg) returns (n: nat)
    requires s.ForIn? && Clean(declared, s)
    requires Bounded(g1) && g1.next == g.next + 1 <= g2.next
    requires Compile(declared, s.body, LoopConts(k, head), depth, g1) == Done((entry, g2))
    requires Loaded(nodes, g1, g2) && ForCode(declared, nodes, s, k, g.next, head, entry, exhausted)
    requires InStepAt(declared, st, c, head) && g.next in c.frame.temps && c.frame.temps[g.next] == it
    ensures Followed(host, declared, nodes, k, fuel, g.next + 1, g2.next, c, ExecFor(host, declared, fuel, s.x, it, s.body, st), n)
    decreases fuel, Size(s), 0
  {
    hide Run, Step, Steps, Eval, EvalTest, EvalAll, Truth, Rewrite, Landed, InStepAt, InStep, Followed, TempsKept,
         Compile, CompileNode, CompileAll, CompileCleanups, Exec, ExecFor, ExecAll, Clean, CleanExpr, EvalSrc,
         SourceCtx, Loaded, Extends, Bounded, Advance, ForCode, LoopConts;
    var k1 := LoopConts(k, head);
    var lo := g.next + 1;
    LoopClean(declared, s);
    LoopContsLead(k, head);
    ForLoopExec(host, declared, fuel, s.x, it, s.body, st);
    if fuel == 0 {
      n := 0;
      Started(host, declared, nodes, k, lo, g2.next, c, st, head);
    } else {
      var (ctl, st1) := Advance(host, s.x, it, st);
      n := AdvanceLands(host, declared, nodes, s, k, g.next, head, entry, exhausted, st, c);
      var c1 := Steps(host, nodes, n, c);
      TempsSame(c.frame.temps, lo, g2.next);
      AdvanceFollowed(host, declared, nodes, k, entry, fuel, lo, g2.next, c, (ctl, st1), n);
      if ctl == Normal {
        var m := Simulate(host, declared, nodes, fuel - 1, s.body, k1, depth, g1, st1, c1);
        var end := Exec(host, declared, fuel - 1, s.body, st1);
        After(host, declared, nodes, k1, fuel, fuel - 1, lo, g2.next, g1.next, g2.next, c, n, end, m);
        n := n + m;
        if end.0 == Normal || end.0 == Continued {
          Arrived(host, declared, nodes, k1, fuel, lo, g2.next, c, end, n);
          var c2 := Steps(host, nodes, n, c);
          TempSurvives(c.frame.temps, c2.frame.temps, g.next, lo, g2.next);
          var r := SimulateForLoop(host, declared, nodes, fuel - 1, s, k, depth, g, head, entry, exhausted, g1, g2,
              it, end.1, c2);
          After(host, declared, nodes, k, fuel, fuel - 1, lo, g2.next, lo, g2.next, c, n,
                ExecFor(host, declared, fuel - 1, s.x, it, s.body, end.1), r);
          n := n + r;
        } else {
          LeftLoop(host, declared, nodes, k, head, fuel, lo, g2.next, c, end, n);
        }
      }
    }
  }

  lemma AdvanceFollowed(host: Host, declared: set<string>, nodes: map<int, Stmt>, k: Conts, entry: int, fuel: nat,
                        lo: nat, hi: nat,
                        c: Cfg, end: (Ctl, Src), n: nat)
    requires var c' := Steps(host, nodes, n, c);
             && Landed(declared, k.(normal := entry, breaking := k.normal), end.0, end.1, c')
             && end.0 != OutOfFuel && c'.frame.temps == c.frame.temps
    ensures end.0 == Normal ==> InStepAt(declared, end.1, Steps(host, nodes, n, c), entry)
    ensures end.0 != Normal ==>
              Followed(host, declared, nodes, k, fuel, lo, hi, c, (if end.0 == Broke then Normal else end.0, end.1), n)
  {
  }
}
