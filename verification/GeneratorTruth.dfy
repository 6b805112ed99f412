/** Compiled generators after the pass over conditions: what is emitted in the end has the
sessions of the structured semantics with Python's jump rules for conditions. */
module GeneratorTruth {
  import opened Core
  import opened GeneratorSource
  import opened FrameCompiler
  import opened GeneratorMachine
  import opened GeneratorGraph
  import opened GeneratorProtocol
  import opened GeneratorSession
  import opened GeneratorCorrectness
  import TC = TruthConditions

  // ----- the structured semantics with jumps -----

  function ValueIn(host: Host, declared: set<string>, e: Expr, st: Src): (Reply, Src) {
    var (r, tr1) := TC.Value(host, SourceCtx(declared, st), e, st.tr);
    (r, st.(tr := tr1))
  }

  /** `Exec` with conditions that jump. */
  function ExecJumps(host: Host, declared: set<string>, fuel: nat, s: Stmt, st: Src): (Ctl, Src)
    decreases fuel, s, 0
  {
    match s
    case Seq(a, b) =>
      var (ctl, st1) := ExecJumps(host, declared, fuel, a, st);
      if ctl == Normal then ExecJumps(host, declared, fuel, b, st1) else (ctl, st1)
    case Ifte(c, t, e) =>
      var (test, tr1) := TC.Jump(host, SourceCtx(declared, st), c, st.tr);
      var st1 := st.(tr := tr1);
      if !test.Ok? then (Abort(test), st1)
      else if PlainTruth(test.v) then ExecJumps(host, declared, fuel, t, st1)
      else ExecJumps(host, declared, fuel, e, st1)
    case Loop(c, body) =>
      if fuel == 0 then (OutOfFuel, st) else
      var (test, tr1) := TC.Jump(host, SourceCtx(declared, st), c, st.tr);
      var st1 := st.(tr := tr1);
      if !test.Ok? then (Abort(test), st1)
      else if !PlainTruth(test.v) then (Normal, st1)
      else
        var (ctl, st2) := ExecJumps(host, declared, fuel - 1, body, st1);
        if ctl == Normal || ctl == Continued then ExecJumps(host, declared, fuel - 1, s, st2)
        else (if ctl == Broke then Normal else ctl, st2)
    case TryCatch(body, x, handler) =>
      var (ctl, st1) := ExecJumps(host, declared, fuel, body, st);
      if ctl.Raised? then ExecJumps(host, declared, fuel, handler, st1.(vars := st1.vars[x := Str(ctl.exn)]))
      else (ctl, st1)
    case TryFinally(body, fin) =>
      var (ctl, st1) := ExecJumps(host, declared, fuel, body, st);
      if !LanguageExit(ctl) then (ctl, st1) else
      var (ctl2, st2) := ExecJumps(host, declared, fuel, fin, st1);
      (if ctl2 == Normal then ctl else ctl2, st2)
    case ForIn(x, e, ready, body) =>
      var (r, st1) := ValueIn(host, declared, e, st);
      if !r.Ok? then (Abort(r), st1)
      else if ready then ExecForJumps(host, declared, fuel, x, r.v, body, st1)
      else
        var (got, tr2) := Ask(host, CallNamed("<python-iter>", [r.v]), st1.tr);
        var st2 := st1.(tr := tr2);
        if !got.Ok? then (Abort(got), st2) else ExecForJumps(host, declared, fuel, x, got.v, body, st2)
    case Ret(e) =>
      var (r, st1) := ValueIn(host, declared, e, st);
      if r.Ok? then (Returned(r.v), st1.(ret := r.v)) else (Abort(r), st1)
    case RaiseS(e) =>
      var (r, st1) := ValueIn(host, declared, e, st);
      if !r.Ok? then (Abort(r), st1) else
      var (ctl, tr2) := RaiseValue(host, r.v, st1.tr);
      (ctl, st1.(tr := tr2))
    case ExprS(e) =>
      var (r, st1) := ValueIn(host, declared, e, st);
      (if r.Ok? then Normal else Abort(r), st1)
    case Effect(op, args) =>
      var (r, st1) := ValueIn(host, declared, Op(op, args), st);
      (if r.Ok? then Normal else Abort(r), st1)
    case Assign(x, e) =>
      var (r, st1) := ValueIn(host, declared, e, st);
      if r.Ok? then (Normal, st1.(vars := st1.vars[x := r.v])) else (Abort(r), st1)
    case Yield(target, e) =>
      var (r, st1) := ValueIn(host, declared, e, st);
      if r.Ok? then Suspend(r.v, target, st1) else (Abort(r), st1)
    case _ => Exec(host, declared, 0, s, st)
  }

  function ExecForJumps(host: Host, declared: set<string>, fuel: nat, x: string, it: Val, body: Stmt, st: Src): (Ctl,
                        Src)
    decreases fuel, body, 1
  {
    if fuel == 0 then (OutOfFuel, st) else
    var (ctl, st1) := Advance(host, x, it, st);
    if ctl != Normal then (if ctl == Broke then Normal else ctl, st1) else
    var (ctl2, st2) := ExecJumps(host, declared, fuel - 1, body, st1);
    if ctl2 == Normal || ctl2 == Continued then ExecForJumps(host, declared, fuel - 1, x, it, body, st2)
    else (if ctl2 == Broke then Normal else ctl2, st2)
  }

  lemma ValueLowered(host: Host, declared: set<string>, e: Expr, st: Src)
    ensures EvalSrc(host, declared, TC.Lower(e), st) == ValueIn(host, declared, e, st)
  {
    TC.LowerKeepsValue(host, SourceCtx(declared, st), e, st.tr);
  }

  /** A lowered body, with conditions tested by their value, is the body with jumps. */
  lemma {:induction false} LoweredExec(host: Host, declared: set<string>, fuel: nat, s: Stmt, st: Src)
    ensures Exec(host, declared, fuel, TC.LowerStmt(s), st) == ExecJumps(host, declared, fuel, s, st)
    decreases fuel, s, 0
  {
    hide Eval, EvalTest, EvalSrc, ValueIn, Truth, PlainTruth, ExecFor, ExecForJumps, Suspend, RaiseValue;
    hide TC.Jump, TC.Value, TC.Predicate, TC.Lower, TC.LowerAll;
    match s
    case Seq(a, b) =>
      LoweredExec(host, declared, fuel, a, st);
      LoweredExec(host, declared, fuel, b, ExecJumps(host, declared, fuel, a, st).1);
    case Ifte(c, t, e) =>
      TC.PredicateJumps(host, SourceCtx(declared, st), c, st.tr);
      var st1 := st.(tr := TC.Jump(host, SourceCtx(declared, st), c, st.tr).1);
      LoweredExec(host, declared, fuel, t, st1);
      LoweredExec(host, declared, fuel, e, st1);
    case Loop(c, body) =>
      if fuel > 0 {
        TC.PredicateJumps(host, SourceCtx(declared, st), c, st.tr);
        var st1 := st.(tr := TC.Jump(host, SourceCtx(declared, st), c, st.tr).1);
        LoweredExec(host, declared, fuel - 1, body, st1);
        LoweredExec(host, declared, fuel - 1, s, ExecJumps(host, declared, fuel - 1, body, st1).1);
      }
    case TryCatch(body, x, handler) =>
      LoweredExec(host, declared, fuel, body, st);
      var (ctl, st1) := ExecJumps(host, declared, fuel, body, st);
      if ctl.Raised? {
        LoweredExec(host, declared, fuel, handler, st1.(vars := st1.vars[x := Str(ctl.exn)]));
      }
    case TryFinally(body, fin) =>
      LoweredExec(host, declared, fuel, body, st);
      LoweredExec(host, declared, fuel, fin, ExecJumps(host, declared, fuel, body, st).1);
    case ForIn(x, e, ready, body) =>
      ValueLowered(host, declared, e, st);
      var (r, st1) := ValueIn(host, declared, e, st);
      if r.Ok? {
        LoweredExecFor(host, declared, fuel, x, r.v, body, st1);
        var (got, tr2) := Ask(host, CallNamed("<python-iter>", [r.v]), st1.tr);
        if got.Ok? { LoweredExecFor(host, declared, fuel, x, got.v, body, st1.(tr := tr2)); }
      }
    case _ => LoweredLeaf(host, declared, fuel, s, st);
  }

  lemma LoweredLeaf(host: Host, declared: set<string>, fuel: nat, s: Stmt, st: Src)
    requires !s.Seq? && !s.Ifte? && !s.Loop? && !s.ForIn? && !s.TryCatch? && !s.TryFinally?
    ensures Exec(host, declared, fuel, TC.LowerStmt(s), st) == ExecJumps(host, declared, fuel, s, st)
  {
    hide Eval, EvalTest, EvalSrc, ValueIn, Truth, Suspend, RaiseValue;
    hide TC.Jump, TC.Value, TC.Predicate, TC.Lower, TC.LowerAll;
    match s
    case Ret(e) => ValueLowered(host, declared, e, st);
    case RaiseS(e) => ValueLowered(host, declared, e, st);
    case ExprS(e) => ValueLowered(host, declared, e, st);
    case Assign(x, e) => ValueLowered(host, declared, e, st);
    case Yield(target, e) => ValueLowered(host, declared, e, st);
    case Effect(op, args) =>
      ValueLowered(host, declared, Op(op, args), st);
      TC.LowerOp(op, args);
    case _ =>
  }

  lemma {:induction false} LoweredExecFor(host: Host, declared: set<string>, fuel: nat, x: string, it: Val,
                                          body: Stmt, st: Src)
    ensures ExecFor(host, declared, fuel, x, it, TC.LowerStmt(body), st) ==
            ExecForJumps(host, declared, fuel, x, it, body, st)
    decreases fuel, body, 1
  {
    hide Exec, ExecJumps, TC.LowerStmt;
    if fuel > 0 {
      var st1 := Advance(host, x, it, st).1;
      LoweredExec(host, declared, fuel - 1, body, st1);
      LoweredExecFor(host, declared, fuel - 1, x, it, body, ExecJumps(host, declared, fuel - 1, body, st1).1);
    }
  }

  // ----- compiling and lowering commute -----

  /** Reads of locals are rewritten before or after lowering. */
  lemma {:induction false} RewriteLowers(declared: set<string>, e: Expr)
    ensures Rewrite(declared, TC.Lower(e)) == TC.Lower(Rewrite(declared, e))
    ensures Rewrite(declared, TC.Predicate(e)) == TC.Predicate(Rewrite(declared, e))
    decreases e, 1
  {
    hide TC.Force, TC.LowerAll;
    RewriteLits(declared);
    match e
    case And(a, b) =>
      RewriteLowers(declared, a);
      RewriteLowers(declared, b);
      RewriteForces(declared, TC.Predicate(b));
    case Or(a, b) =>
      RewriteLowers(declared, a);
      RewriteLowers(declared, b);
      RewriteForces(declared, TC.Predicate(b));
    case Not(a) => RewriteLowers(declared, a);
    case Cond(c, t, f) =>
      RewriteLowers(declared, c);
      RewriteLowers(declared, t);
      RewriteLowers(declared, f);
      RewriteForces(declared, TC.Predicate(t));
      RewriteForces(declared, TC.Predicate(f));
    case _ => RewriteLowersOther(declared, e);
  }

  lemma {:induction false} RewriteLowersOther(declared: set<string>, e: Expr)
    requires !e.And? && !e.Or? && !e.Not? && !e.Cond?
    ensures Rewrite(declared, TC.Lower(e)) == TC.Lower(Rewrite(declared, e))
    ensures Rewrite(declared, TC.Predicate(e)) == TC.Predicate(Rewrite(declared, e))
    decreases e, 0
  {
    match e
    case Op(op, args) => RewriteLowersAll(declared, args);
    case CallV(f, args) =>
      RewriteLowers(declared, f);
      RewriteLowersAll(declared, args);
    case Call(f, args) => RewriteLowersAll(declared, args);
    case ResumeSelf(a) => RewriteLowers(declared, a);
    case _ =>
  }

  lemma {:induction false} RewriteLowersAll(declared: set<string>, es: seq<Expr>)
    ensures forall i | 0 <= i < |es| :: Rewrite(declared, TC.Lower(es[i])) == TC.Lower(Rewrite(declared, es[i]))
    decreases es, 0
  {
    forall i | 0 <= i < |es| ensures Rewrite(declared, TC.Lower(es[i])) == TC.Lower(Rewrite(declared, es[i])) {
      RewriteLowers(declared, es[i]);
    }
  }

  lemma RewriteForces(declared: set<string>, e: Expr)
    ensures Rewrite(declared, TC.Force(e)) == TC.Force(Rewrite(declared, e))
  {}

  lemma RewriteLits(declared: set<string>)
    ensures Rewrite(declared, TC.YES) == TC.YES && Rewrite(declared, TC.NO) == TC.NO
  {}

  function LowerNodes(nodes: map<int, Stmt>): map<int, Stmt> {
    map i | i in nodes :: TC.LowerStmt(nodes[i])
  }

  function Lowered(g: Graph): Graph {
    g.(nodes := LowerNodes(g.nodes))
  }

  function LoweredResult<T>(r: Result<(T, Graph)>): Result<(T, Graph)> {
    if r.Done? then Done((r.v.0, Lowered(r.v.1))) else r
  }

  function LowerItems(items: seq<Stmt>): seq<Stmt> {
    seq(|items|, i requires 0 <= i < |items| => TC.LowerStmt(items[i]))
  }

  lemma {:induction false} SizeLowers(s: Stmt)
    ensures Size(TC.LowerStmt(s)) == Size(s)
  {
    match s
    case Seq(a, b) => SizeLowers(a); SizeLowers(b);
    case Ifte(_, t, e) => SizeLowers(t); SizeLowers(e);
    case Loop(_, body) => SizeLowers(body);
    case ForIn(_, _, _, body) => SizeLowers(body);
    case TryCatch(body, _, handler) => SizeLowers(body); SizeLowers(handler);
    case TryFinally(body, fin) => SizeLowers(body); SizeLowers(fin);
    case BreakBlock(body) => SizeLowers(body);
    case _ =>
  }

  lemma {:induction false} FlattenLowers(s: Stmt)
    ensures Flatten(TC.LowerStmt(s)) == LowerItems(Flatten(s))
  {
    SeqStays(s);
    FlattenParts(s);
    FlattenParts(TC.LowerStmt(s));
    hide TC.LowerStmt, Flatten, SizeAll;
    if s.Seq? {
      SeqLowers(s.s1, s.s2);
      FlattenLowers(s.s1);
      FlattenLowers(s.s2);
      ItemsAppend(Flatten(s.s1), Flatten(s.s2));
    } else {
      assert LowerItems([s]) == [TC.LowerStmt(s)];
    }
  }

  lemma FlattenParts(s: Stmt)
    ensures Flatten(s) == if s.Seq? then Flatten(s.s1) + Flatten(s.s2) else [s]
  {}

  lemma ItemsAppend(a: seq<Stmt>, b: seq<Stmt>)
    ensures LowerItems(a + b) == LowerItems(a) + LowerItems(b)
  {}

  lemma SeqStays(s: Stmt)
    ensures TC.LowerStmt(s).Seq? <==> s.Seq?
  {}

  lemma SeqLowers(a: Stmt, b: Stmt)
    ensures TC.LowerStmt(Seq(a, b)) == Seq(TC.LowerStmt(a), TC.LowerStmt(b))
  {}

  /** Statements that read nothing but a literal or a name. */
  lemma SimplestLower()
    ensures TC.LowerStmt(Skip) == Skip
    ensures forall slot, v :: TC.LowerStmt(SetField(slot, Lit(v))) == SetField(slot, Lit(v))
    ensures forall x :: TC.LowerStmt(Ret(Name(x))) == Ret(Name(x))
  {}

  lemma NodeLowers(body: Stmt, exceptional: int)
    ensures TC.LowerStmt(Node(body, exceptional)) == Node(TC.LowerStmt(body), exceptional)
  {
    ThenLowers(SetField(Exception, Name("<caught>")), exceptional);
    LitsLower();
  }

  lemma FillLowers(g: Graph, body: Stmt, exceptional: int, index: int)
    ensures Lowered(Fill(g, body, exceptional, index)) == Fill(Lowered(g), TC.LowerStmt(body), exceptional, index)
  {
    hide TC.LowerStmt, Node;
    NodeLowers(body, exceptional);
  }

  lemma PutLowers(g: Graph, body: Stmt, exceptional: int)
    ensures Put(Lowered(g), TC.LowerStmt(body), exceptional) == LoweredResult(Put(g, body, exceptional))
  {
    hide TC.LowerStmt, Node, Fill;
    if g.counter + 1 <= MAX_NODES {
      FillLowers(g.(counter := g.counter + 1), body, exceptional, g.counter + 1);
    }
  }

  // ----- the emitted instructions -----

  lemma ThenLowers(first: Stmt, target: int)
    ensures TC.LowerStmt(Seq2(first, Goto(target))) == Seq2(TC.LowerStmt(first), Goto(target))
  {
    assert TC.LowerStmt(Goto(target)) == Goto(target);
    assert TC.LowerStmt(Seq(Goto(target), Skip)) == Seq(Goto(target), Skip);
  }

  lemma BranchLowers(c: Expr, yes: int, no: int)
    ensures TC.LowerStmt(Branch(c, yes, no)) == Branch(TC.Predicate(c), yes, no)
  {}

  lemma ArgsLower(declared: set<string>, args: seq<Expr>)
    ensures TC.LowerAll(seq(|args|, i requires 0 <= i < |args| => Rewrite(declared, args[i]))) ==
            seq(|TC.LowerAll(args)|, i requires 0 <= i < |TC.LowerAll(args)| => Rewrite(declared, TC.LowerAll(args)[i]))
  {
    hide TC.Lower, Rewrite;
    RewriteLowersAll(declared, args);
  }

  lemma DelLowers(x: string)
    ensures var del := Seq2(ExprS(ReadLocal(Source(x))), DelLocal(Source(x))); TC.LowerStmt(del) == del
  {
    hide TC.Predicate;
    var last := DelLocal(Source(x));
    assert TC.LowerStmt(Seq(last, Skip)) == Seq(last, Skip);
    assert TC.LowerStmt(ExprS(ReadLocal(Source(x)))) == ExprS(ReadLocal(Source(x)));
  }

  lemma SimpleLowers(declared: set<string>, s: Stmt)
    requires s.Assign? || s.Del? || s.RaiseS? || s.ExprS? || s.Effect? || s.HoleS?
    ensures TC.LowerStmt(Simple(declared, s)) == Simple(declared, TC.LowerStmt(s))
  {
    hide TC.Lower, TC.Predicate, TC.LowerAll, Rewrite;
    match s
    case Assign(_, e) => RewriteLowers(declared, e);
    case RaiseS(e) => RewriteLowers(declared, e);
    case ExprS(e) => RewriteLowers(declared, e);
    case Effect(op, args) => ArgsLower(declared, args);
    case Del(x) => DelLowers(x);
    case _ =>
  }

  lemma YieldLowers(e: Expr, resume: int, exceptional: int)
    ensures TC.LowerStmt(YieldBody(e, resume, exceptional)) == YieldBody(TC.Lower(e), resume, exceptional)
  {
    assert TC.LowerStmt(Assign("<yielded>", e)) == Assign("<yielded>", TC.Lower(e));
    SimplestLower();
    hide TC.Lower, TC.LowerStmt;
    var s1 := Seq(Ret(Name("<yielded>")), Skip);
    var s2 := Seq(SetField(State, Lit(Int(1))), s1);
    var s3 := Seq(SetField(Handler, Lit(Int(exceptional))), s2);
    var s4 := Seq(Goto(resume), s3);
    SeqLowers(Ret(Name("<yielded>")), Skip);
    SeqLowers(SetField(State, Lit(Int(1))), s1);
    SeqLowers(SetField(Handler, Lit(Int(exceptional))), s2);
    SeqLowers(Goto(resume), s3);
    SeqLowers(Assign("<yielded>", e), s4);
  }

  lemma LitsLower()
    ensures forall v :: TC.Lower(Lit(v)) == Lit(v)
    ensures forall x :: TC.Lower(Name(x)) == Name(x)
  {}

  // ----- the graph of the lowered body -----

  /** Compiling what was lowered gives the graph whose every node is lowered. */
  lemma {:induction false} CompileLowers(declared: set<string>, s: Stmt, k: Conts, depth: nat, g: Graph)
    ensures Compile(declared, TC.LowerStmt(s), k, depth, Lowered(g)) == LoweredResult(Compile(declared, s, k, depth, g))
    decreases Size(s), 2
  {
    hide CompileNode, TC.LowerStmt, Lowered;
    if depth + 1 <= MAX_DEPTH { NodeOfLowered(declared, s, k, depth + 1, g); }
  }

  lemma {:induction false} NodeOfLowered(declared: set<string>, s: Stmt, k: Conts, depth: nat, g: Graph)
    ensures CompileNode(declared, TC.LowerStmt(s), k, depth, Lowered(g)) ==
            LoweredResult(CompileNode(declared, s, k, depth, g))
    decreases Size(s), 1
  {
    hide Compile, CompileAll, CompileCleanups, Put, Branch, YieldBody, Rewrite, Simple, Lowered, Fill, Flatten;
    hide TC.Lower, TC.Predicate, TC.LowerAll;
    match s
    case Seq(_, _) =>
      FlattenLowers(s);
      AllOfLowered(declared, Flatten(s), k, depth, g);
    case Ifte(c, t, e) => IfOfLowered(declared, s, k, depth, g);
    case Loop(c, body) => LoopOfLowered(declared, s, k, depth, g);
    case ForIn(_, _, _, _) => ForOfLowered(declared, s, k, depth, g);
    case TryCatch(_, _, _) => CatchOfLowered(declared, s, k, depth, g);
    case TryFinally(body, fin) =>
      CleanupsOfLowered(declared, fin, k, depth, g);
      if CompileCleanups(declared, fin, k, depth, g).Done? {
        var (inner, g1) := CompileCleanups(declared, fin, k, depth, g).v;
        CompileLowers(declared, body, inner, depth, g1);
      }
    case Yield(_, _) => YieldOfLowered(declared, s, k, depth, g);
    case _ => LeafOfLowered(declared, s, k, depth, g);
  }

  lemma LeafOfLowered(declared: set<string>, s: Stmt, k: Conts, depth: nat, g: Graph)
    requires !s.Seq? && !s.Ifte? && !s.Loop? && !s.ForIn? && !s.TryCatch? && !s.TryFinally? && !s.Yield?
    ensures CompileNode(declared, TC.LowerStmt(s), k, depth, Lowered(g)) ==
            LoweredResult(CompileNode(declared, s, k, depth, g))
  {
    hide Put, Rewrite, Simple, Lowered;
    hide TC.Lower, TC.Predicate, TC.LowerAll;
    if s.Ret? {
      var first := SetField(Return, Rewrite(declared, s.r));
      RewriteLowers(declared, s.r);
      ThenLowers(first, k.returning);
      PutLowers(g, Seq2(first, Goto(k.returning)), k.exceptional);
    } else if s.Assign? || s.Del? || s.RaiseS? || s.ExprS? || s.Effect? || s.HoleS? {
      SimpleLowers(declared, s);
      ThenLowers(Simple(declared, s), k.normal);
      PutLowers(g, Seq2(Simple(declared, s), Goto(k.normal)), k.exceptional);
    }
  }

  lemma {:induction false} IfOfLowered(declared: set<string>, s: Stmt, k: Conts, depth: nat, g: Graph)
    requires s.Ifte?
    ensures CompileNode(declared, TC.LowerStmt(s), k, depth, Lowered(g)) ==
            LoweredResult(CompileNode(declared, s, k, depth, g))
    decreases Size(s), 0
  {
    hide Compile, Put, Branch, Rewrite, Lowered;
    hide TC.Lower, TC.Predicate;
    CompileLowers(declared, s.t, k, depth, g);
    if Compile(declared, s.t, k, depth, g).Done? {
      var (yes, g1) := Compile(declared, s.t, k, depth, g).v;
      CompileLowers(declared, s.e, k, depth, g1);
      if Compile(declared, s.e, k, depth, g1).Done? {
        var (no, g2) := Compile(declared, s.e, k, depth, g1).v;
        RewriteLowers(declared, s.c);
        BranchLowers(Rewrite(declared, s.c), yes, no);
        PutLowers(g2, Branch(Rewrite(declared, s.c), yes, no), k.exceptional);
      }
    }
  }

  lemma ReserveLowers(g: Graph)
    ensures Reserve(Lowered(g)) == LoweredResult(Reserve(g)) && Lowered(g).next == g.next
    ensures Fresh(Lowered(g)) == (Fresh(g).0, Lowered(Fresh(g).1))
  {}

  lemma {:induction false} LoopOfLowered(declared: set<string>, s: Stmt, k: Conts, depth: nat, g: Graph)
    requires s.Loop?
    ensures CompileNode(declared, TC.LowerStmt(s), k, depth, Lowered(g)) ==
            LoweredResult(CompileNode(declared, s, k, depth, g))
    decreases Size(s), 0
  {
    hide Compile, Reserve, Branch, Rewrite, Lowered, Fill;
    hide TC.Lower, TC.Predicate;
    ReserveLowers(g);
    if Reserve(g).Done? {
      var (head, g1) := Reserve(g).v;
      CompileLowers(declared, s.body, LoopConts(k, head), depth, g1);
      if Compile(declared, s.body, LoopConts(k, head), depth, g1).Done? {
        var (entry, g2) := Compile(declared, s.body, LoopConts(k, head), depth, g1).v;
        RewriteLowers(declared, s.c);
        BranchLowers(Rewrite(declared, s.c), entry, k.normal);
        FillLowers(g2, Branch(Rewrite(declared, s.c), entry, k.normal), k.exceptional, head);
      }
    }
  }

  lemma {:induction false} CatchOfLowered(declared: set<string>, s: Stmt, k: Conts, depth: nat, g: Graph)
    requires s.TryCatch?
    ensures CompileNode(declared, TC.LowerStmt(s), k, depth, Lowered(g)) ==
            LoweredResult(CompileNode(declared, s, k, depth, g))
    decreases Size(s), 0
  {
    hide Compile, Put, Lowered;
    CompileLowers(declared, s.handler, k, depth, g);
    if Compile(declared, s.handler, k, depth, g).Done? {
      var (entry, g1) := Compile(declared, s.handler, k, depth, g).v;
      var bind := SetLocal(Source(s.x), Field(Exception));
      ThenLowers(bind, entry);
      PutLowers(g1, Seq2(bind, Goto(entry)), k.exceptional);
      if Put(g1, Seq2(bind, Goto(entry)), k.exceptional).Done? {
        var (pc, g2) := Put(g1, Seq2(bind, Goto(entry)), k.exceptional).v;
        CompileLowers(declared, s.body, k.(exceptional := pc), depth, g2);
      }
    }
  }

  lemma YieldOfLowered(declared: set<string>, s: Stmt, k: Conts, depth: nat, g: Graph)
    requires s.Yield?
    ensures CompileNode(declared, TC.LowerStmt(s), k, depth, Lowered(g)) ==
            LoweredResult(CompileNode(declared, s, k, depth, g))
  {
    hide Put, YieldBody, Rewrite, Lowered;
    hide TC.Lower;
    if s.target.Some? {
      var first := SetLocal(Source(s.target.value), Field(Sent));
      FieldLowers(Source(s.target.value), Sent);
      ThenLowers(first, k.normal);
      PutLowers(g, Seq2(first, Goto(k.normal)), k.exceptional);
    }
    if YieldResume(s.target, k, g).Done? {
      var (resume, g1) := YieldResume(s.target, k, g).v;
      RewriteLowers(declared, s.r);
      YieldLowers(Rewrite(declared, s.r), resume, k.exceptional);
      PutLowers(g1, YieldBody(Rewrite(declared, s.r), resume, k.exceptional), k.exceptional);
    }
  }

  lemma FieldLowers(x: Var, slot: Slot)
    ensures TC.LowerStmt(SetLocal(x, Field(slot))) == SetLocal(x, Field(slot))
  {}

  lemma {:induction false} AllOfLowered(declared: set<string>, items: seq<Stmt>, k: Conts, depth: nat, g: Graph)
    ensures CompileAll(declared, LowerItems(items), k, depth, Lowered(g)) ==
            LoweredResult(CompileAll(declared, items, k, depth, g))
    decreases SizeAll(items), 3
  {
    hide Compile, Lowered, TC.LowerStmt;
    if items != [] {
      SizePositive(items[0]);
      assert LowerItems(items)[1..] == LowerItems(items[1..]);
      AllOfLowered(declared, items[1..], k, depth, g);
      if CompileAll(declared, items[1..], k, depth, g).Done? {
        var (next, g1) := CompileAll(declared, items[1..], k, depth, g).v;
        CompileLowers(declared, items[0], k.(normal := next), depth, g1);
      }
    }
  }

  lemma {:induction false} CleanupsOfLowered(declared: set<string>, fin: Stmt, k: Conts, depth: nat, g: Graph)
    ensures CompileCleanups(declared, TC.LowerStmt(fin), k, depth, Lowered(g)) ==
            LoweredResult(CompileCleanups(declared, fin, k, depth, g))
    decreases Size(fin), 4
  {
    hide Compile, CompileUnwind, Lowered, TC.LowerStmt;
    UnwindOfLowered(declared, fin, k, depth, g);
    if CompileUnwind(declared, fin, k, depth, g).Done? {
      var g3 := CompileUnwind(declared, fin, k, depth, g).v.1;
      CompileLowers(declared, fin, k, depth, g3);
      if Compile(declared, fin, k, depth, g3).Done? {
        var g4 := Compile(declared, fin, k, depth, g3).v.1;
        CompileLowers(declared, fin, k.(normal := k.breaking), depth, g4);
        if Compile(declared, fin, k.(normal := k.breaking), depth, g4).Done? {
          var g5 := Compile(declared, fin, k.(normal := k.breaking), depth, g4).v.1;
          CompileLowers(declared, fin, k.(normal := k.continuing), depth, g5);
          if Compile(declared, fin, k.(normal := k.continuing), depth, g5).Done? {
            var g6 := Compile(declared, fin, k.(normal := k.continuing), depth, g5).v.1;
            CompileLowers(declared, fin, k.(normal := k.returning), depth, g6);
          }
        }
      }
    }
  }

  lemma {:induction false} UnwindOfLowered(declared: set<string>, fin: Stmt, k: Conts, depth: nat, g: Graph)
    ensures CompileUnwind(declared, TC.LowerStmt(fin), k, depth, Lowered(g)) ==
            LoweredResult(CompileUnwind(declared, fin, k, depth, g))
    decreases Size(fin), 3
  {
    hide Compile, Put, Fresh, Lowered, TC.LowerStmt;
    ReserveLowers(g);
    var (saved, g0) := Fresh(g);
    var first := SetField(Exception, ReadLocal(saved));
    SavedLowers(saved);
    ThenLowers(first, k.exceptional);
    PutLowers(g0, Seq2(first, Goto(k.exceptional)), k.exceptional);
    if Put(g0, Seq2(first, Goto(k.exceptional)), k.exceptional).Done? {
      var (restore, g1) := Put(g0, Seq2(first, Goto(k.exceptional)), k.exceptional).v;
      CompileLowers(declared, fin, k.(normal := restore), depth, g1);
      if Compile(declared, fin, k.(normal := restore), depth, g1).Done? {
        var (unwind, g2) := Compile(declared, fin, k.(normal := restore), depth, g1).v;
        var last := SetLocal(saved, Field(Exception));
        FieldLowers(saved, Exception);
        ThenLowers(last, unwind);
        PutLowers(g2, Seq2(last, Goto(unwind)), k.exceptional);
      }
    }
  }

  lemma SavedLowers(saved: Var)
    ensures TC.LowerStmt(SetField(Exception, ReadLocal(saved))) == SetField(Exception, ReadLocal(saved))
  {}

  lemma {:induction false} ForOfLowered(declared: set<string>, s: Stmt, k: Conts, depth: nat, g: Graph)
    requires s.ForIn?
    ensures CompileNode(declared, TC.LowerStmt(s), k, depth, Lowered(g)) ==
            LoweredResult(CompileNode(declared, s, k, depth, g))
    decreases Size(s), 0
  {
    hide Compile, Put, Reserve, Fresh, Branch, Rewrite, Lowered, Fill;
    hide TC.Lower, TC.Predicate;
    ReserveLowers(g);
    var (it, g0) := Fresh(g);
    ReserveLowers(g0);
    if Reserve(g0).Done? {
      var (head, g1) := Reserve(g0).v;
      CompileLowers(declared, s.body, LoopConts(k, head), depth, g1);
      if Compile(declared, s.body, LoopConts(k, head), depth, g1).Done? {
        var (entry, g2) := Compile(declared, s.body, LoopConts(k, head), depth, g1).v;
        var stop := Equal(Field(Exception), Lit(Str("StopIteration")));
        var test := Branch(stop, k.normal, k.exceptional);
        StopLowers();
        BranchLowers(stop, k.normal, k.exceptional);
        PutLowers(g2, test, k.exceptional);
        if Put(g2, test, k.exceptional).Done? {
          var (exhausted, g3) := Put(g2, test, k.exceptional).v;
          var next := SetLocal(Source(s.x), Call("<python-next>", [ReadLocal(it)]));
          NextLowers(Source(s.x), it);
          ThenLowers(next, entry);
          FillLowers(g3, Seq2(next, Goto(entry)), exhausted, head);
          var g4 := Fill(g3, Seq2(next, Goto(entry)), exhausted, head);
          var source := Rewrite(declared, s.r);
          var make := SetLocal(it, if s.ready then source else Call("<python-iter>", [source]));
          RewriteLowers(declared, s.r);
          MakeLowers(it, source, s.ready);
          ThenLowers(make, head);
          PutLowers(g4, Seq2(make, Goto(head)), k.exceptional);
        }
      }
    }
  }

  lemma StopLowers()
    ensures var stop := Equal(Field(Exception), Lit(Str("StopIteration"))); TC.Predicate(stop) == stop
  {}

  lemma NextLowers(x: Var, it: Var)
    ensures var next := SetLocal(x, Call("<python-next>", [ReadLocal(it)])); TC.LowerStmt(next) == next
  {
    assert TC.LowerAll([ReadLocal(it)]) == [ReadLocal(it)];
  }

  lemma MakeLowers(it: Var, source: Expr, ready: bool)
    ensures TC.LowerStmt(SetLocal(it, if ready then source else Call("<python-iter>", [source]))) ==
            SetLocal(it, if ready then TC.Lower(source) else Call("<python-iter>", [TC.Lower(source)]))
  {
    assert TC.LowerAll([source]) == [TC.Lower(source)];
  }

  // ----- lowering keeps a body clean -----

  lemma {:induction false} CleanLowersExpr(declared: set<string>, e: Expr)
    requires CleanExpr(declared, e)
    ensures CleanExpr(declared, TC.Lower(e)) && CleanExpr(declared, TC.Predicate(e))
    decreases e
  {
    hide TC.Force;
    CleanForces(declared);
    match e
    case And(a, b) => CleanLowersExpr(declared, a); CleanLowersExpr(declared, b);
    case Or(a, b) => CleanLowersExpr(declared, a); CleanLowersExpr(declared, b);
    case Not(a) => CleanLowersExpr(declared, a);
    case Cond(c, t, f) =>
      CleanLowersExpr(declared, c);
      CleanLowersExpr(declared, t);
      CleanLowersExpr(declared, f);
    case Op(op, args) => CleanLowersAll(declared, args);
    case CallV(f, args) =>
      CleanLowersExpr(declared, f);
      CleanLowersAll(declared, args);
    case Call(f, args) => CleanLowersAll(declared, args);
    case ResumeSelf(a) => CleanLowersExpr(declared, a);
    case _ =>
  }

  lemma CleanForces(declared: set<string>)
    ensures CleanExpr(declared, TC.YES) && CleanExpr(declared, TC.NO)
    ensures forall e | CleanExpr(declared, e) :: CleanExpr(declared, TC.Force(e))
  {}

  lemma {:induction false} CleanLowersAll(declared: set<string>, es: seq<Expr>)
    requires forall i | 0 <= i < |es| :: CleanExpr(declared, es[i])
    ensures forall i | 0 <= i < |es| :: CleanExpr(declared, TC.LowerAll(es)[i])
    decreases es
  {
    forall i | 0 <= i < |es| ensures CleanExpr(declared, TC.LowerAll(es)[i]) {
      CleanLowersExpr(declared, es[i]);
    }
  }

  lemma {:induction false} CleanLowers(declared: set<string>, s: Stmt)
    requires Clean(declared, s)
    ensures Clean(declared, TC.LowerStmt(s))
  {
    hide CleanExpr, TC.Lower, TC.Predicate;
    match s
    case Seq(a, b) => CleanLowers(declared, a); CleanLowers(declared, b);
    case Ifte(c, t, e) => CleanLowersExpr(declared, c); CleanLowers(declared, t); CleanLowers(declared, e);
    case Loop(c, body) => CleanLowersExpr(declared, c); CleanLowers(declared, body);
    case ForIn(_, e, _, body) => CleanLowersExpr(declared, e); CleanLowers(declared, body);
    case TryCatch(body, _, handler) => CleanLowers(declared, body); CleanLowers(declared, handler);
    case TryFinally(body, fin) => CleanLowers(declared, body); CleanLowers(declared, fin);
    case BreakBlock(body) => CleanLowers(declared, body);
    case Ret(e) => CleanLowersExpr(declared, e);
    case RaiseS(e) => CleanLowersExpr(declared, e);
    case ExprS(e) => CleanLowersExpr(declared, e);
    case Assign(_, e) => CleanLowersExpr(declared, e);
    case Yield(_, e) => CleanLowersExpr(declared, e);
    case YieldFrom(e) => CleanLowersExpr(declared, e);
    case Effect(_, args) => CleanLowersAll(declared, args);
    case _ =>
  }

  // ----- the lowered resume function -----

  lemma TestLowers(slot: Slot, v: Val)
    ensures TC.Predicate(Equal(Field(slot), Lit(v))) == Equal(Field(slot), Lit(v))
  {
    assert TC.Lower(Field(slot)) == Field(slot) && TC.Lower(Lit(v)) == Lit(v);
  }

  lemma EndLowers(test: Expr, a: Stmt, b: Stmt)
    requires TC.Predicate(test) == test && TC.LowerStmt(a) == a && TC.LowerStmt(b) == b
    ensures var end := Seq2(SetField(State, Lit(Int(3))), Ifte(test, a, b)); TC.LowerStmt(end) == end
  {
    assert TC.LowerStmt(Seq(Ifte(test, a, b), Skip)) == Seq(Ifte(test, a, b), Skip);
    assert TC.LowerStmt(SetField(State, Lit(Int(3)))) == SetField(State, Lit(Int(3)));
  }

  /** The terminals have no condition that jumps. */
  lemma TerminalLowers()
    ensures TC.LowerStmt(TERMINAL) == TERMINAL
  {
    hide TC.Predicate;
    TestLowers(Return, Unit);
    TestLowers(Exception, Str("StopIteration"));
    TestLowers(Pc, Int(COMPLETED));
    TestLowers(Pc, Int(FAILED));
    EndLowers(Equal(Field(Return), Lit(Unit)), RaiseClass("StopIteration"), HoleS("generator:return-value"));
    EndLowers(Equal(Field(Exception), Lit(Str("StopIteration"))), RaiseClass("RuntimeError"), RaiseS(Field(Exception)));
    var inner := Ifte(Equal(Field(Pc), Lit(Int(FAILED))), FAIL, HoleS("generator:invalid-continuation"));
    assert TC.LowerStmt(inner) == inner;
  }

  lemma {:induction false} DispatchLowers(nodes: map<int, Stmt>, i: nat, n: nat)
    ensures TC.LowerStmt(Dispatch(nodes, i, n)) == Dispatch(LowerNodes(nodes), i, n)
    decreases n + 1 - i
  {
    hide TC.Predicate;
    if i > n {
      TerminalLowers();
    } else {
      DispatchLowers(nodes, i + 1, n);
      TestLowers(Pc, Int(i));
    }
  }

  const UNSENT: Expr := And(Equal(Field(State), Lit(Int(0))), Unequal(Name("value"), Lit(Unit)))

  lemma ResumeBodyLowers(dispatch: Stmt)
    ensures TC.LowerStmt(ResumeBody(dispatch)) ==
            Ifte(Equal(Field(State), Lit(Int(3))), RaiseClass("StopIteration"),
                 Ifte(Equal(Field(State), Lit(Int(2))), RaiseClass("ValueError"),
                      Ifte(TC.Predicate(UNSENT), RaiseClass("TypeError"), RunBody(TC.LowerStmt(dispatch)))))
  {
    hide TC.Predicate;
    TestLowers(State, Int(3));
    TestLowers(State, Int(2));
    RunBodyLowers(dispatch);
    var third := Ifte(UNSENT, RaiseClass("TypeError"), RunBody(dispatch));
    var second := Ifte(Equal(Field(State), Lit(Int(2))), RaiseClass("ValueError"), third);
    assert TC.LowerStmt(third) == Ifte(TC.Predicate(UNSENT), RaiseClass("TypeError"), RunBody(TC.LowerStmt(dispatch)));
    assert TC.LowerStmt(second) ==
           Ifte(Equal(Field(State), Lit(Int(2))), RaiseClass("ValueError"), TC.LowerStmt(third));
  }

  lemma RunBodyLowers(dispatch: Stmt)
    ensures TC.LowerStmt(RunBody(dispatch)) == RunBody(TC.LowerStmt(dispatch))
  {
    assert TC.LowerStmt(LoopForever(dispatch)) == LoopForever(TC.LowerStmt(dispatch));
    var s1 := Seq(LoopForever(dispatch), Skip);
    assert TC.LowerStmt(s1) == Seq(LoopForever(TC.LowerStmt(dispatch)), Skip);
    var s2 := Seq(SetField(State, Lit(Int(2))), s1);
    assert TC.LowerStmt(s2) == Seq(SetField(State, Lit(Int(2))), TC.LowerStmt(s1));
  }

  /** The gate's own condition jumps to the outcome its value has. */
  lemma UnsentLowers(host: Host, st: CoreSt)
    requires "value" in st.vars && Framed(st.frame)
    ensures var ctx := Ctx(st.vars, {}, st.frame);
            EvalTest(host, ctx, TC.Predicate(UNSENT), st.tr) == EvalTest(host, ctx, UNSENT, st.tr)
  {
    var ctx := Ctx(st.vars, {}, st.frame);
    hide EvalTest, TC.Predicate, TC.Jump;
    TC.PredicateJumps(host, ctx, UNSENT, st.tr);
    UnsentTest(host, st);
    UnsentJumps(host, st);
  }

  lemma UnsentJumps(host: Host, st: CoreSt)
    requires "value" in st.vars && Framed(st.frame)
    ensures TC.Jump(host, Ctx(st.vars, {}, st.frame), UNSENT, st.tr) ==
            if st.frame.state != Int(0) then (Ok(Bool(false)), st.tr) else
            var (differs, tr1) := UnequalVals(host, st.vars["value"], Unit, st.tr);
            if differs.Ok? then Truth(host, differs.v, tr1) else (differs, tr1)
  {
    hide TC.Values;
    var ctx := Ctx(st.vars, {}, st.frame);
    var a, b := Equal(Field(State), Lit(Int(0))), Unequal(Name("value"), Lit(Unit));
    assert TC.Value(host, ctx, Field(State), st.tr) == (Ok(st.frame.state), st.tr);
    assert TC.Value(host, ctx, Lit(Int(0)), st.tr) == (Ok(Int(0)), st.tr);
    assert TC.Value(host, ctx, a, st.tr) == (Ok(Bool(st.frame.state == Int(0))), st.tr);
    assert TC.Jump(host, ctx, a, st.tr) == (Ok(Bool(st.frame.state == Int(0))), st.tr);
    assert TC.Value(host, ctx, Name("value"), st.tr) == (Ok(st.vars["value"]), st.tr);
    assert TC.Value(host, ctx, Lit(Unit), st.tr) == (Ok(Unit), st.tr);
    assert TC.Value(host, ctx, b, st.tr) == UnequalVals(host, st.vars["value"], Unit, st.tr);
  }

  /** The lowered resume function does what the resume function of the lowered nodes does. */
  lemma ResumeLowers(host: Host, fuel: nat, dispatch: Stmt, st: CoreSt)
    requires "value" in st.vars && Framed(st.frame)
    ensures Run(host, fuel, TC.LowerStmt(ResumeBody(dispatch)), st) ==
            Run(host, fuel, ResumeBody(TC.LowerStmt(dispatch)), st)
  {
    ResumeBodyLowers(dispatch);
    UnsentLowers(host, st);
    SlotTest(host, State, 3, st);
    SlotTest(host, State, 2, st);
    assert st.(tr := st.tr) == st;
    hide EvalTest, Eval, RunBody, RaiseClass, TC.LowerStmt, TC.Predicate;
    var refuse, run := RaiseClass("TypeError"), RunBody(TC.LowerStmt(dispatch));
    var third, third' := Ifte(TC.Predicate(UNSENT), refuse, run), Ifte(UNSENT, refuse, run);
    assert Run(host, fuel, third, st) == Run(host, fuel, third', st);
    var test := Equal(Field(State), Lit(Int(2)));
    assert Run(host, fuel, Ifte(test, RaiseClass("ValueError"), third), st)
        == Run(host, fuel, Ifte(test, RaiseClass("ValueError"), third'), st);
  }

  lemma {:induction false} FrameLowers(host: Host, nodes: map<int, Stmt>, n: nat, fuel: nat, frame: Frame, tr: Trace,
                                       inputs: seq<Input>)
    requires IsGraph(LowerNodes(nodes), n) && Framed(frame)
    ensures FrameSession(host, TC.LowerStmt(ResumeOf(nodes, n)), fuel, frame, tr, inputs) ==
            FrameSession(host, ResumeOf(LowerNodes(nodes), n), fuel, frame, tr, inputs)
    decreases |inputs|
  {
    hide Run, ResumeBody, Dispatch, TC.LowerStmt, LowerNodes, IsGraph;
    if inputs != [] {
      var st := CoreSt(ResumeVars(inputs[0].sent), frame, tr + inputs[0].between);
      DispatchLowers(nodes, 1, n);
      ResumeLowers(host, fuel, Dispatch(nodes, 1, n), st);
      ResumeProtocol(host, fuel, LowerNodes(nodes), n, frame, tr, inputs[0]);
      var (ctl, st1) := CallResume(host, ResumeOf(LowerNodes(nodes), n), fuel, frame, tr, inputs[0]);
      FrameLowers(host, nodes, n, fuel, st1.frame, st1.tr, inputs[1..]);
    }
  }

  // ----- what is emitted in the end -----

  /** The resume function as the pass over conditions leaves it. */
  function Emitted(g: Graph): Stmt {
    TC.LowerStmt(ResumeOf(g.nodes, g.counter))
  }

  /** A session of the structured semantics in which conditions jump. */
  function JumpSession(host: Host, declared: set<string>, fuel: nat, body: Stmt, locals: map<string, Val>,
                       tr: Trace, inputs: seq<Input>): seq<Outcome>
    decreases |inputs|
  {
    if inputs == [] then [] else
    var (gate, tr1) := FirstGate(host, inputs[0].sent, tr + inputs[0].between);
    match gate
    case Ok(_) =>
      var (ctl, st) := ExecJumps(host, declared, fuel, body, Src(locals, tr1, inputs[1..], [], Unit));
      Yields(st.outs) + EndOf(host, ctl, st)
    case Raise(exn) => [Threw(exn, tr1)] + JumpSession(host, declared, fuel, body, locals, tr1, inputs[1..])
    case Stuck(l) => [Hole(l, tr1)]
  }

  lemma {:induction false} JumpsLowered(host: Host, declared: set<string>, fuel: nat, body: Stmt, locals: map<string,
                                        Val>,
                                        tr: Trace, inputs: seq<Input>)
    ensures SourceSession(host, declared, fuel, TC.LowerStmt(body), locals, tr, inputs) ==
            JumpSession(host, declared, fuel, body, locals, tr, inputs)
    decreases |inputs|
  {
    hide Exec, ExecJumps, EndOf, FirstGate, Yields, TC.LowerStmt;
    if inputs != [] {
      var tr1 := FirstGate(host, inputs[0].sent, tr + inputs[0].between).1;
      LoweredExec(host, declared, fuel, body, Src(locals, tr1, inputs[1..], [], Unit));
      JumpsLowered(host, declared, fuel, body, locals, tr1, inputs[1..]);
    }
  }

  /** The graph of the lowered body is the lowered graph. */
  lemma BodyLowers(declared: set<string>, body: Stmt, entry: int, g: Graph)
    requires CompileBody(declared, body) == Done((entry, g))
    ensures CompileBody(declared, TC.LowerStmt(body)) == Done((entry, Lowered(g)))
    ensures IsGraph(LowerNodes(g.nodes), g.counter)
  {
    hide Compile, TC.LowerStmt, IsNode;
    assert LowerNodes(map[]) == map[];
    CompileLowers(declared, body, TOP, 0, StartGraph(declared));
    GraphIsClosed(declared, TC.LowerStmt(body));
  }

  /** What is emitted in the end has the sessions of the resume function of the lowered body. */
  lemma EmittedIsFrame(host: Host, declared: set<string>, body: Stmt, entry: int, g: Graph,
                       locals: map<string, Val>, tr: Trace, inputs: seq<Input>)
    requires CompileBody(declared, body) == Done((entry, g))
    ensures CompileBody(declared, TC.LowerStmt(body)) == Done((entry, Lowered(g)))
    ensures forall now: nat ::
      FrameSession(host, Emitted(g), now, NewFrame(entry, locals), tr, inputs) ==
      FrameSession(host, ResumeOf(LowerNodes(g.nodes), g.counter), now, NewFrame(entry, locals), tr, inputs)
  {
    BodyLowers(declared, body, entry, g);
    forall now: nat
      ensures FrameSession(host, Emitted(g), now, NewFrame(entry, locals), tr, inputs) ==
              FrameSession(host, ResumeOf(LowerNodes(g.nodes), g.counter), now, NewFrame(entry, locals), tr, inputs)
    {
      FrameLowers(host, g.nodes, g.counter, now, NewFrame(entry, locals), tr, inputs);
    }
  }

  /** The emitted generator has a finished session of the jump rules with any large enough
  fuel. */
  lemma EmittedIsJumps(host: Host, declared: set<string>, body: Stmt, entry: int, g: Graph, fuel: nat,
                       locals: map<string, Val>, tr: Trace, inputs: seq<Input>) returns (enough: nat)
    requires CompileBody(declared, body) == Done((entry, g)) && Clean(declared, body)
    requires locals.Keys <= declared && Complete(JumpSession(host, declared, fuel, body, locals, tr, inputs))
    ensures forall now | enough <= now ::
      FrameSession(host, Emitted(g), now, NewFrame(entry, locals), tr, inputs) ==
      JumpSession(host, declared, fuel, body, locals, tr, inputs)
  {
    EmittedIsFrame(host, declared, body, entry, g, locals, tr, inputs);
    JumpsLowered(host, declared, fuel, body, locals, tr, inputs);
    var lowered, nodes, resume := LoweredCompiles(declared, body, entry, g);
    hide SourceSession, FrameSession, JumpSession, TC.LowerStmt, CompileBody, NewFrame, Compiled, LowerNodes;
    enough := SourceIsCompiled(host, declared, lowered, nodes, g.counter, entry, resume, fuel, locals, tr, inputs);
  }

  /** A session of the emitted generator that comes to an end is one of the jump rules. */
  lemma JumpsOfEmitted(host: Host, declared: set<string>, body: Stmt, entry: int, g: Graph, now: nat,
                       locals: map<string, Val>, tr: Trace, inputs: seq<Input>) returns (fuel: nat)
    requires CompileBody(declared, body) == Done((entry, g)) && Clean(declared, body) && locals.Keys <= declared
    requires var emitted := Emitted(g);
             Complete(FrameSession(host, emitted, now, NewFrame(entry, locals), tr, inputs))
    ensures JumpSession(host, declared, fuel, body, locals, tr, inputs) ==
            FrameSession(host, Emitted(g), now, NewFrame(entry, locals), tr, inputs)
  {
    var lowered, nodes, resume := LoweredCompiles(declared, body, entry, g);
    EmittedIsFrame(host, declared, body, entry, g, locals, tr, inputs);
    hide SourceSession, FrameSession, JumpSession, TC.LowerStmt, CompileBody, NewFrame, Compiled, ResumeOf, LowerNodes;
    fuel := CompiledIsSource(host, declared, lowered, nodes, g.counter, entry, resume, now, locals, tr, inputs);
    JumpsLowered(host, declared, fuel, body, locals, tr, inputs);
  }

  lemma LoweredCompiles(declared: set<string>, body: Stmt, entry: int, g: Graph) returns (lowered: Stmt,
                        nodes: map<int, Stmt>, resume: Stmt)
    requires CompileBody(declared, body) == Done((entry, g)) && Clean(declared, body)
    ensures lowered == TC.LowerStmt(body) && nodes == LowerNodes(g.nodes) && resume == ResumeOf(nodes, g.counter)
    ensures Compiled(declared, lowered, nodes, g.counter, entry, resume)
  {
    BodyLowers(declared, body, entry, g);
    CleanLowers(declared, body);
    lowered, nodes, resume := TC.LowerStmt(body), LowerNodes(g.nodes), ResumeOf(LowerNodes(g.nodes), g.counter);
    GraphIsClosed(declared, lowered);
  }

  /** What is emitted in the end, the resume function after the pass over conditions, has the
  sessions of the structured semantics with Python's jump rules: over any host, any
  arguments and any sequence of resumes, a finished session of the one is a finished session
  of the other. */
  lemma EmittedCorrect(host: Host, declared: set<string>, body: Stmt, entry: int, g: Graph,
                       locals: map<string, Val>, tr: Trace, inputs: seq<Input>, results: seq<Outcome>)
    requires CompileBody(declared, body) == Done((entry, g)) && Clean(declared, body)
    requires locals.Keys <= declared && Complete(results)
    ensures (exists fuel: nat :: JumpSession(host, declared, fuel, body, locals, tr, inputs) == results) <==>
            (exists now: nat ::
               FrameSession(host, Emitted(g), now, NewFrame(entry, locals), tr, inputs) == results)
  {
    var emitted := Emitted(g);
    hide JumpSession, FrameSession, TC.LowerStmt, Clean, CompileBody, ResumeOf, NewFrame;
    if fuel: nat :| JumpSession(host, declared, fuel, body, locals, tr, inputs) == results {
      var enough := EmittedIsJumps(host, declared, body, entry, g, fuel, locals, tr, inputs);
      assert FrameSession(host, emitted, enough, NewFrame(entry, locals), tr, inputs) == results;
    }
    if now: nat :| FrameSession(host, emitted, now, NewFrame(entry, locals), tr, inputs) == results {
      var fuel := JumpsOfEmitted(host, declared, body, entry, g, now, locals, tr, inputs);
      assert JumpSession(host, declared, fuel, body, locals, tr, inputs) == results;
    }
  }
}
