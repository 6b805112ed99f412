/** Where compiled generators and Python part: return values, sends to an unstarted
generator, and names the resume function captures. */
module GeneratorReturns {
  import opened Core
  import opened GeneratorSource
  import opened FrameCompiler
  import opened GeneratorMachine
  import opened GeneratorGraph
  import opened GeneratorProtocol
  import opened GeneratorSession
  import opened GeneratorCorrectness
  import opened GeneratorLimits
  import opened GeneratorTruth
  import TC = TruthConditions

  // ----- Python's own sessions -----

  /** The end of the body in Python: the value returned travels in the `StopIteration`. */
  function PythonEnd(host: Host, ctl: Ctl, st: Src): seq<Outcome> {
    match ctl
    case Normal => [Threw("StopIteration", st.tr)] + Dead(st.tr, st.inputs)
    case Returned(v) =>
      [if v == Unit then Threw("StopIteration", st.tr) else Stopped(v, st.tr)] + Dead(st.tr, st.inputs)
    case _ => EndOf(host, ctl, st)
  }

  /** A session in Python: only `None` can be sent to an unstarted generator, and it is
  recognised by identity, without running user code. */
  function PythonSession(host: Host, declared: set<string>, fuel: nat, body: Stmt, locals: map<string, Val>,
                         tr: Trace, inputs: seq<Input>): seq<Outcome>
    decreases |inputs|
  {
    if inputs == [] then [] else
    var tr1 := tr + inputs[0].between;
    if inputs[0].sent != Unit then
      [Threw("TypeError", tr1)] + PythonSession(host, declared, fuel, body, locals, tr1, inputs[1..])
    else
      var (ctl, st) := ExecJumps(host, declared, fuel, body, Src(locals, tr1, inputs[1..], [], Unit));
      Yields(st.outs) + PythonEnd(host, ctl, st)
  }

  // ----- return values -----

  /** Whether the return slot reports the end of the body as Python would. */
  predicate Reported(ctl: Ctl, ret: Val) {
    (ctl == Normal || ctl.Returned? ==> ret == Unit) && (ctl.Returned? ==> ctl.v == Unit)
  }

  /** The end of a body shows as in Python exactly when no value was returned and the slot
  holds none. */
  lemma EndReported(host: Host, ctl: Ctl, st: Src)
    ensures EndOf(host, ctl, st) == PythonEnd(host, ctl, st) <==> Reported(ctl, st.ret)
  {
    if ctl == Normal || ctl.Returned? {
      var (end, tr1) := ReturnTest(host, st.ret, st.tr);
      if OwnsEqual(host, st.ret) {
        ReturnTestAsks(host, st.ret, st.tr);
        assert PythonEnd(host, ctl, st)[0].tr == st.tr;
      } else if st.ret != Unit {
        assert EndOf(host, ctl, st)[0].Hole?;
        assert !PythonEnd(host, ctl, st)[0].Hole?;
      } else {
        assert EndOf(host, ctl, st)[0] == Threw("StopIteration", st.tr);
        assert PythonEnd(host, ctl, st)[1..] == Dead(st.tr, st.inputs);
      }
    }
  }

  /** An object that owns its equality runs it when it is compared with unit. */
  lemma ReturnTestAsks(host: Host, ret: Val, tr: Trace)
    requires OwnsEqual(host, ret)
    ensures |tr| < |ReturnTest(host, ret, tr).1|
  {
    hide Truth;
    TruthGrows(host, tr + [TestEqual(ret, Unit)]);
  }

  lemma TruthGrows(host: Host, tr: Trace)
    ensures forall v :: |tr| <= |Truth(host, v, tr).1|
  {}

  // ----- histories only grow -----

  lemma TestsGrow(host: Host)
    ensures forall v, tr :: |tr| <= |Truth(host, v, tr).1|
    ensures forall a, b, tr :: |tr| <= |EqualVals(host, a, b, tr).1| && |tr| <= |UnequalVals(host, a, b, tr).1|
    ensures forall ctx, x, tr :: |tr| <= |ReadName(host, ctx, x, tr).1|
  {}

  lemma GateGrows(host: Host)
    ensures forall frame, v, tr :: |tr| <= |Gate(host, frame, v, tr).1|
  {
    TestsGrow(host);
    hide Truth, UnequalVals;
  }

  lemma {:induction false} EvalGrows(host: Host, ctx: Ctx, e: Expr, tr: Trace)
    ensures |tr| <= |Eval(host, ctx, e, tr).1|
    decreases e, 0
  {
    hide Truth, Gate, EqualVals, UnequalVals, ReadName;
    TestsGrow(host);
    match e
    case Call(f, args) =>
      EvalAllGrows(host, ctx, args, tr);
      EvalAllGrows(host, ctx, args, ReadName(host, ctx, f, tr).1);
    case CallV(f, args) =>
      EvalGrows(host, ctx, f, tr);
      EvalAllGrows(host, ctx, args, Eval(host, ctx, f, tr).1);
    case Op(_, args) => EvalAllGrows(host, ctx, args, tr);
    case And(a, b) =>
      EvalGrows(host, ctx, a, tr);
      var (left, tr1) := Eval(host, ctx, a, tr);
      if left.Ok? { EvalGrows(host, ctx, b, Truth(host, left.v, tr1).1); }
    case Or(a, b) =>
      EvalGrows(host, ctx, a, tr);
      var (left, tr1) := Eval(host, ctx, a, tr);
      if left.Ok? { EvalGrows(host, ctx, b, Truth(host, left.v, tr1).1); }
    case Not(a) => EvalGrows(host, ctx, a, tr);
    case Cond(c, t, f) =>
      EvalGrows(host, ctx, c, tr);
      var tr1 := EvalTest(host, ctx, c, tr).1;
      EvalGrows(host, ctx, t, tr1);
      EvalGrows(host, ctx, f, tr1);
    case ResumeSelf(a) =>
      EvalGrows(host, ctx, a, tr);
      GateGrows(host);
    case Equal(a, b) =>
      EvalGrows(host, ctx, a, tr);
      EvalGrows(host, ctx, b, Eval(host, ctx, a, tr).1);
    case Unequal(a, b) =>
      EvalGrows(host, ctx, a, tr);
      EvalGrows(host, ctx, b, Eval(host, ctx, a, tr).1);
    case _ =>
  }

  lemma {:induction false} EvalAllGrows(host: Host, ctx: Ctx, es: seq<Expr>, tr: Trace)
    ensures |tr| <= |EvalAll(host, ctx, es, tr).1|
    decreases es, 1
  {
    hide Eval;
    if es != [] {
      EvalGrows(host, ctx, es[0], tr);
      EvalAllGrows(host, ctx, es[1..], Eval(host, ctx, es[0], tr).1);
    }
  }

  lemma {:induction false} ExecGrows(host: Host, declared: set<string>, fuel: nat, s: Stmt, st: Src)
    ensures |st.tr| <= |Exec(host, declared, fuel, s, st).1.tr|
    decreases fuel, s, 0
  {
    hide Eval, Truth, PlainTruth;
    TestsGrow(host);
    match s
    case Seq(a, b) =>
      ExecGrows(host, declared, fuel, a, st);
      ExecGrows(host, declared, fuel, b, Exec(host, declared, fuel, a, st).1);
    case Ifte(c, t, e) =>
      EvalGrows(host, SourceCtx(declared, st), c, st.tr);
      var st1 := st.(tr := EvalTest(host, SourceCtx(declared, st), c, st.tr).1);
      ExecGrows(host, declared, fuel, t, st1);
      ExecGrows(host, declared, fuel, e, st1);
    case Loop(c, body) =>
      if fuel > 0 {
        EvalGrows(host, SourceCtx(declared, st), c, st.tr);
        var st1 := st.(tr := EvalTest(host, SourceCtx(declared, st), c, st.tr).1);
        ExecGrows(host, declared, fuel - 1, body, st1);
        ExecGrows(host, declared, fuel - 1, s, Exec(host, declared, fuel - 1, body, st1).1);
      }
    case ForIn(x, e, ready, body) =>
      EvalGrows(host, SourceCtx(declared, st), e, st.tr);
      var (r, st1) := EvalSrc(host, declared, e, st);
      if r.Ok? {
        ExecForGrows(host, declared, fuel, x, r.v, body, st1);
        var (got, tr2) := Ask(host, CallNamed("<python-iter>", [r.v]), st1.tr);
        if got.Ok? { ExecForGrows(host, declared, fuel, x, got.v, body, st1.(tr := tr2)); }
      }
    case TryCatch(body, x, handler) =>
      ExecGrows(host, declared, fuel, body, st);
      var (ctl, st1) := Exec(host, declared, fuel, body, st);
      if ctl.Raised? {
        ExecGrows(host, declared, fuel, handler, st1.(vars := st1.vars[x := Str(ctl.exn)]));
      }
    case TryFinally(body, fin) =>
      ExecGrows(host, declared, fuel, body, st);
      ExecGrows(host, declared, fuel, fin, Exec(host, declared, fuel, body, st).1);
    case _ => LeafGrows(host, declared, fuel, s, st);
  }

  lemma LeafGrows(host: Host, declared: set<string>, fuel: nat, s: Stmt, st: Src)
    requires !s.Seq? && !s.Ifte? && !s.Loop? && !s.ForIn? && !s.TryCatch? && !s.TryFinally?
    ensures |st.tr| <= |Exec(host, declared, fuel, s, st).1.tr|
  {
    hide Eval;
    match s
    case Ret(e) => EvalGrows(host, SourceCtx(declared, st), e, st.tr);
    case RaiseS(e) => EvalGrows(host, SourceCtx(declared, st), e, st.tr);
    case ExprS(e) => EvalGrows(host, SourceCtx(declared, st), e, st.tr);
    case Effect(op, args) => EvalGrows(host, SourceCtx(declared, st), Op(op, args), st.tr);
    case Assign(_, e) => EvalGrows(host, SourceCtx(declared, st), e, st.tr);
    case Yield(_, e) => EvalGrows(host, SourceCtx(declared, st), e, st.tr);
    case _ =>
  }

  lemma {:induction false} ExecForGrows(host: Host, declared: set<string>, fuel: nat, x: string, it: Val, body: Stmt,
                                        st: Src)
    ensures |st.tr| <= |ExecFor(host, declared, fuel, x, it, body, st).1.tr|
    decreases fuel, body, 1
  {
    hide Exec;
    if fuel > 0 {
      var st1 := Advance(host, x, it, st).1;
      ExecGrows(host, declared, fuel - 1, body, st1);
      ExecForGrows(host, declared, fuel - 1, x, it, body, Exec(host, declared, fuel - 1, body, st1).1);
    }
  }

  // ----- values sent to an unstarted generator -----

  /** Whether no object sent before the first unit owns its inequality. */
  predicate PlainSends(host: Host, inputs: seq<Input>) {
    inputs == [] || inputs[0].sent == Unit || (!OwnsUnequal(host, inputs[0].sent) && PlainSends(host, inputs[1..]))
  }

  /** Whether the end of the body, if the session reaches it, is reported as in Python. */
  predicate EndsReported(host: Host, declared: set<string>, fuel: nat, body: Stmt, locals: map<string, Val>,
                         tr: Trace, inputs: seq<Input>)
    decreases |inputs|
  {
    if inputs == [] then true
    else if inputs[0].sent != Unit then EndsReported(host, declared, fuel, body, locals, tr + inputs[0].between, inputs[1..])
    else
      var (ctl, st) := ExecJumps(host, declared, fuel, body,
          Src(locals, tr + inputs[0].between, inputs[1..], [], Unit));
      Reported(ctl, st.ret)
  }

  /** The gate of an unstarted frame agrees with Python exactly when the sent value is not an
  object that owns its inequality: such an object's method runs first. */
  lemma GateReported(host: Host, sent: Val, tr: Trace)
    ensures FirstGate(host, sent, tr) == (if sent == Unit then Ok(Unit) else Raise("TypeError"), tr) <==>
            !OwnsUnequal(host, sent)
  {
    if OwnsUnequal(host, sent) {
      TruthGrows(host, tr + [TestUnequal(sent, Unit)]);
      assert |FirstGate(host, sent, tr).1| > |tr|;
    }
  }

  /** Whether the results begin as in Python: everything sent before the first unit is refused
  without running user code. */
  predicate Refuses(results: seq<Outcome>, tr: Trace, inputs: seq<Input>)
    decreases |inputs|
  {
    inputs == [] || inputs[0].sent == Unit ||
    (var tr1 := tr + inputs[0].between;
     results != [] && results[0] == Threw("TypeError", tr1) && Refuses(results[1..], tr1, inputs[1..]))
  }

  lemma {:induction false} PythonRefuses(host: Host, declared: set<string>, fuel: nat, body: Stmt, locals: map<string,
                                         Val>,
                                         tr: Trace, inputs: seq<Input>)
    ensures Refuses(PythonSession(host, declared, fuel, body, locals, tr, inputs), tr, inputs)
    decreases |inputs|
  {
    hide ExecJumps, PythonEnd, Yields;
    if inputs != [] && inputs[0].sent != Unit {
      var tr1 := tr + inputs[0].between;
      PythonRefuses(host, declared, fuel, body, locals, tr1, inputs[1..]);
      var rest := PythonSession(host, declared, fuel, body, locals, tr1, inputs[1..]);
      assert ([Threw("TypeError", tr1)] + rest)[1..] == rest;
    }
  }

  lemma EndGrows(host: Host, ctl: Ctl, st: Src, tr: Trace)
    requires |tr| < |st.tr|
    ensures var end := EndOf(host, ctl, st); end != [] ==> end[0] != Threw("TypeError", tr)
  {
    TestsGrow(host);
    hide Truth, EqualVals;
  }

  /** An object that owns its inequality and is sent to an unstarted generator shows: its
  method has run. */
  lemma {:induction false} SendsShow(host: Host, declared: set<string>, fuel: nat, body: Stmt, locals: map<string, Val>,
                                     tr: Trace, inputs: seq<Input>, results: seq<Outcome>)
    requires !PlainSends(host, inputs) && Refuses(results, tr, inputs)
    ensures JumpSession(host, declared, fuel, body, locals, tr, inputs) != results
    decreases |inputs|
  {
    hide ExecJumps, EndOf, FirstGate;
    var tr1 := tr + inputs[0].between;
    var session := JumpSession(host, declared, fuel, body, locals, tr, inputs);
    GateReported(host, inputs[0].sent, tr1);
    if OwnsUnequal(host, inputs[0].sent) {
      OwnedGateGrows(host, inputs[0].sent, tr1);
      var tr2 := FirstGate(host, inputs[0].sent, tr1).1;
      var start := Src(locals, tr2, inputs[1..], [], Unit);
      LoweredExec(host, declared, fuel, body, start);
      ExecGrows(host, declared, fuel, TC.LowerStmt(body), start);
      var (ctl, st) := ExecJumps(host, declared, fuel, body, start);
      EndGrows(host, ctl, st, tr1);
      assert session != [] ==> session[0] != Threw("TypeError", tr1);
    } else {
      SendsShow(host, declared, fuel, body, locals, tr1, inputs[1..], results[1..]);
      assert session[1..] == JumpSession(host, declared, fuel, body, locals, tr1, inputs[1..]);
    }
  }

  lemma OwnedGateGrows(host: Host, sent: Val, tr: Trace)
    requires OwnsUnequal(host, sent)
    ensures |tr| < |FirstGate(host, sent, tr).1|
  {
    TestsGrow(host);
    hide Truth;
  }

  /** Over whole sessions: they are Python's exactly when the values sent are plain and the end
  is reported. */
  lemma {:induction false} SessionReported(host: Host, declared: set<string>, fuel: nat, body: Stmt,
                                           locals: map<string, Val>,
                                           tr: Trace, inputs: seq<Input>)
    ensures JumpSession(host, declared, fuel, body, locals, tr, inputs) ==
            PythonSession(host, declared, fuel, body, locals, tr, inputs) <==>
            PlainSends(host, inputs) && EndsReported(host, declared, fuel, body, locals, tr, inputs)
    decreases |inputs|
  {
    hide ExecJumps, EndOf, PythonEnd, FirstGate, Yields;
    if !PlainSends(host, inputs) {
      PythonRefuses(host, declared, fuel, body, locals, tr, inputs);
      SendsShow(host, declared, fuel, body, locals, tr, inputs,
          PythonSession(host, declared, fuel, body, locals, tr, inputs));
    } else if inputs != [] {
      var tr1 := tr + inputs[0].between;
      GateReported(host, inputs[0].sent, tr1);
      if inputs[0].sent != Unit {
        SessionReported(host, declared, fuel, body, locals, tr1, inputs[1..]);
        var a := JumpSession(host, declared, fuel, body, locals, tr1, inputs[1..]);
        var b := PythonSession(host, declared, fuel, body, locals, tr1, inputs[1..]);
        assert ([Threw("TypeError", tr1)] + a)[1..] == a && ([Threw("TypeError", tr1)] + b)[1..] == b;
      } else {
        var (ctl, st) := ExecJumps(host, declared, fuel, body, Src(locals, tr1, inputs[1..], [], Unit));
        EndReported(host, ctl, st);
        var y, a, b := Yields(st.outs), EndOf(host, ctl, st), PythonEnd(host, ctl, st);
        assert (y + a)[|y|..] == a && (y + b)[|y|..] == b;
      }
    }
  }

  // ----- bodies that never return a value -----

  /** Every `return` in the statement is a bare one. */
  predicate ReturnsUnit(s: Stmt) {
    match s
    case Ret(e) => e == Lit(Unit)
    case Seq(a, b) => ReturnsUnit(a) && ReturnsUnit(b)
    case Ifte(_, t, e) => ReturnsUnit(t) && ReturnsUnit(e)
    case Loop(_, body) => ReturnsUnit(body)
    case ForIn(_, _, _, body) => ReturnsUnit(body)
    case TryCatch(body, _, handler) => ReturnsUnit(body) && ReturnsUnit(handler)
    case TryFinally(body, fin) => ReturnsUnit(body) && ReturnsUnit(fin)
    case _ => true
  }

  lemma {:induction false} ReturnsNothing(host: Host, declared: set<string>, fuel: nat, s: Stmt, st: Src)
    requires ReturnsUnit(s) && st.ret == Unit
    ensures var (ctl, st1) := ExecJumps(host, declared, fuel, s, st); st1.ret == Unit && Reported(ctl, st1.ret)
    decreases fuel, s, 0
  {
    hide TC.Value, TC.Jump, ExecForJumps, Exec, Suspend, PlainTruth;
    match s
    case Seq(a, b) =>
      ReturnsNothing(host, declared, fuel, a, st);
      var (ctl, st1) := ExecJumps(host, declared, fuel, a, st);
      ReturnsNothing(host, declared, fuel, b, st1);
    case Ifte(c, t, e) =>
      var st1 := st.(tr := TC.Jump(host, SourceCtx(declared, st), c, st.tr).1);
      ReturnsNothing(host, declared, fuel, t, st1);
      ReturnsNothing(host, declared, fuel, e, st1);
    case Loop(c, body) =>
      if fuel > 0 {
        var st1 := st.(tr := TC.Jump(host, SourceCtx(declared, st), c, st.tr).1);
        ReturnsNothing(host, declared, fuel - 1, body, st1);
        var (ctl, st2) := ExecJumps(host, declared, fuel - 1, body, st1);
        ReturnsNothing(host, declared, fuel - 1, s, st2);
      }
    case ForIn(x, e, ready, body) =>
      var (r, st1) := ValueIn(host, declared, e, st);
      if r.Ok? {
        ReturnsNothingFor(host, declared, fuel, x, r.v, body, st1);
        var (got, tr2) := Ask(host, CallNamed("<python-iter>", [r.v]), st1.tr);
        if got.Ok? {
          ReturnsNothingFor(host, declared, fuel, x, got.v, body, st1.(tr := tr2));
        }
      }
    case TryCatch(body, x, handler) =>
      ReturnsNothing(host, declared, fuel, body, st);
      var (ctl, st1) := ExecJumps(host, declared, fuel, body, st);
      if ctl.Raised? {
        ReturnsNothing(host, declared, fuel, handler, st1.(vars := st1.vars[x := Str(ctl.exn)]));
      }
    case TryFinally(body, fin) =>
      ReturnsNothing(host, declared, fuel, body, st);
      var (ctl, st1) := ExecJumps(host, declared, fuel, body, st);
      ReturnsNothing(host, declared, fuel, fin, st1);
    case _ => ReturnsNothingLeaf(host, declared, fuel, s, st);
  }

  lemma ReturnsNothingLeaf(host: Host, declared: set<string>, fuel: nat, s: Stmt, st: Src)
    requires ReturnsUnit(s) && st.ret == Unit
    requires !s.Seq? && !s.Ifte? && !s.Loop? && !s.ForIn? && !s.TryCatch? && !s.TryFinally?
    ensures var (ctl, st1) := ExecJumps(host, declared, fuel, s, st);
            st1.ret == Unit && Reported(ctl, st1.ret)
  {
    hide TC.Value, TC.Jump, Eval, EvalTest;
    if s.Ret? { UnitEval(host, declared, st); }
  }

  lemma UnitEval(host: Host, declared: set<string>, st: Src)
    ensures ValueIn(host, declared, Lit(Unit), st) == (Ok(Unit), st)
  {
  }

  lemma {:induction false} ReturnsNothingFor(host: Host, declared: set<string>, fuel: nat, x: string, it: Val,
                                             body: Stmt, st: Src)
    requires ReturnsUnit(body) && st.ret == Unit
    ensures var (ctl, st1) := ExecForJumps(host, declared, fuel, x, it, body, st); st1.ret == Unit && Reported(ctl, st1.ret)
    decreases fuel, body, 1
  {
    hide TC.Value, TC.Jump, ExecJumps, Exec, PlainTruth;
    if fuel > 0 {
      var (ctl, st1) := Advance(host, x, it, st);
      if ctl == Normal {
        ReturnsNothing(host, declared, fuel - 1, body, st1);
        var (ctl2, st2) := ExecJumps(host, declared, fuel - 1, body, st1);
        ReturnsNothingFor(host, declared, fuel - 1, x, it, body, st2);
      }
    }
  }

  lemma {:induction false} UnitBodyReported(host: Host, declared: set<string>, fuel: nat, body: Stmt,
                                            locals: map<string, Val>,
                                            tr: Trace, inputs: seq<Input>)
    requires ReturnsUnit(body)
    ensures EndsReported(host, declared, fuel, body, locals, tr, inputs)
    decreases |inputs|
  {
    hide ExecJumps;
    if inputs != [] {
      var tr1 := tr + inputs[0].between;
      ReturnsNothing(host, declared, fuel, body, Src(locals, tr1, inputs[1..], [], Unit));
      UnitBodyReported(host, declared, fuel, body, locals, tr1, inputs[1..]);
    }
  }

  /** A generator whose returns are all bare has, as emitted, exactly Python's sessions when the
  values sent are plain, and otherwise has none of them. */
  lemma UnitGeneratorExact(host: Host, declared: set<string>, body: Stmt, entry: int, g: Graph,
                           locals: map<string, Val>, tr: Trace, inputs: seq<Input>, results: seq<Outcome>)
    requires CompileBody(declared, body) == Done((entry, g)) && Clean(declared, body) && ReturnsUnit(body)
    requires locals.Keys <= declared && Complete(results)
    ensures var python := exists fuel: nat :: PythonSession(host, declared, fuel, body, locals, tr, inputs) == results;
            var emitted := exists now: nat ::
              FrameSession(host, Emitted(g), now, NewFrame(entry, locals), tr, inputs) == results;
            if PlainSends(host, inputs) then python <==> emitted else !(python && emitted)
  {
    UnitSessions(host, declared, body, locals, tr, inputs, results);
    hide JumpSession, PythonSession, FrameSession, CompileBody, NewFrame, ReturnsUnit, PlainSends, Clean, Emitted;
    EmittedCorrect(host, declared, body, entry, g, locals, tr, inputs, results);
  }

  lemma UnitSessions(host: Host, declared: set<string>, body: Stmt, locals: map<string, Val>, tr: Trace,
                     inputs: seq<Input>, results: seq<Outcome>)
    requires ReturnsUnit(body)
    ensures var python := exists fuel: nat :: PythonSession(host, declared, fuel, body, locals, tr, inputs) == results;
            var jumps := exists fuel: nat :: JumpSession(host, declared, fuel, body, locals, tr, inputs) == results;
            if PlainSends(host, inputs) then python <==> jumps else !(python && jumps)
  {
    hide JumpSession, PythonSession, ReturnsUnit, PlainSends, Refuses;
    if fuel: nat :| PythonSession(host, declared, fuel, body, locals, tr, inputs) == results {
      UnitBodyReported(host, declared, fuel, body, locals, tr, inputs);
      SessionReported(host, declared, fuel, body, locals, tr, inputs);
      PythonRefuses(host, declared, fuel, body, locals, tr, inputs);
    }
    if fuel: nat :| JumpSession(host, declared, fuel, body, locals, tr, inputs) == results {
      UnitBodyReported(host, declared, fuel, body, locals, tr, inputs);
      SessionReported(host, declared, fuel, body, locals, tr, inputs);
      if !PlainSends(host, inputs) && Refuses(results, tr, inputs) {
        SendsShow(host, declared, fuel, body, locals, tr, inputs, results);
      }
    }
  }

  /** Of the generator as emitted, over whole sessions: a session that comes to an end is
  Python's exactly when the values sent are plain and its end is reported. */
  lemma FrameReported(host: Host, declared: set<string>, body: Stmt, entry: int, g: Graph, fuel: nat,
                      locals: map<string, Val>, tr: Trace, inputs: seq<Input>) returns (enough: nat)
    requires CompileBody(declared, body) == Done((entry, g)) && Clean(declared, body)
    requires locals.Keys <= declared && Complete(JumpSession(host, declared, fuel, body, locals, tr, inputs))
    ensures forall now | enough <= now ::
      FrameSession(host, Emitted(g), now, NewFrame(entry, locals), tr, inputs)
      == PythonSession(host, declared, fuel, body, locals, tr, inputs)
      <==> PlainSends(host, inputs) && EndsReported(host, declared, fuel, body, locals, tr, inputs)
  {
    enough := EmittedIsJumps(host, declared, body, entry, g, fuel, locals, tr, inputs);
    hide JumpSession, PythonSession, FrameSession, CompileBody, NewFrame, EndsReported, Clean;
    SessionReported(host, declared, fuel, body, locals, tr, inputs);
  }

  // ----- bodies with no return inside a finally block -----

  predicate ReturnFree(s: Stmt) {
    match s
    case Ret(_) => false
    case Seq(a, b) => ReturnFree(a) && ReturnFree(b)
    case Ifte(_, t, e) => ReturnFree(t) && ReturnFree(e)
    case Loop(_, body) => ReturnFree(body)
    case ForIn(_, _, _, body) => ReturnFree(body)
    case TryCatch(body, _, handler) => ReturnFree(body) && ReturnFree(handler)
    case TryFinally(body, fin) => ReturnFree(body) && ReturnFree(fin)
    case _ => true
  }

  predicate FinallyReturnFree(s: Stmt) {
    match s
    case Seq(a, b) => FinallyReturnFree(a) && FinallyReturnFree(b)
    case Ifte(_, t, e) => FinallyReturnFree(t) && FinallyReturnFree(e)
    case Loop(_, body) => FinallyReturnFree(body)
    case ForIn(_, _, _, body) => FinallyReturnFree(body)
    case TryCatch(body, _, handler) => FinallyReturnFree(body) && FinallyReturnFree(handler)
    case TryFinally(body, fin) => FinallyReturnFree(body) && ReturnFree(fin)
    case _ => true
  }

  lemma {:induction false} ReturnFreeKeeps(host: Host, declared: set<string>, fuel: nat, s: Stmt, st: Src)
    requires ReturnFree(s)
    ensures var (ctl, st1) := ExecJumps(host, declared, fuel, s, st); st1.ret == st.ret && !ctl.Returned?
    decreases fuel, s, 0
  {
    hide TC.Value, TC.Jump, ExecForJumps, Exec, Suspend, PlainTruth;
    match s
    case Seq(a, b) =>
      ReturnFreeKeeps(host, declared, fuel, a, st);
      ReturnFreeKeeps(host, declared, fuel, b, ExecJumps(host, declared, fuel, a, st).1);
    case Ifte(c, t, e) =>
      var st1 := st.(tr := TC.Jump(host, SourceCtx(declared, st), c, st.tr).1);
      ReturnFreeKeeps(host, declared, fuel, t, st1);
      ReturnFreeKeeps(host, declared, fuel, e, st1);
    case Loop(c, body) =>
      if fuel > 0 {
        var st1 := st.(tr := TC.Jump(host, SourceCtx(declared, st), c, st.tr).1);
        ReturnFreeKeeps(host, declared, fuel - 1, body, st1);
        ReturnFreeKeeps(host, declared, fuel - 1, s, ExecJumps(host, declared, fuel - 1, body, st1).1);
      }
    case ForIn(x, e, ready, body) =>
      var (r, st1) := ValueIn(host, declared, e, st);
      if r.Ok? {
        ReturnFreeKeepsFor(host, declared, fuel, x, r.v, body, st1);
        var (got, tr2) := Ask(host, CallNamed("<python-iter>", [r.v]), st1.tr);
        if got.Ok? {
          ReturnFreeKeepsFor(host, declared, fuel, x, got.v, body, st1.(tr := tr2));
        }
      }
    case TryCatch(body, x, handler) =>
      ReturnFreeKeeps(host, declared, fuel, body, st);
      var (ctl, st1) := ExecJumps(host, declared, fuel, body, st);
      if ctl.Raised? {
        ReturnFreeKeeps(host, declared, fuel, handler, st1.(vars := st1.vars[x := Str(ctl.exn)]));
      }
    case TryFinally(body, fin) =>
      ReturnFreeKeeps(host, declared, fuel, body, st);
      ReturnFreeKeeps(host, declared, fuel, fin, ExecJumps(host, declared, fuel, body, st).1);
    case _ => ReturnFreeKeepsLeaf(host, declared, fuel, s, st);
  }

  lemma ReturnFreeKeepsLeaf(host: Host, declared: set<string>, fuel: nat, s: Stmt, st: Src)
    requires ReturnFree(s)
    requires !s.Seq? && !s.Ifte? && !s.Loop? && !s.ForIn? && !s.TryCatch? && !s.TryFinally?
    ensures var (ctl, st1) := ExecJumps(host, declared, fuel, s, st);
            st1.ret == st.ret && !ctl.Returned?
  {
    hide TC.Value, TC.Jump, Eval, EvalTest;
  }

  lemma {:induction false} ReturnFreeKeepsFor(host: Host, declared: set<string>, fuel: nat, x: string, it: Val,
                                              body: Stmt, st: Src)
    requires ReturnFree(body)
    ensures var (ctl, st1) := ExecForJumps(host, declared, fuel, x, it, body, st); st1.ret == st.ret && !ctl.Returned?
    decreases fuel, body, 1
  {
    hide TC.Value, TC.Jump, ExecJumps, Exec, PlainTruth;
    if fuel > 0 {
      var (ctl, st1) := Advance(host, x, it, st);
      if ctl == Normal {
        ReturnFreeKeeps(host, declared, fuel - 1, body, st1);
        ReturnFreeKeepsFor(host, declared, fuel - 1, x, it, body, ExecJumps(host, declared, fuel - 1, body, st1).1);
      }
    }
  }

  /** Without returns in finally blocks the slot holds the value that is being returned. */
  lemma {:induction false} RecordedIsReturned(host: Host, declared: set<string>, fuel: nat, s: Stmt, st: Src)
    requires FinallyReturnFree(s)
    ensures var (ctl, st1) := ExecJumps(host, declared, fuel, s, st); ctl.Returned? ==> st1.ret == ctl.v
    decreases fuel, s, 0
  {
    hide TC.Value, TC.Jump, ExecForJumps, Exec, Suspend, PlainTruth;
    match s
    case Seq(a, b) =>
      RecordedIsReturned(host, declared, fuel, a, st);
      RecordedIsReturned(host, declared, fuel, b, ExecJumps(host, declared, fuel, a, st).1);
    case Ifte(c, t, e) =>
      var st1 := st.(tr := TC.Jump(host, SourceCtx(declared, st), c, st.tr).1);
      RecordedIsReturned(host, declared, fuel, t, st1);
      RecordedIsReturned(host, declared, fuel, e, st1);
    case Loop(c, body) =>
      if fuel > 0 {
        var st1 := st.(tr := TC.Jump(host, SourceCtx(declared, st), c, st.tr).1);
        RecordedIsReturned(host, declared, fuel - 1, body, st1);
        RecordedIsReturned(host, declared, fuel - 1, s, ExecJumps(host, declared, fuel - 1, body, st1).1);
      }
    case ForIn(x, e, ready, body) =>
      var (r, st1) := ValueIn(host, declared, e, st);
      if r.Ok? {
        RecordedIsReturnedFor(host, declared, fuel, x, r.v, body, st1);
        var (got, tr2) := Ask(host, CallNamed("<python-iter>", [r.v]), st1.tr);
        if got.Ok? {
          RecordedIsReturnedFor(host, declared, fuel, x, got.v, body, st1.(tr := tr2));
        }
      }
    case TryCatch(body, x, handler) =>
      RecordedIsReturned(host, declared, fuel, body, st);
      var (ctl, st1) := ExecJumps(host, declared, fuel, body, st);
      if ctl.Raised? {
        RecordedIsReturned(host, declared, fuel, handler, st1.(vars := st1.vars[x := Str(ctl.exn)]));
      }
    case TryFinally(body, fin) =>
      RecordedIsReturned(host, declared, fuel, body, st);
      ReturnFreeKeeps(host, declared, fuel, fin, ExecJumps(host, declared, fuel, body, st).1);
    case _ => RecordedIsReturnedLeaf(host, declared, fuel, s, st);
  }

  lemma RecordedIsReturnedLeaf(host: Host, declared: set<string>, fuel: nat, s: Stmt, st: Src)
    requires FinallyReturnFree(s)
    requires !s.Seq? && !s.Ifte? && !s.Loop? && !s.ForIn? && !s.TryCatch? && !s.TryFinally?
    ensures var (ctl, st1) := ExecJumps(host, declared, fuel, s, st);
            ctl.Returned? ==> st1.ret == ctl.v
  {
    hide TC.Value, TC.Jump, Eval, EvalTest;
  }

  lemma {:induction false} RecordedIsReturnedFor(host: Host, declared: set<string>, fuel: nat, x: string, it: Val,
                                                 body: Stmt, st: Src)
    requires FinallyReturnFree(body)
    ensures var (ctl, st1) := ExecForJumps(host, declared, fuel, x, it, body, st); ctl.Returned? ==> st1.ret == ctl.v
    decreases fuel, body, 1
  {
    hide TC.Value, TC.Jump, ExecJumps, Exec, PlainTruth;
    if fuel > 0 {
      var (ctl, st1) := Advance(host, x, it, st);
      if ctl == Normal {
        RecordedIsReturned(host, declared, fuel - 1, body, st1);
        RecordedIsReturnedFor(host, declared, fuel - 1, x, it, body, ExecJumps(host, declared, fuel - 1, body, st1).1);
      }
    }
  }

  // ----- same behaviour or the named hole -----

  /** The end at the hole: what the return slot was compared as, and the session stops. */
  function HoleEnd(host: Host, st: Src): seq<Outcome> {
    [Hole("generator:return-value", ReturnTest(host, st.ret, st.tr).1)]
  }

  /** Whether an end is neither Python's nor the hole: a value is returned while the slot holds
  unit, or the slot holds an object that owns its equality and does not answer that it
  differs. */
  predicate Lost(host: Host, ctl: Ctl, st: Src) {
    && (ctl == Normal || ctl.Returned?)
    && if OwnsEqual(host, st.ret) then ReturnTest(host, st.ret, st.tr).0 != Halted("generator:return-value")
       else st.ret == Unit && ctl.Returned? && ctl.v != Unit
  }

  lemma EndOrHole(host: Host, ctl: Ctl, st: Src)
    ensures EndOf(host, ctl, st) == PythonEnd(host, ctl, st) || EndOf(host, ctl, st) == HoleEnd(host, st) <==>
            !Lost(host, ctl, st)
  {
    if ctl == Normal || ctl.Returned? {
      EndReported(host, ctl, st);
      if OwnsEqual(host, st.ret) {
        var end := ReturnTest(host, st.ret, st.tr);
        assert EndOf(host, ctl, st) == Ending(end, st.inputs);
        ReturnTestEnds(host, st.ret, st.tr);
        if EndOf(host, ctl, st) == HoleEnd(host, st) { assert EndOf(host, ctl, st)[0] == HoleEnd(host, st)[0]; }
      } else if st.ret == Unit {
        assert EndOf(host, ctl, st)[0] == Threw("StopIteration", st.tr);
        assert HoleEnd(host, st)[0].Hole?;
      }
    }
  }

  lemma ReturnTestEnds(host: Host, ret: Val, tr: Trace)
    ensures var ctl := ReturnTest(host, ret, tr).0; ctl.Raised? || ctl.Halted?
  {}

  /** The session that stops at the hole when the body is left. */
  function HoleSession(host: Host, declared: set<string>, fuel: nat, body: Stmt, locals: map<string, Val>,
                       tr: Trace, inputs: seq<Input>): seq<Outcome>
    decreases |inputs|
  {
    if inputs == [] then [] else
    var tr1 := tr + inputs[0].between;
    if inputs[0].sent != Unit then
      [Threw("TypeError", tr1)] + HoleSession(host, declared, fuel, body, locals, tr1, inputs[1..])
    else
      var (_, st) := ExecJumps(host, declared, fuel, body, Src(locals, tr1, inputs[1..], [], Unit));
      Yields(st.outs) + HoleEnd(host, st)
  }

  /** Whether the session reaches an end that is lost. */
  predicate EndsLost(host: Host, declared: set<string>, fuel: nat, body: Stmt, locals: map<string, Val>,
                     tr: Trace, inputs: seq<Input>)
    decreases |inputs|
  {
    if inputs == [] then false
    else if inputs[0].sent != Unit then EndsLost(host, declared, fuel, body, locals, tr + inputs[0].between, inputs[1..])
    else
      var (ctl, st) := ExecJumps(host, declared, fuel, body,
          Src(locals, tr + inputs[0].between, inputs[1..], [], Unit));
      Lost(host, ctl, st)
  }

  lemma {:induction false} HoleRefuses(host: Host, declared: set<string>, fuel: nat, body: Stmt, locals: map<string,
                                       Val>,
                                       tr: Trace, inputs: seq<Input>)
    ensures Refuses(HoleSession(host, declared, fuel, body, locals, tr, inputs), tr, inputs)
    decreases |inputs|
  {
    hide ExecJumps, HoleEnd, Yields;
    if inputs != [] && inputs[0].sent != Unit {
      var tr1 := tr + inputs[0].between;
      HoleRefuses(host, declared, fuel, body, locals, tr1, inputs[1..]);
      var rest := HoleSession(host, declared, fuel, body, locals, tr1, inputs[1..]);
      assert ([Threw("TypeError", tr1)] + rest)[1..] == rest;
    }
  }

  lemma {:induction false} SessionOrHole(host: Host, declared: set<string>, fuel: nat, body: Stmt, locals: map<string,
                                         Val>,
                                         tr: Trace, inputs: seq<Input>)
    ensures var session := JumpSession(host, declared, fuel, body, locals, tr, inputs);
            session == PythonSession(host, declared, fuel, body, locals, tr, inputs)
            || session == HoleSession(host, declared, fuel, body, locals, tr, inputs)
            <==> PlainSends(host, inputs) && !EndsLost(host, declared, fuel, body, locals, tr, inputs)
    decreases |inputs|
  {
    hide ExecJumps, EndOf, PythonEnd, HoleEnd, FirstGate, Yields, Lost;
    if !PlainSends(host, inputs) {
      hide JumpSession, PythonSession, HoleSession, Refuses;
      PythonRefuses(host, declared, fuel, body, locals, tr, inputs);
      HoleRefuses(host, declared, fuel, body, locals, tr, inputs);
      SendsShow(host, declared, fuel, body, locals, tr, inputs,
          PythonSession(host, declared, fuel, body, locals, tr, inputs));
      SendsShow(host, declared, fuel, body, locals, tr, inputs,
          HoleSession(host, declared, fuel, body, locals, tr, inputs));
    } else if inputs != [] {
      var tr1 := tr + inputs[0].between;
      GateReported(host, inputs[0].sent, tr1);
      if inputs[0].sent != Unit {
        SessionOrHole(host, declared, fuel, body, locals, tr1, inputs[1..]);
        var a := JumpSession(host, declared, fuel, body, locals, tr1, inputs[1..]);
        var b := PythonSession(host, declared, fuel, body, locals, tr1, inputs[1..]);
        var c := HoleSession(host, declared, fuel, body, locals, tr1, inputs[1..]);
        var first := [Threw("TypeError", tr1)];
        assert (first + a)[1..] == a && (first + b)[1..] == b && (first + c)[1..] == c;
      } else {
        var (ctl, st) := ExecJumps(host, declared, fuel, body, Src(locals, tr1, inputs[1..], [], Unit));
        EndOrHole(host, ctl, st);
        var y, a, b, c := Yields(st.outs), EndOf(host, ctl, st), PythonEnd(host, ctl, st), HoleEnd(host, st);
        assert (y + a)[|y|..] == a && (y + b)[|y|..] == b && (y + c)[|y|..] == c;
      }
    }
  }

  /** Of the generator as emitted, over whole sessions: a session that comes to an end is
  Python's, or its yields followed by the named hole, exactly when the values sent are plain
  and the end is not lost. */
  lemma SameOrHole(host: Host, declared: set<string>, body: Stmt, entry: int, g: Graph, fuel: nat,
                   locals: map<string, Val>, tr: Trace, inputs: seq<Input>) returns (enough: nat)
    requires CompileBody(declared, body) == Done((entry, g)) && Clean(declared, body)
    requires locals.Keys <= declared && Complete(JumpSession(host, declared, fuel, body, locals, tr, inputs))
    ensures forall now | enough <= now ::
      var session := FrameSession(host, Emitted(g), now, NewFrame(entry, locals), tr, inputs);
      session == PythonSession(host, declared, fuel, body, locals, tr, inputs)
      || session == HoleSession(host, declared, fuel, body, locals, tr, inputs)
      <==> PlainSends(host, inputs) && !EndsLost(host, declared, fuel, body, locals, tr, inputs)
  {
    enough := EmittedIsJumps(host, declared, body, entry, g, fuel, locals, tr, inputs);
    hide JumpSession, PythonSession, HoleSession, FrameSession, CompileBody, NewFrame, EndsLost, Clean;
    SessionOrHole(host, declared, fuel, body, locals, tr, inputs);
  }

  /** Without a return in a finally block, only an object's own equality loses an end. */
  lemma LostByEquality(host: Host, declared: set<string>, fuel: nat, body: Stmt, st0: Src)
    requires FinallyReturnFree(body)
    ensures var (ctl, st) := ExecJumps(host, declared, fuel, body, st0); Lost(host, ctl, st) ==> OwnsEqual(host, st.ret)
  {
    hide ExecJumps, ReturnTest;
    RecordedIsReturned(host, declared, fuel, body, st0);
  }

  /** Without a return in a finally block, and where no object owns its equality, nothing is
  ever lost. */
  lemma {:induction false} NothingLost(host: Host, declared: set<string>, fuel: nat, body: Stmt, locals: map<string,
                                       Val>,
                                       tr: Trace, inputs: seq<Input>)
    requires FinallyReturnFree(body) && forall v :: !OwnsEqual(host, v)
    ensures !EndsLost(host, declared, fuel, body, locals, tr, inputs)
    decreases |inputs|
  {
    hide ExecJumps, Lost, FinallyReturnFree;
    if inputs != [] {
      var tr1 := tr + inputs[0].between;
      NothingLost(host, declared, fuel, body, locals, tr1, inputs[1..]);
      LostByEquality(host, declared, fuel, body, Src(locals, tr1, inputs[1..], [], Unit));
      assert !OwnsEqual(host, ExecJumps(host, declared, fuel, body, Src(locals, tr1, inputs[1..], [], Unit)).1.ret);
    }
  }

  // ----- where an end is lost -----

  /** `try: return 5 finally: while True: try: return finally: break`. */
  const LOSES: Stmt :=
    TryFinally(Ret(Lit(Int(5))), Loop(Lit(Bool(true)), TryFinally(Ret(Lit(Unit)), Brk)))

  const LOST_RETURN: Stmt := Seq(Yield(None, Lit(Unit)), LOSES)

  lemma LosesRuns(host: Host, st0: Src)
    ensures ExecJumps(host, {}, 1, LOSES, st0) == (Returned(Int(5)), st0.(ret := Unit))
  {
    var inner := TryFinally(Ret(Lit(Unit)), Brk);
    var loop := Loop(Lit(Bool(true)), inner);
    var st1 := st0.(ret := Int(5));
    var st2 := st0.(ret := Unit);
    assert ValueIn(host, {}, Lit(Int(5)), st0) == (Ok(Int(5)), st0)
           && ValueIn(host, {}, Lit(Unit), st1) == (Ok(Unit), st1);
    assert ExecJumps(host, {}, 1, Ret(Lit(Int(5))), st0) == (Returned(Int(5)), st1);
    assert ExecJumps(host, {}, 0, Ret(Lit(Unit)), st1) == (Returned(Unit), st2);
    assert ExecJumps(host, {}, 0, Brk, st2) == (Broke, st2);
    assert ExecJumps(host, {}, 0, inner, st1) == (Broke, st2);
    assert TC.Jump(host, SourceCtx({}, st1), Lit(Bool(true)), st1.tr) == (Ok(Bool(true)), st1.tr);
    assert st1.(tr := st1.tr) == st1;
    assert ExecJumps(host, {}, 1, loop, st1) == (Normal, st2);
  }

  /** A body that yields once and then ends, resumed twice. */
  lemma YieldThen(host: Host, declared: set<string>, fuel: nat, rest: Stmt, locals: map<string, Val>, tr: Trace)
    ensures var body := Seq(Yield(None, Lit(Unit)), rest);
            var twice := [Input([], Unit), Input([], Unit)];
            var first := Output(Unit, locals, tr);
            var (ctl, st) := ExecJumps(host, declared, fuel, rest, Src(locals, tr, [], [first], Unit));
            && JumpSession(host, declared, fuel, body, locals, tr, twice) == Yields(st.outs) + EndOf(host, ctl, st)
            && PythonSession(host, declared, fuel, body, locals, tr, twice) ==
               Yields(st.outs) + PythonEnd(host, ctl, st)
  {
    hide Yields, EndOf, PythonEnd;
    var twice := [Input([], Unit), Input([], Unit)];
    var first := Output(Unit, locals, tr);
    assert twice[1..] == [Input([], Unit)] && [Input([], Unit)][1..] == [] && tr + [] == tr && [] + [first] == [first];
    var start := Src(locals, tr, [Input([], Unit)], [], Unit);
    assert ValueIn(host, declared, Lit(Unit), start) == (Ok(Unit), start);
    assert Suspend(Unit, None, start) == (Normal, Src(locals, tr, [], [first], Unit));
    assert ExecJumps(host, declared, fuel, Yield(None, Lit(Unit)), start) ==
           (Normal, Src(locals, tr, [], [first], Unit));
    assert FirstGate(host, Unit, tr) == (Ok(Unit), tr);
  }

  /** With a return inside a finally block a value can be lost without a hole: resumed twice,
  Python's generator yields and stops with 5, the emitted frame yields and stops with
  nothing. */
  lemma LostReturn(host: Host, tr: Trace) returns (entry: int, g: Graph, now: nat)
    ensures !FinallyReturnFree(LOST_RETURN) && CompileBody({}, LOST_RETURN) == Done((entry, g))
    ensures var twice := [Input([], Unit), Input([], Unit)];
            && FrameSession(host, Emitted(g), now, NewFrame(entry, map[]), tr, twice)
               == [Yielded(Unit, map[], tr), Threw("StopIteration", tr)]
            && PythonSession(host, {}, 1, LOST_RETURN, map[], tr, twice) ==
               [Yielded(Unit, map[], tr), Stopped(Int(5), tr)]
  {
    hide JumpSession, PythonSession, FrameSession, CompileBody, NewFrame, Clean, Emitted, FinallyReturnFree;
    LostReturnCompiles();
    var spec := CompileBody({}, LOST_RETURN).v;
    entry, g := spec.0, spec.1;
    LostSessions(host, tr);
    now := EmittedIsJumps(host, {}, LOST_RETURN, entry, g, 1, map[], tr, [Input([], Unit), Input([], Unit)]);
  }

  lemma LostSessions(host: Host, tr: Trace)
    ensures var twice := [Input([], Unit), Input([], Unit)];
            && JumpSession(host, {}, 1, LOST_RETURN, map[], tr, twice) ==
               [Yielded(Unit, map[], tr), Threw("StopIteration", tr)]
            && PythonSession(host, {}, 1, LOST_RETURN, map[], tr, twice) ==
               [Yielded(Unit, map[], tr), Stopped(Int(5), tr)]
  {
    hide ExecJumps, JumpSession, PythonSession;
    var first := Output(Unit, map[], tr);
    var st := Src(map[], tr, [], [first], Unit);
    LosesRuns(host, st);
    YieldThen(host, {}, 1, LOSES, map[], tr);
    assert st.(ret := Unit) == st && Dead(tr, []) == [];
    OneYield(first);
    assert EndOf(host, Returned(Int(5)), st) == [Threw("StopIteration", tr)];
    assert PythonEnd(host, Returned(Int(5)), st) == [Stopped(Int(5), tr)];
  }

  lemma OneYield(first: Output)
    ensures Yields([first]) == [Yielded(first.v, first.locals, first.tr)]
  {
    assert [first][1..] == [];
  }

  lemma LostReturnCompiles()
    ensures CompileBody({}, LOST_RETURN).Done? && Clean({}, LOST_RETURN) && !FinallyReturnFree(LOST_RETURN)
  {
    hide CompileBody;
    var inner := TryFinally(Ret(Lit(Unit)), Brk);
    var loop := Loop(Lit(Bool(true)), inner);
    var parts := [Yield(None, Lit(Unit)), LOSES];
    assert Flatten(LOST_RETURN) == parts && parts[1..] == [LOSES] && [LOSES][1..] == [];
    assert Cost(inner) == 3 && Levels(inner) == 2 && Supported(inner);
    assert Cost(loop) == 4 && Levels(loop) == 3 && Supported(loop);
    assert Cost(LOSES) == 23 && Levels(LOSES) == 4 && Supported(LOSES);
    assert CostAll([LOSES]) == 23 && LevelsAll([LOSES]) == 4 && SupportedAll([LOSES]);
    AcceptedExactly({}, LOST_RETURN);
    assert !ReturnFree(inner);
    assert !ReturnFree(loop);
  }

  /** A returned object whose own equality says it equals unit is lost the same way. */
  lemma LostObject(tr: Trace) returns (entry: int, g: Graph, now: nat)
    ensures var body := Seq(Yield(None, Lit(Unit)), Ret(Name("x")));
            var locals := map["x" := Obj(0)];
            var twice := [Input([], Unit), Input([], Unit)];
            var yes := Host((tr, e) => Ok(Bool(true)), e => true);
            && CompileBody({"x"}, body) == Done((entry, g))
            && FrameSession(yes, Emitted(g), now, NewFrame(entry, locals), tr, twice)
               == [Yielded(Unit, locals, tr), Threw("StopIteration", tr + [TestEqual(Obj(0), Unit)])]
            && PythonSession(yes, {"x"}, 0, body, locals, tr, twice) == [Yielded(Unit, locals, tr), Stopped(Obj(0), tr)]
  {
    hide JumpSession, PythonSession, FrameSession, CompileBody, NewFrame, Clean, Emitted;
    var body := Seq(Yield(None, Lit(Unit)), Ret(Name("x")));
    var locals := map["x" := Obj(0)];
    var yes := Host((tr, e) => Ok(Bool(true)), e => true);
    ReturnCompiles();
    var spec := CompileBody({"x"}, body).v;
    entry, g := spec.0, spec.1;
    ObjectSessions(yes, tr);
    now := EmittedIsJumps(yes, {"x"}, body, entry, g, 0, locals, tr, [Input([], Unit), Input([], Unit)]);
  }

  lemma ObjectSessions(host: Host, tr: Trace)
    requires host == Host((tr, e) => Ok(Bool(true)), e => true)
    ensures var body := Seq(Yield(None, Lit(Unit)), Ret(Name("x")));
            var locals := map["x" := Obj(0)];
            var twice := [Input([], Unit), Input([], Unit)];
            && JumpSession(host, {"x"}, 0, body, locals, tr, twice)
               == [Yielded(Unit, locals, tr), Threw("StopIteration", tr + [TestEqual(Obj(0), Unit)])]
            && PythonSession(host, {"x"}, 0, body, locals, tr, twice) ==
               [Yielded(Unit, locals, tr), Stopped(Obj(0), tr)]
  {
    hide ExecJumps, EndOf, PythonEnd, JumpSession, PythonSession;
    var locals := map["x" := Obj(0)];
    var first := Output(Unit, locals, tr);
    ObjectReturned(host, Src(locals, tr, [], [first], Unit));
    YieldThen(host, {"x"}, 0, Ret(Name("x")), locals, tr);
    OneYield(first);
  }

  lemma ObjectReturned(host: Host, st: Src)
    requires st.vars == map["x" := Obj(0)] && st.inputs == [] && host == Host((tr, e) => Ok(Bool(true)), e => true)
    ensures var (ctl, end) := ExecJumps(host, {"x"}, 0, Ret(Name("x")), st);
            && end.outs == st.outs
            && EndOf(host, ctl, end) == [Threw("StopIteration", st.tr + [TestEqual(Obj(0), Unit)])]
            && PythonEnd(host, ctl, end) == [Stopped(Obj(0), st.tr)]
  {
    assert ValueIn(host, {"x"}, Name("x"), st) == (Ok(Obj(0)), st);
    assert ExecJumps(host, {"x"}, 0, Ret(Name("x")), st) == (Returned(Obj(0)), st.(ret := Obj(0)));
    var tr1 := st.tr + [TestEqual(Obj(0), Unit)];
    assert ReturnTest(host, Obj(0), st.tr) == (Raised("StopIteration"), tr1);
    assert Dead(st.tr, []) == [] && Dead(tr1, []) == [];
  }

  lemma ReturnCompiles()
    ensures var body := Seq(Yield(None, Lit(Unit)), Ret(Name("x"))); CompileBody({"x"}, body).Done? && Clean({"x"}, body)
  {
    hide CompileBody;
    var body := Seq(Yield(None, Lit(Unit)), Ret(Name("x")));
    var last := [Ret(Name("x"))];
    assert Flatten(body) == [Yield(None, Lit(Unit))] + last && Flatten(body)[1..] == last && last[1..] == [];
    assert CostAll(last) == 1 && LevelsAll(last) == 1 && SupportedAll(last);
    AcceptedExactly({"x"}, body);
  }

  // ----- names the resume function captures -----

  /** A name keeps its meaning in the resume function exactly when it is a declared local
  or none of the variables the resume function itself binds. */
  lemma NameCaptured(declared: set<string>, x: string)
    ensures VisibleName(declared, x) <==>
            forall host: Host, src: Ctx, dst: Ctx, tr: Trace
              | src.declared == declared && dst.declared == {} && src.vars.Keys <= declared && dst.vars.Keys <= HELPERS
                && dst.frame.locals == src.vars ::
                Eval(host, dst, Rewrite(declared, Name(x)), tr) == Eval(host, src, Name(x), tr)
  {
    if !VisibleName(declared, x) {
      var host := Host((tr, e) => Ok(Int(1)), e => true);
      var frame := NewFrame(0, map[]);
      var src, dst := Ctx(map[], declared, frame), Ctx(map[x := Int(0)], {}, frame);
      assert Eval(host, dst, Rewrite(declared, Name(x)), []) == (Ok(Int(0)), []);
      assert Eval(host, src, Name(x), []).0 == Ok(Int(1));
    }
  }

  /** At a compiled body: `yield value`, where `value` is a global, yields the global's value in
  Python and the value sent to it, unit at first, as emitted. */
  lemma CapturedSession(host: Host, v: Val, tr: Trace) returns (entry: int, g: Graph)
    requires host.answer(tr, ReadGlobal("value")) == Ok(v)
    ensures var body := Yield(None, Name("value"));
            var next := [Input([], Unit)];
            && !Clean({}, body) && CompileBody({}, body) == Done((entry, g))
            && PythonSession(host, {}, 0, body, map[], tr, next) == [Yielded(v, map[], tr + [ReadGlobal("value")])]
            && FrameSession(host, Emitted(g), 1, NewFrame(entry, map[]), tr, next) == [Yielded(Unit, map[], tr)]
  {
    var body := Yield(None, Name("value"));
    var next := [Input([], Unit)];
    GlobalYielded(host, v, tr);
    g := Graph(map[1 := Node(YieldBody(Name("value"), COMPLETED, FAILED), FAILED)], 1, 0);
    entry := 1;
    YieldCompiled(g);
    assert !Clean({}, body);
    hide PythonSession, FrameSession, CompileBody, Emitted, NewFrame, Node, YieldBody, Clean, IsGraph;
    EmittedYielded(host, g, tr);
  }

  lemma EmittedYielded(host: Host, g: Graph, tr: Trace)
    requires g == Graph(map[1 := Node(YieldBody(Name("value"), COMPLETED, FAILED), FAILED)], 1, 0)
    requires CompileBody({}, Yield(None, Name("value"))) == Done((1, g)) && IsGraph(g.nodes, 1)
    ensures FrameSession(host, Emitted(g), 1, NewFrame(1, map[]), tr, [Input([], Unit)]) == [Yielded(Unit, map[], tr)]
  {
    hide FrameSession, CompileBody, NewFrame, ResumeOf, LowerNodes, Node, YieldBody, IsGraph, TC.LowerStmt;
    NodesUnchanged(g);
    EmittedIsFrame(host, {}, Yield(None, Name("value")), 1, g, map[], tr, [Input([], Unit)]);
    SentYielded(host, g, tr);
  }

  lemma NodesUnchanged(g: Graph)
    requires g == Graph(map[1 := Node(YieldBody(Name("value"), COMPLETED, FAILED), FAILED)], 1, 0)
    ensures LowerNodes(g.nodes) == g.nodes
  {
    NodeLowers(YieldBody(Name("value"), COMPLETED, FAILED), FAILED);
    YieldLowers(Name("value"), COMPLETED, FAILED);
    hide TC.LowerStmt, Node, YieldBody;
    assert TC.Lower(Name("value")) == Name("value");
  }

  lemma YieldCompiled(g: Graph)
    requires g == Graph(map[1 := Node(YieldBody(Name("value"), COMPLETED, FAILED), FAILED)], 1, 0)
    ensures CompileBody({}, Yield(None, Name("value"))) == Done((1, g)) && IsGraph(g.nodes, 1)
  {
    var body := Yield(None, Name("value"));
    assert Rewrite({}, Name("value")) == Name("value");
    assert Compile({}, body, TOP, 0, StartGraph({})) == CompileNode({}, body, TOP, 1, StartGraph({}));
    hide CompileNode, Compile, YieldBody, Node;
    GraphIsClosed({}, body);
  }

  lemma GlobalYielded(host: Host, v: Val, tr: Trace)
    requires host.answer(tr, ReadGlobal("value")) == Ok(v)
    ensures PythonSession(host, {}, 0, Yield(None, Name("value")), map[], tr, [Input([], Unit)]) ==
            [Yielded(v, map[], tr + [ReadGlobal("value")])]
  {
    var tr1 := tr + [ReadGlobal("value")];
    var start := Src(map[], tr, [], [], Unit);
    var out := Output(v, map[], tr1);
    assert [Input([], Unit)][1..] == [] && tr + [] == tr && [] + [out] == [out];
    assert ValueIn(host, {}, Name("value"), start) == (Ok(v), start.(tr := tr1));
    assert ExecJumps(host, {}, 0, Yield(None, Name("value")), start) ==
           (Core.Suspended, Src(map[], tr1, [], [out], Unit));
    OneYield(out);
  }

  lemma SentYielded(host: Host, g: Graph, tr: Trace)
    requires g == Graph(map[1 := Node(YieldBody(Name("value"), COMPLETED, FAILED), FAILED)], 1, 0)
             && IsGraph(g.nodes, 1)
    ensures FrameSession(host, ResumeOf(g.nodes, 1), 1, NewFrame(1, map[]), tr, [Input([], Unit)]) ==
            [Yielded(Unit, map[], tr)]
  {
    hide Node, YieldBody, ResumeOf;
    var next := [Input([], Unit)];
    assert next[1..] == [] && tr + [] == tr;
    GateStartsBody(host, g.nodes, 1, ResumeOf(g.nodes, 1), 1, 1, map[], tr, next);
    assert FirstGate(host, Unit, tr) == (Ok(Unit), tr);
    var st := St(Opened(1, map[], Unit, tr, []));
    var body := YieldBody(Name("value"), COMPLETED, FAILED);
    YieldRuns(host, Name("value"), COMPLETED, FAILED, st);
    assert EvalIn(host, st, Name("value")) == (Ok(Unit), st);
    var end := Run(host, 0, body, st);
    assert Selected(g.nodes, st.frame.pc) == Node(body, FAILED);
    NodeReturns(host, body, st);
    assert Drive(host, g.nodes, 1, st) == end;
    NoInputs(host, ResumeOf(g.nodes, 1), 1, end.1.frame, end.1.tr);
  }

  lemma NodeReturns(host: Host, body: Stmt, st: CoreSt)
    requires Run(host, 0, body, st).0.Returned?
    ensures Run(host, 0, Node(body, FAILED), st) == Run(host, 0, body, st)
  {}
}
