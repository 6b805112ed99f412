/** The resume function as emitted, run by the Core interpreter. */
module GeneratorProtocol {
  import opened Core
  import opened GeneratorSource
  import opened FrameCompiler
  import opened GeneratorMachine
  import opened GeneratorGraph

  // ----- the emitted resume function -----

  /** The chain of tests that selects a node, in the order of the indices from `i` to `n`. */
  function Dispatch(nodes: map<int, Stmt>, i: nat, n: nat): Stmt
    decreases n + 1 - i
  {
    if i > n then TERMINAL
    else if i !in nodes then Dispatch(nodes, i + 1, n)
    else Ifte(Equal(Field(Pc), Lit(Int(i))), nodes[i], Dispatch(nodes, i + 1, n))
  }

  function LoopForever(dispatch: Stmt): Stmt {
    Loop(Lit(Bool(true)), dispatch)
  }

  function RunBody(dispatch: Stmt): Stmt {
    Seq(SetField(Sent, Name("value")),
        Seq(SetField(State, Lit(Int(2))),
            Seq(LoopForever(dispatch), Skip)))
  }

  function ResumeBody(dispatch: Stmt): Stmt {
    Ifte(Equal(Field(State), Lit(Int(3))), RaiseClass("StopIteration"),
         Ifte(Equal(Field(State), Lit(Int(2))), RaiseClass("ValueError"),
              Ifte(And(Equal(Field(State), Lit(Int(0))), Unequal(Name("value"), Lit(Unit))),
                   RaiseClass("TypeError"), RunBody(dispatch))))
  }

  /** A frame as the protocol keeps it: its program counter and state are integers. */
  predicate Framed(f: Frame) {
    f.pc.Int? && f.state.Int?
  }

  ghost predicate IsGraph(nodes: map<int, Stmt>, n: nat) {
    && (forall i: int :: i in nodes <==> 1 <= i <= n)
    && (forall i | i in nodes :: IsNode(nodes[i]))
  }

  // ----- one node -----

  lemma SlotTest(host: Host, slot: Slot, i: int, st: CoreSt)
    requires (slot == Pc && st.frame.pc.Int?) || (slot == State && st.frame.state.Int?)
    ensures EvalTest(host, Ctx(st.vars, {}, st.frame), Equal(Field(slot), Lit(Int(i))), st.tr) ==
            (Ok(Bool(GetSlot(st.frame, slot) == Some(Int(i)))), st.tr)
  {
    var ctx := Ctx(st.vars, {}, st.frame);
    assert Eval(host, ctx, Field(slot), st.tr) == (Ok(GetSlot(st.frame, slot).value), st.tr);
    assert Eval(host, ctx, Lit(Int(i)), st.tr) == (Ok(Int(i)), st.tr);
  }

  /** The dispatch chain runs exactly the node at the program counter. */
  lemma {:induction false} DispatchSelects(host: Host, fuel: nat, nodes: map<int, Stmt>, i: nat, n: nat, st: CoreSt)
    requires 1 <= i && (forall j: int :: j in nodes <==> 1 <= j <= n) && st.frame.pc.Int?
    requires st.frame.pc.i < i ==> st.frame.pc.i !in nodes
    ensures Run(host, fuel, Dispatch(nodes, i, n), st) == Run(host, fuel, Selected(nodes, st.frame.pc), st)
    decreases n + 1 - i
  {
    hide EvalTest, Eval, TERMINAL;
    if i <= n {
      SlotTest(host, Pc, i, st);
      assert st.(tr := st.tr) == st;
      if st.frame.pc.i != i {
        DispatchSelects(host, fuel, nodes, i + 1, n, st);
      }
    }
  }

  /** A plain body ends normally, raises or meets a hole, and leaves the state alone. */
  lemma {:induction false} PlainRuns(host: Host, fuel: nat, s: Stmt, st: CoreSt)
    requires Plain(s) && Framed(st.frame)
    ensures Run(host, fuel, s, st) == Run(host, 0, s, st)
    ensures var (ctl, st1) := Run(host, 0, s, st);
            (ctl == Normal || ctl.Raised? || ctl.Halted?) && Framed(st1.frame) && st1.frame.state == st.frame.state
  {
    hide EvalTest, Eval;
    match s
    case Seq(a, b) =>
      PlainRuns(host, fuel, a, st);
      var (ctl, st1) := Run(host, 0, a, st);
      if ctl == Normal {
        PlainRuns(host, fuel, b, st1);
      }
    case Ifte(c, t, e) =>
      var (test, tr1) := EvalTest(host, Ctx(st.vars, {}, st.frame), c, st.tr);
      PlainRuns(host, fuel, t, st.(tr := tr1));
      PlainRuns(host, fuel, e, st.(tr := tr1));
    case SetField(slot, e) => PlainSet(host, fuel, slot, e, st);
    case _ =>
  }

  lemma PlainSet(host: Host, fuel: nat, slot: Slot, e: Expr, st: CoreSt)
    requires Plain(SetField(slot, e)) && Framed(st.frame)
    ensures Run(host, fuel, SetField(slot, e), st) == Run(host, 0, SetField(slot, e), st)
    ensures var (ctl, st1) := Run(host, 0, SetField(slot, e), st);
            (ctl == Normal || ctl.Raised? || ctl.Halted?) && Framed(st1.frame) && st1.frame.state == st.frame.state
  {
  }

  lemma SuspensionRuns(host: Host, fuel: nat, body: Stmt, st: CoreSt)
    requires IsSuspension(body) && Framed(st.frame)
    ensures Run(host, fuel, body, st) == Run(host, 0, body, st)
    ensures var (ctl, st1) := Run(host, 0, body, st);
            && (ctl.Returned? || ctl.Raised? || ctl.Halted?) && Framed(st1.frame)
            && st1.frame.state == if ctl.Returned? then Int(1) else st.frame.state
  {
    var e, resume, exceptional :| body == YieldBody(e, resume, exceptional);
    YieldRuns(host, e, resume, exceptional, st);
    SuspensionFuel(host, fuel, e, resume, exceptional, st);
  }

  lemma SuspensionFuel(host: Host, fuel: nat, e: Expr, resume: int, exceptional: int, st: CoreSt)
    ensures Run(host, fuel, YieldBody(e, resume, exceptional), st) ==
            Run(host, 0, YieldBody(e, resume, exceptional), st)
  {
    hide EvalTest, Eval;
    var a := Run(host, 0, Assign("<yielded>", e), st).1;
    var b := Run(host, 0, Goto(resume), a).1;
    var c := Run(host, 0, SetField(Handler, Lit(Int(exceptional))), b).1;
    var d := Run(host, 0, SetField(State, Lit(Int(1))), c).1;
    var s1 := Seq(Ret(Name("<yielded>")), Skip);
    var s2 := Seq(SetField(State, Lit(Int(1))), s1);
    var s3 := Seq(SetField(Handler, Lit(Int(exceptional))), s2);
    assert Run(host, fuel, Assign("<yielded>", e), st) == Run(host, 0, Assign("<yielded>", e), st);
    assert Run(host, fuel, Ret(Name("<yielded>")), d) == Run(host, 0, Ret(Name("<yielded>")), d);
    assert Run(host, fuel, s1, d) == Run(host, 0, s1, d);
    assert Run(host, fuel, SetField(State, Lit(Int(1))), c) == Run(host, 0, SetField(State, Lit(Int(1))), c);
    assert Run(host, fuel, s2, c) == Run(host, 0, s2, c);
    assert Run(host, fuel, SetField(Handler, Lit(Int(exceptional))), b) ==
           Run(host, 0, SetField(Handler, Lit(Int(exceptional))), b);
    assert Run(host, fuel, s3, b) == Run(host, 0, s3, b);
    assert Run(host, fuel, Goto(resume), a) == Run(host, 0, Goto(resume), a);
    assert Run(host, fuel, Seq(Goto(resume), s3), a) == Run(host, 0, Seq(Goto(resume), s3), a);
  }

  /** No exception escapes an instruction node, and only a suspension returns, with the
  frame in state 1. */
  lemma NodeContains(host: Host, fuel: nat, s: Stmt, st: CoreSt)
    requires IsNode(s) && Framed(st.frame)
    ensures Run(host, fuel, s, st) == Run(host, 0, s, st)
    ensures var (ctl, st1) := Run(host, 0, s, st);
            && (ctl == Normal || ctl.Returned? || ctl.Halted?) && Framed(st1.frame)
            && st1.frame.state == if ctl.Returned? then Int(1) else st.frame.state
  {
    var body, exceptional :| s == Node(body, exceptional) && (Plain(body) || IsSuspension(body));
    if Plain(body) {
      PlainRuns(host, fuel, body, st);
    } else {
      SuspensionRuns(host, fuel, body, st);
    }
    var handler := Seq2(SetField(Exception, Name("<caught>")), Goto(exceptional));
    var (ctl, st1) := Run(host, 0, body, st);
    hide EvalTest, Eval, Plain, IsSuspension;
    if ctl.Raised? {
      var st2 := st1.(vars := st1.vars["<caught>" := Str(ctl.exn)]);
      HandlerRuns(host, st2, exceptional);
      HandlerPlain(exceptional);
      PlainRuns(host, fuel, handler, st2);
    }
  }

  lemma HandlerPlain(exceptional: int)
    ensures Plain(Seq2(SetField(Exception, Name("<caught>")), Goto(exceptional)))
  {
    assert Plain(Goto(exceptional)) && Plain(Skip);
    assert Plain(Seq(Goto(exceptional), Skip));
  }

  // ----- the terminals -----

  /** What becomes of the recorded return value: it is compared with unit. */
  function ReturnTest(host: Host, ret: Val, tr: Trace): (Ctl, Trace) {
    var (same, tr1) := EqualVals(host, ret, Unit, tr);
    if !same.Ok? then (Abort(same), tr1) else
    var (test, tr2) := Truth(host, same.v, tr1);
    if !test.Ok? then (Abort(test), tr2)
    else (if PlainTruth(test.v) then Raised("StopIteration") else Halted("generator:return-value"), tr2)
  }

  function CompleteWith(host: Host, st: CoreSt): (Ctl, CoreSt) {
    var (ctl, tr1) := ReturnTest(host, st.frame.ret, st.tr);
    (ctl, st.(frame := st.frame.(state := Int(3)), tr := tr1))
  }

  lemma CompleteRuns(host: Host, fuel: nat, st: CoreSt)
    requires st.frame.pc == Int(COMPLETED)
    ensures Run(host, fuel, TERMINAL, st) == CompleteWith(host, st)
  {
    SlotTest(host, Pc, COMPLETED, st);
    assert st.(tr := st.tr) == st;
    assert Run(host, fuel, TERMINAL, st) == Run(host, fuel, COMPLETE, st);
    var done := st.(frame := WithSlot(st.frame, State, Int(3)));
    assert Run(host, fuel, SetField(State, Lit(Int(3))), st) == (Normal, done);
    var test := Equal(Field(Return), Lit(Unit));
    var ctx := Ctx(done.vars, {}, done.frame);
    assert Eval(host, ctx, Field(Return), done.tr) == (Ok(done.frame.ret), done.tr);
    assert Eval(host, ctx, Lit(Unit), done.tr) == (Ok(Unit), done.tr);
    assert Eval(host, ctx, test, done.tr) == EqualVals(host, done.frame.ret, Unit, done.tr);
    var branch := Ifte(test, RaiseClass("StopIteration"), HoleS("generator:return-value"));
    var end := CompleteWith(host, st);
    var tr2 := EvalTest(host, ctx, test, done.tr).1;
    assert Run(host, fuel, RaiseClass("StopIteration"), done.(tr := tr2)) ==
           (Raised("StopIteration"), done.(tr := tr2));
    assert Run(host, fuel, branch, done) == end;
    assert end.0 != Normal;
    assert Run(host, fuel, Seq(branch, Skip), done) == end;
  }

  lemma FailRuns(host: Host, fuel: nat, st: CoreSt, exn: string)
    requires st.frame.pc == Int(FAILED) && st.frame.exn == Some(Str(exn))
    ensures Run(host, fuel, TERMINAL, st) ==
            (Raised(if exn == "StopIteration" then "RuntimeError" else exn), st.(frame := st.frame.(state := Int(3))))
  {
    FailSelected(host, fuel, st);
    var done := st.(frame := WithSlot(st.frame, State, Int(3)));
    assert Run(host, fuel, SetField(State, Lit(Int(3))), st) == (Normal, done);
    RaisesAgain(host, fuel, done, exn);
  }

  lemma FailSelected(host: Host, fuel: nat, st: CoreSt)
    requires st.frame.pc == Int(FAILED)
    ensures Run(host, fuel, TERMINAL, st) == Run(host, fuel, FAIL, st)
  {
    SlotTest(host, Pc, COMPLETED, st);
    SlotTest(host, Pc, FAILED, st);
    assert st.(tr := st.tr) == st;
  }

  lemma RaisesAgain(host: Host, fuel: nat, done: CoreSt, exn: string)
    requires done.frame.exn == Some(Str(exn))
    ensures var branch := Ifte(Equal(Field(Exception), Lit(Str("StopIteration"))), RaiseClass("RuntimeError"),
        RaiseS(Field(Exception)));
            Run(host, fuel, Seq(branch, Skip), done) ==
              (Raised(if exn == "StopIteration" then "RuntimeError" else exn), done)
  {
    var test := Equal(Field(Exception), Lit(Str("StopIteration")));
    var ctx := Ctx(done.vars, {}, done.frame);
    assert Eval(host, ctx, Field(Exception), done.tr) == (Ok(Str(exn)), done.tr);
    assert Eval(host, ctx, Lit(Str("StopIteration")), done.tr) == (Ok(Str("StopIteration")), done.tr);
    assert Eval(host, ctx, test, done.tr) == (Ok(Bool(Str(exn) == Str("StopIteration"))), done.tr);
    var branch := Ifte(test, RaiseClass("RuntimeError"), RaiseS(Field(Exception)));
    var end := (Raised(if exn == "StopIteration" then "RuntimeError" else exn), done);
    assert done.(tr := done.tr) == done;
    assert Run(host, fuel, RaiseClass("RuntimeError"), done) == (Raised("RuntimeError"), done);
    assert Run(host, fuel, RaiseS(Field(Exception)), done) == (Raised(exn), done);
    assert Run(host, fuel, branch, done) == end;
    assert Run(host, fuel, Seq(branch, Skip), done) == end;
  }

  lemma EscapeRuns(host: Host, fuel: nat, st: CoreSt)
    requires st.frame.pc.Int? && st.frame.pc.i != COMPLETED && st.frame.pc.i != FAILED
    ensures Run(host, fuel, TERMINAL, st) == (Halted("generator:invalid-continuation"), st)
  {
    SlotTest(host, Pc, COMPLETED, st);
    SlotTest(host, Pc, FAILED, st);
    assert st.(tr := st.tr) == st;
    var inner := Ifte(Equal(Field(Pc), Lit(Int(FAILED))), FAIL, HoleS("generator:invalid-continuation"));
    hide EvalTest, Eval, FAIL, COMPLETE;
    assert Run(host, fuel, inner, st) == Run(host, fuel, HoleS("generator:invalid-continuation"), st);
  }

  /** A terminal ends the resume for good: it raises with the frame finished, or it is a
  named hole. */
  lemma TerminalEnds(host: Host, fuel: nat, st: CoreSt)
    requires Framed(st.frame)
    ensures Run(host, fuel, TERMINAL, st) == Run(host, 0, TERMINAL, st)
    ensures var (ctl, st1) := Run(host, 0, TERMINAL, st);
            (ctl.Raised? && st1.frame.state == Int(3)) || ctl.Halted?
    ensures Framed(Run(host, 0, TERMINAL, st).1.frame)
  {
    var pc := st.frame.pc.i;
    if pc == COMPLETED {
      CompleteRuns(host, fuel, st);
      CompleteRuns(host, 0, st);
    } else if pc == FAILED {
      FailEnds(host, fuel, st);
      FailEnds(host, 0, st);
      SlotTest(host, Pc, COMPLETED, st);
      SlotTest(host, Pc, FAILED, st);
      assert st.(tr := st.tr) == st;
      hide EvalTest, Eval, FAIL, COMPLETE;
      var inner := Ifte(Equal(Field(Pc), Lit(Int(FAILED))), FAIL, HoleS("generator:invalid-continuation"));
      assert Run(host, fuel, inner, st) == Run(host, fuel, FAIL, st);
      assert Run(host, 0, inner, st) == Run(host, 0, FAIL, st);
    } else {
      EscapeRuns(host, fuel, st);
      EscapeRuns(host, 0, st);
    }
  }

  lemma FailEnds(host: Host, fuel: nat, st: CoreSt)
    requires Framed(st.frame)
    ensures Run(host, fuel, FAIL, st) == Run(host, 0, FAIL, st)
    ensures var (ctl, st1) := Run(host, 0, FAIL, st);
            ((ctl.Raised? && st1.frame.state == Int(3)) || ctl.Halted?) && Framed(st1.frame)
  {
    var done := st.(frame := WithSlot(st.frame, State, Int(3)));
    assert Run(host, fuel, SetField(State, Lit(Int(3))), st) == (Normal, done);
    assert Run(host, 0, SetField(State, Lit(Int(3))), st) == (Normal, done);
    var test := Equal(Field(Exception), Lit(Str("StopIteration")));
    var branch := Ifte(test, RaiseClass("RuntimeError"), RaiseS(Field(Exception)));
    hide EvalTest, Eval;
    PlainRuns(host, fuel, branch, done);
    var (reply, tr1) := EvalTest(host, Ctx(done.vars, {}, done.frame), test, done.tr);
    RaiseNeverNormal(host, Lit(Str("RuntimeError")), done.(tr := tr1));
    RaiseNeverNormal(host, Field(Exception), done.(tr := tr1));
    assert Run(host, 0, branch, done).0 != Normal;
    assert Run(host, fuel, Seq(branch, Skip), done) == Run(host, fuel, branch, done);
    assert Run(host, 0, Seq(branch, Skip), done) == Run(host, 0, branch, done);
  }

  lemma RaiseNeverNormal(host: Host, e: Expr, st: CoreSt)
    ensures Run(host, 0, RaiseS(e), st).0 != Normal
  {
  }

  // ----- the gate -----

  /** The frame a resume enters the dispatch loop with. */
  function Entered(st: CoreSt): CoreSt
    requires "value" in st.vars
  {
    st.(frame := st.frame.(sent := Some(st.vars["value"]), state := Int(2)))
  }

  lemma RunBodyRuns(host: Host, fuel: nat, dispatch: Stmt, st: CoreSt)
    requires "value" in st.vars
    ensures Run(host, fuel, RunBody(dispatch), st) == Run(host, fuel, LoopForever(dispatch), Entered(st))
  {
    var a := st.(frame := WithSlot(st.frame, Sent, st.vars["value"]));
    var b := a.(frame := WithSlot(a.frame, State, Int(2)));
    assert Run(host, fuel, SetField(Sent, Name("value")), st) == (Normal, a);
    assert Run(host, fuel, SetField(State, Lit(Int(2))), a) == (Normal, b);
    hide LoopForever, Eval, EvalTest;
    var inner := Run(host, fuel, LoopForever(dispatch), b);
    var s1 := Seq(LoopForever(dispatch), Skip);
    assert Run(host, fuel, Skip, inner.1) == (Normal, inner.1);
    assert Run(host, fuel, s1, b) == inner;
    assert Run(host, fuel, Seq(SetField(State, Lit(Int(2))), s1), a) == inner;
  }

  lemma UnsentTest(host: Host, st: CoreSt)
    requires "value" in st.vars && Framed(st.frame)
    ensures var test := And(Equal(Field(State), Lit(Int(0))), Unequal(Name("value"), Lit(Unit)));
            EvalTest(host, Ctx(st.vars, {}, st.frame), test, st.tr) ==
            if st.frame.state != Int(0) then (Ok(Bool(false)), st.tr) else
            var (differs, tr1) := UnequalVals(host, st.vars["value"], Unit, st.tr);
            if differs.Ok? then Truth(host, differs.v, tr1) else (differs, tr1)
  {
    var ctx := Ctx(st.vars, {}, st.frame);
    var a, b := Equal(Field(State), Lit(Int(0))), Unequal(Name("value"), Lit(Unit));
    assert Eval(host, ctx, Field(State), st.tr) == (Ok(st.frame.state), st.tr);
    assert Eval(host, ctx, Lit(Int(0)), st.tr) == (Ok(Int(0)), st.tr);
    assert Eval(host, ctx, a, st.tr) == (Ok(Bool(st.frame.state == Int(0))), st.tr);
    assert Eval(host, ctx, Name("value"), st.tr) == (Ok(st.vars["value"]), st.tr);
    assert Eval(host, ctx, Lit(Unit), st.tr) == (Ok(Unit), st.tr);
    assert Eval(host, ctx, b, st.tr) == UnequalVals(host, st.vars["value"], Unit, st.tr);
  }

  /** A resume is refused exactly as the gate says, leaving the frame as it was, and
  otherwise runs the dispatch loop. */
  lemma ResumeRuns(host: Host, fuel: nat, dispatch: Stmt, st: CoreSt)
    requires "value" in st.vars && Framed(st.frame)
    ensures var (gate, tr1) := Gate(host, st.frame, st.vars["value"], st.tr);
            Run(host, fuel, ResumeBody(dispatch), st) ==
            if gate.Ok? then Run(host, fuel, LoopForever(dispatch), Entered(st.(tr := tr1)))
            else (Abort(gate), st.(tr := tr1))
  {
    SlotTest(host, State, 3, st);
    SlotTest(host, State, 2, st);
    UnsentTest(host, st);
    var test := And(Equal(Field(State), Lit(Int(0))), Unequal(Name("value"), Lit(Unit)));
    var (reply, tr1) := EvalTest(host, Ctx(st.vars, {}, st.frame), test, st.tr);
    var st1 := st.(tr := tr1);
    RunBodyRuns(host, fuel, dispatch, st1);
    assert st.(tr := st.tr) == st;
    RaiseClassRuns(host, fuel, "StopIteration", st);
    RaiseClassRuns(host, fuel, "ValueError", st);
    RaiseClassRuns(host, fuel, "TypeError", st1);
    TruthIsBool(host);
    hide EvalTest, Eval, RunBody, LoopForever, RaiseClass;
    var third := Ifte(test, RaiseClass("TypeError"), RunBody(dispatch));
    var second := Ifte(Equal(Field(State), Lit(Int(2))), RaiseClass("ValueError"), third);
    assert Run(host, fuel, third, st) ==
           (if !reply.Ok? then (Abort(reply), st1)
            else if PlainTruth(reply.v) then (Raised("TypeError"), st1)
            else Run(host, fuel, RunBody(dispatch), st1));
    assert Run(host, fuel, second, st) ==
           if st.frame.state == Int(2) then (Raised("ValueError"), st) else Run(host, fuel, third, st);
  }

  lemma RaiseClassRuns(host: Host, fuel: nat, name: string, st: CoreSt)
    ensures Run(host, fuel, RaiseClass(name), st) == (Raised(name), st)
  {
  }

  lemma TruthIsBool(host: Host)
    ensures forall v, tr :: Truth(host, v, tr).0.Ok? ==> Truth(host, v, tr).0.v.Bool?
  {
  }
}
