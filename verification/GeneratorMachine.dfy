/** The compiled generator at work: one dispatch step runs the node at the frame's
program counter, or the terminal when there is none. */
module GeneratorMachine {
  import opened Core
  import opened GeneratorSource
  import opened FrameCompiler

  // ----- the terminals and the dispatch chain -----

  function RaiseClass(name: string): Stmt {
    RaiseS(Lit(Str(name)))
  }

  const COMPLETE: Stmt :=
    Seq2(SetField(State, Lit(Int(3))),
         Ifte(Equal(Field(Return), Lit(Unit)), RaiseClass("StopIteration"), HoleS("generator:return-value")))

  const FAIL: Stmt :=
    Seq2(SetField(State, Lit(Int(3))),
         Ifte(Equal(Field(Exception), Lit(Str("StopIteration"))), RaiseClass("RuntimeError"), RaiseS(Field(Exception))))

  const TERMINAL: Stmt :=
    Ifte(Equal(Field(Pc), Lit(Int(COMPLETED))), COMPLETE,
         Ifte(Equal(Field(Pc), Lit(Int(FAILED))), FAIL, HoleS("generator:invalid-continuation")))

  /** What the dispatch chain selects for a program counter. */
  function Selected(nodes: map<int, Stmt>, pc: Val): Stmt {
    if pc.Int? && pc.i in nodes then nodes[pc.i] else TERMINAL
  }

  // ----- configurations -----

  datatype Mode = Running | Waiting | Ended(ctl: Ctl)

  /** A frame being driven by a list of inputs. `vars` are the resume function's own
  variables. */
  datatype Cfg = Cfg(mode: Mode, frame: Frame, vars: map<string, Val>, tr: Trace, inputs: seq<Input>, outs: seq<Output>)

  function ResumeVars(sent: Val): map<string, Val> {
    map["self" := Unit, "value" := sent]
  }

  /** Begin running a frame that the gate has admitted. */
  function Enter(c: Cfg): Cfg
    requires c.inputs != []
  {
    var input := c.inputs[0];
    Cfg(Running, c.frame.(sent := Some(input.sent), state := Int(2)), ResumeVars(input.sent),
        c.tr + input.between, c.inputs[1..], c.outs)
  }

  function St(c: Cfg): CoreSt {
    CoreSt(c.vars, c.frame, c.tr)
  }

  function Moved(c: Cfg, st: CoreSt): Cfg {
    c.(vars := st.vars, frame := st.frame, tr := st.tr)
  }

  /** One iteration of the dispatch loop, and after a suspension the next resume. */
  function Step(host: Host, nodes: map<int, Stmt>, c: Cfg): Cfg {
    if c.mode != Running then c else
    var (ctl, st) := Run(host, 0, Selected(nodes, c.frame.pc), St(c));
    var c1 := Moved(c, st);
    match ctl
    case Normal => c1
    case Returned(v) =>
      var c2 := c1.(outs := c.outs + [Output(v, st.frame.locals, st.tr)]);
      if c.inputs == [] || st.frame.state != Int(1) then c2.(mode := Waiting) else Enter(c2)
    case _ => c1.(mode := Ended(ctl))
  }

  function Steps(host: Host, nodes: map<int, Stmt>, n: nat, c: Cfg): Cfg {
    if n == 0 then c else Steps(host, nodes, n - 1, Step(host, nodes, c))
  }

  lemma StepsAdd(host: Host, nodes: map<int, Stmt>, m: nat, n: nat, c: Cfg)
    ensures Steps(host, nodes, m + n, c) == Steps(host, nodes, n, Steps(host, nodes, m, c))
  {
  }

  lemma StepsStay(host: Host, nodes: map<int, Stmt>, n: nat, c: Cfg)
    requires c.mode != Running
    ensures Steps(host, nodes, n, c) == c
  {
  }

  // ----- running one node -----

  lemma NodeNormal(host: Host, nodes: map<int, Stmt>, c: Cfg, pc: int, body: Stmt, exceptional: int, st: CoreSt)
    requires c.mode == Running && c.frame.pc == Int(pc) && pc in nodes && nodes[pc] == Node(body, exceptional)
    requires Run(host, 0, body, St(c)) == (Normal, st)
    ensures Step(host, nodes, c) == Moved(c, st)
  {
  }

  /** The state after a node caught an exception. */
  function Caught(c: Cfg, st: CoreSt, exn: string, exceptional: int): Cfg {
    Moved(c, CoreSt(st.vars["<caught>" := Str(exn)],
                    st.frame.(exn := Some(Str(exn)), pc := Int(exceptional)), st.tr))
  }

  lemma HandlerRuns(host: Host, st: CoreSt, exceptional: int)
    requires "<caught>" in st.vars
    ensures Run(host, 0, Seq2(SetField(Exception, Name("<caught>")), Goto(exceptional)), st) ==
            (Normal, st.(frame := st.frame.(exn := Some(st.vars["<caught>"]), pc := Int(exceptional))))
  {
    var set1 := SetField(Exception, Name("<caught>"));
    var st1 := st.(frame := WithSlot(st.frame, Exception, st.vars["<caught>"]));
    assert Run(host, 0, set1, st) == (Normal, st1);
    var st2 := st1.(frame := WithSlot(st1.frame, Pc, Int(exceptional)));
    assert Run(host, 0, Goto(exceptional), st1) == (Normal, st2);
    assert Run(host, 0, Skip, st2) == (Normal, st2);
    assert Run(host, 0, Seq(Goto(exceptional), Skip), st1) == (Normal, st2);
  }

  lemma NodeRaised(host: Host, nodes: map<int, Stmt>, c: Cfg, pc: int, body: Stmt, exceptional: int, exn: string,
                   st: CoreSt)
    requires c.mode == Running && c.frame.pc == Int(pc) && pc in nodes && nodes[pc] == Node(body, exceptional)
    requires Run(host, 0, body, St(c)) == (Raised(exn), st)
    ensures Step(host, nodes, c) == Caught(c, st, exn, exceptional)
  {
    var handler := Seq2(SetField(Exception, Name("<caught>")), Goto(exceptional));
    var st1 := st.(vars := st.vars["<caught>" := Str(exn)]);
    HandlerRuns(host, st1, exceptional);
    assert Run(host, 0, Node(body, exceptional), St(c)) == Run(host, 0, handler, st1);
  }

  lemma NodeHalted(host: Host, nodes: map<int, Stmt>, c: Cfg, pc: int, body: Stmt, exceptional: int, hole: string,
                   st: CoreSt)
    requires c.mode == Running && c.frame.pc == Int(pc) && pc in nodes && nodes[pc] == Node(body, exceptional)
    requires Run(host, 0, body, St(c)) == (Halted(hole), st)
    ensures Step(host, nodes, c) == Moved(c, st).(mode := Ended(Halted(hole)))
  {
  }

  lemma NodeReturned(host: Host, nodes: map<int, Stmt>, c: Cfg, pc: int, body: Stmt, exceptional: int, v: Val,
                     st: CoreSt)
    requires c.mode == Running && c.frame.pc == Int(pc) && pc in nodes && nodes[pc] == Node(body, exceptional)
    requires Run(host, 0, body, St(c)) == (Returned(v), st) && st.frame.state == Int(1)
    ensures var c2 := Moved(c, st).(outs := c.outs + [Output(v, st.frame.locals, st.tr)]);
            Step(host, nodes, c) == if c.inputs == [] then c2.(mode := Waiting) else Enter(c2)
  {
  }

  // ----- running one instruction body -----

  /** `first; goto target`. */
  lemma ThenGoto(host: Host, first: Stmt, target: int, st: CoreSt)
    ensures Run(host, 0, Seq2(first, Goto(target)), st) ==
            var (ctl, st1) := Run(host, 0, first, st);
            if ctl == Normal then (Normal, st1.(frame := st1.frame.(pc := Int(target)))) else (ctl, st1)
  {
    var (ctl, st1) := Run(host, 0, first, st);
    if ctl == Normal {
      var st2 := st1.(frame := WithSlot(st1.frame, Pc, Int(target)));
      assert Run(host, 0, Goto(target), st1) == (Normal, st2);
      assert Run(host, 0, Skip, st2) == (Normal, st2);
      assert Run(host, 0, Seq(Goto(target), Skip), st1) == (Normal, st2);
    }
  }

  lemma BranchRuns(host: Host, c: Expr, yes: int, no: int, st: CoreSt)
    ensures Run(host, 0, Branch(c, yes, no), st) ==
            var (test, tr1) := EvalTest(host, Ctx(st.vars, {}, st.frame), c, st.tr);
            if !test.Ok? then (Abort(test), st.(tr := tr1))
            else (Normal, st.(tr := tr1, frame := st.frame.(pc := Int(if PlainTruth(test.v) then yes else no))))
  {
    var (test, tr1) := EvalTest(host, Ctx(st.vars, {}, st.frame), c, st.tr);
    if test.Ok? {
      var st1 := st.(tr := tr1);
      var target := if PlainTruth(test.v) then yes else no;
      assert Run(host, 0, Goto(target), st1) == (Normal, st1.(frame := WithSlot(st1.frame, Pc, Int(target))));
    }
  }

  /** A suspension evaluates its value first, and only then writes the frame. */
  lemma YieldRuns(host: Host, e: Expr, resume: int, exceptional: int, st: CoreSt)
    ensures Run(host, 0, YieldBody(e, resume, exceptional), st) ==
            var (r, st1) := EvalIn(host, st, e);
            if !r.Ok? then (Abort(r), st1)
            else (Returned(r.v), st1.(vars := st1.vars["<yielded>" := r.v],
                                      frame := st1.frame.(pc := Int(resume), handler := Some(Int(exceptional)), state := Int(1))))
  {
    var (r, st1) := EvalIn(host, st, e);
    if r.Ok? {
      var a := st1.(vars := st1.vars["<yielded>" := r.v]);
      var b := a.(frame := WithSlot(a.frame, Pc, Int(resume)));
      var c := b.(frame := WithSlot(b.frame, Handler, Int(exceptional)));
      var d := c.(frame := WithSlot(c.frame, State, Int(1)));
      assert Run(host, 0, Assign("<yielded>", e), st) == (Normal, a);
      assert Run(host, 0, Goto(resume), a) == (Normal, b);
      assert Run(host, 0, SetField(Handler, Lit(Int(exceptional))), b) == (Normal, c);
      assert Run(host, 0, SetField(State, Lit(Int(1))), c) == (Normal, d);
      assert Run(host, 0, Ret(Name("<yielded>")), d) == (Returned(r.v), d);
      var s1 := Seq(Ret(Name("<yielded>")), Skip);
      assert Run(host, 0, s1, d) == (Returned(r.v), d);
      var s2 := Seq(SetField(State, Lit(Int(1))), s1);
      assert Run(host, 0, s2, c) == (Returned(r.v), d);
      var s3 := Seq(SetField(Handler, Lit(Int(exceptional))), s2);
      assert Run(host, 0, s3, b) == (Returned(r.v), d);
      assert Run(host, 0, Seq(Goto(resume), s3), a) == (Returned(r.v), d);
    }
  }
}
