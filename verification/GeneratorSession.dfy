/** Whole sessions: what a caller sees over any sequence of resumes, from the compiled
resume function and from the structured semantics. */
module GeneratorSession {
  import opened Core
  import opened GeneratorSource
  import opened FrameCompiler
  import opened GeneratorMachine
  import opened GeneratorGraph
  import opened GeneratorSteps
  import opened GeneratorSimulation
  import opened GeneratorProtocol

  /** What one resume gives its caller. `Stopped` is a `StopIteration` that carries a
  return value; `Hole` ends the session; `Unfinished` means the fuel ran out. */
  datatype Outcome =
    | Yielded(v: Val, locals: map<string, Val>, tr: Trace)
    | Threw(exn: string, tr: Trace)
    | Stopped(v: Val, tr: Trace)
    | Hole(tag: string, tr: Trace)
    | Unfinished

  predicate Complete(results: seq<Outcome>) {
    Unfinished !in results
  }

  // ----- the compiled session -----

  function CallResume(host: Host, resume: Stmt, fuel: nat, frame: Frame, tr: Trace, input: Input): (Ctl, CoreSt) {
    Run(host, fuel, resume, CoreSt(ResumeVars(input.sent), frame, tr + input.between))
  }

  function FrameSession(host: Host, resume: Stmt, fuel: nat, frame: Frame, tr: Trace, inputs: seq<Input>): seq<Outcome>
    decreases |inputs|, 0
  {
    if inputs == [] then [] else
    var (ctl, st) := CallResume(host, resume, fuel, frame, tr, inputs[0]);
    AfterResume(host, resume, fuel, ctl, st, inputs[1..])
  }

  function AfterResume(host: Host, resume: Stmt, fuel: nat, ctl: Ctl, st: CoreSt, inputs: seq<Input>): seq<Outcome>
    decreases |inputs|, 1
  {
    match ctl
    case Returned(v) => [Yielded(v, st.frame.locals, st.tr)] + FrameSession(host, resume, fuel, st.frame, st.tr, inputs)
    case Raised(exn) => [Threw(exn, st.tr)] + FrameSession(host, resume, fuel, st.frame, st.tr, inputs)
    case Halted(l) => [Hole(l, st.tr)]
    case OutOfFuel => [Unfinished]
    case _ => [Hole("resume:fell-through", st.tr)]
  }

  // ----- the dispatch loop, one node at a time -----

  /** Run nodes until one ends the resume. */
  function Drive(host: Host, nodes: map<int, Stmt>, fuel: nat, st: CoreSt): (Ctl, CoreSt) {
    if fuel == 0 then (OutOfFuel, st) else
    var (ctl, st1) := Run(host, 0, Selected(nodes, st.frame.pc), st);
    if ctl == Normal then Drive(host, nodes, fuel - 1, st1) else (ctl, st1)
  }

  /** Whatever the program counter selects. */
  lemma SelectedRuns(host: Host, fuel: nat, nodes: map<int, Stmt>, n: nat, st: CoreSt)
    requires IsGraph(nodes, n) && Framed(st.frame)
    ensures var s := Selected(nodes, st.frame.pc);
            && Run(host, fuel, s, st) == Run(host, 0, s, st)
            && (var (ctl, st1) := Run(host, 0, s, st);
                && Framed(st1.frame)
                && (ctl == Normal || ctl.Returned? || ctl.Raised? || ctl.Halted?)
                && (ctl == Normal ==> st1.frame.state == st.frame.state)
                && (ctl.Returned? ==> st1.frame.state == Int(1))
                && (ctl.Raised? ==> st1.frame.state == Int(3)))
  {
    if st.frame.pc.i in nodes {
      NodeContains(host, fuel, nodes[st.frame.pc.i], st);
    } else {
      TerminalEnds(host, fuel, st);
    }
  }

  /** The emitted loop over the emitted dispatch chain drives the nodes. */
  lemma {:induction false} LoopDrives(host: Host, fuel: nat, nodes: map<int, Stmt>, n: nat, st: CoreSt)
    requires IsGraph(nodes, n) && Framed(st.frame)
    ensures Run(host, fuel, LoopForever(Dispatch(nodes, 1, n)), st) == Drive(host, nodes, fuel, st)
  {
    hide Run, Dispatch, Selected, LoopForever;
    LoopTurn(host, fuel, Dispatch(nodes, 1, n), st);
    if fuel > 0 {
      var dispatch := Dispatch(nodes, 1, n);
      DispatchSelects(host, fuel - 1, nodes, 1, n, st);
      SelectedRuns(host, fuel - 1, nodes, n, st);
      var (ctl, st1) := Run(host, fuel - 1, dispatch, st);
      if ctl == Normal {
        LoopDrives(host, fuel - 1, nodes, n, st1);
      }
    }
  }

  /** One turn of the dispatch loop; the chain neither breaks nor continues. */
  lemma LoopTurn(host: Host, fuel: nat, dispatch: Stmt, st: CoreSt)
    ensures Run(host, fuel, LoopForever(dispatch), st) ==
      if fuel == 0 then (OutOfFuel, st) else
      var (ctl, st1) := Run(host, fuel - 1, dispatch, st);
      if ctl == Normal || ctl == Continued then Run(host, fuel - 1, LoopForever(dispatch), st1)
      else (if ctl == Broke then Normal else ctl, st1)
  {
    TrueTest(host, st);
    assert st.(tr := st.tr) == st;
    hide EvalTest, Eval;
  }

  lemma TrueTest(host: Host, st: CoreSt)
    ensures EvalTest(host, Ctx(st.vars, {}, st.frame), Lit(Bool(true)), st.tr) == (Ok(Bool(true)), st.tr)
  {
  }

  function ResumeOf(nodes: map<int, Stmt>, n: nat): Stmt {
    ResumeBody(Dispatch(nodes, 1, n))
  }

  /** The protocol, over every frame and every resume: a resume is refused by the gate
  with the frame unchanged; otherwise it returns with the frame in state 1, raises with it
  in state 3, is a named hole, or runs out of fuel. */
  lemma ResumeProtocol(host: Host, fuel: nat, nodes: map<int, Stmt>, n: nat, frame: Frame, tr: Trace, input: Input)
    requires IsGraph(nodes, n) && Framed(frame)
    ensures var (gate, tr1) := Gate(host, frame, input.sent, tr + input.between);
            var (ctl, st) := CallResume(host, ResumeOf(nodes, n), fuel, frame, tr, input);
            && Framed(st.frame)
            && if !gate.Ok? then ctl == Abort(gate) && st.frame == frame
               else (ctl.Returned? && st.frame.state == Int(1)) || (ctl.Raised? && st.frame.state == Int(3))
                    || ctl.Halted? || ctl == OutOfFuel
    ensures frame.state == Int(3) ==>
            CallResume(host, ResumeOf(nodes, n), fuel, frame, tr, input).0 == Raised("StopIteration")
    ensures frame.state == Int(2) ==>
            CallResume(host, ResumeOf(nodes, n), fuel, frame, tr, input).0 == Raised("ValueError")
    ensures frame.state == Int(0) && input.sent != Unit && !OwnsUnequal(host, input.sent) ==>
              CallResume(host, ResumeOf(nodes, n), fuel, frame, tr, input).0 == Raised("TypeError")
  {
    var st := CoreSt(ResumeVars(input.sent), frame, tr + input.between);
    ResumeRuns(host, fuel, Dispatch(nodes, 1, n), st);
    var (gate, tr1) := Gate(host, frame, input.sent, st.tr);
    var entered := Entered(st.(tr := tr1));
    LoopDrives(host, fuel, nodes, n, entered);
    DriveEnds(host, nodes, n, fuel, entered);
  }

  lemma {:induction false} DriveEnds(host: Host, nodes: map<int, Stmt>, n: nat, fuel: nat, st: CoreSt)
    requires IsGraph(nodes, n) && Framed(st.frame)
    ensures var (ctl, st1) := Drive(host, nodes, fuel, st);
            && Framed(st1.frame)
            && ((ctl.Returned? && st1.frame.state == Int(1)) || (ctl.Raised? && st1.frame.state == Int(3))
                || ctl.Halted? || ctl == OutOfFuel)
  {
    if fuel > 0 {
      SelectedRuns(host, 0, nodes, n, st);
      var (ctl, st1) := Run(host, 0, Selected(nodes, st.frame.pc), st);
      if ctl == Normal {
        DriveEnds(host, nodes, n, fuel - 1, st1);
      }
    }
  }

  // ----- sessions and steps -----

  function Yields(outs: seq<Output>): seq<Outcome> {
    seq(|outs|, i requires 0 <= i < |outs| => Yielded(outs[i].v, outs[i].locals, outs[i].tr))
  }

  /** What is left of a session when the stepping machine has stopped. */
  function Rest(host: Host, resume: Stmt, fuel: nat, c: Cfg): seq<Outcome> {
    if c.mode.Ended? then AfterResume(host, resume, fuel, c.mode.ctl, St(c), c.inputs) else []
  }

  /** One step, and what it means for the resume that is running. */
  lemma OneMove(host: Host, nodes: map<int, Stmt>, n: nat, now: nat, k: nat, c: Cfg) returns (ctl: Ctl, st: CoreSt,
                c1: Cfg)
    requires IsGraph(nodes, n) && Framed(c.frame) && c.mode == Running
    requires Steps(host, nodes, k, c).mode != Running && k < now
    ensures k > 0 && c1 == Step(host, nodes, c) && Steps(host, nodes, k, c) == Steps(host, nodes, k - 1, c1)
    ensures Framed(st.frame) && (ctl == Normal || ctl.Returned? || ctl.Raised? || ctl.Halted?)
    ensures Drive(host, nodes, now, St(c)) == if ctl == Normal then Drive(host, nodes, now - 1, st) else (ctl, st)
    ensures ctl == Normal ==> c1 == Moved(c, st) && St(c1) == st
    ensures ctl.Returned? ==>
              var c2 := Moved(c, st).(outs := c.outs + [Output(ctl.v, st.frame.locals, st.tr)]);
              st.frame.state == Int(1) && c1 == if c.inputs == [] then c2.(mode := Waiting) else Enter(c2)
    ensures ctl.Raised? || ctl.Halted? ==> c1 == Moved(c, st).(mode := Ended(ctl)) && St(c1) == st
  {
    SelectedRuns(host, 0, nodes, n, St(c));
    hide Run, Selected, IsGraph;
    var r := Run(host, 0, Selected(nodes, c.frame.pc), St(c));
    ctl, st := r.0, r.1;
    c1 := Step(host, nodes, c);
  }

  /** Steps across resumes are the session: the current resume has `now` fuel left, later
  ones `fuel`. */
  lemma {:induction false} StepsAreSession(host: Host, nodes: map<int, Stmt>, n: nat, resume: Stmt, now: nat,
                                           fuel: nat, k: nat, c: Cfg)
    requires IsGraph(nodes, n) && Framed(c.frame) && c.mode == Running && resume == ResumeOf(nodes, n)
    requires Steps(host, nodes, k, c).mode != Running && k < now && k < fuel
    ensures var (ctl, st) := Drive(host, nodes, now, St(c));
            var c' := Steps(host, nodes, k, c);
            && c.outs <= c'.outs
            && AfterResume(host, resume, fuel, ctl, st, c.inputs) ==
               Yields(c'.outs[|c.outs|..]) + Rest(host, resume, fuel, c')
    decreases k
  {
    hide Run, Gate, IsGraph, Framed, Drive, Step, Steps, St, ResumeOf, FrameSession;
    var ctl, st, c1 := OneMove(host, nodes, n, now, k, c);
    var c' := Steps(host, nodes, k, c);
    if ctl == Normal {
      StepsAreSession(host, nodes, n, resume, now - 1, fuel, k - 1, c1);
    } else if ctl.Returned? {
      var out := Output(ctl.v, st.frame.locals, st.tr);
      assert c1.outs == c.outs + [out];
      if c.inputs != [] {
        NextResume(host, nodes, n, resume, fuel, c, ctl.v, st, c1);
        StepsAreSession(host, nodes, n, resume, fuel, fuel, k - 1, c1);
      } else {
        StepsStay(host, nodes, k - 1, c1);
        NoInputs(host, resume, fuel, st.frame, st.tr);
      }
      assert c'.outs[|c.outs|..] == [out] + c'.outs[|c1.outs|..];
      YieldsCons(out, c'.outs[|c1.outs|..]);
    } else {
      StepsStay(host, nodes, k - 1, c1);
      assert c1.outs[|c.outs|..] == [];
    }
  }

  lemma NoInputs(host: Host, resume: Stmt, fuel: nat, frame: Frame, tr: Trace)
    ensures FrameSession(host, resume, fuel, frame, tr, []) == []
  {
  }

  lemma YieldsCons(out: Output, outs: seq<Output>)
    ensures Yields([out] + outs) == [Yielded(out.v, out.locals, out.tr)] + Yields(outs)
  {
  }

  /** After a suspension the next input enters the loop directly: state 1 passes the gate. */
  lemma NextResume(host: Host, nodes: map<int, Stmt>, n: nat, resume: Stmt, fuel: nat, c: Cfg, v: Val, st: CoreSt,
                   c1: Cfg)
    requires IsGraph(nodes, n) && Framed(st.frame) && st.frame.state == Int(1) && c.inputs != []
             && resume == ResumeOf(nodes, n)
    requires c1 == Enter(Moved(c, st).(outs := c.outs + [Output(v, st.frame.locals, st.tr)]))
    ensures Framed(c1.frame)
    ensures var (ctl2, st2) := Drive(host, nodes, fuel, St(c1));
            FrameSession(host, resume, fuel, st.frame, st.tr, c.inputs) ==
            AfterResume(host, resume, fuel, ctl2, st2, c.inputs[1..])
  {
    var input := c.inputs[0];
    var start := CoreSt(ResumeVars(input.sent), st.frame, st.tr + input.between);
    ResumeRuns(host, fuel, Dispatch(nodes, 1, n), start);
    LoopDrives(host, fuel, nodes, n, Entered(start));
    assert Entered(start.(tr := start.tr)) == St(c1);
  }
}
