/** The main results about compiled generators. */
module GeneratorCorrectness {
  import opened Core
  import opened GeneratorSource
  import opened FrameCompiler
  import opened GeneratorMachine
  import opened GeneratorGraph
  import opened GeneratorSteps
  import opened GeneratorSimulation
  import opened GeneratorProtocol
  import opened GeneratorSession

  // ----- what the compiled generator should do -----

  /** The frame a call of the generator function allocates. */
  function NewFrame(entry: int, locals: map<string, Val>): Frame {
    Frame(Int(entry), Int(0), Unit, None, None, None, locals, map[])
  }

  /** A finished generator raises `StopIteration` for ever. */
  function Dead(tr: Trace, inputs: seq<Input>): seq<Outcome>
    decreases |inputs|
  {
    if inputs == [] then [] else
    [Threw("StopIteration", tr + inputs[0].between)] + Dead(tr + inputs[0].between, inputs[1..])
  }

  /** How the end of the body shows, by how the body was left. A `StopIteration` that
  leaves the body is a `RuntimeError` (PEP 479). A return value is reported through
  `ret`, what the generator recorded of it. */
  function EndOf(host: Host, ctl: Ctl, st: Src): seq<Outcome> {
    match ctl
    case Normal => Ending(ReturnTest(host, st.ret, st.tr), st.inputs)
    case Returned(_) => Ending(ReturnTest(host, st.ret, st.tr), st.inputs)
    case Raised(exn) => Ending((Raised(if exn == "StopIteration" then "RuntimeError" else exn), st.tr), st.inputs)
    case Halted(l) => [Hole(l, st.tr)]
    case Suspended => []
    case OutOfFuel => [Unfinished]
    case _ => [Hole("generator:invalid-continuation", st.tr)]
  }

  function Ending(end: (Ctl, Trace), inputs: seq<Input>): seq<Outcome> {
    match end.0
    case Raised(exn) => [Threw(exn, end.1)] + Dead(end.1, inputs)
    case Halted(l) => [Hole(l, end.1)]
    case _ => []
  }

  function FirstGate(host: Host, sent: Val, tr: Trace): (Reply, Trace) {
    Gate(host, NewFrame(0, map[]), sent, tr)
  }

  /** A session by the structured semantics, with the return value reported the way the
  compiled generator reports it. */
  function SourceSession(host: Host, declared: set<string>, fuel: nat, body: Stmt, locals: map<string, Val>,
                         tr: Trace, inputs: seq<Input>): seq<Outcome>
    decreases |inputs|
  {
    if inputs == [] then [] else
    var (gate, tr1) := FirstGate(host, inputs[0].sent, tr + inputs[0].between);
    match gate
    case Ok(_) =>
      var (ctl, st) := Exec(host, declared, fuel, body, Src(locals, tr1, inputs[1..], [], Unit));
      Yields(st.outs) + EndOf(host, ctl, st)
    case Raise(exn) => [Threw(exn, tr1)] + SourceSession(host, declared, fuel, body, locals, tr1, inputs[1..])
    case Stuck(l) => [Hole(l, tr1)]
  }

  // ----- ends -----

  lemma {:induction false} FinishedForever(host: Host, nodes: map<int, Stmt>, n: nat, resume: Stmt, fuel: nat,
                                           frame: Frame, tr: Trace, inputs: seq<Input>)
    requires IsGraph(nodes, n) && Framed(frame) && frame.state == Int(3) && resume == ResumeOf(nodes, n)
    ensures FrameSession(host, resume, fuel, frame, tr, inputs) == Dead(tr, inputs)
    decreases |inputs|
  {
    if inputs != [] {
      ResumeProtocol(host, fuel, nodes, n, frame, tr, inputs[0]);
      var st := CoreSt(ResumeVars(inputs[0].sent), frame, tr + inputs[0].between);
      ResumeRuns(host, fuel, Dispatch(nodes, 1, n), st);
      FinishedForever(host, nodes, n, resume, fuel, frame, tr + inputs[0].between, inputs[1..]);
    }
  }

  /** After the body is left, one more step runs a terminal and ends the resume. */
  lemma TerminalStep(host: Host, nodes: map<int, Stmt>, n: nat, declared: set<string>, ctl: Ctl, st: Src, c: Cfg)
    requires IsGraph(nodes, n) && LanguageExit(ctl) && Landed(declared, TOP, ctl, st, c)
    ensures var c' := Step(host, nodes, c);
            && c'.mode.Ended? && c'.outs == st.outs && c'.inputs == st.inputs && Framed(c'.frame)
            && (ctl == Normal || ctl.Returned? ==> (c'.mode.ctl, c'.tr) == ReturnTest(host, st.ret, st.tr))
            && (ctl.Raised? ==> c'.tr == st.tr && c'.mode.ctl == Raised(if ctl.exn == "StopIteration" then "RuntimeError" else ctl.exn))
            && (ctl == Broke || ctl == Continued ==> c'.tr == st.tr && c'.mode.ctl == Halted("generator:invalid-continuation"))
            && (c'.mode.ctl.Raised? ==> c'.frame.state == Int(3))
            && (c'.mode.ctl.Raised? || c'.mode.ctl.Halted?)
  {
    hide Run, ReturnTest, CompleteWith, TERMINAL;
    TerminalEnds(host, 0, St(c));
    if ctl == Normal || ctl.Returned? {
      CompleteRuns(host, 0, St(c));
      CompleteShape(host, St(c));
    } else if ctl.Raised? {
      FailRuns(host, 0, St(c), ctl.exn);
    } else {
      EscapeRuns(host, 0, St(c));
    }
  }

  lemma CompleteShape(host: Host, st: CoreSt)
    ensures var (ctl, st1) := CompleteWith(host, st);
            (ctl, st1.tr) == ReturnTest(host, st.frame.ret, st.tr) && st1.frame == st.frame.(state := Int(3))
              && st1.vars == st.vars
  {
  }

  /** The rest of the session after the end of the body. */
  lemma EndedRest(host: Host, nodes: map<int, Stmt>, n: nat, resume: Stmt, fuel: nat, declared: set<string>, ctl: Ctl,
                  st: Src, c: Cfg)
    requires IsGraph(nodes, n) && LanguageExit(ctl) && Landed(declared, TOP, ctl, st, c) && resume == ResumeOf(nodes, n)
    ensures Rest(host, resume, fuel, Step(host, nodes, c)) == EndOf(host, ctl, st)
  {
    hide Step, Run, ReturnTest, ResumeOf, Gate, Landed;
    TerminalStep(host, nodes, n, declared, ctl, st, c);
    var c' := Step(host, nodes, c);
    if c'.mode.ctl.Raised? {
      FinishedForever(host, nodes, n, resume, fuel, c'.frame, c'.tr, c'.inputs);
    }
  }

  // ----- a whole run of the body -----

  /** The configuration a first resume enters. */
  function Opened(entry: int, locals: map<string, Val>, sent: Val, tr: Trace, inputs: seq<Input>): Cfg {
    Cfg(Running, NewFrame(entry, locals).(sent := Some(sent), state := Int(2)), ResumeVars(sent), tr, inputs, [])
  }

  ghost predicate Compiled(declared: set<string>, body: Stmt, nodes: map<int, Stmt>, n: nat, entry: int, resume: Stmt) {
    && Clean(declared, body)
    && IsGraph(nodes, n)
    && resume == ResumeOf(nodes, n)
    && CompileBody(declared, body).Done?
    && CompileBody(declared, body).v.0 == entry
    && CompileBody(declared, body).v.1.nodes == nodes
    && CompileBody(declared, body).v.1.counter == n
  }

  lemma BodySteps(host: Host, declared: set<string>, body: Stmt, nodes: map<int, Stmt>, n: nat, entry: int,
                  resume: Stmt,
                  fuel: nat, locals: map<string, Val>, sent: Val, tr: Trace, inputs: seq<Input>)
                    returns (k: nat, hi: nat)
    requires Compiled(declared, body, nodes, n, entry, resume) && locals.Keys <= declared
    ensures var end := Exec(host, declared, fuel, body, Src(locals, tr, inputs, [], Unit));
            Followed(host, declared, nodes, TOP, fuel, |declared|, hi,
                     Opened(entry, locals, sent, tr, inputs), end, k)
  {
    var g0 := StartGraph(declared);
    var g := CompileBody(declared, body).v.1;
    hide Compile, Exec, Steps, Clean, IsNode, Gotos;
    assert Loaded(nodes, g0, g);
    var c := Opened(entry, locals, sent, tr, inputs);
    var st := Src(locals, tr, inputs, [], Unit);
    assert InStepAt(declared, st, c, entry);
    k := Simulate(host, declared, nodes, fuel, body, TOP, 0, g0, st, c);
    hi := g.next;
  }

  /** The compiled generator, entered, does what the structured semantics does. */
  lemma BodySession(host: Host, declared: set<string>, body: Stmt, nodes: map<int, Stmt>, n: nat, entry: int,
                    resume: Stmt,
                    fuel: nat, locals: map<string, Val>, sent: Val, tr: Trace, inputs: seq<Input>) returns (enough: nat)
    requires Compiled(declared, body, nodes, n, entry, resume) && locals.Keys <= declared
    requires Exec(host, declared, fuel, body, Src(locals, tr, inputs, [], Unit)).0 != OutOfFuel
    ensures forall now | enough <= now ::
              var (ctl, st) := Exec(host, declared, fuel, body, Src(locals, tr, inputs, [], Unit));
              var (ctl2, st2) := Drive(host, nodes, now, St(Opened(entry, locals, sent, tr, inputs)));
              AfterResume(host, resume, now, ctl2, st2, inputs) == Yields(st.outs) + EndOf(host, ctl, st)
  {
    var c := Opened(entry, locals, sent, tr, inputs);
    hide Exec, Run, Step, Steps, Drive, Landed, AfterResume, ResumeOf, IsGraph, CompileBody, Framed,
      Followed, InStepAt, InStep, TempsKept, Target, EndOf, Rest, Compiled, Opened, Yields;
    OpenedRuns(entry, locals, sent, tr, inputs);
    CompiledGraph(declared, body, nodes, n, entry, resume);
    var k, hi := BodySteps(host, declared, body, nodes, n, entry, resume, fuel, locals, sent, tr, inputs);
    var (ctl, st) := Exec(host, declared, fuel, body, Src(locals, tr, inputs, [], Unit));
    var c1 := Steps(host, nodes, k, c);
    FollowedLands(host, declared, nodes, TOP, fuel, |declared|, hi, c, (ctl, st), k);
    var m := k;
    if LanguageExit(ctl) {
      StepsAdd(host, nodes, k, 1, c);
      OneStep(host, nodes, c1);
      m := k + 1;
      TerminalStep(host, nodes, n, declared, ctl, st, c1);
    } else {
      LandedStopped(declared, ctl, st, c1);
    }
    var c2 := Steps(host, nodes, m, c);
    enough := m + 1;
    forall now | enough <= now
      ensures var (ctl2, st2) := Drive(host, nodes, now, St(c));
              AfterResume(host, resume, now, ctl2, st2, inputs) == Yields(st.outs) + EndOf(host, ctl, st)
    {
      StepsAreSession(host, nodes, n, resume, now, now, m, c);
      if LanguageExit(ctl) {
        EndedRest(host, nodes, n, resume, now, declared, ctl, st, c1);
      } else {
        StoppedRest(host, resume, now, declared, ctl, st, c1);
      }
      assert c2.outs[0..] == c2.outs;
    }
  }

  lemma OpenedRuns(entry: int, locals: map<string, Val>, sent: Val, tr: Trace, inputs: seq<Input>)
    ensures var c := Opened(entry, locals, sent, tr, inputs);
            Framed(c.frame) && c.mode == Running && c.inputs == inputs && c.outs == []
  {
  }

  lemma CompiledGraph(declared: set<string>, body: Stmt, nodes: map<int, Stmt>, n: nat, entry: int, resume: Stmt)
    requires Compiled(declared, body, nodes, n, entry, resume)
    ensures IsGraph(nodes, n) && resume == ResumeOf(nodes, n)
  {
  }

  lemma FollowedLands(host: Host, declared: set<string>, nodes: map<int, Stmt>, k: Conts, fuel: nat, lo: nat, hi: nat,
                      c: Cfg, end: (Ctl, Src), n: nat)
    requires Followed(host, declared, nodes, k, fuel, lo, hi, c, end, n) && end.0 != OutOfFuel
    ensures Landed(declared, k, end.0, end.1, Steps(host, nodes, n, c))
  {
  }

  lemma LandedStopped(declared: set<string>, ctl: Ctl, st: Src, c: Cfg)
    requires !LanguageExit(ctl) && ctl != OutOfFuel && Landed(declared, TOP, ctl, st, c)
    ensures c.mode != Running && c.outs == st.outs
  {
  }

  lemma StoppedRest(host: Host, resume: Stmt, fuel: nat, declared: set<string>, ctl: Ctl, st: Src, c: Cfg)
    requires !LanguageExit(ctl) && ctl != OutOfFuel && Landed(declared, TOP, ctl, st, c)
    ensures Rest(host, resume, fuel, c) == EndOf(host, ctl, st)
  {
  }

  // ----- the session theorems -----

  lemma GateStartsBody(host: Host, nodes: map<int, Stmt>, n: nat, resume: Stmt, fuel: nat, entry: int,
                       locals: map<string, Val>, tr: Trace, inputs: seq<Input>)
    requires IsGraph(nodes, n) && resume == ResumeOf(nodes, n) && inputs != []
    ensures var (gate, tr1) := FirstGate(host, inputs[0].sent, tr + inputs[0].between);
            FrameSession(host, resume, fuel, NewFrame(entry, locals), tr, inputs) ==
            (match gate
             case Ok(_) =>
               var (ctl, st) := Drive(host, nodes, fuel, St(Opened(entry, locals, inputs[0].sent, tr1, inputs[1..])));
               AfterResume(host, resume, fuel, ctl, st, inputs[1..])
             case Raise(exn) => [Threw(exn, tr1)] + FrameSession(host, resume, fuel, NewFrame(entry, locals), tr1, inputs[1..])
             case Stuck(l) => [Hole(l, tr1)])
  {
    var st := CoreSt(ResumeVars(inputs[0].sent), NewFrame(entry, locals), tr + inputs[0].between);
    ResumeRuns(host, fuel, Dispatch(nodes, 1, n), st);
    var (gate, tr1) := FirstGate(host, inputs[0].sent, st.tr);
    assert Gate(host, st.frame, inputs[0].sent, st.tr) == (gate, tr1);
    var entered := Entered(st.(tr := tr1));
    LoopDrives(host, fuel, nodes, n, entered);
    assert entered == St(Opened(entry, locals, inputs[0].sent, tr1, inputs[1..]));
  }

  /** Any session of the structured semantics that comes to an end is the compiled
  generator's session, with any large enough fuel. */
  lemma {:induction false} SourceIsCompiled(host: Host, declared: set<string>, body: Stmt, nodes: map<int, Stmt>,
                                            n: nat, entry: int, resume: Stmt,
                                            fuel: nat, locals: map<string, Val>, tr: Trace, inputs: seq<Input>)
                                              returns (enough: nat)
    requires Compiled(declared, body, nodes, n, entry, resume) && locals.Keys <= declared
    requires Complete(SourceSession(host, declared, fuel, body, locals, tr, inputs))
    ensures forall now | enough <= now ::
              FrameSession(host, resume, now, NewFrame(entry, locals), tr, inputs) ==
              SourceSession(host, declared, fuel, body, locals, tr, inputs)
    decreases |inputs|
  {
    hide Compiled, Exec, Drive, AfterResume, ResumeOf, IsGraph, FirstGate, NewFrame, FrameSession, Opened, EndOf,
         Yields;
    CompiledGraph(declared, body, nodes, n, entry, resume);
    enough := 0;
    if inputs != [] {
      var (gate, tr1) := FirstGate(host, inputs[0].sent, tr + inputs[0].between);
      if gate.Ok? {
        UnfinishedShows(host, declared, fuel, body, Src(locals, tr1, inputs[1..], [], Unit));
        enough := BodySession(host, declared, body, nodes, n, entry, resume, fuel, locals, inputs[0].sent, tr1,
            inputs[1..]);
      } else if gate.Raise? {
        enough := SourceIsCompiled(host, declared, body, nodes, n, entry, resume, fuel, locals, tr1, inputs[1..]);
      }
      forall now | enough <= now
        ensures FrameSession(host, resume, now, NewFrame(entry, locals), tr, inputs) ==
                SourceSession(host, declared, fuel, body, locals, tr, inputs)
      {
        GateStartsBody(host, nodes, n, resume, now, entry, locals, tr, inputs);
      }
    } else {
      forall now
        ensures FrameSession(host, resume, now, NewFrame(entry, locals), tr, inputs) == []
      {
        NoInputs(host, resume, now, NewFrame(entry, locals), tr);
      }
    }
  }

  lemma UnfinishedShows(host: Host, declared: set<string>, fuel: nat, body: Stmt, st: Src)
    ensures var (ctl, st1) := Exec(host, declared, fuel, body, st);
            Complete(Yields(st1.outs) + EndOf(host, ctl, st1)) <==> ctl != OutOfFuel
  {
    hide Exec, ReturnTest;
    var (ctl, st1) := Exec(host, declared, fuel, body, st);
    DeadComplete(st1.tr, st1.inputs);
    DeadComplete(ReturnTest(host, st1.ret, st1.tr).1, st1.inputs);
    assert Unfinished !in Yields(st1.outs);
    if ctl == OutOfFuel {
      assert (Yields(st1.outs) + [Unfinished])[|st1.outs|] == Unfinished;
    }
  }

  lemma {:induction false} DeadComplete(tr: Trace, inputs: seq<Input>)
    ensures Complete(Dead(tr, inputs))
    decreases |inputs|
  {
    if inputs != [] {
      DeadComplete(tr + inputs[0].between, inputs[1..]);
    }
  }

  /** More fuel does not change a session that came to an end. */
  lemma {:induction false} DriveMore(host: Host, nodes: map<int, Stmt>, fuel: nat, more: nat, st: CoreSt)
    requires fuel <= more && Drive(host, nodes, fuel, st).0 != OutOfFuel
    ensures Drive(host, nodes, more, st) == Drive(host, nodes, fuel, st)
  {
    hide Run, Selected;
    var (ctl, st1) := Run(host, 0, Selected(nodes, st.frame.pc), st);
    if ctl == Normal {
      DriveMore(host, nodes, fuel - 1, more - 1, st1);
    }
  }

  lemma CallMore(host: Host, nodes: map<int, Stmt>, n: nat, resume: Stmt, fuel: nat, more: nat, frame: Frame,
                 tr: Trace, input: Input)
    requires IsGraph(nodes, n) && Framed(frame) && resume == ResumeOf(nodes, n) && fuel <= more
    requires CallResume(host, resume, fuel, frame, tr, input).0 != OutOfFuel
    ensures CallResume(host, resume, more, frame, tr, input) == CallResume(host, resume, fuel, frame, tr, input)
    ensures Framed(CallResume(host, resume, fuel, frame, tr, input).1.frame)
  {
    ResumeProtocol(host, fuel, nodes, n, frame, tr, input);
    var st := CoreSt(ResumeVars(input.sent), frame, tr + input.between);
    ResumeRuns(host, fuel, Dispatch(nodes, 1, n), st);
    ResumeRuns(host, more, Dispatch(nodes, 1, n), st);
    var (gate, tr1) := Gate(host, frame, input.sent, st.tr);
    var entered := Entered(st.(tr := tr1));
    LoopDrives(host, fuel, nodes, n, entered);
    LoopDrives(host, more, nodes, n, entered);
    hide Run, Gate, Dispatch, IsGraph;
    if gate.Ok? {
      DriveMore(host, nodes, fuel, more, entered);
    }
  }

  lemma OutOfFuelShows(host: Host, resume: Stmt, fuel: nat, st: CoreSt, inputs: seq<Input>)
    ensures !Complete(AfterResume(host, resume, fuel, OutOfFuel, st, inputs))
  {
  }

  /** A session is complete when its resumes are. */
  lemma AfterComplete(host: Host, resume: Stmt, fuel: nat, ctl: Ctl, st: CoreSt, inputs: seq<Input>)
    requires Complete(AfterResume(host, resume, fuel, ctl, st, inputs))
    ensures ctl != OutOfFuel
    ensures ctl.Returned? || ctl.Raised? ==> Complete(FrameSession(host, resume, fuel, st.frame, st.tr, inputs))
  {
    hide FrameSession;
    var results := AfterResume(host, resume, fuel, ctl, st, inputs);
    var rest := FrameSession(host, resume, fuel, st.frame, st.tr, inputs);
    if ctl.Returned? || ctl.Raised? {
      assert results[1..] == rest;
      assert forall r | r in rest :: r in results;
    }
    OutOfFuelShows(host, resume, fuel, st, inputs);
  }

  lemma {:induction false} SessionMore(host: Host, nodes: map<int, Stmt>, n: nat, resume: Stmt, fuel: nat, more: nat,
                                       frame: Frame, tr: Trace, inputs: seq<Input>)
    requires IsGraph(nodes, n) && Framed(frame) && resume == ResumeOf(nodes, n) && fuel <= more
    requires Complete(FrameSession(host, resume, fuel, frame, tr, inputs))
    ensures FrameSession(host, resume, more, frame, tr, inputs) == FrameSession(host, resume, fuel, frame, tr, inputs)
    decreases |inputs|
  {
    hide IsGraph, ResumeOf, CallResume, Framed;
    if inputs != [] {
      var (ctl, st) := CallResume(host, resume, fuel, frame, tr, inputs[0]);
      AfterComplete(host, resume, fuel, ctl, st, inputs[1..]);
      CallMore(host, nodes, n, resume, fuel, more, frame, tr, inputs[0]);
      if ctl.Returned? || ctl.Raised? {
        SessionMore(host, nodes, n, resume, fuel, more, st.frame, st.tr, inputs[1..]);
      }
    }
  }

  /** If the session after a running configuration comes to an end, its steps stop. */
  lemma {:induction false} SessionStops(host: Host, nodes: map<int, Stmt>, n: nat, resume: Stmt, now: nat, fuel: nat,
                                        c: Cfg) returns (k: nat)
    requires IsGraph(nodes, n) && Framed(c.frame) && c.mode == Running && resume == ResumeOf(nodes, n)
    requires var (ctl, st) := Drive(host, nodes, now, St(c)); Complete(AfterResume(host, resume, fuel, ctl, st, c.inputs))
    ensures Steps(host, nodes, k, c).mode != Running
    decreases |c.inputs|, now
  {
    hide Run, Gate, IsGraph, Framed, Step, Steps, St, ResumeOf, FrameSession, AfterResume, Complete, Drive;
    var r := Drive(host, nodes, now, St(c));
    AfterComplete(host, resume, fuel, r.0, r.1, c.inputs);
    DriveNeedsFuel(host, nodes, now, St(c));
    var c1 := Step(host, nodes, c);
    if c1.mode != Running {
      k := 1;
      OneStep(host, nodes, c);
    } else {
      var ctl, st := MoveOf(host, nodes, n, now, c);
      var m;
      if ctl == Normal {
        m := SessionStops(host, nodes, n, resume, now - 1, fuel, c1);
      } else {
        NextResume(host, nodes, n, resume, fuel, c, ctl.v, st, c1);
        m := SessionStops(host, nodes, n, resume, fuel, fuel, c1);
      }
      k := m + 1;
      StepsAfter(host, nodes, m, c);
    }
  }

  lemma DriveNeedsFuel(host: Host, nodes: map<int, Stmt>, fuel: nat, st: CoreSt)
    ensures fuel == 0 ==> Drive(host, nodes, fuel, st).0 == OutOfFuel
  {
  }

  lemma StepsAfter(host: Host, nodes: map<int, Stmt>, m: nat, c: Cfg)
    ensures Steps(host, nodes, m + 1, c) == Steps(host, nodes, m, Step(host, nodes, c))
  {
  }

  /** A step that keeps running: inside the resume, or into the next one. */
  lemma MoveOf(host: Host, nodes: map<int, Stmt>, n: nat, now: nat, c: Cfg) returns (ctl: Ctl, st: CoreSt)
    requires IsGraph(nodes, n) && Framed(c.frame) && c.mode == Running && now > 0
    requires Step(host, nodes, c).mode == Running
    ensures var c1 := Step(host, nodes, c);
            && Framed(st.frame)
            && Drive(host, nodes, now, St(c)) == (if ctl == Normal then Drive(host, nodes, now - 1, st) else (ctl, st))
            && Framed(c1.frame)
            && (ctl == Normal ==> c1 == Moved(c, st) && St(c1) == st && c1.inputs == c.inputs)
            && (ctl != Normal ==>
                  && ctl.Returned? && c.inputs != [] && st.frame.state == Int(1)
                  && c1 == Enter(Moved(c, st).(outs := c.outs + [Output(ctl.v, st.frame.locals, st.tr)]))
                  && c1.inputs == c.inputs[1..])
  {
    SelectedRuns(host, 0, nodes, n, St(c));
    hide Run, Selected, IsGraph;
    var r := Run(host, 0, Selected(nodes, c.frame.pc), St(c));
    ctl, st := r.0, r.1;
  }

  /** Any session of the compiled generator that comes to an end is a session of the
  structured semantics. */
  lemma {:induction false} CompiledIsSource(host: Host, declared: set<string>, body: Stmt, nodes: map<int, Stmt>,
                                            n: nat, entry: int, resume: Stmt,
                                            now: nat, locals: map<string, Val>, tr: Trace, inputs: seq<Input>)
                                              returns (fuel: nat)
    requires Compiled(declared, body, nodes, n, entry, resume) && locals.Keys <= declared
    requires Complete(FrameSession(host, resume, now, NewFrame(entry, locals), tr, inputs))
    ensures SourceSession(host, declared, fuel, body, locals, tr, inputs) ==
            FrameSession(host, resume, now, NewFrame(entry, locals), tr, inputs)
    decreases |inputs|
  {
    hide Compiled, Exec, Drive, AfterResume, ResumeOf, IsGraph, FirstGate, FrameSession, Opened, EndOf, Yields, Framed;
    CompiledGraph(declared, body, nodes, n, entry, resume);
    fuel := 0;
    if inputs == [] {
      NoInputs(host, resume, now, NewFrame(entry, locals), tr);
    } else {
      NewFramed(entry, locals);
      GateStartsBody(host, nodes, n, resume, now, entry, locals, tr, inputs);
      var (gate, tr1) := FirstGate(host, inputs[0].sent, tr + inputs[0].between);
      if gate.Ok? {
        fuel := BodyFinishes(host, declared, body, nodes, n, entry, resume, now, locals, inputs[0].sent, tr1,
            inputs[1..]);
        UnfinishedShows(host, declared, fuel, body, Src(locals, tr1, inputs[1..], [], Unit));
        var enough := SourceIsCompiled(host, declared, body, nodes, n, entry, resume, fuel, locals, tr, inputs);
        var more := if enough < now then now else enough;
        SessionMore(host, nodes, n, resume, now, more, NewFrame(entry, locals), tr, inputs);
      } else if gate.Raise? {
        var rest := FrameSession(host, resume, now, NewFrame(entry, locals), tr1, inputs[1..]);
        assert FrameSession(host, resume, now, NewFrame(entry, locals), tr, inputs)[1..] == rest;
        fuel := CompiledIsSource(host, declared, body, nodes, n, entry, resume, now, locals, tr1, inputs[1..]);
      }
    }
  }

  lemma NewFramed(entry: int, locals: map<string, Val>)
    ensures Framed(NewFrame(entry, locals))
  {
  }

  /** When the compiled body stops, so does the source body. */
  lemma BodyFinishes(host: Host, declared: set<string>, body: Stmt, nodes: map<int, Stmt>, n: nat, entry: int,
                     resume: Stmt,
                     now: nat, locals: map<string, Val>, sent: Val, tr: Trace, inputs: seq<Input>) returns (fuel: nat)
    requires Compiled(declared, body, nodes, n, entry, resume) && locals.Keys <= declared
    requires var (ctl, st) := Drive(host, nodes, now, St(Opened(entry, locals, sent, tr, inputs)));
             Complete(AfterResume(host, resume, now, ctl, st, inputs))
    ensures Exec(host, declared, fuel, body, Src(locals, tr, inputs, [], Unit)).0 != OutOfFuel
  {
    hide Compiled, Exec, Drive, AfterResume, ResumeOf, IsGraph, Opened, Landed, InStepAt, TempsKept, Framed, Steps;
    var c := Opened(entry, locals, sent, tr, inputs);
    OpenedRuns(entry, locals, sent, tr, inputs);
    CompiledGraph(declared, body, nodes, n, entry, resume);
    var k := SessionStops(host, nodes, n, resume, now, now, c);
    fuel := k + 1;
    var m, hi := BodySteps(host, declared, body, nodes, n, entry, resume, fuel, locals, sent, tr, inputs);
    if Exec(host, declared, fuel, body, Src(locals, tr, inputs, [], Unit)).0 == OutOfFuel {
      StepsAdd(host, nodes, k, m - k, c);
      StepsStay(host, nodes, m - k, Steps(host, nodes, k, c));
      assert false;
    }
  }

  /** The compiled generator and the structured semantics have the same sessions: over any
  host, any arguments and any sequence of resumes, a finished session of the one is a
  finished session of the other. */
  lemma GeneratorCorrect(host: Host, declared: set<string>, body: Stmt, entry: int, g: Graph,
                         locals: map<string, Val>, tr: Trace, inputs: seq<Input>, results: seq<Outcome>)
    requires CompileBody(declared, body) == Done((entry, g)) && Clean(declared, body)
    requires locals.Keys <= declared && Complete(results)
    ensures (exists fuel: nat :: SourceSession(host, declared, fuel, body, locals, tr, inputs) == results) <==>
            (exists now: nat :: FrameSession(host, ResumeOf(g.nodes, g.counter), now, NewFrame(entry, locals), tr, inputs) == results)
  {
    GraphIsClosed(declared, body);
    var nodes, n := g.nodes, g.counter;
    var resume := ResumeOf(nodes, n);
    assert Compiled(declared, body, nodes, n, entry, resume);
    hide Compiled, SourceSession, FrameSession, NewFrame;
    if fuel: nat :| SourceSession(host, declared, fuel, body, locals, tr, inputs) == results {
      var enough := SourceIsCompiled(host, declared, body, nodes, n, entry, resume, fuel, locals, tr, inputs);
      assert FrameSession(host, resume, enough, NewFrame(entry, locals), tr, inputs) == results;
    }
    if now: nat :| FrameSession(host, resume, now, NewFrame(entry, locals), tr, inputs) == results {
      var fuel := CompiledIsSource(host, declared, body, nodes, n, entry, resume, now, locals, tr, inputs);
      assert SourceSession(host, declared, fuel, body, locals, tr, inputs) == results;
    }
  }
}
