/** The pass over one generator from its syntax tree to the emitted resume function: the
locals it collects are the ones its code needs, and what it returns is correct. */
module GeneratorWhole {
  import opened Core
  import opened GeneratorSource
  import opened FrameCompiler
  import opened GeneratorGraph
  import opened GeneratorSession
  import opened GeneratorCorrectness
  import opened GeneratorLimits
  import opened GeneratorTruth
  import opened GeneratorPass
  import TC = TruthConditions

  // ----- the locals that are collected -----

  /** A source statement, of which every name that is read, called or deleted keeps its meaning
  in the resume function. What it binds does not matter here. */
  predicate ReadsVisible(declared: set<string>, s: Stmt) {
    match s
    case Skip => true
    case Brk => true
    case Cont => true
    case HoleS(_) => true
    case Seq(a, b) => ReadsVisible(declared, a) && ReadsVisible(declared, b)
    case Ifte(c, t, e) => CleanExpr(declared, c) && ReadsVisible(declared, t) && ReadsVisible(declared, e)
    case Loop(c, body) => CleanExpr(declared, c) && ReadsVisible(declared, body)
    case Ret(e) => CleanExpr(declared, e)
    case RaiseS(e) => CleanExpr(declared, e)
    case ExprS(e) => CleanExpr(declared, e)
    case Effect(_, args) => forall i | 0 <= i < |args| :: CleanExpr(declared, args[i])
    case Assign(_, e) => CleanExpr(declared, e)
    case Del(x) => VisibleName(declared, x)
    case ForIn(_, e, _, body) => CleanExpr(declared, e) && ReadsVisible(declared, body)
    case TryCatch(body, _, handler) => ReadsVisible(declared, body) && ReadsVisible(declared, handler)
    case TryFinally(body, fin) => ReadsVisible(declared, body) && ReadsVisible(declared, fin)
    case BreakBlock(body) => ReadsVisible(declared, body)
    case Yield(_, e) => CleanExpr(declared, e)
    case YieldFrom(e) => CleanExpr(declared, e)
    case _ => false
  }

  /** A body may be compiled for a set of locals exactly when every name it binds is among them
  and its reads are visible. */
  lemma {:induction false} CleanExactly(declared: set<string>, s: Stmt)
    ensures Clean(declared, s) <==> Bound(s) <= declared && ReadsVisible(declared, s)
  {
    hide CleanExpr;
    match s
    case Seq(a, b) => CleanExactly(declared, a); CleanExactly(declared, b);
    case Ifte(_, t, e) => CleanExactly(declared, t); CleanExactly(declared, e);
    case Loop(_, body) => CleanExactly(declared, body);
    case ForIn(_, _, _, body) => CleanExactly(declared, body);
    case TryCatch(body, _, handler) => CleanExactly(declared, body); CleanExactly(declared, handler);
    case TryFinally(body, fin) => CleanExactly(declared, body); CleanExactly(declared, fin);
    case BreakBlock(body) => CleanExactly(declared, body);
    case _ =>
  }

  /** The locals the pass collects are enough for the body, and no smaller set that has the
  exporter's and the parameters is. */
  lemma CollectedLeast(body: Stmt, metadata: set<string>, parameters: set<string>)
    ensures var collected := metadata + parameters + Bound(body);
            && (ReadsVisible(collected, body) ==> Clean(collected, body))
            && forall other | metadata + parameters <= other && Clean(other, body) :: collected <= other
  {
    CleanExactly(metadata + parameters + Bound(body), body);
    forall other | metadata + parameters <= other && Clean(other, body)
      ensures metadata + parameters + Bound(body) <= other
    {
      CleanExactly(other, body);
    }
  }

  // ----- the pass from end to end -----

  /** A session of the body by the structured semantics, conditions tested by their value. */
  ghost predicate HasSource(host: Host, declared: set<string>, body: Stmt, locals: map<string, Val>, tr: Trace,
                            inputs: seq<Input>, results: seq<Outcome>) {
    exists fuel: nat :: SourceSession(host, declared, fuel, body, locals, tr, inputs) == results
  }

  /** A session of the body with conditions that jump. */
  ghost predicate HasJumps(host: Host, declared: set<string>, body: Stmt, locals: map<string, Val>, tr: Trace,
                           inputs: seq<Input>, results: seq<Outcome>) {
    exists fuel: nat :: JumpSession(host, declared, fuel, body, locals, tr, inputs) == results
  }

  /** A session of a resume function on a new frame. */
  ghost predicate HasFrame(host: Host, resume: Stmt, entry: int, locals: map<string, Val>, tr: Trace,
                           inputs: seq<Input>, results: seq<Outcome>) {
    exists now: nat :: FrameSession(host, resume, now, NewFrame(entry, locals), tr, inputs) == results
  }

  /** The program has exactly the body's sessions, as compiled and after the pass over
  conditions. */
  ghost predicate Faithful(declared: set<string>, body: Stmt, program: Program) {
    forall host: Host, locals: map<string, Val>, tr: Trace, inputs: seq<Input>, results: seq<Outcome>
      | locals.Keys <= declared && Complete(results) ::
      && (HasSource(host, declared, body, locals, tr, inputs, results)
          <==> HasFrame(host, program.resume, program.entry, locals, tr, inputs, results))
      && (HasJumps(host, declared, body, locals, tr, inputs, results)
          <==> HasFrame(host, TC.LowerStmt(program.resume), program.entry, locals, tr, inputs, results))
  }

  lemma ProgramFaithful(declared: set<string>, body: Stmt, entry: int, g: Graph)
    requires CompileBody(declared, body) == Done((entry, g)) && Clean(declared, body)
    ensures Faithful(declared, body, Program(entry, ResumeOf(g.nodes, g.counter)))
  {
    hide HasSource, HasJumps, HasFrame, CompileBody, Clean, NewFrame, ResumeOf, Complete, TC.LowerStmt;
    forall host: Host, locals: map<string, Val>, tr: Trace, inputs: seq<Input>, results: seq<Outcome>
      | locals.Keys <= declared && Complete(results)
      ensures HasSource(host, declared, body, locals, tr, inputs, results)
              <==> HasFrame(host, ResumeOf(g.nodes, g.counter), entry, locals, tr, inputs, results)
      ensures HasJumps(host, declared, body, locals, tr, inputs, results)
              <==> HasFrame(host, TC.LowerStmt(ResumeOf(g.nodes, g.counter)), entry, locals, tr, inputs, results)
    {
      SessionFaithful(host, declared, body, entry, g, locals, tr, inputs, results);
    }
  }

  lemma SessionFaithful(host: Host, declared: set<string>, body: Stmt, entry: int, g: Graph, locals: map<string, Val>,
                        tr: Trace, inputs: seq<Input>, results: seq<Outcome>)
    requires CompileBody(declared, body) == Done((entry, g)) && Clean(declared, body)
    requires locals.Keys <= declared && Complete(results)
    ensures HasSource(host, declared, body, locals, tr, inputs, results)
            <==> HasFrame(host, ResumeOf(g.nodes, g.counter), entry, locals, tr, inputs, results)
    ensures HasJumps(host, declared, body, locals, tr, inputs, results)
            <==> HasFrame(host, TC.LowerStmt(ResumeOf(g.nodes, g.counter)), entry, locals, tr, inputs, results)
  {
    SourceFaithful(host, declared, body, entry, g, locals, tr, inputs, results);
    hide JumpSession, FrameSession, CompileBody, Clean, NewFrame, ResumeOf, TC.LowerStmt;
    if HasJumps(host, declared, body, locals, tr, inputs, results) {
      var fuel: nat :| JumpSession(host, declared, fuel, body, locals, tr, inputs) == results;
      var now := EmittedIsJumps(host, declared, body, entry, g, fuel, locals, tr, inputs);
      assert FrameSession(host, Emitted(g), now, NewFrame(entry, locals), tr, inputs) == results;
    }
    if HasFrame(host, Emitted(g), entry, locals, tr, inputs, results) {
      var now: nat :| FrameSession(host, Emitted(g), now, NewFrame(entry, locals), tr, inputs) == results;
      var fuel := JumpsOfEmitted(host, declared, body, entry, g, now, locals, tr, inputs);
      assert JumpSession(host, declared, fuel, body, locals, tr, inputs) == results;
    }
  }

  lemma SourceFaithful(host: Host, declared: set<string>, body: Stmt, entry: int, g: Graph, locals: map<string, Val>,
                       tr: Trace, inputs: seq<Input>, results: seq<Outcome>)
    requires CompileBody(declared, body) == Done((entry, g)) && Clean(declared, body)
    requires locals.Keys <= declared && Complete(results)
    ensures HasSource(host, declared, body, locals, tr, inputs, results)
            <==> HasFrame(host, ResumeOf(g.nodes, g.counter), entry, locals, tr, inputs, results)
  {
    var resume := ResumeOf(g.nodes, g.counter);
    GraphIsClosed(declared, body);
    assert Compiled(declared, body, g.nodes, g.counter, entry, resume);
    hide SourceSession, FrameSession, CompileBody, Clean, NewFrame, ResumeOf, Compiled;
    if HasSource(host, declared, body, locals, tr, inputs, results) {
      var fuel: nat :| SourceSession(host, declared, fuel, body, locals, tr, inputs) == results;
      var now := SourceIsCompiled(host, declared, body, g.nodes, g.counter, entry, resume, fuel, locals, tr, inputs);
      assert FrameSession(host, resume, now, NewFrame(entry, locals), tr, inputs) == results;
    }
    if HasFrame(host, resume, entry, locals, tr, inputs, results) {
      var now: nat :| FrameSession(host, resume, now, NewFrame(entry, locals), tr, inputs) == results;
      var fuel := CompiledIsSource(host, declared, body, g.nodes, g.counter, entry, resume, now, locals, tr, inputs);
      assert SourceSession(host, declared, fuel, body, locals, tr, inputs) == results;
    }
  }

  /** The pass over one generator: it is accepted exactly within the limits, and then, unless a
  read is captured, what is returned has exactly the sessions of the body. */
  method CompileGenerator(body: Stmt, metadata: set<string>, parameters: set<string>) returns (r: Result<Program>)
    ensures r.Done? <==> Supported(body) && Cost(body) <= 4096 && Levels(body) <= 128
    ensures var collected := metadata + parameters + Bound(body);
            r.Done? && ReadsVisible(collected, body) ==> Faithful(collected, body, r.v)
  {
    hide CompileBody, Faithful, ReadsVisible, Clean, Supported, Cost, Levels, Bound, ResumeOf;
    var compiler := new Compiler(body, metadata, parameters);
    ghost var collected := metadata + parameters + Bound(body);
    AcceptedExactly(collected, body);
    r := compiler.Finish();
    if r.Done? && ReadsVisible(collected, body) {
      CollectedLeast(body, metadata, parameters);
      ghost var spec := CompileBody(collected, body).v;
      ProgramFaithful(collected, body, spec.0, spec.1);
    }
  }
}
