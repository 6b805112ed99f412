/** One instruction of the compiled graph against the statement it stands for. */
module GeneratorSteps {
  import opened Core
  import opened GeneratorSource
  import opened FrameCompiler
  import opened GeneratorMachine
  import opened GeneratorGraph

  // ----- expressions -----

  /** A compiled expression means what the source expression means. */
  lemma {:induction false} RewriteKeepsMeaning(host: Host, declared: set<string>, e: Expr, src: Ctx, dst: Ctx,
                                               tr: Trace)
    requires CleanExpr(declared, e) && Agree(declared, src, dst)
    ensures Eval(host, dst, Rewrite(declared, e), tr) == Eval(host, src, e, tr)
    decreases e, 0
  {
    match e
    case Lit(_) =>
    case HoleE(_) =>
    case Name(x) =>
    case Call(f, args) =>
      RewriteAllKeepMeaning(host, declared, args, src, dst, tr);
    case CallV(f, args) =>
      RewriteKeepsMeaning(host, declared, f, src, dst, tr);
      RewriteAllKeepMeaning(host, declared, args, src, dst, Eval(host, src, f, tr).1);
    case Op(_, args) => RewriteAllKeepMeaning(host, declared, args, src, dst, tr);
    case And(a, b) =>
      RewriteKeepsMeaning(host, declared, a, src, dst, tr);
      RewriteKeepsMeaning(host, declared, b, src, dst, EvalTest(host, src, a, tr).1);
    case Or(a, b) =>
      RewriteKeepsMeaning(host, declared, a, src, dst, tr);
      RewriteKeepsMeaning(host, declared, b, src, dst, EvalTest(host, src, a, tr).1);
    case Not(a) => RewriteKeepsMeaning(host, declared, a, src, dst, tr);
    case Cond(c, t, f) =>
      RewriteKeepsMeaning(host, declared, c, src, dst, tr);
      var tr1 := EvalTest(host, src, c, tr).1;
      RewriteKeepsMeaning(host, declared, t, src, dst, tr1);
      RewriteKeepsMeaning(host, declared, f, src, dst, tr1);
    case ResumeSelf(a) => RewriteKeepsMeaning(host, declared, a, src, dst, tr);
  }

  /** The two places an expression is evaluated in hold the same local variables. */
  ghost predicate Agree(declared: set<string>, src: Ctx, dst: Ctx) {
    && src.declared == declared && dst.declared == {}
    && src.vars.Keys <= declared && dst.vars.Keys <= HELPERS
    && dst.frame.locals == src.vars
    && src.frame.state == Int(2) == dst.frame.state
  }

  function RewriteAll(declared: set<string>, es: seq<Expr>): seq<Expr> {
    seq(|es|, i requires 0 <= i < |es| => Rewrite(declared, es[i]))
  }

  lemma {:induction false} RewriteAllKeepMeaning(host: Host, declared: set<string>, es: seq<Expr>, src: Ctx, dst: Ctx,
                                                 tr: Trace)
    requires forall i | 0 <= i < |es| :: CleanExpr(declared, es[i])
    requires Agree(declared, src, dst)
    ensures EvalAll(host, dst, RewriteAll(declared, es), tr) == EvalAll(host, src, es, tr)
    decreases es, 1
  {
    if es != [] {
      assert RewriteAll(declared, es)[1..] == RewriteAll(declared, es[1..]);
      RewriteKeepsMeaning(host, declared, es[0], src, dst, tr);
      var (head, tr1) := Eval(host, src, es[0], tr);
      RewriteAllKeepMeaning(host, declared, es[1..], src, dst, tr1);
    }
  }

  // ----- the relation between the two machines -----

  /** A running frame in step with the source. */
  ghost predicate InStep(declared: set<string>, st: Src, c: Cfg) {
    && c.mode == Running
    && c.frame.state == Int(2)
    && c.frame.locals == st.vars
    && c.frame.ret == st.ret
    && c.tr == st.tr && c.inputs == st.inputs && c.outs == st.outs
    && c.vars.Keys <= HELPERS && st.vars.Keys <= declared
  }

  ghost predicate InStepAt(declared: set<string>, st: Src, c: Cfg, pc: int) {
    InStep(declared, st, c) && c.frame.pc == Int(pc)
  }

  /** Temporaries outside `lo..hi` are untouched. */
  ghost predicate TempsKept(before: map<nat, Val>, after: map<nat, Val>, lo: nat, hi: nat) {
    forall n: nat {:trigger n in before} {:trigger n in after} | n < lo || hi <= n ::
      (n in before <==> n in after) && (n in before ==> before[n] == after[n])
  }

  /** The final node table holds what this part of the compilation filled in. */
  ghost predicate Loaded(nodes: map<int, Stmt>, g: Graph, g': Graph) {
    forall i {:trigger i in nodes} {:trigger i in g'.nodes} | g.counter < i <= g'.counter ::
      i in nodes && i in g'.nodes && nodes[i] == g'.nodes[i]
  }

  /** Where each way of leaving a statement leads. */
  function Target(k: Conts, ctl: Ctl): int {
    match ctl
    case Broke => k.breaking
    case Continued => k.continuing
    case Returned(_) => k.returning
    case Raised(_) => k.exceptional
    case _ => k.normal
  }

  /** Where the machine must be after the source left a statement with `ctl` in `st`. */
  ghost predicate Landed(declared: set<string>, k: Conts, ctl: Ctl, st: Src, c: Cfg) {
    if LanguageExit(ctl) then
      InStepAt(declared, st, c, Target(k, ctl)) && (ctl.Raised? ==> c.frame.exn == Some(Str(ctl.exn)))
    else
      && (ctl.Halted? ==> c.mode == Ended(ctl) && c.inputs == st.inputs)
      && (ctl.Suspended? ==> c.mode == Waiting && c.inputs == st.inputs == [])
      && c.outs == st.outs && c.tr == st.tr
  }

  // ----- single instructions -----

  lemma OneStep(host: Host, nodes: map<int, Stmt>, c: Cfg)
    ensures Steps(host, nodes, 1, c) == Step(host, nodes, c)
  {
    assert Steps(host, nodes, 0, Step(host, nodes, c)) == Step(host, nodes, c);
  }

  /** One step of a node `first; goto target`, by how `first` ends. */
  lemma InstructionStep(host: Host, nodes: map<int, Stmt>, c: Cfg, pc: int, first: Stmt, target: int, exceptional: int)
    requires c.mode == Running && c.frame.pc == Int(pc) && pc in nodes
    requires nodes[pc] == Node(Seq2(first, Goto(target)), exceptional)
    requires var ctl := Run(host, 0, first, St(c)).0; ctl == Normal || ctl.Raised? || ctl.Halted?
    ensures var (ctl, st) := Run(host, 0, first, St(c));
            Step(host, nodes, c) ==
            (match ctl
             case Raised(exn) => Caught(c, st, exn, exceptional)
             case Halted(l) => Moved(c, st).(mode := Ended(Halted(l)))
             case _ => Moved(c, st.(frame := st.frame.(pc := Int(target)))))
  {
    var (ctl, st) := Run(host, 0, first, St(c));
    var body := Seq2(first, Goto(target));
    ThenGoto(host, first, target, St(c));
    match ctl
    case Raised(exn) => NodeRaised(host, nodes, c, pc, body, exceptional, exn, st);
    case Halted(l) => NodeHalted(host, nodes, c, pc, body, exceptional, l, st);
    case _ => NodeNormal(host, nodes, c, pc, body, exceptional, st.(frame := st.frame.(pc := Int(target))));
  }

  predicate IsSimple(s: Stmt) {
    s.Assign? || s.Del? || s.RaiseS? || s.ExprS? || s.Effect? || s.HoleS?
  }

  /** The compiled form of a simple statement does to the frame what the statement does
  to the source state. */
  lemma SimpleRuns(host: Host, declared: set<string>, fuel: nat, s: Stmt, st: Src, c: Cfg)
    requires IsSimple(s) && Clean(declared, s) && InStep(declared, st, c)
    ensures var (ctl, st') := Exec(host, declared, fuel, s, st);
            var (ctl2, core) := Run(host, 0, Simple(declared, s), St(c));
            && ctl2 == ctl && (ctl == Normal || ctl.Raised? || ctl.Halted?)
            && core.vars == c.vars && core.tr == st'.tr
            && core.frame == c.frame.(locals := st'.vars)
            && st' == st.(vars := st'.vars, tr := st'.tr)
            && st'.vars.Keys <= declared
  {
    var src, dst := SourceCtx(declared, st), Ctx(c.vars, {}, c.frame);
    if s.Del? {
      hide Eval, Rewrite;
      DelRuns(host, declared, s.x, st, c);
    } else if s.HoleS? {
    } else {
      var e := if s.Effect? then Op(s.op, s.args) else s.r;
      RewriteKeepsMeaning(host, declared, e, src, dst, c.tr);
      assert s.Effect? ==> Simple(declared, s) == Effect(s.op, Rewrite(declared, e).args);
      assert s.Effect? ==> Rewrite(declared, e) == Op(s.op, Rewrite(declared, e).args);
      hide Eval, Rewrite, CleanExpr;
    }
  }

  lemma DelRuns(host: Host, declared: set<string>, x: string, st: Src, c: Cfg)
    requires VisibleName(declared, x) && InStep(declared, st, c)
    ensures Run(host, 0, Simple(declared, Del(x)), St(c)) ==
            if x !in declared then (Normal, St(c))
            else if x !in st.vars then (Raised("UnboundLocalError"), St(c))
            else (Normal, St(c).(frame := c.frame.(locals := st.vars - {x})))
  {
    if x in declared {
      var read := ExprS(ReadLocal(Source(x)));
      assert Run(host, 0, read, St(c)) == (if x in st.vars then Normal else Raised("UnboundLocalError"), St(c));
      if x in st.vars {
        var core := St(c).(frame := WithoutVar(c.frame, Source(x)));
        assert Run(host, 0, DelLocal(Source(x)), St(c)) == (Normal, core);
        assert Run(host, 0, Skip, core) == (Normal, core);
        assert Run(host, 0, Seq(DelLocal(Source(x)), Skip), St(c)) == (Normal, core);
      }
    } else {
      assert c.vars - {x} == c.vars;
    }
  }

  lemma SimpleLands(host: Host, declared: set<string>, nodes: map<int, Stmt>, fuel: nat, s: Stmt, k: Conts, pc: int,
                    st: Src, c: Cfg)
    requires IsSimple(s) && Clean(declared, s) && InStepAt(declared, st, c, pc)
    requires pc in nodes && nodes[pc] == Node(Seq2(Simple(declared, s), Goto(k.normal)), k.exceptional)
    ensures var (ctl, st') := Exec(host, declared, fuel, s, st);
            var c' := Step(host, nodes, c);
            ctl != OutOfFuel && Landed(declared, k, ctl, st', c') && c'.frame.temps == c.frame.temps
  {
    SimpleRuns(host, declared, fuel, s, st, c);
    InstructionStep(host, nodes, c, pc, Simple(declared, s), k.normal, k.exceptional);
  }

  /** A branch on a compiled condition goes where the source condition goes. */
  lemma BranchLands(host: Host, declared: set<string>, nodes: map<int, Stmt>, e: Expr, yes: int, no: int,
                    exceptional: int, pc: int, st: Src, c: Cfg)
    requires CleanExpr(declared, e) && InStepAt(declared, st, c, pc)
    requires pc in nodes && nodes[pc] == Node(Branch(Rewrite(declared, e), yes, no), exceptional)
    ensures var (test, tr1) := EvalTest(host, SourceCtx(declared, st), e, st.tr);
            var st1 := st.(tr := tr1);
            var c' := Step(host, nodes, c);
            && c'.frame.temps == c.frame.temps
            && (match test
                case Ok(v) => InStepAt(declared, st1, c', if PlainTruth(v) then yes else no)
                case Raise(exn) => InStepAt(declared, st1, c', exceptional) && c'.frame.exn == Some(Str(exn))
                case Stuck(l) => c'.mode == Ended(Halted(l)) && c'.outs == st1.outs && c'.tr == st1.tr && c'.inputs == st1.inputs)
  {
    RewriteKeepsMeaning(host, declared, e, SourceCtx(declared, st), Ctx(c.vars, {}, c.frame), c.tr);
    var body := Branch(Rewrite(declared, e), yes, no);
    BranchRuns(host, Rewrite(declared, e), yes, no, St(c));
    var (ctl, core) := Run(host, 0, body, St(c));
    match ctl
    case Raised(exn) => NodeRaised(host, nodes, c, pc, body, exceptional, exn, core);
    case Halted(l) => NodeHalted(host, nodes, c, pc, body, exceptional, l, core);
    case _ => NodeNormal(host, nodes, c, pc, body, exceptional, core);
  }

  lemma ReturnLands(host: Host, declared: set<string>, nodes: map<int, Stmt>, fuel: nat, e: Expr, k: Conts, pc: int,
                    st: Src, c: Cfg)
    requires CleanExpr(declared, e) && InStepAt(declared, st, c, pc)
    requires pc in nodes && nodes[pc] ==
             Node(Seq2(SetField(Return, Rewrite(declared, e)), Goto(k.returning)), k.exceptional)
    ensures var (ctl, st') := Exec(host, declared, fuel, Ret(e), st);
            var c' := Step(host, nodes, c);
            ctl != OutOfFuel && Landed(declared, k, ctl, st', c') && c'.frame.temps == c.frame.temps
  {
    hide Rewrite, Eval, CleanExpr;
    RewriteKeepsMeaning(host, declared, e, SourceCtx(declared, st), Ctx(c.vars, {}, c.frame), c.tr);
    InstructionStep(host, nodes, c, pc, SetField(Return, Rewrite(declared, e)), k.returning, k.exceptional);
  }

  // ----- suspension -----

  /** The step that suspends, and enters again if an input is waiting. */
  lemma SuspendStep(host: Host, declared: set<string>, nodes: map<int, Stmt>, e: Expr, resume: int, exceptional: int,
                    pc: int, st: Src, c: Cfg)
    requires CleanExpr(declared, e) && InStepAt(declared, st, c, pc)
    requires pc in nodes && nodes[pc] == Node(YieldBody(Rewrite(declared, e), resume, exceptional), exceptional)
    ensures var (r, st1) := EvalSrc(host, declared, e, st);
            var c' := Step(host, nodes, c);
            && c'.frame.temps == c.frame.temps
            && (match r
                case Ok(v) =>
                  var (ctl, st2) := Suspend(v, None, st1);
                  if ctl == Normal then InStepAt(declared, st2, c', resume) && c'.frame.sent == Some(st.inputs[0].sent)
                  else c'.mode == Waiting && c'.outs == st2.outs && c'.tr == st2.tr && c'.inputs == st2.inputs == []
                case Raise(exn) => InStepAt(declared, st1, c', exceptional) && c'.frame.exn == Some(Str(exn))
                case Stuck(l) => c'.mode == Ended(Halted(l)) && c'.outs == st1.outs && c'.tr == st1.tr && c'.inputs == st1.inputs)
  {
    RewriteKeepsMeaning(host, declared, e, SourceCtx(declared, st), Ctx(c.vars, {}, c.frame), c.tr);
    var body := YieldBody(Rewrite(declared, e), resume, exceptional);
    YieldRuns(host, Rewrite(declared, e), resume, exceptional, St(c));
    var (ctl, core) := Run(host, 0, body, St(c));
    if ctl.Raised? {
      NodeRaised(host, nodes, c, pc, body, exceptional, ctl.exn, core);
    } else if ctl.Halted? {
      NodeHalted(host, nodes, c, pc, body, exceptional, ctl.hole, core);
    } else {
      NodeReturned(host, nodes, c, pc, body, exceptional, ctl.v, core);
    }
  }

  lemma BindSentLands(host: Host, declared: set<string>, nodes: map<int, Stmt>, x: string, normal: int,
                      exceptional: int, pc: int, st: Src, c: Cfg)
    requires x in declared && InStepAt(declared, st, c, pc) && c.frame.sent.Some?
    requires pc in nodes && nodes[pc] == Node(Seq2(SetLocal(Source(x), Field(Sent)), Goto(normal)), exceptional)
    ensures var c' := Step(host, nodes, c);
            c'.frame.temps == c.frame.temps
            && InStepAt(declared, st.(vars := st.vars[x := c.frame.sent.value]), c', normal)
  {
    InstructionStep(host, nodes, c, pc, SetLocal(Source(x), Field(Sent)), normal, exceptional);
  }

  lemma YieldParts(declared: set<string>, target: Option<string>, e: Expr, k: Conts, depth: nat, g: Graph)
      returns (resume: int, pc: int, g': Graph)
    requires Bounded(g) && CompileNode(declared, Yield(target, e), k, depth, g).Done?
    ensures CompileNode(declared, Yield(target, e), k, depth, g) == Done((pc, g'))
    ensures target.None? ==> resume == k.normal
    ensures forall nodes | Loaded(nodes, g, g') ::
              && pc in nodes && nodes[pc] == Node(YieldBody(Rewrite(declared, e), resume, k.exceptional), k.exceptional)
              && (target.Some? ==>
                    resume in nodes
                    && nodes[resume] == Node(Seq2(SetLocal(Source(target.value), Field(Sent)), Goto(k.normal)), k.exceptional))
  {
    hide Rewrite;
    if target.Some? {
      PutExtends(g, Seq2(SetLocal(Source(target.value), Field(Sent)), Goto(k.normal)), k.exceptional);
    }
    var r := YieldResume(target, k, g).v;
    resume := r.0;
    var body := YieldBody(Rewrite(declared, e), resume, k.exceptional);
    PutExtends(r.1, body, k.exceptional);
    var q := Put(r.1, body, k.exceptional).v;
    pc, g' := q.0, q.1;
  }

  /** A suspension takes one step, and one more when the sent value has a target. */
  lemma YieldLands(host: Host, declared: set<string>, nodes: map<int, Stmt>, target: Option<string>, e: Expr,
                   k: Conts, resume: int, pc: int, st: Src, c: Cfg) returns (n: nat)
    requires CleanExpr(declared, e) && (target.Some? ==> target.value in declared)
    requires target.None? ==> resume == k.normal
    requires pc in nodes && nodes[pc] == Node(YieldBody(Rewrite(declared, e), resume, k.exceptional), k.exceptional)
    requires target.Some? ==>
               resume in nodes
               && nodes[resume] == Node(Seq2(SetLocal(Source(target.value), Field(Sent)), Goto(k.normal)), k.exceptional)
    requires InStepAt(declared, st, c, pc)
    ensures var (r, st1) := EvalSrc(host, declared, e, st);
            var (ctl, st') := if r.Ok? then Suspend(r.v, target, st1) else (Abort(r), st1);
            var c' := Steps(host, nodes, n, c);
            ctl != OutOfFuel && Landed(declared, k, ctl, st', c') && c'.frame.temps == c.frame.temps
  {
    hide Run, Step, Eval, Rewrite, EvalSrc, CleanExpr;
    SuspendStep(host, declared, nodes, e, resume, k.exceptional, pc, st, c);
    n := 1;
    OneStep(host, nodes, c);
    var (r, st1) := EvalSrc(host, declared, e, st);
    SrcKeeps(host, declared, e, st);
    if r.Ok? && st.inputs != [] && target.Some? {
      var c1 := Step(host, nodes, c);
      BindSentLands(host, declared, nodes, target.value, k.normal, k.exceptional, resume, Suspend(r.v, None, st1).1,
          c1);
      StepsAdd(host, nodes, 1, 1, c);
      OneStep(host, nodes, c1);
      n := 2;
    }
  }

  lemma SrcKeeps(host: Host, declared: set<string>, e: Expr, st: Src)
    ensures var st1 := EvalSrc(host, declared, e, st).1; st1 == st.(tr := st1.tr)
  {
  }

  // ----- exceptions -----

  /** The node in front of a handler binds the caught exception. */
  lemma BindCaughtLands(host: Host, declared: set<string>, nodes: map<int, Stmt>, x: string, target: int,
                        exceptional: int, pc: int, st: Src, c: Cfg)
    requires x in declared && InStepAt(declared, st, c, pc) && c.frame.exn.Some?
    requires pc in nodes && nodes[pc] == Node(Seq2(SetLocal(Source(x), Field(Exception)), Goto(target)), exceptional)
    ensures var c' := Step(host, nodes, c);
            c'.frame.temps == c.frame.temps
            && InStepAt(declared, st.(vars := st.vars[x := c.frame.exn.value]), c', target)
  {
    InstructionStep(host, nodes, c, pc, SetLocal(Source(x), Field(Exception)), target, exceptional);
  }

  lemma SaveLands(host: Host, declared: set<string>, nodes: map<int, Stmt>, n: nat, target: int, exceptional: int,
                  pc: int, st: Src, c: Cfg)
    requires InStepAt(declared, st, c, pc) && c.frame.exn.Some?
    requires pc in nodes && nodes[pc] == Node(Seq2(SetLocal(Temp(n), Field(Exception)), Goto(target)), exceptional)
    ensures var c' := Step(host, nodes, c);
            c'.frame.temps == c.frame.temps[n := c.frame.exn.value] && InStepAt(declared, st, c', target)
  {
    InstructionStep(host, nodes, c, pc, SetLocal(Temp(n), Field(Exception)), target, exceptional);
  }

  lemma RestoreLands(host: Host, declared: set<string>, nodes: map<int, Stmt>, n: nat, target: int, exceptional: int,
                     pc: int, st: Src, c: Cfg)
    requires InStepAt(declared, st, c, pc) && n in c.frame.temps
    requires pc in nodes && nodes[pc] == Node(Seq2(SetField(Exception, ReadLocal(Temp(n))), Goto(target)), exceptional)
    ensures var c' := Step(host, nodes, c);
            c'.frame.temps == c.frame.temps && c'.frame.exn == Some(c.frame.temps[n])
              && InStepAt(declared, st, c', target)
  {
    InstructionStep(host, nodes, c, pc, SetField(Exception, ReadLocal(Temp(n))), target, exceptional);
  }
}
