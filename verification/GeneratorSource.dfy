/** What a generator body means, independently of how it is compiled: the structured
rules of sections 6.2.9, 7 and 8 of the Python Language Reference.

A run is given every value that will be sent to it, together with what the caller does
in between, and stops when it suspends with nothing left to receive. */
module GeneratorSource {
  import opened Core

  /** One resume: what the caller did since the last one, and the value sent. */
  datatype Input = Input(between: Trace, sent: Val)

  /** One suspension: the value yielded, the local variables and the history so far. */
  datatype Output = Output(v: Val, locals: map<string, Val>, tr: Trace)

  /** `ret` records the last value any executed `return` evaluated. No rule reads it;
  it is there to be compared with the frame's return slot. */
  datatype Src = Src(vars: map<string, Val>, tr: Trace, inputs: seq<Input>, outs: seq<Output>, ret: Val)

  /** A frame whose body is running, as a re-entrant resume finds it. */
  const RUNNING := Frame(Unit, Int(2), Unit, None, None, None, map[], map[])

  function SourceCtx(declared: set<string>, st: Src): Ctx {
    Ctx(st.vars, declared, RUNNING)
  }

  function EvalSrc(host: Host, declared: set<string>, e: Expr, st: Src): (Reply, Src) {
    var (r, tr1) := Eval(host, SourceCtx(declared, st), e, st.tr);
    (r, st.(tr := tr1))
  }

  /** Suspend with `v`; the next input, if there is one, resumes and binds the target. */
  function Suspend(v: Val, target: Option<string>, st: Src): (Ctl, Src) {
    var st1 := st.(outs := st.outs + [Output(v, st.vars, st.tr)]);
    if st.inputs == [] then (Core.Suspended, st1) else
    var st2 := st1.(inputs := st.inputs[1..], tr := st.tr + st.inputs[0].between);
    (Normal, if target.Some? then st2.(vars := st2.vars[target.value := st.inputs[0].sent]) else st2)
  }

  /** Ask the iterator for its next item and bind it; `Broke` when it is exhausted. */
  function Advance(host: Host, x: string, it: Val, st: Src): (Ctl, Src) {
    var (r, tr1) := Ask(host, CallNamed("<python-next>", [it]), st.tr);
    var st1 := st.(tr := tr1);
    match r
    case Ok(v) => (Normal, st1.(vars := st1.vars[x := v]))
    case Raise(exn) => (if exn == "StopIteration" then Broke else Raised(exn), st1)
    case Stuck(l) => (Halted(l), st1)
  }

  /** Run a statement. Only loop iterations use fuel. */
  function Exec(host: Host, declared: set<string>, fuel: nat, s: Stmt, st: Src): (Ctl, Src)
    decreases fuel, s, 0
  {
    match s
    case Skip => (Normal, st)
    case Seq(a, b) =>
      var (ctl, st1) := Exec(host, declared, fuel, a, st);
      if ctl == Normal then Exec(host, declared, fuel, b, st1) else (ctl, st1)
    case Ifte(c, t, e) =>
      var (test, tr1) := EvalTest(host, SourceCtx(declared, st), c, st.tr);
      var st1 := st.(tr := tr1);
      if !test.Ok? then (Abort(test), st1)
      else if PlainTruth(test.v) then Exec(host, declared, fuel, t, st1)
      else Exec(host, declared, fuel, e, st1)
    case Loop(c, body) =>
      if fuel == 0 then (OutOfFuel, st) else
      var (test, tr1) := EvalTest(host, SourceCtx(declared, st), c, st.tr);
      var st1 := st.(tr := tr1);
      if !test.Ok? then (Abort(test), st1)
      else if !PlainTruth(test.v) then (Normal, st1)
      else
        var (ctl, st2) := Exec(host, declared, fuel - 1, body, st1);
        if ctl == Normal || ctl == Continued then Exec(host, declared, fuel - 1, s, st2)
        else (if ctl == Broke then Normal else ctl, st2)
    case Brk => (Broke, st)
    case Cont => (Continued, st)
    case Ret(e) =>
      var (r, st1) := EvalSrc(host, declared, e, st);
      if r.Ok? then (Returned(r.v), st1.(ret := r.v)) else (Abort(r), st1)
    case RaiseS(e) =>
      var (r, st1) := EvalSrc(host, declared, e, st);
      if !r.Ok? then (Abort(r), st1) else
      var (ctl, tr2) := RaiseValue(host, r.v, st1.tr);
      (ctl, st1.(tr := tr2))
    case ExprS(e) =>
      var (r, st1) := EvalSrc(host, declared, e, st);
      (if r.Ok? then Normal else Abort(r), st1)
    case Effect(op, args) =>
      var (r, st1) := EvalSrc(host, declared, Op(op, args), st);
      (if r.Ok? then Normal else Abort(r), st1)
    case HoleS(l) => (Halted(l), st)
    case Assign(x, e) =>
      var (r, st1) := EvalSrc(host, declared, e, st);
      if r.Ok? then (Normal, st1.(vars := st1.vars[x := r.v])) else (Abort(r), st1)
    case Del(x) =>
      if x !in declared then (Normal, st)
      else if x !in st.vars then (Raised("UnboundLocalError"), st)
      else (Normal, st.(vars := st.vars - {x}))
    case ForIn(x, e, ready, body) =>
      var (r, st1) := EvalSrc(host, declared, e, st);
      if !r.Ok? then (Abort(r), st1)
      else if ready then ExecFor(host, declared, fuel, x, r.v, body, st1)
      else
        var (got, tr2) := Ask(host, CallNamed("<python-iter>", [r.v]), st1.tr);
        var st2 := st1.(tr := tr2);
        if !got.Ok? then (Abort(got), st2) else ExecFor(host, declared, fuel, x, got.v, body, st2)
    case TryCatch(body, x, handler) =>
      var (ctl, st1) := Exec(host, declared, fuel, body, st);
      if ctl.Raised? then Exec(host, declared, fuel, handler, st1.(vars := st1.vars[x := Str(ctl.exn)]))
      else (ctl, st1)
    case TryFinally(body, fin) =>
      var (ctl, st1) := Exec(host, declared, fuel, body, st);
      if !LanguageExit(ctl) then (ctl, st1) else
      var (ctl2, st2) := Exec(host, declared, fuel, fin, st1);
      (if ctl2 == Normal then ctl else ctl2, st2)
    case Yield(target, e) =>
      var (r, st1) := EvalSrc(host, declared, e, st);
      if r.Ok? then Suspend(r.v, target, st1) else (Abort(r), st1)
    case _ => (Halted("source:refused-statement"), st)
  }

  function ExecFor(host: Host, declared: set<string>, fuel: nat, x: string, it: Val, body: Stmt, st: Src): (Ctl, Src)
    decreases fuel, body, 1
  {
    if fuel == 0 then (OutOfFuel, st) else
    var (ctl, st1) := Advance(host, x, it, st);
    if ctl != Normal then (if ctl == Broke then Normal else ctl, st1) else
    var (ctl2, st2) := Exec(host, declared, fuel - 1, body, st1);
    if ctl2 == Normal || ctl2 == Continued then ExecFor(host, declared, fuel - 1, x, it, body, st2)
    else (if ctl2 == Broke then Normal else ctl2, st2)
  }

  // ----- sequences of statements -----

  /** The statements of a sequence, in order, however it is nested. */
  function Flatten(s: Stmt): (items: seq<Stmt>)
    ensures s.Seq? ==> SizeAll(items) < Size(s)
    ensures !s.Seq? ==> items == [s]
  {
    if s.Seq? then
      SizeAppend(Flatten(s.s1), Flatten(s.s2));
      assert !s.s1.Seq? ==> SizeAll([s.s1]) == Size(s.s1) + SizeAll([]);
      assert !s.s2.Seq? ==> SizeAll([s.s2]) == Size(s.s2) + SizeAll([]);
      Flatten(s.s1) + Flatten(s.s2)
    else [s]
  }

  function Size(s: Stmt): nat {
    match s
    case Seq(a, b) => 1 + Size(a) + Size(b)
    case Ifte(_, t, e) => 1 + Size(t) + Size(e)
    case Loop(_, body) => 1 + Size(body)
    case ForIn(_, _, _, body) => 1 + Size(body)
    case TryCatch(body, _, handler) => 1 + Size(body) + Size(handler)
    case TryFinally(body, fin) => 1 + Size(body) + Size(fin)
    case BreakBlock(body) => 1 + Size(body)
    case _ => 1
  }

  function SizeAll(items: seq<Stmt>): nat {
    if items == [] then 0 else Size(items[0]) + SizeAll(items[1..])
  }

  lemma SizeAppend(a: seq<Stmt>, b: seq<Stmt>)
    ensures SizeAll(a + b) == SizeAll(a) + SizeAll(b)
  {
    if a == [] {
      assert a + b == b;
    } else {
      assert (a + b)[1..] == a[1..] + b;
      SizeAppend(a[1..], b);
    }
  }

  function ExecAll(host: Host, declared: set<string>, fuel: nat, items: seq<Stmt>, st: Src): (Ctl, Src) {
    if items == [] then (Normal, st) else
    var (ctl, st1) := Exec(host, declared, fuel, items[0], st);
    if ctl == Normal then ExecAll(host, declared, fuel, items[1..], st1) else (ctl, st1)
  }

  lemma ExecAllAppend(host: Host, declared: set<string>, fuel: nat, a: seq<Stmt>, b: seq<Stmt>, st: Src)
    ensures ExecAll(host, declared, fuel, a + b, st) ==
            var (ctl, st1) := ExecAll(host, declared, fuel, a, st);
            if ctl == Normal then ExecAll(host, declared, fuel, b, st1) else (ctl, st1)
  {
    if a == [] {
      assert a + b == b;
    } else {
      assert (a + b)[1..] == a[1..] + b;
      var (ctl, st1) := Exec(host, declared, fuel, a[0], st);
      ExecAllAppend(host, declared, fuel, a[1..], b, st1);
    }
  }

  /** Flattening a sequence does not change what it does. */
  lemma {:induction false} FlattenKeepsMeaning(host: Host, declared: set<string>, fuel: nat, s: Stmt, st: Src)
    ensures ExecAll(host, declared, fuel, Flatten(s), st) == Exec(host, declared, fuel, s, st)
  {
    if s.Seq? {
      FlattenKeepsMeaning(host, declared, fuel, s.s1, st);
      var (ctl, st1) := Exec(host, declared, fuel, s.s1, st);
      FlattenKeepsMeaning(host, declared, fuel, s.s2, st1);
      ExecAllAppend(host, declared, fuel, Flatten(s.s1), Flatten(s.s2), st);
    } else {
      var (ctl, st1) := Exec(host, declared, fuel, s, st);
      assert [s][1..] == [];
      assert ExecAll(host, declared, fuel, [], st1) == (Normal, st1);
    }
  }

  // ----- well-formed bodies -----

  /** The variables the compiled resume function itself binds. */
  const HELPERS: set<string> := {"self", "value", "<caught>", "<yielded>"}

  predicate VisibleName(declared: set<string>, x: string) {
    x in declared || x !in HELPERS
  }

  /** A source expression that reads no name the resume function would capture. */
  predicate CleanExpr(declared: set<string>, e: Expr) {
    match e
    case Lit(_) => true
    case HoleE(_) => true
    case Name(x) => VisibleName(declared, x)
    case Call(f, args) => VisibleName(declared, f) && forall i | 0 <= i < |args| :: CleanExpr(declared, args[i])
    case CallV(f, args) => CleanExpr(declared, f) && forall i | 0 <= i < |args| :: CleanExpr(declared, args[i])
    case Op(_, args) => forall i | 0 <= i < |args| :: CleanExpr(declared, args[i])
    case And(a, b) => CleanExpr(declared, a) && CleanExpr(declared, b)
    case Or(a, b) => CleanExpr(declared, a) && CleanExpr(declared, b)
    case Not(a) => CleanExpr(declared, a)
    case Cond(c, t, f) => CleanExpr(declared, c) && CleanExpr(declared, t) && CleanExpr(declared, f)
    case ResumeSelf(a) => CleanExpr(declared, a)
    case _ => false
  }

  /** A source statement that captures nothing and binds only declared locals. */
  predicate Clean(declared: set<string>, s: Stmt) {
    match s
    case Skip => true
    case Brk => true
    case Cont => true
    case HoleS(_) => true
    case Seq(a, b) => Clean(declared, a) && Clean(declared, b)
    case Ifte(c, t, e) => CleanExpr(declared, c) && Clean(declared, t) && Clean(declared, e)
    case Loop(c, body) => CleanExpr(declared, c) && Clean(declared, body)
    case Ret(e) => CleanExpr(declared, e)
    case RaiseS(e) => CleanExpr(declared, e)
    case ExprS(e) => CleanExpr(declared, e)
    case Effect(_, args) => forall i | 0 <= i < |args| :: CleanExpr(declared, args[i])
    case Assign(x, e) => x in declared && CleanExpr(declared, e)
    case Del(x) => VisibleName(declared, x)
    case ForIn(x, e, _, body) => x in declared && CleanExpr(declared, e) && Clean(declared, body)
    case TryCatch(body, x, handler) => x in declared && Clean(declared, body) && Clean(declared, handler)
    case TryFinally(body, fin) => Clean(declared, body) && Clean(declared, fin)
    case BreakBlock(body) => Clean(declared, body)
    case Yield(target, e) => (target.Some? ==> target.value in declared) && CleanExpr(declared, e)
    case YieldFrom(e) => CleanExpr(declared, e)
    case _ => false
  }

  lemma CleanFlatten(declared: set<string>, s: Stmt)
    requires Clean(declared, s)
    ensures forall i | 0 <= i < |Flatten(s)| :: Clean(declared, Flatten(s)[i])
  {
  }
}
