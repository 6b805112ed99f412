/** The Core language that generator bodies are written in and compiled to.

Calls, operators and user-visible truth tests are answered by a host. The host sees
the whole history of events, so it stands for any deterministic surroundings,
including mutable objects; equal traces mean equal observable effects in equal order. */
module Core {

  datatype Option<+T> = None | Some(value: T)

  /** `Obj` is a reference to a user object; the other values are immediate. */
  datatype Val = Unit | Bool(b: bool) | Int(i: int) | Str(s: string) | Obj(id: nat)

  datatype Event =
    | ReadGlobal(x: string)
    | CallNamed(f: string, args: seq<Val>)
    | CallValue(callee: Val, args: seq<Val>)
    | Operate(op: string, args: seq<Val>)
    | TestTruth(v: Val)
    | TestEqual(a: Val, b: Val)
    | TestUnequal(a: Val, b: Val)
    | Outside(note: nat)  // something the caller does while the generator is suspended

  type Trace = seq<Event>

  /** An exception is its class name. `Stuck` is a named hole: nothing runs after it. */
  datatype Reply = Ok(v: Val) | Raise(exn: string) | Stuck(tag: string)

  /** `answer` is asked with the whole history. `owns` tells which tests of objects it is
  asked at all: those for which the object's class defines the method, or whose outcome
  depends on contents the model does not hold. */
  datatype Host = Host(answer: (Trace, Event) -> Reply, owns: Event -> bool)

  function Ask(host: Host, e: Event, tr: Trace): (Reply, Trace) {
    (host.answer(tr, e), tr + [e])
  }

  /** A key of the frame's `<locals>` dictionary: a source name or a compiler temporary. */
  datatype Var = Source(id: string) | Temp(n: nat)

  datatype Slot = Pc | State | Return | Exception | Sent | Handler

  /** The heap object of one suspended generator. The `<locals>` dictionary is kept as
  two maps, one for each kind of key. */
  datatype Frame = Frame(
    pc: Val, state: Val, ret: Val,
    exn: Option<Val>, sent: Option<Val>, handler: Option<Val>,
    locals: map<string, Val>, temps: map<nat, Val>)

  function GetSlot(f: Frame, s: Slot): Option<Val> {
    match s
    case Pc => Some(f.pc)
    case State => Some(f.state)
    case Return => Some(f.ret)
    case Exception => f.exn
    case Sent => f.sent
    case Handler => f.handler
  }

  function WithSlot(f: Frame, s: Slot, v: Val): Frame {
    match s
    case Pc => f.(pc := v)
    case State => f.(state := v)
    case Return => f.(ret := v)
    case Exception => f.(exn := Some(v))
    case Sent => f.(sent := Some(v))
    case Handler => f.(handler := Some(v))
  }

  function GetVar(f: Frame, x: Var): Option<Val> {
    match x
    case Source(id) => if id in f.locals then Some(f.locals[id]) else None
    case Temp(n) => if n in f.temps then Some(f.temps[n]) else None
  }

  function WithVar(f: Frame, x: Var, v: Val): Frame {
    match x
    case Source(id) => f.(locals := f.locals[id := v])
    case Temp(n) => f.(temps := f.temps[n := v])
  }

  function WithoutVar(f: Frame, x: Var): Frame {
    match x
    case Source(id) => f.(locals := f.locals - {id})
    case Temp(n) => f.(temps := f.temps - {n})
  }

  datatype Expr =
    | Lit(v: Val)
    | Name(x: string)
    | Call(f: string, args: seq<Expr>)
    | CallV(callee: Expr, args: seq<Expr>)
    | Op(op: string, args: seq<Expr>)
    | And(a: Expr, b: Expr)
    | Or(a: Expr, b: Expr)
    | Not(a: Expr)
    | Cond(c: Expr, t: Expr, e: Expr)
    | HoleE(tag: string)
    | ResumeSelf(a: Expr)  // a call that reaches this generator's own `send`
      // emitted by the generator compiler only
    | ReadLocal(loc: Var)
    | Field(slot: Slot)
    | Equal(a: Expr, b: Expr)
    | Unequal(a: Expr, b: Expr)

  datatype Stmt =
    | Skip
    | Seq(s1: Stmt, s2: Stmt)
    | Ifte(c: Expr, t: Stmt, e: Stmt)
    | Loop(c: Expr, body: Stmt)
    | Brk
    | Cont
    | Ret(r: Expr)
    | RaiseS(r: Expr)
    | ExprS(r: Expr)
    | Effect(op: string, args: seq<Expr>)
    | HoleS(tag: string)
    | Assign(x: string, r: Expr)
    | Del(x: string)
    | ForIn(x: string, r: Expr, ready: bool, body: Stmt)
    | TryCatch(body: Stmt, x: string, handler: Stmt)
    | TryFinally(body: Stmt, fin: Stmt)
    | BreakBlock(body: Stmt)
    | Yield(target: Option<string>, r: Expr)
    | YieldFrom(r: Expr)
      // emitted by the generator compiler only
    | SetField(slot: Slot, r: Expr)
    | SetLocal(loc: Var, r: Expr)
    | DelLocal(loc: Var)

  // ----- truth and equality -----

  predicate PlainTruth(v: Val) {
    match v
    case Unit => false
    case Bool(b) => b
    case Int(i) => i != 0
    case Str(s) => s != ""
    case Obj(_) => true
  }

  /** A truth test runs user code exactly on objects that own one; other objects are true. */
  function Truth(host: Host, v: Val, tr: Trace): (Reply, Trace) {
    if v.Obj? && host.owns(TestTruth(v)) then
      var (r, tr') := Ask(host, TestTruth(v), tr);
      (if r.Ok? then Ok(Bool(PlainTruth(r.v))) else r, tr')
    else (Ok(Bool(PlainTruth(v))), tr)
  }

  /** `==` runs user code exactly when the left operand is an object that owns it; other
  objects are equal to themselves only. */
  function EqualVals(host: Host, a: Val, b: Val, tr: Trace): (Reply, Trace) {
    if a.Obj? && host.owns(TestEqual(a, b)) then Ask(host, TestEqual(a, b), tr) else (Ok(Bool(a == b)), tr)
  }

  /** `!=` likewise. */
  function UnequalVals(host: Host, a: Val, b: Val, tr: Trace): (Reply, Trace) {
    if a.Obj? && host.owns(TestUnequal(a, b)) then Ask(host, TestUnequal(a, b), tr) else (Ok(Bool(a != b)), tr)
  }

  /** An object that is asked whether it differs from unit. */
  predicate OwnsUnequal(host: Host, v: Val) { v.Obj? && host.owns(TestUnequal(v, Unit)) }

  /** An object that is asked whether it equals unit. */
  predicate OwnsEqual(host: Host, v: Val) { v.Obj? && host.owns(TestEqual(v, Unit)) }

  // ----- expressions -----

  /** Where an expression is evaluated: bound variables, the names declared local, and
  the frame it belongs to. */
  datatype Ctx = Ctx(vars: map<string, Val>, declared: set<string>, frame: Frame)

  datatype Replies = All(vs: seq<Val>) | Failed(r: Reply)

  function ReadName(host: Host, ctx: Ctx, x: string, tr: Trace): (Reply, Trace) {
    if x in ctx.vars then (Ok(ctx.vars[x]), tr)
    else if x in ctx.declared then (Raise("UnboundLocalError"), tr)
    else Ask(host, ReadGlobal(x), tr)
  }

  /** The shared `__read_local__` method: a dictionary lookup whose `KeyError` becomes
  `UnboundLocalError`. */
  function ReadVar(frame: Frame, x: Var): Reply {
    var found := GetVar(frame, x);
    if found.Some? then Ok(found.value) else Raise("UnboundLocalError")
  }

  function Eval(host: Host, ctx: Ctx, e: Expr, tr: Trace): (Reply, Trace)
    decreases e, 0
  {
    match e
    case Lit(v) => (Ok(v), tr)
    case Name(x) => ReadName(host, ctx, x, tr)
    case Call(f, args) =>
      if f in ctx.vars || f in ctx.declared then
        var (callee, tr1) := ReadName(host, ctx, f, tr);
        if !callee.Ok? then (callee, tr1) else
        var (vs, tr2) := EvalAll(host, ctx, args, tr1);
        if vs.Failed? then (vs.r, tr2) else Ask(host, CallValue(callee.v, vs.vs), tr2)
      else
        var (vs, tr1) := EvalAll(host, ctx, args, tr);
        if vs.Failed? then (vs.r, tr1) else Ask(host, CallNamed(f, vs.vs), tr1)
    case CallV(f, args) =>
      var (callee, tr1) := Eval(host, ctx, f, tr);
      if !callee.Ok? then (callee, tr1) else
      var (vs, tr2) := EvalAll(host, ctx, args, tr1);
      if vs.Failed? then (vs.r, tr2) else Ask(host, CallValue(callee.v, vs.vs), tr2)
    case Op(op, args) =>
      var (vs, tr1) := EvalAll(host, ctx, args, tr);
      if vs.Failed? then (vs.r, tr1) else Ask(host, Operate(op, vs.vs), tr1)
    case And(a, b) =>
      var (left, tr1) := Eval(host, ctx, a, tr);
      if !left.Ok? then (left, tr1) else
      var (test, tr2) := Truth(host, left.v, tr1);
      if !test.Ok? then (test, tr2)
      else if PlainTruth(test.v) then Eval(host, ctx, b, tr2) else (left, tr2)
    case Or(a, b) =>
      var (left, tr1) := Eval(host, ctx, a, tr);
      if !left.Ok? then (left, tr1) else
      var (test, tr2) := Truth(host, left.v, tr1);
      if !test.Ok? then (test, tr2)
      else if PlainTruth(test.v) then (left, tr2) else Eval(host, ctx, b, tr2)
    case Not(a) =>
      var (arg, tr1) := Eval(host, ctx, a, tr);
      if !arg.Ok? then (arg, tr1) else
      var (test, tr2) := Truth(host, arg.v, tr1);
      if !test.Ok? then (test, tr2) else (Ok(Bool(!PlainTruth(test.v))), tr2)
    case Cond(c, t, f) =>
      var (test, tr1) := EvalTest(host, ctx, c, tr);
      if !test.Ok? then (test, tr1)
      else if PlainTruth(test.v) then Eval(host, ctx, t, tr1) else Eval(host, ctx, f, tr1)
    case HoleE(tag) => (Stuck(tag), tr)
    case ResumeSelf(a) =>
      var (sent, tr1) := Eval(host, ctx, a, tr);
      if !sent.Ok? then (sent, tr1) else
      var (gate, tr2) := Gate(host, ctx.frame, sent.v, tr1);
      (if gate == Ok(Unit) then Stuck("resume:nested-run") else gate, tr2)
    case ReadLocal(x) => (ReadVar(ctx.frame, x), tr)
    case Field(s) =>
      var v := GetSlot(ctx.frame, s);
      (if v.Some? then Ok(v.value) else Raise("AttributeError"), tr)
    case Equal(a, b) =>
      var (x, tr1) := Eval(host, ctx, a, tr);
      if !x.Ok? then (x, tr1) else
      var (y, tr2) := Eval(host, ctx, b, tr1);
      if !y.Ok? then (y, tr2) else EqualVals(host, x.v, y.v, tr2)
    case Unequal(a, b) =>
      var (x, tr1) := Eval(host, ctx, a, tr);
      if !x.Ok? then (x, tr1) else
      var (y, tr2) := Eval(host, ctx, b, tr1);
      if !y.Ok? then (y, tr2) else UnequalVals(host, x.v, y.v, tr2)
  }

  /** Left to right, stopping at the first operand that does not give a value. */
  function EvalAll(host: Host, ctx: Ctx, es: seq<Expr>, tr: Trace): (Replies, Trace)
    decreases es, 1
  {
    if es == [] then (All([]), tr) else
    var (head, tr1) := Eval(host, ctx, es[0], tr);
    if !head.Ok? then (Failed(head), tr1) else
    var (tail, tr2) := EvalAll(host, ctx, es[1..], tr1);
    (if tail.All? then All([head.v] + tail.vs) else tail, tr2)
  }

  /** Evaluate a condition and test it once; the value is the Boolean outcome. */
  function EvalTest(host: Host, ctx: Ctx, e: Expr, tr: Trace): (Reply, Trace)
    decreases e, 1
  {
    var (v, tr1) := Eval(host, ctx, e, tr);
    if v.Ok? then Truth(host, v.v, tr1) else (v, tr1)
  }

  /** The test a resume makes before it runs the body: finished, running, or unstarted
  and sent something. `Ok(Unit)` admits the resume. */
  function Gate(host: Host, frame: Frame, sent: Val, tr: Trace): (Reply, Trace) {
    if frame.state == Int(3) then (Raise("StopIteration"), tr)
    else if frame.state == Int(2) then (Raise("ValueError"), tr)
    else if frame.state == Int(0) then
      var (differs, tr1) := UnequalVals(host, sent, Unit, tr);
      if !differs.Ok? then (differs, tr1) else
      var (test, tr2) := Truth(host, differs.v, tr1);
      if !test.Ok? then (test, tr2)
      else (if PlainTruth(test.v) then Raise("TypeError") else Ok(Unit), tr2)
    else (Ok(Unit), tr)
  }

  // ----- statements as the Core interpreter runs them -----

  datatype Ctl =
    | Normal
    | Broke
    | Continued
    | Returned(v: Val)
    | Raised(exn: string)
    | Halted(hole: string)
    | Suspended
    | OutOfFuel

  function Abort(r: Reply): Ctl
    requires !r.Ok?
  {
    if r.Raise? then Raised(r.exn) else Halted(r.tag)
  }

  /** What `raise` makes of the value it is given. */
  function RaiseValue(host: Host, v: Val, tr: Trace): (Ctl, Trace) {
    if v.Str? then (Raised(v.s), tr) else
    var (r, tr1) := Ask(host, Operate("raise", [v]), tr);
    (if r.Ok? then Halted("raise:non-exception-value") else Abort(r), tr1)
  }

  datatype CoreSt = CoreSt(vars: map<string, Val>, frame: Frame, tr: Trace)

  function EvalIn(host: Host, st: CoreSt, e: Expr): (Reply, CoreSt) {
    var (r, tr1) := Eval(host, Ctx(st.vars, {}, st.frame), e, st.tr);
    (r, st.(tr := tr1))
  }

  /** Whether a statement was left as the language lets statements be left; a finally block
  runs exactly then. */
  predicate LanguageExit(ctl: Ctl) {
    ctl.Normal? || ctl.Broke? || ctl.Continued? || ctl.Returned? || ctl.Raised?
  }

  /** Ask the iterator for its next item and bind it; `Broke` when it is exhausted. */
  function NextItem(host: Host, x: string, it: Val, st: CoreSt): (Ctl, CoreSt) {
    var (r, tr1) := Ask(host, CallNamed("<python-next>", [it]), st.tr);
    var st1 := st.(tr := tr1);
    match r
    case Ok(v) => (Normal, st1.(vars := st1.vars[x := v]))
    case Raise(exn) => (if exn == "StopIteration" then Broke else Raised(exn), st1)
    case Stuck(l) => (Halted(l), st1)
  }

  /** The fuel-bounded interpreter. Only loop iterations use fuel; a yield is no statement of
  Core's. */
  function Run(host: Host, fuel: nat, s: Stmt, st: CoreSt): (Ctl, CoreSt)
    decreases fuel, s, 0
  {
    match s
    case Skip => (Normal, st)
    case Seq(a, b) =>
      var (ctl, st1) := Run(host, fuel, a, st);
      if ctl == Normal then Run(host, fuel, b, st1) else (ctl, st1)
    case Ifte(c, t, e) =>
      var (test, tr1) := EvalTest(host, Ctx(st.vars, {}, st.frame), c, st.tr);
      var st1 := st.(tr := tr1);
      if !test.Ok? then (Abort(test), st1)
      else if PlainTruth(test.v) then Run(host, fuel, t, st1) else Run(host, fuel, e, st1)
    case Loop(c, body) =>
      if fuel == 0 then (OutOfFuel, st) else
      var (test, tr1) := EvalTest(host, Ctx(st.vars, {}, st.frame), c, st.tr);
      var st1 := st.(tr := tr1);
      if !test.Ok? then (Abort(test), st1)
      else if !PlainTruth(test.v) then (Normal, st1)
      else
        var (ctl, st2) := Run(host, fuel - 1, body, st1);
        if ctl == Normal || ctl == Continued then Run(host, fuel - 1, s, st2)
        else (if ctl == Broke then Normal else ctl, st2)
    case Brk => (Broke, st)
    case Cont => (Continued, st)
    case Ret(e) =>
      var (r, st1) := EvalIn(host, st, e);
      (if r.Ok? then Returned(r.v) else Abort(r), st1)
    case RaiseS(e) =>
      var (r, st1) := EvalIn(host, st, e);
      if !r.Ok? then (Abort(r), st1) else
      var (ctl, tr2) := RaiseValue(host, r.v, st1.tr);
      (ctl, st1.(tr := tr2))
    case ExprS(e) =>
      var (r, st1) := EvalIn(host, st, e);
      (if r.Ok? then Normal else Abort(r), st1)
    case Effect(op, args) =>
      var (r, st1) := EvalIn(host, st, Op(op, args));
      (if r.Ok? then Normal else Abort(r), st1)
    case HoleS(tag) => (Halted(tag), st)
    case Assign(x, e) =>
      var (r, st1) := EvalIn(host, st, e);
      if r.Ok? then (Normal, st1.(vars := st1.vars[x := r.v])) else (Abort(r), st1)
    case Del(x) => (Normal, st.(vars := st.vars - {x}))
    case TryCatch(body, x, handler) =>
      var (ctl, st1) := Run(host, fuel, body, st);
      if ctl.Raised? then Run(host, fuel, handler, st1.(vars := st1.vars[x := Str(ctl.exn)]))
      else (ctl, st1)
    case TryFinally(body, fin) =>
      var (ctl, st1) := Run(host, fuel, body, st);
      if !LanguageExit(ctl) then (ctl, st1) else
      var (ctl2, st2) := Run(host, fuel, fin, st1);
      (if ctl2 == Normal then ctl else ctl2, st2)
    case BreakBlock(body) =>
      var (ctl, st1) := Run(host, fuel, body, st);
      (if ctl == Broke then Normal else ctl, st1)
    case ForIn(x, e, ready, body) =>
      var (r, st1) := EvalIn(host, st, e);
      if !r.Ok? then (Abort(r), st1)
      else if ready then RunFor(host, fuel, x, r.v, body, st1)
      else
        var (got, tr2) := Ask(host, CallNamed("<python-iter>", [r.v]), st1.tr);
        var st2 := st1.(tr := tr2);
        if !got.Ok? then (Abort(got), st2) else RunFor(host, fuel, x, got.v, body, st2)
    case SetField(slot, e) =>
      var (r, st1) := EvalIn(host, st, e);
      if r.Ok? then (Normal, st1.(frame := WithSlot(st1.frame, slot, r.v))) else (Abort(r), st1)
    case SetLocal(x, e) =>
      var (r, st1) := EvalIn(host, st, e);
      if r.Ok? then (Normal, st1.(frame := WithVar(st1.frame, x, r.v))) else (Abort(r), st1)
    case DelLocal(x) =>
      if GetVar(st.frame, x).None? then (Raised("KeyError"), st)
      else (Normal, st.(frame := WithoutVar(st.frame, x)))
    case _ => (Halted("core:not-lowered"), st)
  }

  function RunFor(host: Host, fuel: nat, x: string, it: Val, body: Stmt, st: CoreSt): (Ctl, CoreSt)
    decreases fuel, body, 1
  {
    if fuel == 0 then (OutOfFuel, st) else
    var (ctl, st1) := NextItem(host, x, it, st);
    if ctl != Normal then (if ctl == Broke then Normal else ctl, st1) else
    var (ctl2, st2) := Run(host, fuel - 1, body, st1);
    if ctl2 == Normal || ctl2 == Continued then RunFor(host, fuel - 1, x, it, body, st2)
    else (if ctl2 == Broke then Normal else ctl2, st2)
  }
}
