/** Nested `and`/`or` in value position. CPython threads its jumps: an operand that was
tested by an inner operator is not tested again by the outer one. The pass keeps that by
giving each operator a helper that returns a value and what is known of its truth. */
module TruthValues {
  import opened Core

  /** `Operand` is any expression other than the next three: its parts are evaluated in value
  position, left to right, and then it is. `Choice` is a conditional expression. `First` is
  emitted: the value of the pair a helper returns. */
  datatype Expr =
    | Operand(op: string, args: seq<Expr>)
    | BoolOp(isAnd: bool, a: Expr, b: Expr)
    | Not(a: Expr)
    | Choice(c: Expr, yes: Expr, no: Expr)
    | First(helper: nat)

  function Size(e: Expr): nat {
    match e
    case Operand(_, args) => 1 + SizeAll(args)
    case BoolOp(_, a, b) => 2 + Size(a) + Size(b)
    case Not(a) => 1 + Size(a)
    case Choice(c, yes, no) => 1 + Size(c) + Size(yes) + Size(no)
    case First(_) => 1
  }

  function SizeAll(es: seq<Expr>): nat {
    if es == [] then 0 else 1 + Size(es[0]) + SizeAll(es[1..])
  }

  // ----- jump threading -----

  /** An enclosing operator that waits for its left operand. */
  datatype Pending = Pending(isAnd: bool, right: Expr)

  function StackSize(stack: seq<Pending>): nat {
    if stack == [] then 0 else 1 + Size(stack[0].right) + StackSize(stack[1..])
  }

  /** Evaluate `e` under the operators `stack`, innermost first. An operand is evaluated
  once, tested once when an operator waits for it, and the outcome is carried outwards. */
  function Thread(host: Host, e: Expr, stack: seq<Pending>, tr: Trace): (Reply, Trace)
    decreases Size(e) + StackSize(stack), 2
  {
    match e
    case BoolOp(isAnd, a, b) => Thread(host, a, [Pending(isAnd, b)] + stack, tr)
    case _ =>
      var (v, tr1) := ThreadLeaf(host, e, tr);
      if !v.Ok? || stack == [] then (v, tr1) else
      var (test, tr2) := Truth(host, v.v, tr1);
      if !test.Ok? then (test, tr2) else Unwind(host, v.v, PlainTruth(test.v), stack, tr2)
  }

  /** A tested value meets the enclosing operators: those it decides it leaves, untested. */
  function Unwind(host: Host, v: Val, truth: bool, stack: seq<Pending>, tr: Trace): (Reply, Trace)
    decreases StackSize(stack), 3
  {
    if stack == [] then (Ok(v), tr)
    else if stack[0].isAnd != truth then Unwind(host, v, truth, stack[1..], tr)
    else Thread(host, stack[0].right, stack[1..], tr)
  }

  /** An expression that is no operator stands on its own: the value of a condition is tested,
  as Core tests it, and only the branch taken is evaluated. What CPython makes of conditional
  expressions is `TruthThreading.PyValue`. */
  function ThreadLeaf(host: Host, e: Expr, tr: Trace): (Reply, Trace)
    decreases Size(e), 1
  {
    match e
    case Operand(op, args) =>
      var (vs, tr1) := ThreadAll(host, args, tr);
      if vs.Failed? then (vs.r, tr1) else Ask(host, Operate(op, vs.vs), tr1)
    case Not(a) =>
      var (v, tr1) := Thread(host, a, [], tr);
      Negate(host, v, tr1)
    case Choice(c, yes, no) =>
      var (test, tr1) := Thread(host, c, [], tr);
      if !test.Ok? then (test, tr1) else
      var (truth, tr2) := Truth(host, test.v, tr1);
      if !truth.Ok? then (truth, tr2)
      else if PlainTruth(truth.v) then Thread(host, yes, [], tr2) else Thread(host, no, [], tr2)
    case _ => (Stuck("emitted form"), tr)
  }

  /** The value of `not`, which tests its operand. */
  function Negate(host: Host, v: Reply, tr: Trace): (Reply, Trace) {
    if !v.Ok? then (v, tr) else
    var (test, tr1) := Truth(host, v.v, tr);
    (if test.Ok? then Ok(Bool(!PlainTruth(test.v))) else test, tr1)
  }

  function ThreadAll(host: Host, es: seq<Expr>, tr: Trace): (Replies, Trace)
    decreases SizeAll(es), 3
  {
    if es == [] then (All([]), tr) else
    var (head, tr1) := Thread(host, es[0], [], tr);
    if !head.Ok? then (Failed(head), tr1) else
    var (tail, tr2) := ThreadAll(host, es[1..], tr1);
    (if tail.All? then All([head.v] + tail.vs) else tail, tr2)
  }

  // ----- the pass -----

  /** One side of an operator inside its helper: the pair another helper returns, or a value
  in a fresh pair whose truth is not known. */
  datatype Side = Pair(helper: nat) | Fresh(e: Expr)

  datatype Helper = Helper(left: Side, isAnd: bool, right: Side)

  datatype Lowered = Lowered(out: Expr, pair: Option<nat>, helpers: seq<Helper>, changed: bool)

  function SideOf(l: Lowered): Side {
    if l.pair.Some? then Pair(l.pair.value) else Fresh(l.out)
  }

  function Lower(e: Expr, helpers: seq<Helper>): Lowered {
    match e
    case Operand(op, args) =>
      var (outs, hs, changed) := LowerAll(args, helpers);
      Lowered(Operand(op, outs), None, hs, changed)
    case BoolOp(isAnd, a, b) =>
      var la := Lower(a, helpers);
      var lb := Lower(b, la.helpers);
      var h := |lb.helpers|;
      Lowered(if la.pair.Some? then First(h) else BoolOp(isAnd, la.out, lb.out), Some(h),
              lb.helpers + [Helper(SideOf(la), isAnd, SideOf(lb))],
              la.changed || lb.changed || la.pair.Some?)
    case Not(a) =>
      var la := Lower(a, helpers);
      Lowered(Expr.Not(la.out), None, la.helpers, la.changed)
    case Choice(c, yes, no) =>
      var lc := Lower(c, helpers);
      var ly := Lower(yes, lc.helpers);
      var ln := Lower(no, ly.helpers);
      Lowered(Choice(lc.out, ly.out, ln.out), None, ln.helpers, lc.changed || ly.changed || ln.changed)
    case First(_) => Lowered(e, None, helpers, false)
  }

  function LowerAll(es: seq<Expr>, helpers: seq<Helper>): (seq<Expr>, seq<Helper>, bool) {
    if es == [] then ([], helpers, false) else
    var head := Lower(es[0], helpers);
    var (tail, hs, changed) := LowerAll(es[1..], head.helpers);
    ([head.out] + tail, hs, head.changed || changed)
  }

  /** The pass over one function body: without a compound left operand it changes nothing. */
  function LowerBody(e: Expr): (Expr, seq<Helper>) {
    var l := Lower(e, []);
    if l.changed then (l.out, l.helpers) else (e, [])
  }

  /** The pass as it runs: `helpers` grows and `changed` is raised while the body is
  rewritten bottom up. A node's entry in the table of pairs is what `Rewrite` returns. */
  class Pass {
    var helpers: seq<Helper>
    var changed: bool

    constructor ()
      ensures helpers == [] && !changed
    {
      helpers, changed := [], false;
    }

    method Rewrite(e: Expr) returns (out: Expr, pair: Option<nat>)
      modifies this
      ensures var l := Lower(e, old(helpers));
              out == l.out && pair == l.pair && helpers == l.helpers && changed == (old(changed) || l.changed)
      decreases Size(e)
    {
      match e
      case Operand(op, args) =>
        var outs := RewriteAll(args);
        out, pair := Operand(op, outs), None;
      case BoolOp(isAnd, a, b) =>
        var a', pa := Rewrite(a);
        var b', pb := Rewrite(b);
        var h := |helpers|;
        helpers := helpers + [Helper(if pa.Some? then Pair(pa.value) else Fresh(a'), isAnd,
                                     if pb.Some? then Pair(pb.value) else Fresh(b'))];
        pair := Some(h);
        if pa.Some? {
          changed := true;
          out := First(h);
        } else {
          out := BoolOp(isAnd, a', b');
        }
      case Not(a) =>
        var a', _ := Rewrite(a);
        out, pair := Expr.Not(a'), None;
      case Choice(c, yes, no) =>
        var c', _ := Rewrite(c);
        var yes', _ := Rewrite(yes);
        var no', _ := Rewrite(no);
        out, pair := Choice(c', yes', no'), None;
      case First(_) => out, pair := e, None;
    }

    method RewriteAll(es: seq<Expr>) returns (outs: seq<Expr>)
      modifies this
      ensures var (o, hs, c) := LowerAll(es, old(helpers));
              outs == o && helpers == hs && changed == (old(changed) || c)
      decreases SizeAll(es)
    {
      if es == [] { return []; }
      var head, _ := Rewrite(es[0]);
      var tail := RewriteAll(es[1..]);
      outs := [head] + tail;
    }
  }

  method LowerFunction(e: Expr) returns (out: Expr, table: seq<Helper>)
    ensures (out, table) == LowerBody(e)
    ensures IsSource(e) ==> forall host: Host, tr: Trace ::
      Eval(host, table, |table|, out, tr) == Thread(host, e, [], tr)
  {
    var pass := new Pass();
    var lowered, _ := pass.Rewrite(e);
    if pass.changed { out, table := lowered, pass.helpers; } else { out, table := e, []; }
    if IsSource(e) {
      forall host: Host, tr: Trace ensures Eval(host, table, |table|, out, tr) == Thread(host, e, [], tr) {
        PassThreads(host, e, tr);
      }
    }
  }

  // ----- what the emitted code does -----

  /** A helper's result: a value and 0 for untested, 1 for false, 2 for true. */
  datatype PairReply = Have(v: Val, state: int) | Lack(r: Reply)

  /** Core's rules, with helpers below `n` in scope. */
  function Eval(host: Host, table: seq<Helper>, n: nat, e: Expr, tr: Trace): (Reply, Trace)
    decreases n, 0, Size(e), 0
  {
    match e
    case Operand(op, args) =>
      var (vs, tr1) := EvalAll(host, table, n, args, tr);
      if vs.Failed? then (vs.r, tr1) else Ask(host, Operate(op, vs.vs), tr1)
    case BoolOp(isAnd, a, b) =>
      var (left, tr1) := Eval(host, table, n, a, tr);
      if !left.Ok? then (left, tr1) else
      var (test, tr2) := Truth(host, left.v, tr1);
      if !test.Ok? then (test, tr2)
      else if PlainTruth(test.v) != isAnd then (left, tr2) else Eval(host, table, n, b, tr2)
    case Not(a) =>
      var (v, tr1) := Eval(host, table, n, a, tr);
      Negate(host, v, tr1)
    case Choice(c, yes, no) =>
      var (test, tr1) := Eval(host, table, n, c, tr);
      if !test.Ok? then (test, tr1) else
      var (truth, tr2) := Truth(host, test.v, tr1);
      if !truth.Ok? then (truth, tr2)
      else if PlainTruth(truth.v) then Eval(host, table, n, yes, tr2) else Eval(host, table, n, no, tr2)
    case First(h) =>
      if h < n && h < |table| then
        var (p, tr1) := RunHelper(host, table, h, tr);
        (if p.Have? then Ok(p.v) else p.r, tr1)
      else (Stuck("no helper"), tr)
  }

  function EvalAll(host: Host, table: seq<Helper>, n: nat, es: seq<Expr>, tr: Trace): (Replies, Trace)
    decreases n, 0, SizeAll(es), 1
  {
    if es == [] then (All([]), tr) else
    var (head, tr1) := Eval(host, table, n, es[0], tr);
    if !head.Ok? then (Failed(head), tr1) else
    var (tail, tr2) := EvalAll(host, table, n, es[1..], tr1);
    (if tail.All? then All([head.v] + tail.vs) else tail, tr2)
  }

  /** The body of helper `h`: take the left pair, test its value unless its truth is known,
  and return that pair when it decides, the right pair otherwise. */
  function RunHelper(host: Host, table: seq<Helper>, h: nat, tr: Trace): (PairReply, Trace)
    requires h < |table|
    decreases h, 1, 0, 0
  {
    var helper := table[h];
    var (left, tr1) := RunSide(host, table, h, helper.left, tr);
    if left.Lack? then (left, tr1) else
    var (state, tr2) :=
      if left.state == 0 then
        var (test, tr') := Truth(host, left.v, tr1);
        (if test.Ok? then Have(left.v, if PlainTruth(test.v) then 2 else 1) else Lack(test), tr')
      else (left, tr1);
    if state.Lack? || state.state == (if helper.isAnd then 1 else 2) then (state, tr2)
    else RunSide(host, table, h, helper.right, tr2)
  }

  function RunSide(host: Host, table: seq<Helper>, n: nat, side: Side, tr: Trace): (PairReply, Trace)
    requires n <= |table|
    decreases n, 0, match side case Pair(_) => 0 case Fresh(e) => Size(e) + 1, 2
  {
    match side
    case Pair(h) => if h < n then RunHelper(host, table, h, tr) else (Lack(Stuck("no helper")), tr)
    case Fresh(e) =>
      var (v, tr1) := Eval(host, table, n, e, tr);
      (if v.Ok? then Have(v.v, 0) else Lack(v), tr1)
  }

  // ----- the emitted body of a helper -----

  /** What a helper's variables hold: a value, a pair, or a number. */
  datatype Slot = Value(v: Val) | Two(p: PairReply) | Number(n: int)

  datatype Term =
    | Of(side: Side)
    | Item(x: string, i: int)
    | PythonBool(x: string)
    | Pick(x: string, yes: int, no: int)
    | Tuple(x: string, y: string)

  datatype Line =
    | Set(x: string, e: Term)
    | IfEq(x: string, n: int, yes: seq<Line>, no: seq<Line>)
    | Give(e: Term)

  /** The statements the pass emits for an operator. */
  function Body(helper: Helper): seq<Line> {
    [Set(":pair", Of(helper.left)),
     Set(":value", Item(":pair", 0)),
     Set(":state", Item(":pair", 1)),
     IfEq(":state", 0, [Set(":test", PythonBool(":value")), Set(":state", Pick(":test", 2, 1))], []),
     IfEq(":state", if helper.isAnd then 1 else 2, [Give(Tuple(":value", ":state"))], [Give(Of(helper.right))])]
  }

  type Env = map<string, Slot>

  datatype Got = Got(slot: Slot) | Failing(r: Reply)

  function RunTerm(host: Host, table: seq<Helper>, h: nat, e: Term, env: Env, tr: Trace): (Got, Trace)
    requires h <= |table|
  {
    match e
    case Of(side) =>
      var (p, tr1) := RunSide(host, table, h, side, tr);
      (if p.Have? then Got(Two(p)) else Failing(p.r), tr1)
    case Item(x, i) =>
      (if x in env && env[x].Two? && env[x].p.Have? && i == 0 then Got(Value(env[x].p.v))
       else if x in env && env[x].Two? && env[x].p.Have? && i == 1 then Got(Number(env[x].p.state))
       else Failing(Stuck("index")), tr)
    case PythonBool(x) =>
      if x in env && env[x].Value? then
        var (test, tr1) := Truth(host, env[x].v, tr);
        (if test.Ok? then Got(Value(Bool(PlainTruth(test.v)))) else Failing(test), tr1)
      else (Failing(Stuck("bool")), tr)
    case Pick(x, yes, no) =>
      (if x in env && env[x].Value? && env[x].v.Bool? then Got(Number(if env[x].v.b then yes else no))
       else Failing(Stuck("cond")), tr)
    case Tuple(x, y) =>
      (if x in env && env[x].Value? && y in env && env[y].Number? then Got(Two(Have(env[x].v, env[y].n)))
       else Failing(Stuck("tuple")), tr)
  }

  datatype Flow = On(env: Env) | Back(p: PairReply)

  function RunLines(host: Host, table: seq<Helper>, h: nat, lines: seq<Line>, env: Env, tr: Trace): (Flow, Trace)
    requires h <= |table|
    decreases lines
  {
    if lines == [] then (On(env), tr) else
    match lines[0]
    case Set(x, e) =>
      var (got, tr1) := RunTerm(host, table, h, e, env, tr);
      if got.Got? then RunLines(host, table, h, lines[1..], env[x := got.slot], tr1) else (Back(Lack(got.r)), tr1)
    case IfEq(x, n, yes, no) =>
      if x !in env || !env[x].Number? then (Back(Lack(Stuck("condition"))), tr) else
      var (flow, tr1) := RunLines(host, table, h, if env[x].n == n then yes else no, env, tr);
      if flow.On? then RunLines(host, table, h, lines[1..], flow.env, tr1) else (flow, tr1)
    case Give(e) =>
      var (got, tr1) := RunTerm(host, table, h, e, env, tr);
      (Back(if got.Failing? then Lack(got.r) else if got.slot.Two? then got.slot.p else Lack(Stuck("pair"))), tr1)
  }

  /** Running the emitted statements is the pair protocol. */
  lemma BodyRuns(host: Host, table: seq<Helper>, h: nat, tr: Trace)
    requires h < |table|
    ensures var (p, tr1) := RunHelper(host, table, h, tr);
            RunLines(host, table, h, Body(table[h]), map[], tr) == (Back(p), tr1)
  {
    hide RunSide, Truth, PlainTruth;
    var helper := table[h];
    var body := Body(helper);
    var (left, tr1) := RunSide(host, table, h, helper.left, tr);
    assert body[1..][1..] == body[2..] && body[2..][1..] == body[3..] && body[3..][1..] == body[4..]
           && body[4..][1..] == [];
    if left.Have? {
      var env1 := map[":pair" := Two(left)];
      var env2 := env1[":value" := Value(left.v)];
      var env3 := env2[":state" := Number(left.state)];
      assert RunLines(host, table, h, body[2..], env2, tr1) == RunLines(host, table, h, body[3..], env3, tr1);
      assert RunLines(host, table, h, body[1..], env1, tr1) == RunLines(host, table, h, body[3..], env3, tr1);
      TestLines(host, table, h, env3, tr1);
      if left.state == 0 {
        var (test, tr2) := Truth(host, left.v, tr1);
        if test.Ok? {
          var env4 := env3[":test" := Value(Bool(PlainTruth(test.v)))][":state" := Number(if PlainTruth(test.v) then 2 else 1)];
          LastLine(host, table, h, env4, tr2);
        }
      } else {
        assert RunLines(host, table, h, [], env3, tr1) == (On(env3), tr1);
        LastLine(host, table, h, env3, tr1);
      }
    }
  }

  lemma TestLines(host: Host, table: seq<Helper>, h: nat, env: Env, tr: Trace)
    requires h <= |table| && ":value" in env && env[":value"].Value?
    ensures var (test, tr1) := Truth(host, env[":value"].v, tr);
            RunLines(host, table, h, [Set(":test", PythonBool(":value")), Set(":state", Pick(":test", 2, 1))], env, tr) ==
            if !test.Ok? then (Back(Lack(test)), tr1) else
            var truth := PlainTruth(test.v);
            (On(env[":test" := Value(Bool(truth))][":state" := Number(if truth then 2 else 1)]), tr1)
  {
    hide Truth, PlainTruth, RunSide;
    var lines := [Set(":test", PythonBool(":value")), Set(":state", Pick(":test", 2, 1))];
    assert lines[1..] == [Set(":state", Pick(":test", 2, 1))] && lines[1..][1..] == [];
  }

  lemma LastLine(host: Host, table: seq<Helper>, h: nat, env: Env, tr: Trace)
    requires h < |table| && ":value" in env && env[":value"].Value? && ":state" in env && env[":state"].Number?
    ensures var helper := table[h];
            var (p, tr1) := RunSide(host, table, h, helper.right, tr);
            RunLines(host, table, h, Body(helper)[4..], env, tr) ==
            if env[":state"].n == (if helper.isAnd then 1 else 2) then (Back(Have(env[":value"].v, env[":state"].n)), tr)
            else (Back(p), tr1)
  {
    hide RunSide;
    var helper := table[h];
    assert Body(helper)[4..][1..] == [];
    assert RunLines(host, table, h, [Give(Tuple(":value", ":state"))], env, tr) ==
           (Back(Have(env[":value"].v, env[":state"].n)), tr);
    var (p, tr1) := RunSide(host, table, h, helper.right, tr);
    assert RunLines(host, table, h, [Give(Of(helper.right))], env, tr) == (Back(p), tr1);
    assert Body(helper)[4..][0] ==
           IfEq(":state", if helper.isAnd then 1 else 2, [Give(Tuple(":value", ":state"))], [Give(Of(helper.right))]);
  }

  // ----- the pass threads -----

  /** What enclosing operators make of a pair: test its value unless its truth is known. */
  function Continue(host: Host, p: (PairReply, Trace), stack: seq<Pending>): (Reply, Trace) {
    if p.0.Lack? then (p.0.r, p.1)
    else if stack == [] then (Ok(p.0.v), p.1)
    else if p.0.state == 0 then
      var (test, tr2) := Truth(host, p.0.v, p.1);
      if test.Ok? then Unwind(host, p.0.v, PlainTruth(test.v), stack, tr2) else (test, tr2)
    else Unwind(host, p.0.v, p.0.state == 2, stack, p.1)
  }

  predicate IsSource(e: Expr) {
    match e
    case Operand(_, args) => forall i | 0 <= i < |args| :: IsSource(args[i])
    case BoolOp(_, a, b) => IsSource(a) && IsSource(b)
    case Not(a) => IsSource(a)
    case Choice(c, yes, no) => IsSource(c) && IsSource(yes) && IsSource(no)
    case First(_) => false
  }

  /** Helpers are only added. */
  lemma {:induction false} LowerAdds(e: Expr, helpers: seq<Helper>)
    ensures helpers <= Lower(e, helpers).helpers
    ensures var l := Lower(e, helpers); l.pair.Some? ==> l.pair.value == |l.helpers| - 1
    ensures Lower(e, helpers).pair.Some? <==> e.BoolOp?
    decreases Size(e)
  {
    match e
    case Operand(_, args) => LowerAllAdds(args, helpers);
    case BoolOp(_, a, b) =>
      LowerAdds(a, helpers);
      LowerAdds(b, Lower(a, helpers).helpers);
    case Not(a) => LowerAdds(a, helpers);
    case Choice(c, yes, no) =>
      LowerAdds(c, helpers);
      var hs := Lower(c, helpers).helpers;
      LowerAdds(yes, hs);
      LowerAdds(no, Lower(yes, hs).helpers);
    case First(_) =>
  }

  lemma {:induction false} LowerAllAdds(es: seq<Expr>, helpers: seq<Helper>)
    ensures helpers <= LowerAll(es, helpers).1
    decreases SizeAll(es)
  {
    if es != [] {
      LowerAdds(es[0], helpers);
      LowerAllAdds(es[1..], Lower(es[0], helpers).helpers);
    }
  }

  /** Under any enclosing operators, running the lowered expression and continuing with its
  pair is the threaded evaluation: same operand, same trace. */
  lemma {:induction false} SideThreads(host: Host, e: Expr, helpers: seq<Helper>, table: seq<Helper>, n: nat,
                                       stack: seq<Pending>, tr: Trace)
    requires IsSource(e) && Lower(e, helpers).helpers <= table && |Lower(e, helpers).helpers| <= n <= |table|
    ensures Continue(host, RunSide(host, table, n, SideOf(Lower(e, helpers)), tr), stack) == Thread(host, e, stack, tr)
    decreases Size(e), 2
  {
    LowerAdds(e, helpers);
    if e.BoolOp? { HelperThreads(host, e, helpers, table, stack, tr); } else { LeafThreads(host, e, helpers, table, n, tr); }
  }

  lemma {:induction false} HelperThreads(host: Host, e: Expr, helpers: seq<Helper>, table: seq<Helper>,
                                         stack: seq<Pending>, tr: Trace)
    requires e.BoolOp? && IsSource(e) && Lower(e, helpers).helpers <= table
    ensures Lower(e, helpers).pair.Some? && Lower(e, helpers).pair.value < |table|
    ensures Continue(host, RunHelper(host, table, Lower(e, helpers).pair.value, tr), stack) ==
            Thread(host, e, stack, tr)
    decreases Size(e), 0
  {
    hide Eval, Truth, PlainTruth, RunSide, Thread;
    LowerAdds(e, helpers);
    var la := Lower(e.a, helpers);
    var lb := Lower(e.b, la.helpers);
    LowerAdds(e.b, la.helpers);
    var h := |lb.helpers|;
    assert table[h] == Helper(SideOf(la), e.isAnd, SideOf(lb));
    var stack1 := [Pending(e.isAnd, e.b)] + stack;
    assert stack1[0] == Pending(e.isAnd, e.b) && stack1[1..] == stack;
    ThreadBoolOp(host, e, stack, tr);
    SideThreads(host, e.a, helpers, table, h, stack1, tr);
    var (left, tr1) := RunSide(host, table, h, SideOf(la), tr);
    if left.Have? {
      var tr2 := if left.state == 0 then Truth(host, left.v, tr1).1 else tr1;
      SideThreads(host, e.b, la.helpers, table, h, stack, tr2);
      StatesOnly(host, table, h, SideOf(la), tr);
      if left.state != 0 || Truth(host, left.v, tr1).0.Ok? {
        var truth := if left.state == 0 then PlainTruth(Truth(host, left.v, tr1).0.v) else left.state == 2;
        assert Continue(host, (left, tr1), stack1) == Unwind(host, left.v, truth, stack1, tr2);
        assert Unwind(host, left.v, truth, stack1, tr2) ==
               if e.isAnd != truth then Unwind(host, left.v, truth, stack, tr2) else Thread(host, e.b, stack, tr2);
        assert RunHelper(host, table, h, tr) ==
               if e.isAnd != truth then (Have(left.v, if truth then 2 else 1), tr2) else RunSide(host, table, h, SideOf(lb), tr2);
      } else {
        assert Continue(host, (left, tr1), stack1) == (Truth(host, left.v, tr1).0, tr2);
        assert RunHelper(host, table, h, tr) == (Lack(Truth(host, left.v, tr1).0), tr2);
      }
    }
  }

  lemma ThreadBoolOp(host: Host, e: Expr, stack: seq<Pending>, tr: Trace)
    requires e.BoolOp?
    ensures Thread(host, e, stack, tr) == Thread(host, e.a, [Pending(e.isAnd, e.b)] + stack, tr)
  {}

  /** A pair's state is 0, 1 or 2. */
  lemma {:induction false} StatesOnly(host: Host, table: seq<Helper>, n: nat, side: Side, tr: Trace)
    requires n <= |table|
    ensures var p := RunSide(host, table, n, side, tr).0; p.Have? ==> 0 <= p.state <= 2
    decreases n
  {
    hide Eval, Truth, PlainTruth;
    if side.Pair? && side.helper < n {
      var helper := table[side.helper];
      StatesOnly(host, table, side.helper, helper.left, tr);
      var (left, tr1) := RunSide(host, table, side.helper, helper.left, tr);
      if left.Have? {
        StatesOnly(host, table, side.helper, helper.right, tr1);
        StatesOnly(host, table, side.helper, helper.right, Truth(host, left.v, tr1).1);
      }
    }
  }

  lemma {:induction false} LeafThreads(host: Host, e: Expr, helpers: seq<Helper>, table: seq<Helper>, n: nat, tr: Trace)
    requires !e.BoolOp? && IsSource(e) && Lower(e, helpers).helpers <= table
             && |Lower(e, helpers).helpers| <= n <= |table|
    ensures Eval(host, table, n, Lower(e, helpers).out, tr) == ThreadLeaf(host, e, tr)
    ensures Lower(e, helpers).pair.None?
    decreases Size(e), 1
  {
    match e
    case Operand(op, args) => AllThread(host, args, helpers, table, n, tr);
    case Not(a) => LoweredThreads(host, a, helpers, table, n, tr);
    case Choice(_, _, _) => ChoiceThreads(host, e, helpers, table, n, tr);
  }

  lemma {:induction false} ChoiceThreads(host: Host, e: Expr, helpers: seq<Helper>, table: seq<Helper>, n: nat,
                                         tr: Trace)
    requires e.Choice? && IsSource(e) && Lower(e, helpers).helpers <= table
             && |Lower(e, helpers).helpers| <= n <= |table|
    ensures Eval(host, table, n, Lower(e, helpers).out, tr) == ThreadLeaf(host, e, tr)
    decreases Size(e), 0
  {
    hide Truth, PlainTruth, Thread;
    var lc := Lower(e.c, helpers);
    var ly := Lower(e.yes, lc.helpers);
    LowerAdds(e.c, helpers);
    LowerAdds(e.yes, lc.helpers);
    LowerAdds(e.no, ly.helpers);
    LoweredThreads(host, e.c, helpers, table, n, tr);
    var (test, tr1) := Thread(host, e.c, [], tr);
    if test.Ok? {
      var tr2 := Truth(host, test.v, tr1).1;
      LoweredThreads(host, e.yes, lc.helpers, table, n, tr2);
      LoweredThreads(host, e.no, ly.helpers, table, n, tr2);
    }
  }

  lemma {:induction false} AllThread(host: Host, es: seq<Expr>, helpers: seq<Helper>, table: seq<Helper>, n: nat,
                                     tr: Trace)
    requires (forall i | 0 <= i < |es| :: IsSource(es[i])) && LowerAll(es, helpers).1 <= table
             && |LowerAll(es, helpers).1| <= n <= |table|
    ensures EvalAll(host, table, n, LowerAll(es, helpers).0, tr) == ThreadAll(host, es, tr)
    decreases SizeAll(es), 4
  {
    hide Eval, Thread;
    if es != [] {
      var head := Lower(es[0], helpers);
      LowerAllAdds(es[1..], head.helpers);
      var outs := LowerAll(es, helpers).0;
      assert outs[0] == head.out && outs[1..] == LowerAll(es[1..], head.helpers).0;
      LoweredThreads(host, es[0], helpers, table, n, tr);
      AllThread(host, es[1..], head.helpers, table, n, Thread(host, es[0], [], tr).1);
    }
  }

  /** The lowered expression, evaluated by Core's rules, is the threaded evaluation:
  the same value, with every operand evaluated and tested as often and in the same order. */
  lemma {:induction false} LoweredThreads(host: Host, e: Expr, helpers: seq<Helper>, table: seq<Helper>, n: nat,
                                          tr: Trace)
    requires IsSource(e) && Lower(e, helpers).helpers <= table && |Lower(e, helpers).helpers| <= n <= |table|
    ensures Eval(host, table, n, Lower(e, helpers).out, tr) == Thread(host, e, [], tr)
    decreases Size(e), 2
  {
    LowerAdds(e, helpers);
    if !e.BoolOp? {
      LeafThreads(host, e, helpers, table, n, tr);
    } else if e.a.BoolOp? {
      LowerAdds(e.a, helpers);
      HelperThreads(host, e, helpers, table, [], tr);
    } else {
      SimpleLeftThreads(host, e, helpers, table, n, tr);
    }
  }

  lemma {:induction false} SimpleLeftThreads(host: Host, e: Expr, helpers: seq<Helper>, table: seq<Helper>, n: nat,
                                             tr: Trace)
    requires e.BoolOp? && !e.a.BoolOp? && IsSource(e)
    requires Lower(e, helpers).helpers <= table && |Lower(e, helpers).helpers| <= n <= |table|
    ensures Eval(host, table, n, Lower(e, helpers).out, tr) == Thread(host, e, [], tr)
    decreases Size(e), 0
  {
    hide Truth, PlainTruth;
    var la := Lower(e.a, helpers);
    LowerAdds(e.a, helpers);
    LowerAdds(e.b, la.helpers);
    LeafThreads(host, e.a, helpers, table, n, tr);
    ThreadBoolOp(host, e, [], tr);
    var pending := [Pending(e.isAnd, e.b)];
    assert pending[1..] == [] && pending + [] == pending;
    var (v, tr1) := ThreadLeaf(host, e.a, tr);
    assert Eval(host, table, n, la.out, tr) == (v, tr1);
    var lb := Lower(e.b, la.helpers);
    assert Lower(e, helpers).out == BoolOp(e.isAnd, la.out, lb.out);
    if v.Ok? {
      var (test, tr2) := Truth(host, v.v, tr1);
      LoweredThreads(host, e.b, la.helpers, table, n, tr2);
      if test.Ok? {
        assert Thread(host, e.a, pending, tr) == Unwind(host, v.v, PlainTruth(test.v), pending, tr2);
        assert Unwind(host, v.v, PlainTruth(test.v), [], tr2) == (Ok(v.v), tr2);
      }
    }
  }

  // ----- whole bodies -----

  /** No left operand of an operator is itself an operator. */
  predicate SimpleLefts(e: Expr) {
    match e
    case Operand(_, args) => forall i | 0 <= i < |args| :: SimpleLefts(args[i])
    case BoolOp(_, a, b) => !a.BoolOp? && SimpleLefts(a) && SimpleLefts(b)
    case Not(a) => SimpleLefts(a)
    case Choice(c, yes, no) => SimpleLefts(c) && SimpleLefts(yes) && SimpleLefts(no)
    case First(_) => true
  }

  /** The pass reports a change exactly when some left operand is compound, and otherwise
  copies the expression. */
  lemma {:induction false} ChangedIffCompound(e: Expr, helpers: seq<Helper>)
    requires IsSource(e)
    ensures var l := Lower(e, helpers); (l.changed <==> !SimpleLefts(e)) && (!l.changed ==> l.out == e)
    decreases Size(e)
  {
    LowerAdds(e, helpers);
    match e
    case Operand(_, args) => AllChangedIffCompound(args, helpers);
    case BoolOp(_, a, b) =>
      LowerAdds(a, helpers);
      ChangedIffCompound(a, helpers);
      ChangedIffCompound(b, Lower(a, helpers).helpers);
    case Not(a) => ChangedIffCompound(a, helpers);
    case Choice(c, yes, no) =>
      ChangedIffCompound(c, helpers);
      var hs := Lower(c, helpers).helpers;
      ChangedIffCompound(yes, hs);
      ChangedIffCompound(no, Lower(yes, hs).helpers);
  }

  lemma {:induction false} AllChangedIffCompound(es: seq<Expr>, helpers: seq<Helper>)
    requires forall i | 0 <= i < |es| :: IsSource(es[i])
    ensures var (outs, hs, changed) := LowerAll(es, helpers);
            (changed <==> exists i | 0 <= i < |es| :: !SimpleLefts(es[i])) && (!changed ==> outs == es)
    decreases SizeAll(es)
  {
    if es != [] {
      ChangedIffCompound(es[0], helpers);
      AllChangedIffCompound(es[1..], Lower(es[0], helpers).helpers);
      assert forall i | 1 <= i < |es| :: es[i] == es[1..][i - 1];
    }
  }

  /** The pass, on any body: what it emits evaluates as nests of operators are threaded. */
  lemma PassThreads(host: Host, e: Expr, tr: Trace)
    requires IsSource(e)
    ensures var (out, table) := LowerBody(e);
            Eval(host, table, |table|, out, tr) == Thread(host, e, [], tr)
  {
    var l := Lower(e, []);
    LoweredThreads(host, e, [], l.helpers, |l.helpers|, tr);
    ChangedIffCompound(e, []);
    if !l.changed {
      NoHelpersNeeded(host, e, l.helpers, |l.helpers|, [], 0, tr);
    }
  }

  /** A source expression does not look at the helper table. */
  lemma {:induction false} NoHelpersNeeded(host: Host, e: Expr, t1: seq<Helper>, n1: nat, t2: seq<Helper>, n2: nat,
                                           tr: Trace)
    requires IsSource(e)
    ensures Eval(host, t1, n1, e, tr) == Eval(host, t2, n2, e, tr)
    decreases Size(e), 0
  {
    hide Truth, PlainTruth;
    match e
    case Operand(op, args) => NoHelpersForAll(host, args, t1, n1, t2, n2, tr);
    case BoolOp(isAnd, a, b) =>
      NoHelpersNeeded(host, a, t1, n1, t2, n2, tr);
      var (left, tr1) := Eval(host, t1, n1, a, tr);
      if left.Ok? {
        NoHelpersNeeded(host, b, t1, n1, t2, n2, Truth(host, left.v, tr1).1);
      }
    case Not(a) => NoHelpersNeeded(host, a, t1, n1, t2, n2, tr);
    case Choice(c, yes, no) =>
      NoHelpersNeeded(host, c, t1, n1, t2, n2, tr);
      var (test, tr1) := Eval(host, t1, n1, c, tr);
      if test.Ok? {
        NoHelpersNeeded(host, yes, t1, n1, t2, n2, Truth(host, test.v, tr1).1);
        NoHelpersNeeded(host, no, t1, n1, t2, n2, Truth(host, test.v, tr1).1);
      }
  }

  lemma {:induction false} NoHelpersForAll(host: Host, es: seq<Expr>, t1: seq<Helper>, n1: nat, t2: seq<Helper>,
                                           n2: nat, tr: Trace)
    requires forall i | 0 <= i < |es| :: IsSource(es[i])
    ensures EvalAll(host, t1, n1, es, tr) == EvalAll(host, t2, n2, es, tr)
    decreases SizeAll(es), 1
  {
    if es != [] {
      NoHelpersNeeded(host, es[0], t1, n1, t2, n2, tr);
      NoHelpersForAll(host, es[1..], t1, n1, t2, n2, Eval(host, t1, n1, es[0], tr).1);
    }
  }

  // ----- what a pair says, and what the plain form would do -----

  /** A state other than 0 is the outcome of a truth test made on that very value, and the
  test was the last thing to happen: `before` is the trace when it was made. */
  lemma {:induction false} StateIsOutcome(host: Host, table: seq<Helper>, n: nat, side: Side,
                                          tr: Trace) returns (before: Trace)
    requires n <= |table|
    requires RunSide(host, table, n, side, tr).0.Have? && RunSide(host, table, n, side, tr).0.state != 0
    ensures var (p, tr1) := RunSide(host, table, n, side, tr);
            var (test, after) := Truth(host, p.v, before);
            after == tr1 && test.Ok? && p.state == if PlainTruth(test.v) then 2 else 1
    decreases n
  {
    hide Eval, Truth, PlainTruth;
    var helper := table[side.helper];
    var (left, tr1) := RunSide(host, table, side.helper, helper.left, tr);
    StatesOnly(host, table, side.helper, helper.left, tr);
    var (test, tr2) := Truth(host, left.v, tr1);
    var truth := if left.state == 0 then PlainTruth(test.v) else left.state == 2;
    if truth != helper.isAnd {
      if left.state == 0 { before := tr1; } else { before := StateIsOutcome(host, table, side.helper, helper.left, tr); }
    } else {
      before := StateIsOutcome(host, table, side.helper, helper.right, if left.state == 0 then tr2 else tr1);
    }
  }

  /** Answers that do not depend on what happened before. */
  ghost predicate Steady(host: Host) {
    forall t1, t2, e :: host.answer(t1, e) == host.answer(t2, e)
  }

  /** The value the enclosing operators select, each by its own test. */
  ghost function Select(host: Host, r: Reply, stack: seq<Pending>): Reply
    decreases |stack|
  {
    if !r.Ok? || stack == [] then r else
    var test := Truth(host, r.v, []).0;
    if !test.Ok? then test
    else if PlainTruth(test.v) != stack[0].isAnd then Select(host, r, stack[1..])
    else Select(host, Eval(host, [], 0, stack[0].right, []).0, stack[1..])
  }

  lemma SteadyTruth(host: Host, v: Val, t1: Trace, t2: Trace)
    requires Steady(host)
    ensures Truth(host, v, t1).0 == Truth(host, v, t2).0
  {}

  lemma {:induction false} SteadyEval(host: Host, e: Expr, t1: Trace, t2: Trace)
    requires Steady(host) && IsSource(e)
    ensures Eval(host, [], 0, e, t1).0 == Eval(host, [], 0, e, t2).0
    decreases Size(e), 0
  {
    hide Truth, PlainTruth;
    match e
    case Operand(op, args) => SteadyAll(host, args, t1, t2);
    case BoolOp(isAnd, a, b) =>
      SteadyEval(host, a, t1, t2);
      var (l1, u1) := Eval(host, [], 0, a, t1);
      var (l2, u2) := Eval(host, [], 0, a, t2);
      if l1.Ok? {
        SteadyTruth(host, l1.v, u1, u2);
        SteadyEval(host, b, Truth(host, l1.v, u1).1, Truth(host, l2.v, u2).1);
      }
    case Not(a) =>
      SteadyEval(host, a, t1, t2);
      var (v, u1) := Eval(host, [], 0, a, t1);
      if v.Ok? { SteadyTruth(host, v.v, u1, Eval(host, [], 0, a, t2).1); }
    case Choice(c, yes, no) =>
      SteadyEval(host, c, t1, t2);
      var (l1, u1) := Eval(host, [], 0, c, t1);
      var (l2, u2) := Eval(host, [], 0, c, t2);
      if l1.Ok? {
        SteadyTruth(host, l1.v, u1, u2);
        SteadyEval(host, yes, Truth(host, l1.v, u1).1, Truth(host, l2.v, u2).1);
        SteadyEval(host, no, Truth(host, l1.v, u1).1, Truth(host, l2.v, u2).1);
      }
  }

  lemma {:induction false} SteadyAll(host: Host, es: seq<Expr>, t1: Trace, t2: Trace)
    requires Steady(host) && forall i | 0 <= i < |es| :: IsSource(es[i])
    ensures EvalAll(host, [], 0, es, t1).0 == EvalAll(host, [], 0, es, t2).0
    decreases SizeAll(es), 1
  {
    if es != [] {
      SteadyEval(host, es[0], t1, t2);
      SteadyAll(host, es[1..], Eval(host, [], 0, es[0], t1).1, Eval(host, [], 0, es[0], t2).1);
    }
  }

  ghost predicate AllSource(stack: seq<Pending>) {
    forall i | 0 <= i < |stack| :: IsSource(stack[i].right)
  }

  /** Threading jumps does not change what is selected: where answers do not depend on the
  past, the threaded value is the one the nested operators select one by one. */
  lemma {:induction false} ThreadSelects(host: Host, e: Expr, stack: seq<Pending>, tr: Trace)
    requires Steady(host) && IsSource(e) && AllSource(stack)
    ensures Thread(host, e, stack, tr).0 == Select(host, Eval(host, [], 0, e, []).0, stack)
    decreases Size(e) + StackSize(stack), 2
  {
    hide Truth, PlainTruth, Steady;
    if e.BoolOp? {
      var stack1 := [Pending(e.isAnd, e.b)] + stack;
      assert stack1[0] == Pending(e.isAnd, e.b) && stack1[1..] == stack;
      ThreadSelects(host, e.a, stack1, tr);
      var (left, tr1) := Eval(host, [], 0, e.a, []);
      if left.Ok? {
        SteadyTruth(host, left.v, [], tr1);
        SteadyEval(host, e.b, [], Truth(host, left.v, tr1).1);
        assert Select(host, Eval(host, [], 0, e.a, []).0, stack1) == Select(host, Eval(host, [], 0, e, []).0, stack);
      }
    } else {
      LeafSelects(host, e, tr);
      var (v, tr1) := ThreadLeaf(host, e, tr);
      if v.Ok? && stack != [] {
        var (test, tr2) := Truth(host, v.v, tr1);
        SteadyTruth(host, v.v, [], tr1);
        if test.Ok? { UnwindSelects(host, v.v, PlainTruth(test.v), stack, tr2); }
      }
    }
  }

  lemma {:induction false} UnwindSelects(host: Host, v: Val, truth: bool, stack: seq<Pending>, tr: Trace)
    requires Steady(host) && AllSource(stack)
    requires Truth(host, v, []).0.Ok? && PlainTruth(Truth(host, v, []).0.v) == truth
    ensures Unwind(host, v, truth, stack, tr).0 == Select(host, Ok(v), stack)
    decreases StackSize(stack), 3
  {
    hide Truth, PlainTruth, Steady;
    if stack != [] {
      if stack[0].isAnd != truth { UnwindSelects(host, v, truth, stack[1..], tr); }
      else { ThreadSelects(host, stack[0].right, stack[1..], tr); }
    }
  }

  lemma SteadyAnswer(host: Host, e: Event, t1: Trace, t2: Trace)
    requires Steady(host)
    ensures Ask(host, e, t1).0 == Ask(host, e, t2).0
  {}

  lemma {:induction false} LeafSelects(host: Host, e: Expr, tr: Trace)
    requires Steady(host) && IsSource(e) && !e.BoolOp?
    ensures ThreadLeaf(host, e, tr).0 == Eval(host, [], 0, e, []).0
    decreases Size(e), 1
  {
    hide Truth, PlainTruth, Steady, Thread;
    match e
    case Operand(op, args) =>
      AllSelect(host, args, tr, []);
      var (vs, tr1) := ThreadAll(host, args, tr);
      if vs.All? { SteadyAnswer(host, Operate(op, vs.vs), tr1, EvalAll(host, [], 0, args, []).1); }
    case Not(a) =>
      ThreadSelects(host, a, [], tr);
      var (v, tr1) := Thread(host, a, [], tr);
      if v.Ok? { SteadyTruth(host, v.v, tr1, Eval(host, [], 0, a, []).1); }
    case Choice(c, yes, no) =>
      ThreadSelects(host, c, [], tr);
      var (test, tr1) := Thread(host, c, [], tr);
      var (same, u1) := Eval(host, [], 0, c, []);
      if test.Ok? {
        SteadyTruth(host, test.v, tr1, u1);
        var tr2, u2 := Truth(host, test.v, tr1).1, Truth(host, test.v, u1).1;
        ThreadSelects(host, yes, [], tr2);
        ThreadSelects(host, no, [], tr2);
        SteadyEval(host, yes, [], u2);
        SteadyEval(host, no, [], u2);
      }
  }

  lemma {:induction false} AllSelect(host: Host, es: seq<Expr>, tr: Trace, t2: Trace)
    requires Steady(host) && forall i | 0 <= i < |es| :: IsSource(es[i])
    ensures ThreadAll(host, es, tr).0 == EvalAll(host, [], 0, es, t2).0
    decreases SizeAll(es), 3
  {
    hide Steady;
    if es != [] {
      ThreadSelects(host, es[0], [], tr);
      SteadyEval(host, es[0], [], t2);
      AllSelect(host, es[1..], Thread(host, es[0], [], tr).1, Eval(host, [], 0, es[0], t2).1);
    }
  }

  /** The pass does not change what a body computes when answers do not depend on the past. */
  lemma PassSelects(host: Host, e: Expr, tr: Trace)
    requires IsSource(e) && Steady(host)
    ensures var (out, table) := LowerBody(e);
            Eval(host, table, |table|, out, tr).0 == Eval(host, [], 0, e, tr).0
  {
    PassThreads(host, e, tr);
    ThreadSelects(host, e, [], tr);
    SteadyEval(host, e, [], tr);
  }

  /** Why the pass is needed: `(x and x) or x` with a false object x. Left alone, Core tests
  the first operand twice; threaded, once. */
  lemma PlainFormTestsTwice()
    ensures var x := Operand("x", []);
            var e := BoolOp(false, BoolOp(true, x, x), x);
            var host := Host((tr: Trace, q: Event) => if q.TestTruth? then Ok(Bool(false)) else Ok(Obj(0)), (q: Event) => true);
            var load := Operate("x", []);
            && Thread(host, e, [], []).1 == [load, TestTruth(Obj(0)), load]
            && Eval(host, [], 0, e, []).1 == [load, TestTruth(Obj(0)), TestTruth(Obj(0)), load]
  {
    var x := Operand("x", []);
    var e1 := BoolOp(true, x, x);
    var e := BoolOp(false, e1, x);
    var host := Host((tr: Trace, q: Event) => if q.TestTruth? then Ok(Bool(false)) else Ok(Obj(0)), (q: Event) => true);
    var load := Operate("x", []);
    forall tr: Trace ensures ThreadLeaf(host, x, tr) == (Ok(Obj(0)), tr + [load])
                     ensures Eval(host, [], 0, x, tr) == (Ok(Obj(0)), tr + [load]) {}
    var t1 := [load];
    var t2 := t1 + [TestTruth(Obj(0))];
    var start: Trace := [];
    assert start + [load] == t1;
    assert Eval(host, [], 0, x, start) == (Ok(Obj(0)), start + [load]);
    assert Truth(host, Obj(0), t1) == (Ok(Bool(false)), t2);
    assert Eval(host, [], 0, e1, []) == (Ok(Obj(0)), t2);
    assert Eval(host, [], 0, e, []) == (Ok(Obj(0)), (t2 + [TestTruth(Obj(0))]) + [load]);
    var s1 := [Pending(false, x)];
    var s2 := [Pending(true, x)] + s1;
    assert s2[1..] == s1 && s1[1..] == [] && s1 + [] == s1 && [Pending(false, x)] + [] == s1;
    assert Thread(host, x, s2, []) == Unwind(host, Obj(0), false, s2, t2);
    assert Unwind(host, Obj(0), false, s2, t2) == Unwind(host, Obj(0), false, s1, t2) == Thread(host, x, [], t2);
    assert Thread(host, e, [], []) == Thread(host, e1, s1, []) == Thread(host, x, s2, []);
  }
}
