/** The pass over nested `and`/`or` against CPython's compiler, conditional expressions
included: for which expressions every test is made as often as CPython makes it. */
module TruthThreading {
  import opened Core
  import opened TruthValues

  type Expr = TruthValues.Expr

  // ----- tests that keep the value -----

  type Failure = r: Reply | !r.Ok? witness Stuck("")

  /** A value and the outcome of testing it, or no value at all. */
  datatype Tested = Tested(v: Val, truth: bool) | Gone(r: Failure)

  function TestValue(host: Host, r: (Reply, Trace)): (Tested, Trace) {
    if !r.0.Ok? then (Gone(r.0), r.1) else
    var (test, tr1) := Truth(host, r.0.v, r.1);
    (if test.Ok? then Tested(r.0.v, PlainTruth(test.v)) else Gone(test), tr1)
  }

  // ----- nests of operators, other expressions on their own -----

  function NestValue(host: Host, e: Expr, tr: Trace): (Reply, Trace)
    decreases Size(e), 1
  {
    match e
    case Operand(op, args) =>
      var (vs, tr1) := NestAll(host, args, tr);
      if vs.Failed? then (vs.r, tr1) else Ask(host, Operate(op, vs.vs), tr1)
    case BoolOp(isAnd, a, b) =>
      var (left, tr1) := NestTest(host, a, tr);
      if left.Gone? then (left.r, tr1)
      else if left.truth != isAnd then (Ok(left.v), tr1) else NestValue(host, b, tr1)
    case Not(a) =>
      var (v, tr1) := NestValue(host, a, tr);
      Negate(host, v, tr1)
    case Choice(c, yes, no) =>
      var (test, tr1) := TestValue(host, NestValue(host, c, tr));
      if test.Gone? then (test.r, tr1)
      else if test.truth then NestValue(host, yes, tr1) else NestValue(host, no, tr1)
    case First(_) => (Stuck("emitted form"), tr)
  }

  /** The value and its outcome: an operator hands on the outcome of the operand that decides
  it. */
  function NestTest(host: Host, e: Expr, tr: Trace): (Tested, Trace)
    decreases Size(e), 2
  {
    if e.BoolOp? then
      var (left, tr1) := NestTest(host, e.a, tr);
      if left.Gone? || left.truth != e.isAnd then (left, tr1) else NestTest(host, e.b, tr1)
    else TestValue(host, NestValue(host, e, tr))
  }

  function NestAll(host: Host, es: seq<Expr>, tr: Trace): (Replies, Trace)
    decreases SizeAll(es), 3
  {
    if es == [] then (All([]), tr) else
    var (head, tr1) := NestValue(host, es[0], tr);
    if !head.Ok? then (Failed(head), tr1) else
    var (tail, tr2) := NestAll(host, es[1..], tr1);
    (if tail.All? then All([head.v] + tail.vs) else tail, tr2)
  }

  /** That is how the threaded evaluation goes: with nothing waiting it gives the value, and
  otherwise it tests it and meets the enclosing operators. */
  lemma {:induction false} ThreadNests(host: Host, e: Expr, stack: seq<Pending>, tr: Trace)
    requires IsSource(e) && AllSource(stack)
    ensures Thread(host, e, stack, tr) ==
            if stack == [] then NestValue(host, e, tr) else
            var (d, tr1) := NestTest(host, e, tr);
            if d.Gone? then (d.r, tr1) else Unwind(host, d.v, d.truth, stack, tr1)
    decreases Size(e), 2
  {
    hide Truth, PlainTruth;
    if e.BoolOp? {
      var stack1 := [Pending(e.isAnd, e.b)] + stack;
      assert stack1[0] == Pending(e.isAnd, e.b) && stack1[1..] == stack;
      ThreadNests(host, e.a, stack1, tr);
      var (d, tr1) := NestTest(host, e.a, tr);
      ThreadNests(host, e.b, stack, tr1);
      if d.Tested? && d.truth != e.isAnd && stack == [] {
        assert Unwind(host, d.v, d.truth, [], tr1) == (Ok(d.v), tr1);
      }
    } else {
      LeafNests(host, e, tr);
    }
  }

  lemma {:induction false} LeafNests(host: Host, e: Expr, tr: Trace)
    requires IsSource(e) && !e.BoolOp?
    ensures ThreadLeaf(host, e, tr) == NestValue(host, e, tr)
    decreases Size(e), 1
  {
    hide Truth, PlainTruth, Thread;
    match e
    case Operand(_, args) => AllNest(host, args, tr);
    case Not(a) => ThreadNests(host, a, [], tr);
    case Choice(c, yes, no) =>
      ThreadNests(host, c, [], tr);
      var tr1 := TestValue(host, NestValue(host, c, tr)).1;
      ThreadNests(host, yes, [], tr1);
      ThreadNests(host, no, [], tr1);
  }

  lemma {:induction false} AllNest(host: Host, es: seq<Expr>, tr: Trace)
    requires forall i | 0 <= i < |es| :: IsSource(es[i])
    ensures ThreadAll(host, es, tr) == NestAll(host, es, tr)
    decreases SizeAll(es), 3
  {
    hide Thread, NestValue;
    if es != [] {
      ThreadNests(host, es[0], [], tr);
      AllNest(host, es[1..], NestValue(host, es[0], tr).1);
    }
  }

  // ----- CPython -----

  /** An expression compiled for its value. The condition of a conditional expression jumps. */
  function PyValue(host: Host, e: Expr, tr: Trace): (Reply, Trace)
    decreases Size(e), 1
  {
    match e
    case Operand(op, args) =>
      var (vs, tr1) := PyAll(host, args, tr);
      if vs.Failed? then (vs.r, tr1) else Ask(host, Operate(op, vs.vs), tr1)
    case BoolOp(isAnd, a, b) =>
      var (left, tr1) := PyTest(host, a, tr);
      if left.Gone? then (left.r, tr1)
      else if left.truth != isAnd then (Ok(left.v), tr1) else PyValue(host, b, tr1)
    case Not(a) =>
      var (v, tr1) := PyValue(host, a, tr);
      Negate(host, v, tr1)
    case Choice(c, yes, no) =>
      var (test, tr1) := PyJump(host, c, tr);
      if test.Gone? then (test.r, tr1)
      else if test.truth then PyValue(host, yes, tr1) else PyValue(host, no, tr1)
    case First(_) => (Stuck("emitted form"), tr)
  }

  /** For its value, where a test of it follows: jumps that meet the test are threaded through
  it. The code of an else branch ends at the test; that of a then branch ends at a jump to
  it, where threading stops. */
  function PyTest(host: Host, e: Expr, tr: Trace): (Tested, Trace)
    decreases Size(e), 2
  {
    match e
    case BoolOp(isAnd, a, b) =>
      var (left, tr1) := PyTest(host, a, tr);
      if left.Gone? || left.truth != isAnd then (left, tr1) else PyTest(host, b, tr1)
    case Choice(c, yes, no) =>
      var (test, tr1) := PyJump(host, c, tr);
      if test.Gone? then (test, tr1)
      else if test.truth then TestValue(host, PyValue(host, yes, tr1)) else PyTest(host, no, tr1)
    case _ => TestValue(host, PyValue(host, e, tr))
  }

  /** For its outcome alone. */
  function PyJump(host: Host, e: Expr, tr: Trace): (Tested, Trace)
    decreases Size(e), 2
  {
    match e
    case BoolOp(isAnd, a, b) =>
      var (left, tr1) := PyJump(host, a, tr);
      if left.Gone? || left.truth != isAnd then (left, tr1) else PyJump(host, b, tr1)
    case Not(a) =>
      var (test, tr1) := PyJump(host, a, tr);
      (if test.Gone? then test else Tested(Bool(!test.truth), !test.truth), tr1)
    case Choice(c, yes, no) =>
      var (test, tr1) := PyJump(host, c, tr);
      if test.Gone? then (test, tr1)
      else if test.truth then PyJump(host, yes, tr1) else PyJump(host, no, tr1)
    case _ => Dropped(true, TestValue(host, PyValue(host, e, tr)))
  }

  function PyAll(host: Host, es: seq<Expr>, tr: Trace): (Replies, Trace)
    decreases SizeAll(es), 3
  {
    if es == [] then (All([]), tr) else
    var (head, tr1) := PyValue(host, es[0], tr);
    if !head.Ok? then (Failed(head), tr1) else
    var (tail, tr2) := PyAll(host, es[1..], tr1);
    (if tail.All? then All([head.v] + tail.vs) else tail, tr2)
  }

  /** Only the outcome is kept. */
  function Dropped(drop: bool, d: (Tested, Trace)): (Tested, Trace) {
    if drop && d.0.Tested? then (Tested(Bool(d.0.truth), d.0.truth), d.1) else d
  }

  // ----- one beside the other -----

  /** What becomes of the value: nothing further; a test that the nest shares, `Waited`; or
  one more test, `Again`, where CPython threads it. With `jump` only the outcome is wanted. */
  datatype Mode = Plainly | Waited(jump: bool) | Again(jump: bool)

  function Nest(host: Host, mode: Mode, e: Expr, tr: Trace): (Tested, Trace) {
    Dropped(!mode.Plainly? && mode.jump, Whole(host, mode, e, tr))
  }

  function Whole(host: Host, mode: Mode, e: Expr, tr: Trace): (Tested, Trace) {
    match mode
    case Plainly => Kept(NestValue(host, e, tr))
    case Waited(_) => NestTest(host, e, tr)
    case Again(_) => TestValue(host, NestValue(host, e, tr))
  }

  function Python(host: Host, mode: Mode, e: Expr, tr: Trace): (Tested, Trace) {
    if mode.Plainly? then Kept(PyValue(host, e, tr))
    else if mode.jump then PyJump(host, e, tr) else PyTest(host, e, tr)
  }

  function Kept(r: (Reply, Trace)): (Tested, Trace) {
    (if r.0.Ok? then Tested(r.0.v, true) else Gone(r.0), r.1)
  }

  function LeftMode(mode: Mode): Mode { Waited(!mode.Plainly? && mode.jump) }

  function YesMode(mode: Mode): Mode { if !mode.Plainly? && mode.jump then Again(true) else Plainly }

  function NoMode(mode: Mode): Mode { if mode.Plainly? then Plainly else Again(mode.jump) }

  /** Testing what `not` gives shows nothing and turns the outcome of its operand round. */
  lemma NegateTested(host: Host, r: (Reply, Trace))
    ensures var (d, tr1) := TestValue(host, r);
            TestValue(host, Negate(host, r.0, r.1)) ==
            (if d.Gone? then d else Tested(Bool(!d.truth), !d.truth), tr1)
  {
    if r.0.Ok? {
      var (test, tr1) := Truth(host, r.0.v, r.1);
      if test.Ok? { BoolTested(host, !PlainTruth(test.v), tr1); }
    }
  }

  lemma BoolTested(host: Host, b: bool, tr: Trace)
    ensures Truth(host, Bool(b), tr) == (Ok(Bool(b)), tr) && PlainTruth(Bool(b)) == b
    ensures TestValue(host, (Ok(Bool(b)), tr)) == (Tested(Bool(b), b), tr)
  {}

  lemma NegateGives(host: Host, r: (Reply, Trace))
    ensures var (d, tr1) := TestValue(host, r);
            Negate(host, r.0, r.1) == (if d.Gone? then d.r else Ok(Bool(!d.truth)), tr1)
  {}

  // ----- the two sides by the parts of the expression -----

  /** What an operator makes of an operand that decides it. */
  function Decided(host: Host, mode: Mode, left: (Tested, Trace)): (Tested, Trace) {
    if left.0.Gone? || mode.Waited? then left
    else if mode.Plainly? then Kept((Ok(left.0.v), left.1))
    else TestValue(host, (Ok(left.0.v), left.1))
  }

  lemma OperatorParts(host: Host, mode: Mode, e: Expr, tr: Trace)
    requires e.BoolOp?
    ensures var left := NestTest(host, e.a, tr);
            Whole(host, mode, e, tr) ==
            if left.0.Gone? || left.0.truth != e.isAnd then Decided(host, mode, left) else Whole(host, mode, e.b, left.1)
    ensures var left := Python(host, LeftMode(mode), e.a, tr);
            Python(host, mode, e, tr) ==
            if left.0.Gone? || left.0.truth != e.isAnd then (if mode.Plainly? then Decided(host, mode, left) else left)
            else Python(host, mode, e.b, left.1)
  {
    hide Truth;
  }

  function Flipped(mode: Mode, d: (Tested, Trace)): (Tested, Trace) {
    if d.0.Gone? then d else (Tested(Bool(!d.0.truth), mode.Plainly? || !d.0.truth), d.1)
  }

  lemma NotParts(host: Host, mode: Mode, e: Expr, tr: Trace)
    requires e.Not?
    ensures Whole(host, mode, e, tr) == Flipped(mode, TestValue(host, NestValue(host, e.a, tr)))
    ensures Python(host, mode, e, tr) ==
            Flipped(mode, if mode.Plainly? || !mode.jump then TestValue(host, PyValue(host, e.a, tr)) else PyJump(host, e.a, tr))
  {
    hide Truth, TestValue, Negate;
    NegateGives(host, NestValue(host, e.a, tr));
    NegateGives(host, PyValue(host, e.a, tr));
    NegateTested(host, NestValue(host, e.a, tr));
    NegateTested(host, PyValue(host, e.a, tr));
    assert NestTest(host, e, tr) == TestValue(host, NestValue(host, e, tr));
    assert PyTest(host, e, tr) == TestValue(host, PyValue(host, e, tr));
  }

  lemma ChoiceParts(host: Host, mode: Mode, e: Expr, tr: Trace)
    requires e.Choice?
    ensures var (test, tr1) := TestValue(host, NestValue(host, e.c, tr));
            Whole(host, mode, e, tr) ==
            if test.Gone? then (test, tr1)
            else Whole(host, if mode.Plainly? then Plainly else Again(true), if test.truth then e.yes else e.no, tr1)
    ensures var (test, tr1) := PyJump(host, e.c, tr);
            Python(host, mode, e, tr) ==
            if test.Gone? then (test, tr1)
            else if !test.truth then Python(host, NoMode(mode), e.no, tr1)
            else if mode.Plainly? || mode.jump then Python(host, YesMode(mode), e.yes, tr1)
            else TestValue(host, PyValue(host, e.yes, tr1))
  {
    hide Truth, TestValue;
    assert NestTest(host, e, tr) == TestValue(host, NestValue(host, e, tr));
    var (test, tr1) := TestValue(host, NestValue(host, e.c, tr));
    if test.Gone? {
      NoTest(host, test.r, tr1);
    } else if test.truth {
      assert NestValue(host, e, tr) == NestValue(host, e.yes, tr1);
    } else {
      assert NestValue(host, e, tr) == NestValue(host, e.no, tr1);
    }
    var (jump, tr2) := PyJump(host, e.c, tr);
    if jump.Tested? && jump.truth {
      assert PyValue(host, e, tr) == PyValue(host, e.yes, tr2);
    } else if jump.Tested? {
      assert PyValue(host, e, tr) == PyValue(host, e.no, tr2);
    }
  }

  lemma NoTest(host: Host, r: Failure, tr: Trace)
    ensures TestValue(host, (r, tr)) == (Gone(r), tr)
  {}

  /** Whether the value can be an object, whose test shows. */
  predicate Objects(e: Expr) {
    match e
    case BoolOp(isAnd, a, b) => Yields(a, !isAnd) || Objects(b)
    case Not(_) => false
    case Choice(_, yes, no) => Objects(yes) || Objects(no)
    case _ => true
  }

  /** Whether the value can be an object that was last tested `truth`. */
  predicate Yields(e: Expr, truth: bool) {
    if e.BoolOp? then (truth != e.isAnd && Yields(e.a, truth)) || Yields(e.b, truth)
    else if e.Not? then false
    else if e.Choice? then Objects(e.yes) || Objects(e.no)
    else true
  }

  /** Whether everything is tested as often as CPython tests it: no operator that is tested
  again can be decided by an object its left operand gave. */
  predicate Agrees(e: Expr, mode: Mode) {
    match e
    case Operand(_, args) => forall i | 0 <= i < |args| :: Agrees(args[i], Plainly)
    case BoolOp(isAnd, a, b) => Agrees(a, LeftMode(mode)) && (mode.Again? ==> !Yields(a, !isAnd)) && Agrees(b, mode)
    case Not(a) => Agrees(a, YesMode(mode))
    case Choice(c, yes, no) => Agrees(c, Again(true)) && Agrees(yes, YesMode(mode)) && Agrees(no, NoMode(mode))
    case First(_) => true
  }

  /** A value that cannot be an object is the outcome of its test. */
  lemma {:induction false} ValueIsTruth(host: Host, e: Expr, tr: Trace)
    requires IsSource(e) && !Objects(e)
    ensures var r := NestValue(host, e, tr).0; r.Ok? ==> r.v.Bool?
    decreases Size(e), 1
  {
    hide Truth, PlainTruth;
    match e
    case BoolOp(isAnd, a, b) =>
      TestIsTruth(host, a, tr);
      var (left, tr1) := NestTest(host, a, tr);
      assert left.Tested? && left.truth != isAnd ==> left.truth == !isAnd;
      ValueIsTruth(host, b, tr1);
    case Not(a) =>
    case Choice(c, yes, no) =>
      var tr1 := TestValue(host, NestValue(host, c, tr)).1;
      ValueIsTruth(host, yes, tr1);
      ValueIsTruth(host, no, tr1);
  }

  lemma {:induction false} TestIsTruth(host: Host, e: Expr, tr: Trace)
    requires IsSource(e)
    ensures var d := NestTest(host, e, tr).0; d.Tested? && !Yields(e, d.truth) ==> d.v == Bool(d.truth)
    decreases Size(e), 2
  {
    if e.BoolOp? {
      TestIsTruth(host, e.a, tr);
      TestIsTruth(host, e.b, NestTest(host, e.a, tr).1);
    } else if !Objects(e) {
      ValueIsTruth(host, e, tr);
    }
  }

  /** Where the two agree they agree for every host and history. */
  lemma {:induction false} AgreesSame(host: Host, mode: Mode, e: Expr, tr: Trace)
    requires IsSource(e) && Agrees(e, mode)
    ensures Nest(host, mode, e, tr) == Python(host, mode, e, tr)
    decreases Size(e), 2
  {
    hide Truth, PlainTruth;
    match e
    case Operand(_, args) =>
      AllSame(host, args, tr);
      assert NestValue(host, e, tr) == PyValue(host, e, tr);
    case BoolOp(isAnd, a, b) => OperatorSame(host, mode, e, tr);
    case Not(a) => NotSame(host, mode, e, tr);
    case Choice(c, yes, no) => ChoiceSame(host, mode, e, tr);
  }

  lemma {:induction false} ChoiceSame(host: Host, mode: Mode, e: Expr, tr: Trace)
    requires e.Choice? && IsSource(e) && Agrees(e, mode)
    ensures Nest(host, mode, e, tr) == Python(host, mode, e, tr)
    decreases Size(e), 1
  {
    ChoiceParts(host, mode, e, tr);
    AgreesSame(host, Again(true), e.c, tr);
    var tr1 := PyJump(host, e.c, tr).1;
    AgreesSame(host, YesMode(mode), e.yes, tr1);
    AgreesSame(host, NoMode(mode), e.no, tr1);
    hide TestValue, NestValue, NestTest, PyValue, PyTest, PyJump;
  }

  lemma {:induction false} NotSame(host: Host, mode: Mode, e: Expr, tr: Trace)
    requires e.Not? && IsSource(e) && Agrees(e, mode)
    ensures Nest(host, mode, e, tr) == Python(host, mode, e, tr)
    decreases Size(e), 1
  {
    NotParts(host, mode, e, tr);
    AgreesSame(host, YesMode(mode), e.a, tr);
    if mode.Plainly? || !mode.jump { KeptSame(NestValue(host, e.a, tr), PyValue(host, e.a, tr)); }
    hide TestValue, NestValue, NestTest, PyValue, PyTest, PyJump;
  }

  lemma KeptSame(r1: (Reply, Trace), r2: (Reply, Trace))
    requires Kept(r1) == Kept(r2)
    ensures r1 == r2
  {}

  lemma {:induction false} OperatorSame(host: Host, mode: Mode, e: Expr, tr: Trace)
    requires e.BoolOp? && IsSource(e) && Agrees(e, mode)
    ensures Nest(host, mode, e, tr) == Python(host, mode, e, tr)
    decreases Size(e), 1
  {
    OperatorParts(host, mode, e, tr);
    AgreesSame(host, LeftMode(mode), e.a, tr);
    var (left, tr1) := NestTest(host, e.a, tr);
    AgreesSame(host, mode, e.b, tr1);
    if mode.Again? && left.Tested? && left.truth != e.isAnd {
      TestIsTruth(host, e.a, tr);
      assert left.truth == !e.isAnd;
      BoolTested(host, left.truth, tr1);
    }
    hide TestValue, NestValue, NestTest, PyValue, PyTest, PyJump;
  }

  lemma {:induction false} AllSame(host: Host, es: seq<Expr>, tr: Trace)
    requires forall i | 0 <= i < |es| :: IsSource(es[i]) && Agrees(es[i], Plainly)
    ensures NestAll(host, es, tr) == PyAll(host, es, tr)
    decreases SizeAll(es), 3
  {
    hide NestValue, PyValue;
    if es != [] {
      AgreesSame(host, Plainly, es[0], tr);
      AllSame(host, es[1..], NestValue(host, es[0], tr).1);
    }
  }

  // ----- hosts that answer by a script -----

  /** How many tests were made. */
  function Tests(tr: Trace): nat {
    if tr == [] then 0 else Tests(tr[..|tr| - 1]) + if tr[|tr| - 1].TestTruth? then 1 else 0
  }

  /** The outcome of test number `n`: the script's, and in the end the last of them for ever. */
  predicate Outcome(script: seq<bool>, n: nat) {
    if n < |script| then script[n] else script != [] && script[|script| - 1]
  }

  /** Every operand gives the same object, tested as the script says. */
  function Scripted(script: seq<bool>): Host {
    Host((tr: Trace, q: Event) => if q.TestTruth? then Ok(Bool(Outcome(script, Tests(tr)))) else Ok(Obj(0)), (q: Event) => true)
  }

  lemma TestsMore(tr: Trace, q: Event)
    ensures Tests(tr + [q]) == Tests(tr) + if q.TestTruth? then 1 else 0
  {
    assert (tr + [q])[..|tr|] == tr;
  }

  lemma ObjectTested(script: seq<bool>, tr: Trace)
    ensures TestValue(Scripted(script), (Ok(Obj(0)), tr)) ==
            (Tested(Obj(0), Outcome(script, Tests(tr))), tr + [TestTruth(Obj(0))])
    ensures Tests(tr + [TestTruth(Obj(0))]) == Tests(tr) + 1
  {
    TestsMore(tr, TestTruth(Obj(0)));
  }

  lemma OperandAsked(script: seq<bool>, op: string, vs: seq<Val>, tr: Trace)
    ensures Ask(Scripted(script), Operate(op, vs), tr) == (Ok(Obj(0)), tr + [Operate(op, vs)])
    ensures Tests(tr + [Operate(op, vs)]) == Tests(tr)
  {
    TestsMore(tr, Operate(op, vs));
  }

  // ----- scripts that lead somewhere -----

  /** To a value. */
  function Run(e: Expr): seq<bool> {
    match e
    case Operand(_, args) => RunAll(args)
    case BoolOp(isAnd, a, b) => Steer(a, isAnd) + Run(b)
    case Not(a) => Steer(a, true)
    case Choice(c, yes, _) => Steer(c, true) + Run(yes)
    case First(_) => []
  }

  function RunAll(es: seq<Expr>): seq<bool> {
    if es == [] then [] else Run(es[0]) + RunAll(es[1..])
  }

  /** To a value that is tested `truth`. */
  function Steer(e: Expr, truth: bool): seq<bool> {
    match e
    case Operand(_, args) => RunAll(args) + [truth]
    case BoolOp(isAnd, a, b) => Steer(a, isAnd) + Steer(b, truth)
    case Not(a) => Steer(a, !truth)
    case Choice(c, yes, _) => Steer(c, true) + Steer(yes, truth)
    case First(_) => []
  }

  /** The script from `p` on, and what is left of it. */
  predicate Comes(p: seq<bool>, s: seq<bool>, script: seq<bool>) {
    p + s <= script
  }

  lemma ComesParts(p: seq<bool>, a: seq<bool>, b: seq<bool>, script: seq<bool>)
    requires Comes(p, a + b, script)
    ensures Comes(p, a, script) && Comes(p + a, b, script)
  {
    assert p + (a + b) == p + a + b;
  }

  lemma {:induction false} RunWorks(p: seq<bool>, script: seq<bool>, e: Expr, tr: Trace)
    requires IsSource(e) && Comes(p, Run(e), script) && Tests(tr) == |p|
    ensures var (v, tr1) := NestValue(Scripted(script), e, tr);
            v.Ok? && (v.v == Obj(0) || v.v.Bool?) && Tests(tr1) == |p| + |Run(e)|
    decreases Size(e), 1
  {
    hide Truth, PlainTruth, Comes, Scripted, TestValue;
    var host := Scripted(script);
    match e
    case Operand(op, args) =>
      RunAllWorks(p, script, args, tr);
      var (vs, tr1) := NestAll(host, args, tr);
      OperandAsked(script, op, vs.vs, tr1);
    case BoolOp(isAnd, a, b) =>
      ComesParts(p, Steer(a, isAnd), Run(b), script);
      SteerWorks(p, script, a, isAnd, tr);
      RunWorks(p + Steer(a, isAnd), script, b, NestTest(host, a, tr).1);
    case Not(a) =>
      SteerWorks(p, script, a, true, tr);
      NegateGives(host, NestValue(host, a, tr));
    case Choice(c, yes, _) =>
      ComesParts(p, Steer(c, true), Run(yes), script);
      SteerWorks(p, script, c, true, tr);
      RunWorks(p + Steer(c, true), script, yes, TestValue(host, NestValue(host, c, tr)).1);
  }

  lemma {:induction false} RunAllWorks(p: seq<bool>, script: seq<bool>, es: seq<Expr>, tr: Trace)
    requires (forall i | 0 <= i < |es| :: IsSource(es[i])) && Comes(p, RunAll(es), script) && Tests(tr) == |p|
    ensures var (vs, tr1) := NestAll(Scripted(script), es, tr); vs.All? && Tests(tr1) == |p| + |RunAll(es)|
    decreases SizeAll(es), 3
  {
    hide NestValue, Comes, Scripted;
    if es != [] {
      ComesParts(p, Run(es[0]), RunAll(es[1..]), script);
      RunWorks(p, script, es[0], tr);
      RunAllWorks(p + Run(es[0]), script, es[1..], NestValue(Scripted(script), es[0], tr).1);
    }
  }

  /** Whether the value is tested while it is found or afterwards. */
  lemma {:induction false} SteerWorks(p: seq<bool>, script: seq<bool>, e: Expr, truth: bool, tr: Trace)
    requires IsSource(e) && Comes(p, Steer(e, truth), script) && Tests(tr) == |p|
    ensures var (d, tr1) := NestTest(Scripted(script), e, tr);
            d.Tested? && d.truth == truth && Tests(tr1) == |p| + |Steer(e, truth)|
    ensures var (d, tr1) := TestValue(Scripted(script), NestValue(Scripted(script), e, tr));
            d.Tested? && d.truth == truth && Tests(tr1) == |p| + |Steer(e, truth)|
    decreases Size(e), 2
  {
    hide Truth, PlainTruth, Scripted, TestValue, Negate;
    var host := Scripted(script);
    match e
    case Operand(op, args) =>
      ComesParts(p, RunAll(args), [truth], script);
      RunAllWorks(p, script, args, tr);
      var (vs, tr1) := NestAll(host, args, tr);
      OperandAsked(script, op, vs.vs, tr1);
      ObjectTested(script, NestValue(host, e, tr).1);
      assert (p + RunAll(args) + [truth])[|p| + |RunAll(args)|] == truth;
    case BoolOp(isAnd, a, b) =>
      ComesParts(p, Steer(a, isAnd), Steer(b, truth), script);
      SteerWorks(p, script, a, isAnd, tr);
      SteerWorks(p + Steer(a, isAnd), script, b, truth, NestTest(host, a, tr).1);
    case Not(a) =>
      SteerWorks(p, script, a, !truth, tr);
      NegateTested(host, NestValue(host, a, tr));
    case Choice(c, yes, _) =>
      ComesParts(p, Steer(c, true), Steer(yes, truth), script);
      SteerWorks(p, script, c, true, tr);
      SteerWorks(p + Steer(c, true), script, yes, truth, TestValue(host, NestValue(host, c, tr)).1);
  }

  /** To an object, if the value can be one. */
  function ToObject(e: Expr): seq<bool>
    decreases e, 0
  {
    match e
    case BoolOp(isAnd, a, b) => if Yields(a, !isAnd) then ToTested(a, !isAnd) else Steer(a, isAnd) + ToObject(b)
    case Choice(c, yes, no) => if Objects(yes) then Steer(c, true) + ToObject(yes) else Steer(c, false) + ToObject(no)
    case Operand(_, args) => RunAll(args)
    case _ => []
  }

  /** To an object that was last tested `truth`. */
  function ToTested(e: Expr, truth: bool): seq<bool>
    decreases e, 1
  {
    if !e.BoolOp? then ToObject(e) + [truth]
    else if truth != e.isAnd && Yields(e.a, truth) then ToTested(e.a, truth)
    else Steer(e.a, e.isAnd) + ToTested(e.b, truth)
  }

  lemma {:induction false} ObjectWorks(p: seq<bool>, script: seq<bool>, e: Expr, tr: Trace)
    requires IsSource(e) && Objects(e) && Comes(p, ToObject(e), script) && Tests(tr) == |p|
    ensures var (v, tr1) := NestValue(Scripted(script), e, tr); v == Ok(Obj(0)) && Tests(tr1) == |p| + |ToObject(e)|
    decreases e, 0
  {
    hide Truth, PlainTruth, Comes, Scripted, TestValue;
    var host := Scripted(script);
    match e
    case Operand(op, args) =>
      RunAllWorks(p, script, args, tr);
      var (vs, tr1) := NestAll(host, args, tr);
      OperandAsked(script, op, vs.vs, tr1);
    case BoolOp(isAnd, a, b) =>
      if Yields(a, !isAnd) {
        TestedWorks(p, script, a, !isAnd, tr);
      } else {
        ComesParts(p, Steer(a, isAnd), ToObject(b), script);
        SteerWorks(p, script, a, isAnd, tr);
        ObjectWorks(p + Steer(a, isAnd), script, b, NestTest(host, a, tr).1);
      }
    case Choice(c, yes, no) =>
      var first := Objects(yes);
      ComesParts(p, Steer(c, first), ToObject(if first then yes else no), script);
      SteerWorks(p, script, c, first, tr);
      var tr1 := TestValue(host, NestValue(host, c, tr)).1;
      if first { ObjectWorks(p + Steer(c, true), script, yes, tr1); } else { ObjectWorks(p + Steer(c, false), script, no, tr1); }
  }

  lemma {:induction false} TestedWorks(p: seq<bool>, script: seq<bool>, e: Expr, truth: bool, tr: Trace)
    requires IsSource(e) && Yields(e, truth) && Comes(p, ToTested(e, truth), script) && Tests(tr) == |p|
    ensures var (d, tr1) := NestTest(Scripted(script), e, tr);
            d == Tested(Obj(0), truth) && Tests(tr1) == |p| + |ToTested(e, truth)|
    decreases e, 1
  {
    hide Truth, PlainTruth, Scripted, TestValue;
    var host := Scripted(script);
    if !e.BoolOp? {
      ComesParts(p, ToObject(e), [truth], script);
      ObjectWorks(p, script, e, tr);
      ObjectTested(script, NestValue(host, e, tr).1);
      assert (p + ToObject(e) + [truth])[|p| + |ToObject(e)|] == truth;
    } else if truth != e.isAnd && Yields(e.a, truth) {
      TestedWorks(p, script, e.a, truth, tr);
    } else {
      ComesParts(p, Steer(e.a, e.isAnd), ToTested(e.b, truth), script);
      SteerWorks(p, script, e.a, e.isAnd, tr);
      TestedWorks(p + Steer(e.a, e.isAnd), script, e.b, truth, NestTest(host, e.a, tr).1);
    }
  }

  // ----- when the script is over -----

  /** The outcome of every test that is still to come. */
  predicate End(script: seq<bool>) {
    Outcome(script, |script|)
  }

  /** What a script's host gives; tested again it would give the same outcome. */
  predicate Firm(script: seq<bool>, mode: Mode, d: Tested) {
    && d.Tested? && (d.v == Obj(0) || d.v.Bool?)
    && (!mode.Plainly? ==> d.truth == if d.v.Bool? then d.v.b else End(script))
  }

  /** Both sides have come to the same with the script over, and the nest took no fewer events. */
  predicate Level(script: seq<bool>, tr1: Trace, r1: (Tested, Trace), tr2: Trace, r2: (Tested, Trace)) {
    && r1.0 == r2.0 && |script| <= Tests(r1.1) && |script| <= Tests(r2.1)
    && |r1.1| - |tr1| >= |r2.1| - |tr2|
  }

  lemma FirmTested(script: seq<bool>, v: Val, tr1: Trace, tr2: Trace)
    requires (v == Obj(0) || v.Bool?) && |script| <= Tests(tr1) && |script| <= Tests(tr2)
    ensures var d1, d2 := TestValue(Scripted(script), (Ok(v), tr1)), TestValue(Scripted(script), (Ok(v), tr2));
            && Level(script, tr1, d1, tr2, d2) && |d1.1| - |tr1| == |d2.1| - |tr2| && Firm(script, Again(false), d1.0)
               && d1.0.v == v
            && d1.0.truth == if v.Bool? then v.b else End(script)
    ensures var u1 := TestValue(Scripted(script), (Ok(v), tr1)).1; |u1| == if v == Obj(0) then |tr1| + 1 else |tr1|
  {
    if v.Bool? {
      BoolTested(Scripted(script), v.b, tr1);
      BoolTested(Scripted(script), v.b, tr2);
    } else {
      ObjectTested(script, tr1);
      ObjectTested(script, tr2);
    }
  }

  /** With the script over both sides go the same way. */
  lemma {:induction false} LevelAfter(script: seq<bool>, mode: Mode, e: Expr, tr1: Trace, tr2: Trace)
    requires IsSource(e) && |script| <= Tests(tr1) && |script| <= Tests(tr2)
    ensures var host := Scripted(script);
            && Level(script, tr1, Nest(host, mode, e, tr1), tr2, Python(host, mode, e, tr2))
            && Firm(script, mode, Whole(host, mode, e, tr1).0)
    decreases Size(e), 2
  {
    hide Truth, PlainTruth, Scripted, TestValue, Negate;
    match e
    case Operand(_, _) => OperandLevel(script, mode, e, tr1, tr2);
    case BoolOp(_, _, _) => OperatorLevel(script, mode, e, tr1, tr2);
    case Not(_) => NotLevel(script, mode, e, tr1, tr2);
    case Choice(_, _, _) => ChoiceLevel(script, mode, e, tr1, tr2);
  }

  lemma {:induction false} OperandLevel(script: seq<bool>, mode: Mode, e: Expr, tr1: Trace, tr2: Trace)
    requires e.Operand? && IsSource(e) && |script| <= Tests(tr1) && |script| <= Tests(tr2)
    ensures var host := Scripted(script);
            && Level(script, tr1, Nest(host, mode, e, tr1), tr2, Python(host, mode, e, tr2))
            && Firm(script, mode, Whole(host, mode, e, tr1).0)
    decreases Size(e), 1
  {
    hide Truth, PlainTruth, Scripted, TestValue;
    var host := Scripted(script);
    AllLevel(script, e.args, tr1, tr2);
    var (vs, u1) := NestAll(host, e.args, tr1);
    var (ws, u2) := PyAll(host, e.args, tr2);
    OperandAsked(script, e.op, vs.vs, u1);
    OperandAsked(script, e.op, ws.vs, u2);
    FirmTested(script, Obj(0), NestValue(host, e, tr1).1, PyValue(host, e, tr2).1);
  }

  lemma {:induction false} AllLevel(script: seq<bool>, es: seq<Expr>, tr1: Trace, tr2: Trace)
    requires (forall i | 0 <= i < |es| :: IsSource(es[i])) && |script| <= Tests(tr1) && |script| <= Tests(tr2)
    ensures var (vs, u1) := NestAll(Scripted(script), es, tr1);
            var (ws, u2) := PyAll(Scripted(script), es, tr2);
            vs.All? && vs == ws && |script| <= Tests(u1) && |script| <= Tests(u2) && |u1| - |tr1| >= |u2| - |tr2|
    decreases SizeAll(es), 3
  {
    hide NestValue, PyValue, Scripted;
    if es != [] {
      LevelAfter(script, Plainly, es[0], tr1, tr2);
      AllLevel(script, es[1..], NestValue(Scripted(script), es[0], tr1).1, PyValue(Scripted(script), es[0], tr2).1);
    }
  }

  lemma {:induction false} OperatorLevel(script: seq<bool>, mode: Mode, e: Expr, tr1: Trace, tr2: Trace)
    requires e.BoolOp? && IsSource(e) && |script| <= Tests(tr1) && |script| <= Tests(tr2)
    ensures var host := Scripted(script);
            && Level(script, tr1, Nest(host, mode, e, tr1), tr2, Python(host, mode, e, tr2))
            && Firm(script, mode, Whole(host, mode, e, tr1).0)
    decreases Size(e), 1
  {
    hide TestValue, NestValue, NestTest, PyValue, PyTest, PyJump, Scripted, Tests;
    var host := Scripted(script);
    OperatorParts(host, mode, e, tr1);
    OperatorParts(host, mode, e, tr2);
    LevelAfter(script, LeftMode(mode), e.a, tr1, tr2);
    var (left, u1) := NestTest(host, e.a, tr1);
    var u2 := Python(host, LeftMode(mode), e.a, tr2).1;
    FirmTested(script, left.v, u1, u2);
    LevelAfter(script, mode, e.b, u1, u2);
  }

  lemma {:induction false} NotLevel(script: seq<bool>, mode: Mode, e: Expr, tr1: Trace, tr2: Trace)
    requires e.Not? && IsSource(e) && |script| <= Tests(tr1) && |script| <= Tests(tr2)
    ensures var host := Scripted(script);
            && Level(script, tr1, Nest(host, mode, e, tr1), tr2, Python(host, mode, e, tr2))
            && Firm(script, mode, Whole(host, mode, e, tr1).0)
    decreases Size(e), 1
  {
    hide TestValue, NestValue, NestTest, PyValue, PyTest, PyJump, Scripted, Tests;
    var host := Scripted(script);
    NotParts(host, mode, e, tr1);
    NotParts(host, mode, e, tr2);
    LevelAfter(script, YesMode(mode), e.a, tr1, tr2);
    var d1 := TestValue(host, NestValue(host, e.a, tr1));
    if mode.Plainly? || !mode.jump {
      ValuesTested(script, NestValue(host, e.a, tr1), PyValue(host, e.a, tr2));
      FlippedLevel(script, mode, tr1, d1, tr2, TestValue(host, PyValue(host, e.a, tr2)));
    } else {
      FlippedLevel(script, mode, tr1, Dropped(true, d1), tr2, PyJump(host, e.a, tr2));
    }
  }

  lemma FlippedLevel(script: seq<bool>, mode: Mode, tr1: Trace, d1: (Tested, Trace), tr2: Trace, d2: (Tested, Trace))
    requires Level(script, tr1, d1, tr2, d2) && d1.0.Tested?
    ensures Level(script, tr1, Flipped(mode, d1), tr2, Flipped(mode, d2)) && Firm(script, mode, Flipped(mode, d1).0)
    ensures Dropped(!mode.Plainly? && mode.jump, Flipped(mode, d1)) == Flipped(mode, d1)
    ensures Flipped(mode, Dropped(true, d1)) == Flipped(mode, d1)
  {}

  /** Equal values tested afterwards. */
  lemma ValuesTested(script: seq<bool>, r1: (Reply, Trace), r2: (Reply, Trace))
    requires Kept(r1).0 == Kept(r2).0 && Firm(script, Plainly, Kept(r1).0) && |script| <= Tests(r1.1)
             && |script| <= Tests(r2.1)
    ensures var d1, d2 := TestValue(Scripted(script), r1), TestValue(Scripted(script), r2);
            Level(script, r1.1, d1, r2.1, d2) && Firm(script, Again(false), d1.0)
  {
    hide Scripted, Tests, TestValue;
    FirmTested(script, r1.0.v, r1.1, r2.1);
  }

  lemma {:induction false} ChoiceLevel(script: seq<bool>, mode: Mode, e: Expr, tr1: Trace, tr2: Trace)
    requires e.Choice? && IsSource(e) && |script| <= Tests(tr1) && |script| <= Tests(tr2)
    ensures var host := Scripted(script);
            && Level(script, tr1, Nest(host, mode, e, tr1), tr2, Python(host, mode, e, tr2))
            && Firm(script, mode, Whole(host, mode, e, tr1).0)
    decreases Size(e), 1
  {
    hide TestValue, NestValue, NestTest, PyValue, PyTest, PyJump, Scripted, Tests;
    var host := Scripted(script);
    ChoiceParts(host, mode, e, tr1);
    ChoiceParts(host, mode, e, tr2);
    LevelAfter(script, Again(true), e.c, tr1, tr2);
    var (test, u1) := TestValue(host, NestValue(host, e.c, tr1));
    var u2 := PyJump(host, e.c, tr2).1;
    if test.truth {
      LevelAfter(script, YesMode(mode), e.yes, u1, u2);
      if !mode.Plainly? && !mode.jump {
        ValuesTested(script, NestValue(host, e.yes, u1), PyValue(host, e.yes, u2));
      }
    } else {
      LevelAfter(script, NoMode(mode), e.no, u1, u2);
    }
  }

  // ----- where the two differ -----

  /** To a test that only the nest makes, if there is one. */
  function Differ(e: Expr, mode: Mode): seq<bool>
    decreases e, 0
  {
    match e
    case Operand(_, args) => DifferAll(args)
    case BoolOp(isAnd, a, b) =>
      if !Agrees(a, LeftMode(mode)) then Differ(a, LeftMode(mode))
      else if mode.Again? && Yields(a, !isAnd) then ToTested(a, !isAnd)
      else Steer(a, isAnd) + Differ(b, mode)
    case Not(a) => Differ(a, YesMode(mode))
    case Choice(c, yes, no) =>
      if !Agrees(c, Again(true)) then Differ(c, Again(true))
      else if !Agrees(yes, YesMode(mode)) then Steer(c, true) + Differ(yes, YesMode(mode))
      else Steer(c, false) + Differ(no, NoMode(mode))
    case First(_) => []
  }

  function DifferAll(es: seq<Expr>): seq<bool>
    decreases es, 1
  {
    if es == [] then []
    else if !Agrees(es[0], Plainly) then Differ(es[0], Plainly)
    else Run(es[0]) + DifferAll(es[1..])
  }

  /** As `Level`, and the nest took more events. */
  predicate Ahead(script: seq<bool>, r1: (Tested, Trace), r2: (Tested, Trace)) {
    r1.0 == r2.0 && |script| <= Tests(r1.1) && |script| <= Tests(r2.1) && |r1.1| > |r2.1|
  }

  lemma {:induction false} LastTested(e: Expr, truth: bool)
    requires Yields(e, truth)
    ensures ToTested(e, truth) != [] && ToTested(e, truth)[|ToTested(e, truth)| - 1] == truth
  {
    hide Steer, ToObject;
    if e.BoolOp? {
      if truth != e.isAnd && Yields(e.a, truth) { LastTested(e.a, truth); } else { LastTested(e.b, truth); }
    }
  }

  lemma {:induction false} Differs(p: seq<bool>, script: seq<bool>, mode: Mode, e: Expr, tr: Trace)
    requires IsSource(e) && !Agrees(e, mode) && script == p + Differ(e, mode) && Tests(tr) == |p|
    ensures var host := Scripted(script);
            Ahead(script, Nest(host, mode, e, tr), Python(host, mode, e, tr))
              && Firm(script, mode, Whole(host, mode, e, tr).0)
    decreases Size(e), 2
  {
    match e
    case Operand(_, _) => OperandDiffers(p, script, mode, e, tr);
    case BoolOp(_, _, _) => OperatorDiffers(p, script, mode, e, tr);
    case Not(_) => NotDiffers(p, script, mode, e, tr);
    case Choice(_, _, _) => ChoiceDiffers(p, script, mode, e, tr);
  }

  lemma {:induction false} OperandDiffers(p: seq<bool>, script: seq<bool>, mode: Mode, e: Expr, tr: Trace)
    requires e.Operand? && IsSource(e) && !Agrees(e, mode) && script == p + Differ(e, mode) && Tests(tr) == |p|
    ensures var host := Scripted(script);
            Ahead(script, Nest(host, mode, e, tr), Python(host, mode, e, tr))
              && Firm(script, mode, Whole(host, mode, e, tr).0)
    decreases Size(e), 1
  {
    hide Truth, PlainTruth, Scripted, TestValue, Tests;
    var host := Scripted(script);
    AllDiffers(p, script, e.args, tr);
    var (vs, u1) := NestAll(host, e.args, tr);
    var (ws, u2) := PyAll(host, e.args, tr);
    OperandAsked(script, e.op, vs.vs, u1);
    OperandAsked(script, e.op, ws.vs, u2);
    FirmTested(script, Obj(0), NestValue(host, e, tr).1, PyValue(host, e, tr).1);
  }

  lemma {:induction false} AllDiffers(p: seq<bool>, script: seq<bool>, es: seq<Expr>, tr: Trace)
    requires (forall i | 0 <= i < |es| :: IsSource(es[i])) && !(forall i | 0 <= i < |es| :: Agrees(es[i], Plainly))
    requires script == p + DifferAll(es) && Tests(tr) == |p|
    ensures var (vs, u1) := NestAll(Scripted(script), es, tr);
            var (ws, u2) := PyAll(Scripted(script), es, tr);
            vs.All? && vs == ws && |script| <= Tests(u1) && |script| <= Tests(u2) && |u1| > |u2|
    decreases SizeAll(es), 3
  {
    hide NestValue, PyValue, Scripted, Tests, Agrees, Run, Differ;
    var host := Scripted(script);
    if !Agrees(es[0], Plainly) {
      Differs(p, script, Plainly, es[0], tr);
      AllLevel(script, es[1..], NestValue(host, es[0], tr).1, PyValue(host, es[0], tr).1);
    } else {
      assert p + (Run(es[0]) + DifferAll(es[1..])) == p + Run(es[0]) + DifferAll(es[1..]);
      RunWorks(p, script, es[0], tr);
      AgreesSame(host, Plainly, es[0], tr);
      AllDiffers(p + Run(es[0]), script, es[1..], NestValue(host, es[0], tr).1);
    }
  }

  lemma {:induction false} OperatorDiffers(p: seq<bool>, script: seq<bool>, mode: Mode, e: Expr, tr: Trace)
    requires e.BoolOp? && IsSource(e) && !Agrees(e, mode) && script == p + Differ(e, mode) && Tests(tr) == |p|
    ensures var host := Scripted(script);
            Ahead(script, Nest(host, mode, e, tr), Python(host, mode, e, tr))
              && Firm(script, mode, Whole(host, mode, e, tr).0)
    decreases Size(e), 1
  {
    hide TestValue, NestValue, NestTest, PyValue, PyTest, PyJump, Scripted, Tests, Steer, ToTested, Yields;
    var host := Scripted(script);
    OperatorParts(host, mode, e, tr);
    var (left, u1) := NestTest(host, e.a, tr);
    var u2 := Python(host, LeftMode(mode), e.a, tr).1;
    if !Agrees(e.a, LeftMode(mode)) {
      Differs(p, script, LeftMode(mode), e.a, tr);
      FirmTested(script, left.v, u1, u2);
      LevelAfter(script, mode, e.b, u1, u2);
    } else {
      AgreesSame(host, LeftMode(mode), e.a, tr);
      if mode.Again? && Yields(e.a, !e.isAnd) {
        TestedWorks(p, script, e.a, !e.isAnd, tr);
        LastTested(e.a, !e.isAnd);
        FirmTested(script, left.v, u1, u2);
      } else {
        ComesParts(p, Steer(e.a, e.isAnd), Differ(e.b, mode), script);
        SteerWorks(p, script, e.a, e.isAnd, tr);
        assert p + (Steer(e.a, e.isAnd) + Differ(e.b, mode)) == p + Steer(e.a, e.isAnd) + Differ(e.b, mode);
        Differs(p + Steer(e.a, e.isAnd), script, mode, e.b, u1);
      }
    }
  }

  lemma {:induction false} NotDiffers(p: seq<bool>, script: seq<bool>, mode: Mode, e: Expr, tr: Trace)
    requires e.Not? && IsSource(e) && !Agrees(e, mode) && script == p + Differ(e, mode) && Tests(tr) == |p|
    ensures var host := Scripted(script);
            Ahead(script, Nest(host, mode, e, tr), Python(host, mode, e, tr))
              && Firm(script, mode, Whole(host, mode, e, tr).0)
    decreases Size(e), 1
  {
    hide TestValue, NestValue, NestTest, PyValue, PyTest, PyJump, Scripted, Tests;
    var host := Scripted(script);
    NotParts(host, mode, e, tr);
    Differs(p, script, YesMode(mode), e.a, tr);
    var d1 := TestValue(host, NestValue(host, e.a, tr));
    if mode.Plainly? || !mode.jump {
      ValuesTested(script, NestValue(host, e.a, tr), PyValue(host, e.a, tr));
      FlippedAhead(script, mode, d1, TestValue(host, PyValue(host, e.a, tr)));
    } else {
      FlippedAhead(script, mode, Dropped(true, d1), PyJump(host, e.a, tr));
    }
  }

  lemma FlippedAhead(script: seq<bool>, mode: Mode, d1: (Tested, Trace), d2: (Tested, Trace))
    requires Ahead(script, d1, d2) && d1.0.Tested?
    ensures Ahead(script, Flipped(mode, d1), Flipped(mode, d2)) && Firm(script, mode, Flipped(mode, d1).0)
    ensures Dropped(!mode.Plainly? && mode.jump, Flipped(mode, d1)) == Flipped(mode, d1)
    ensures Flipped(mode, Dropped(true, d1)) == Flipped(mode, d1)
  {}

  lemma {:induction false} ChoiceDiffers(p: seq<bool>, script: seq<bool>, mode: Mode, e: Expr, tr: Trace)
    requires e.Choice? && IsSource(e) && !Agrees(e, mode) && script == p + Differ(e, mode) && Tests(tr) == |p|
    ensures var host := Scripted(script);
            Ahead(script, Nest(host, mode, e, tr), Python(host, mode, e, tr))
              && Firm(script, mode, Whole(host, mode, e, tr).0)
    decreases Size(e), 1
  {
    hide TestValue, NestValue, NestTest, PyValue, PyTest, PyJump, Scripted, Tests, Steer;
    var host := Scripted(script);
    ChoiceParts(host, mode, e, tr);
    var (test, u1) := TestValue(host, NestValue(host, e.c, tr));
    var u2 := PyJump(host, e.c, tr).1;
    if !Agrees(e.c, Again(true)) {
      Differs(p, script, Again(true), e.c, tr);
      if test.truth { YesLevel(script, mode, e, u1, u2); } else { LevelAfter(script, NoMode(mode), e.no, u1, u2); }
    } else {
      var first := !Agrees(e.yes, YesMode(mode));
      var rest := if first then Differ(e.yes, YesMode(mode)) else Differ(e.no, NoMode(mode));
      assert p + (Steer(e.c, first) + rest) == p + Steer(e.c, first) + rest;
      ComesParts(p, Steer(e.c, first), rest, script);
      SteerWorks(p, script, e.c, first, tr);
      AgreesSame(host, Again(true), e.c, tr);
      if first {
        Differs(p + Steer(e.c, true), script, YesMode(mode), e.yes, u1);
        if !mode.Plainly? && !mode.jump { ValuesTested(script, NestValue(host, e.yes, u1), PyValue(host, e.yes, u1)); }
      } else {
        Differs(p + Steer(e.c, false), script, NoMode(mode), e.no, u1);
      }
    }
  }

  /** The then branch with the script over. */
  lemma YesLevel(script: seq<bool>, mode: Mode, e: Expr, u1: Trace, u2: Trace)
    requires e.Choice? && IsSource(e) && |script| <= Tests(u1) && |script| <= Tests(u2)
    ensures var host := Scripted(script);
            var whole := Whole(host, if mode.Plainly? then Plainly else Again(true), e.yes, u1);
            && Firm(script, mode, whole.0)
            && Level(script, u1, Dropped(!mode.Plainly? && mode.jump, whole), u2,
                     if mode.Plainly? || mode.jump then Python(host, YesMode(mode), e.yes, u2)
                     else TestValue(host, PyValue(host, e.yes, u2)))
  {
    hide TestValue, NestValue, NestTest, PyValue, PyTest, PyJump, Scripted, Tests;
    var host := Scripted(script);
    LevelAfter(script, YesMode(mode), e.yes, u1, u2);
    if !mode.Plainly? && !mode.jump { ValuesTested(script, NestValue(host, e.yes, u1), PyValue(host, e.yes, u2)); }
  }

  // ----- the pass and CPython -----

  /** What the pass emits evaluates as CPython does, for every host and history, exactly when
  the expression is one on which threading agrees. */
  lemma PassIsPython(e: Expr)
    requires IsSource(e)
    ensures var (out, table) := LowerBody(e);
            (forall host: Host, tr: Trace :: TruthValues.Eval(host, table, |table|, out, tr) == PyValue(host, e, tr)) <==> Agrees(e, Plainly)
  {
    var (out, table) := LowerBody(e);
    forall host: Host, tr: Trace
      ensures TruthValues.Eval(host, table, |table|, out, tr) == NestValue(host, e, tr)
      ensures Agrees(e, Plainly) ==> NestValue(host, e, tr) == PyValue(host, e, tr)
    {
      PassThreads(host, e, tr);
      ThreadNests(host, e, [], tr);
      if Agrees(e, Plainly) {
        AgreesSame(host, Plainly, e, tr);
        KeptSame(NestValue(host, e, tr), PyValue(host, e, tr));
      }
    }
    if !Agrees(e, Plainly) {
      var script := Differ(e, Plainly);
      assert [] + script == script;
      Differs([], script, Plainly, e, []);
      assert NestValue(Scripted(script), e, []) != PyValue(Scripted(script), e, []);
    }
  }

  predicate ChoiceFree(e: Expr) {
    match e
    case Operand(_, args) => forall i | 0 <= i < |args| :: ChoiceFree(args[i])
    case BoolOp(_, a, b) => ChoiceFree(a) && ChoiceFree(b)
    case Not(a) => ChoiceFree(a)
    case Choice(_, _, _) => false
    case First(_) => true
  }

  /** Without conditional expressions the pass always evaluates as CPython does. */
  lemma {:induction false} ChoiceFreeAgrees(e: Expr, mode: Mode)
    requires ChoiceFree(e) && (mode.Plainly? || mode == Waited(false))
    ensures Agrees(e, mode)
    decreases e
  {
    match e
    case Operand(_, args) =>
      forall i | 0 <= i < |args| ensures Agrees(args[i], Plainly) { ChoiceFreeAgrees(args[i], Plainly); }
    case BoolOp(_, a, b) =>
      ChoiceFreeAgrees(a, Waited(false));
      ChoiceFreeAgrees(b, mode);
    case Not(a) => ChoiceFreeAgrees(a, Plainly);
    case _ =>
  }

  /** An else branch that is waited for, `(x if x else x and x) or x` with a false object x:
  CPython tests the third x once, the emitted code twice. */
  lemma ElseTestedTwice()
    ensures var x := Operand("x", []);
            var e := BoolOp(false, Choice(x, x, BoolOp(true, x, x)), x);
            var (out, table) := LowerBody(e);
            var load, test := Operate("x", []), TestTruth(Obj(0));
            && PyValue(Scripted([]), e, []).1 == [load, test, load, test, load]
            && TruthValues.Eval(Scripted([]), table, |table|, out, []).1 == [load, test, load, test, test, load]
  {
    var x := Operand("x", []);
    var e := BoolOp(false, Choice(x, x, BoolOp(true, x, x)), x);
    assert IsSource(e);
    hide NestValue, PyValue, LowerBody, Scripted, IsSource;
    PassThreads(Scripted([]), e, []);
    ThreadNests(Scripted([]), e, [], []);
    ElseSteps();
  }

  lemma LeafSteps(tr: Trace)
    ensures var x, host := Operand("x", []), Scripted([]);
            var load, test := Operate("x", []), TestTruth(Obj(0));
            && NestValue(host, x, tr) == PyValue(host, x, tr) == (Ok(Obj(0)), tr + [load])
            && NestTest(host, x, tr) == PyTest(host, x, tr) == (Tested(Obj(0), false), tr + [load] + [test])
            && TestValue(host, NestValue(host, x, tr)) == (Tested(Obj(0), false), tr + [load] + [test])
            && PyJump(host, x, tr) == (Tested(Bool(false), false), tr + [load] + [test])
  {
    ObjectTested([], tr + [Operate("x", [])]);
    hide TestValue, Truth;
  }

  lemma ElseSteps()
    ensures var x, host := Operand("x", []), Scripted([]);
            var e := BoolOp(false, Choice(x, x, BoolOp(true, x, x)), x);
            var load, test := Operate("x", []), TestTruth(Obj(0));
            && PyValue(host, e, []).1 == [load, test, load, test, load]
            && NestValue(host, e, []).1 == [load, test, load, test, test, load]
  {
    hide TestValue, Scripted;
    var x, host := Operand("x", []), Scripted([]);
    var load, test := Operate("x", []), TestTruth(Obj(0));
    var inner := BoolOp(true, x, x);
    var choice := Choice(x, x, inner);
    var start: Trace := [];
    var t1 := start + [load] + [test];
    var t2 := t1 + [load] + [test];
    LeafSteps(start);
    LeafSteps(t1);
    LeafSteps(t2);
    LeafSteps(t2 + [test]);
    assert NestValue(host, inner, t1) == (Ok(Obj(0)), t2);
    assert PyTest(host, inner, t1) == (Tested(Obj(0), false), t2);
    ObjectTested([], t2);
    assert NestValue(host, choice, start) == (Ok(Obj(0)), t2);
    assert NestTest(host, choice, start) == (Tested(Obj(0), false), t2 + [test]);
    assert PyTest(host, choice, start) == (Tested(Obj(0), false), t2);
  }
}
