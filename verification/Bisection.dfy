/** The oracle's driver runs a batch of cases and splits it where answers are missing, so
that one bad case does not lose a batch. */
module Bisection {
  import Core

  /** What one run of the checker prints: answers by case, and at times its base line. */
  datatype Output = TimedOut | Printed(answers: map<nat, string>, base: Core.Option<nat>)

  /** The checker: what it prints for a batch may differ from one run to the next. */
  type Runner = (nat, seq<nat>) -> Output

  /** `runs` counts the runs made; `base` is the last base line read. */
  datatype Memory = Memory(runs: nat, base: nat)

  /** The answers to the batch's own cases. */
  function Answers(out: Output, idxs: seq<nat>): (got: map<nat, string>)
    requires out.Printed?
  {
    map i | i in out.answers && i in idxs :: out.answers[i]
  }

  function After(m: Memory, out: Output): Memory {
    Memory(m.runs + 1, if out.Printed? && out.base.Some? then out.base.value else m.base)
  }

  function Eval(run: Runner, m: Memory, idxs: seq<nat>): (map<nat, string>, Memory)
    decreases |idxs|
  {
    if idxs == [] then (map[], m) else
    var out := run(m.runs, idxs);
    var m1 := After(m, out);
    if out.TimedOut? then (map[], m1) else
    var got := Answers(out, idxs);
    if |got| < |idxs| && |idxs| > 1 then
      var mid := |idxs| / 2;
      var (left, m2) := Eval(run, m1, idxs[..mid]);
      var (right, m3) := Eval(run, m2, idxs[mid..]);
      (got + left + right, m3)
    else (got, m1)
  }

  class Driver {
    const run: Runner
    var memory: Memory

    constructor (run: Runner)
      ensures this.run == run && memory == Memory(0, 0)
    {
      this.run := run;
      memory := Memory(0, 0);
    }

    /** The guarantees, for any truth the answers agree with and any set of bad cases that
    accounts for what goes unanswered. */
    method Evaluate(idxs: seq<nat>) returns (got: map<nat, string>)
      modifies this
      ensures (got, memory) == Eval(run, old(memory), idxs)
      ensures forall truth: nat -> string, bad: iset<nat> | Honest(run, truth) && AnswersClean(run, bad) ::
              Right(got, idxs, truth, bad)
      ensures Told(Trail(run, old(memory), idxs), got, old(memory).base, memory.base)
      ensures Distinct(idxs) ==> forall bad: iset<nat> | AnswersClean(run, bad) ::
        memory.runs <= old(memory).runs + 1 + 2 * |BadOnes(bad, idxs)| * CeilLog2(|idxs|)
      decreases |idxs|
    {
      hide Honest, AnswersClean, Right, Distinct, BadOnes, CeilLog2, Told, Trail, Ran;
      ghost var before := memory;
      got := map[];
      if idxs != [] {
        var out := run(memory.runs, idxs);
        memory := After(memory, out);
        if out.Printed? {
          got := Answers(out, idxs);
          if |got| < |idxs| && |idxs| > 1 {
            var mid := |idxs| / 2;
            var left := Evaluate(idxs[..mid]);
            got := got + left;
            var right := Evaluate(idxs[mid..]);
            got := got + right;
          }
        }
      }
      forall truth: nat -> string, bad: iset<nat> | Honest(run, truth) && AnswersClean(run, bad)
        ensures Right(got, idxs, truth, bad) {
        GoodCasesAnswered(run, before, idxs, truth, bad);
      }
      TrailTells(run, before, idxs);
      if Distinct(idxs) {
        forall bad: iset<nat> | AnswersClean(run, bad)
          ensures memory.runs <= before.runs + 1 + 2 * |BadOnes(bad, idxs)| * CeilLog2(|idxs|) {
          FewRuns(run, before, idxs, bad);
        }
      }
    }
  }

  // ----- what is assumed of the checker -----

  /** No answer is wrong. */
  ghost predicate Honest(run: Runner, truth: nat -> string) {
    forall k, idxs, i :: run(k, idxs).Printed? && i in idxs && i in run(k, idxs).answers ==>
      run(k, idxs).answers[i] == truth(i)
  }

  /** No run times out, and a batch without a bad case is answered in full. */
  ghost predicate AnswersClean(run: Runner, bad: iset<nat>) {
    forall k, idxs :: run(k, idxs).Printed?
      && ((forall i | i in idxs :: i !in bad) ==> forall i | i in idxs :: i in run(k, idxs).answers)
  }

  // ----- every good case is answered -----

  function Elements(idxs: seq<nat>): set<nat> { set i | i in idxs }

  ghost predicate Distinct(idxs: seq<nat>) { forall i, j | 0 <= i < j < |idxs| :: idxs[i] != idxs[j] }

  lemma {:induction false} SetOfSeq(idxs: seq<nat>)
    ensures |Elements(idxs)| <= |idxs|
    ensures Distinct(idxs) ==> |Elements(idxs)| == |idxs|
  {
    if idxs != [] {
      SetOfSeq(idxs[1..]);
      assert idxs == [idxs[0]] + idxs[1..];
      assert Elements(idxs) == Elements(idxs[1..]) + {idxs[0]};
      if Distinct(idxs) {
        assert forall j | 0 <= j < |idxs| - 1 :: idxs[1..][j] == idxs[j + 1];
        assert Distinct(idxs[1..]) && idxs[0] !in Elements(idxs[1..]);
      }
    }
  }

  /** A batch that is not split has all its answers. */
  lemma FullMeansAll(out: Output, idxs: seq<nat>)
    requires out.Printed? && |Answers(out, idxs)| >= |idxs|
    ensures forall i | i in idxs :: i in Answers(out, idxs)
  {
    var all, keys := Elements(idxs), Answers(out, idxs).Keys;
    SetOfSeq(idxs);
    assert |keys| == |Answers(out, idxs)|;
    assert keys <= all;
    assert all == keys + (all - keys);
    assert |all| == |keys| + |all - keys|;
    assert all - keys == {};
    assert all <= keys;
    forall i | i in idxs ensures i in keys { assert i in all; }
  }

  /** Only right answers, only to cases of the batch, and one to every good case. */
  ghost predicate Right(got: map<nat, string>, idxs: seq<nat>, truth: nat -> string, bad: iset<nat>) {
    && (forall i | i in got :: i in idxs && got[i] == truth(i))
    && forall i | i in idxs && i !in bad :: i in got
  }

  lemma RightTogether(got: map<nat, string>, left: map<nat, string>, right: map<nat, string>,
                      idxs: seq<nat>, mid: nat, truth: nat -> string, bad: iset<nat>)
    requires mid <= |idxs| && Right(left, idxs[..mid], truth, bad) && Right(right, idxs[mid..], truth, bad)
    requires forall i | i in got :: i in idxs && got[i] == truth(i)
    ensures Right(got + left + right, idxs, truth, bad)
  {
    assert idxs == idxs[..mid] + idxs[mid..];
    assert forall i :: i in idxs <==> i in idxs[..mid] || i in idxs[mid..];
  }

  lemma RunIsRight(run: Runner, k: nat, idxs: seq<nat>, truth: nat -> string, bad: iset<nat>)
    requires Honest(run, truth) && AnswersClean(run, bad)
    ensures run(k, idxs).Printed?
    ensures forall i | i in Answers(run(k, idxs), idxs) :: i in idxs && Answers(run(k, idxs), idxs)[i] == truth(i)
    ensures |Answers(run(k, idxs), idxs)| >= |idxs| || |idxs| == 1 ==>
            Right(Answers(run(k, idxs), idxs), idxs, truth, bad)
  {
    if |Answers(run(k, idxs), idxs)| >= |idxs| { FullMeansAll(run(k, idxs), idxs); }
  }

  /** The result holds only right answers to the batch's cases, and holds every good one,
  wherever the bad ones lie. */
  lemma {:induction false} GoodCasesAnswered(run: Runner, m: Memory, idxs: seq<nat>, truth: nat -> string,
                                             bad: iset<nat>)
    requires Honest(run, truth) && AnswersClean(run, bad)
    ensures Right(Eval(run, m, idxs).0, idxs, truth, bad)
    decreases |idxs|
  {
    hide Right, Honest, AnswersClean;
    if idxs == [] {
      NothingIsRight(truth, bad);
    } else {
      var out := run(m.runs, idxs);
      RunIsRight(run, m.runs, idxs, truth, bad);
      var got := Answers(out, idxs);
      if |got| < |idxs| && |idxs| > 1 {
        var mid := |idxs| / 2;
        var m1 := After(m, out);
        GoodCasesAnswered(run, m1, idxs[..mid], truth, bad);
        var (left, m2) := Eval(run, m1, idxs[..mid]);
        GoodCasesAnswered(run, m2, idxs[mid..], truth, bad);
        RightTogether(got, left, Eval(run, m2, idxs[mid..]).0, idxs, mid, truth, bad);
      }
    }
  }

  lemma NothingIsRight(truth: nat -> string, bad: iset<nat>)
    ensures Right(map[], [], truth, bad)
  {}

  // ----- what the result holds, whatever the checker does -----

  /** The batches that are run, in order, with what each run prints. */
  ghost function Trail(run: Runner, m: Memory, idxs: seq<nat>): seq<(seq<nat>, Output)>
    decreases |idxs|
  {
    if idxs == [] then [] else
    var out := run(m.runs, idxs);
    var m1 := After(m, out);
    if out.TimedOut? || |Answers(out, idxs)| >= |idxs| || |idxs| == 1 then [(idxs, out)] else
    var mid := |idxs| / 2;
    [(idxs, out)] + Trail(run, m1, idxs[..mid]) + Trail(run, Eval(run, m1, idxs[..mid]).1, idxs[mid..])
  }

  /** The run answers case `i` of its batch. */
  ghost predicate Tells(step: (seq<nat>, Output), i: nat) {
    step.1.Printed? && i in step.1.answers && i in step.0
  }

  ghost predicate LastTells(trail: seq<(seq<nat>, Output)>, j: nat, i: nat) {
    j < |trail| && Tells(trail[j], i) && forall k | j < k < |trail| :: !Tells(trail[k], i)
  }

  ghost predicate TellsBase(step: (seq<nat>, Output)) { step.1.Printed? && step.1.base.Some? }

  /** The result holds an answer for exactly the cases some run answered, and of several the
  last; the base line is the last one printed. */
  ghost predicate Told(trail: seq<(seq<nat>, Output)>, got: map<nat, string>, before: nat, after: nat) {
    && (forall i :: i in got <==> exists j: nat :: j < |trail| && Tells(trail[j], i))
    && (forall i, j: nat | LastTells(trail, j, i) :: i in got && got[i] == trail[j].1.answers[i])
    && ((forall j | 0 <= j < |trail| :: !TellsBase(trail[j])) ==> after == before)
    && forall j | 0 <= j < |trail| && TellsBase(trail[j]) && (forall k | j < k < |trail| :: !TellsBase(trail[k])) ::
         after == trail[j].1.base.value
  }

  lemma ToldOnce(step: (seq<nat>, Output), m: Memory)
    ensures var got := if step.1.Printed? then Answers(step.1, step.0) else map[];
            Told([step], got, m.base, After(m, step.1).base)
  {
    var trail := [step];
    assert trail[0] == step;
    forall i ensures (exists j: nat :: j < |trail| && Tells(trail[j], i)) <==> Tells(step, i) {
      if Tells(step, i) { assert Tells(trail[0], i); }
    }
  }

  lemma ToldThen(a: seq<(seq<nat>, Output)>, b: seq<(seq<nat>, Output)>, first: map<nat, string>,
                 second: map<nat, string>, before: nat, between: nat, after: nat)
    requires Told(a, first, before, between) && Told(b, second, between, after)
    ensures Told(a + b, first + second, before, after)
  {
    hide Tells, TellsBase;
    AnswersThen(a, b, first, second);
    BaseThen(a, b, first, second, before, between, after);
  }

  lemma AnswersThen(a: seq<(seq<nat>, Output)>, b: seq<(seq<nat>, Output)>, first: map<nat, string>, second: map<nat, string>)
    requires forall i :: i in first <==> exists j: nat :: j < |a| && Tells(a[j], i)
    requires forall i :: i in second <==> exists j: nat :: j < |b| && Tells(b[j], i)
    requires forall i, j: nat | LastTells(a, j, i) :: i in first && first[i] == a[j].1.answers[i]
    requires forall i, j: nat | LastTells(b, j, i) :: i in second && second[i] == b[j].1.answers[i]
    ensures forall i :: i in first + second <==> exists j: nat :: j < |a + b| && Tells((a + b)[j], i)
    ensures forall i, j: nat | LastTells(a + b, j, i) :: i in first + second && (first + second)[i] == (a + b)[j].1.answers[i]
  {
    var trail, got := a + b, first + second;
    forall i ensures i in got <==> exists j: nat :: j < |trail| && Tells(trail[j], i) { InEither(a, b, i); }
    forall i, j: nat | LastTells(trail, j, i) ensures i in got && got[i] == trail[j].1.answers[i] {
      InEither(a, b, i);
      LastInEither(a, b, j, i);
    }
  }

  lemma InEither(a: seq<(seq<nat>, Output)>, b: seq<(seq<nat>, Output)>, i: nat)
    ensures (exists j: nat :: j < |a + b| && Tells((a + b)[j], i)) <==>
            (exists j: nat :: j < |a| && Tells(a[j], i)) || (exists j: nat :: j < |b| && Tells(b[j], i))
  {
    hide Tells;
    if j: nat :| j < |a| && Tells(a[j], i) { assert Tells((a + b)[j], i); }
    if j: nat :| j < |b| && Tells(b[j], i) { assert Tells((a + b)[|a| + j], i); }
    if j: nat :| j < |a + b| && Tells((a + b)[j], i) {
      assert if j < |a| then Tells(a[j], i) else Tells(b[j - |a|], i);
    }
  }

  lemma LastInEither(a: seq<(seq<nat>, Output)>, b: seq<(seq<nat>, Output)>, j: nat, i: nat)
    requires LastTells(a + b, j, i)
    ensures if j >= |a| then LastTells(b, j - |a|, i)
            else LastTells(a, j, i) && !exists k: nat :: k < |b| && Tells(b[k], i)
  {
    hide Tells;
    assert forall k | 0 <= k < |a| :: (a + b)[k] == a[k];
    forall k: nat | k < |b| ensures (a + b)[|a| + k] == b[k] {}
    if j < |a| {
      forall k: nat | k < |b| ensures !Tells(b[k], i) { assert !Tells((a + b)[|a| + k], i); }
    } else {
      forall k: nat | j - |a| < k < |b| ensures !Tells(b[k], i) { assert !Tells((a + b)[|a| + k], i); }
    }
  }

  lemma BaseThen(a: seq<(seq<nat>, Output)>, b: seq<(seq<nat>, Output)>, first: map<nat, string>,
                 second: map<nat, string>, before: nat, between: nat, after: nat)
    requires Told(a, first, before, between) && Told(b, second, between, after)
    ensures (forall j | 0 <= j < |a + b| :: !TellsBase((a + b)[j])) ==> after == before
    ensures forall j | 0 <= j < |a + b| && TellsBase((a + b)[j]) && (forall k | j < k < |a + b| :: !TellsBase((a + b)[k])) ::
              after == (a + b)[j].1.base.value
  {
    hide Tells, LastTells;
    var trail := a + b;
    forall j | 0 <= j < |trail| && TellsBase(trail[j]) && (forall k | j < k < |trail| :: !TellsBase(trail[k]))
      ensures after == trail[j].1.base.value
    {
      if j >= |a| {
        assert TellsBase(b[j - |a|]);
        forall k | j - |a| < k < |b| ensures !TellsBase(b[k]) { assert !TellsBase(trail[|a| + k]); }
      } else {
        forall k | 0 <= k < |b| ensures !TellsBase(b[k]) { assert !TellsBase(trail[|a| + k]); }
        forall k | j < k < |a| ensures !TellsBase(a[k]) { assert !TellsBase(trail[k]); }
        assert TellsBase(a[j]);
      }
    }
    if forall j | 0 <= j < |trail| :: !TellsBase(trail[j]) {
      forall k | 0 <= k < |b| ensures !TellsBase(b[k]) { assert !TellsBase(trail[|a| + k]); }
      forall k | 0 <= k < |a| ensures !TellsBase(a[k]) { assert !TellsBase(trail[k]); }
    }
  }

  /** Run number `first` and those after it printed this. */
  ghost predicate Ran(run: Runner, first: nat, trail: seq<(seq<nat>, Output)>) {
    forall j | 0 <= j < |trail| :: trail[j].1 == run(first + j, trail[j].0)
  }

  lemma RanThen(run: Runner, first: nat, a: seq<(seq<nat>, Output)>, b: seq<(seq<nat>, Output)>)
    requires Ran(run, first, a) && Ran(run, first + |a|, b)
    ensures Ran(run, first, a + b)
  {
    forall j | 0 <= j < |a + b| ensures (a + b)[j].1 == run(first + j, (a + b)[j].0) {
      if j >= |a| { assert (a + b)[j] == b[j - |a|]; }
    }
  }

  predicate Splits(out: Output, idxs: seq<nat>) {
    out.Printed? && |Answers(out, idxs)| < |idxs| && |idxs| > 1
  }

  /** One step of the bisection. */
  lemma EvalHalves(run: Runner, m: Memory, idxs: seq<nat>)
    requires idxs != []
    ensures var out := run(m.runs, idxs);
            var m1 := After(m, out);
            var got := if out.Printed? then Answers(out, idxs) else map[];
            Eval(run, m, idxs) ==
            if !Splits(out, idxs) then (got, m1) else
            var (l, m2) := Eval(run, m1, idxs[..|idxs| / 2]);
            var (r, m3) := Eval(run, m2, idxs[|idxs| / 2..]);
            (got + l + r, m3)
  {
    hide Answers;
  }

  /** And of its trail. */
  lemma TrailHalves(run: Runner, m: Memory, idxs: seq<nat>)
    requires idxs != []
    ensures var out := run(m.runs, idxs);
            var m1 := After(m, out);
            Trail(run, m, idxs) ==
            if !Splits(out, idxs) then [(idxs, out)] else
            [(idxs, out)] + Trail(run, m1, idxs[..|idxs| / 2])
              + Trail(run, Eval(run, m1, idxs[..|idxs| / 2]).1, idxs[|idxs| / 2..])
  {
    hide Answers, Eval;
  }

  /** What the bisection gives is what its runs printed. */
  lemma {:induction false} TrailTells(run: Runner, m: Memory, idxs: seq<nat>)
    ensures var (got, m') := Eval(run, m, idxs);
            var trail := Trail(run, m, idxs);
            Told(trail, got, m.base, m'.base) && m'.runs == m.runs + |trail| && Ran(run, m.runs, trail)
    decreases |idxs|
  {
    if idxs == [] {
      NothingTold(m);
    } else {
      hide Told, Ran, Eval, Trail, Answers, After, Splits;
      EvalHalves(run, m, idxs);
      TrailHalves(run, m, idxs);
      var out := run(m.runs, idxs);
      var m1 := After(m, out);
      var got := if out.Printed? then Answers(out, idxs) else map[];
      ToldOnce((idxs, out), m);
      RanOnce(run, m, idxs);
      if Splits(out, idxs) {
        HalvesShorter(out, idxs);
        var left, right := idxs[..|idxs| / 2], idxs[|idxs| / 2..];
        TrailTells(run, m1, left);
        var (l, m2) := Eval(run, m1, left);
        TrailTells(run, m2, right);
        TrailsTogether(run, m, m1, m2, Eval(run, m2, right).1, [(idxs, out)], Trail(run, m1, left), Trail(run, m2, right),
                       got, l, Eval(run, m2, right).0);
      }
    }
  }

  lemma HalvesShorter(out: Output, idxs: seq<nat>)
    requires Splits(out, idxs)
    ensures 0 < |idxs| / 2 < |idxs| && out.Printed? && idxs == idxs[..|idxs| / 2] + idxs[|idxs| / 2..]
  {}

  lemma TrailsTogether(run: Runner, m: Memory, m1: Memory, m2: Memory, m3: Memory, head: seq<(seq<nat>, Output)>,
                       a: seq<(seq<nat>, Output)>, b: seq<(seq<nat>, Output)>,
                       got: map<nat, string>, l: map<nat, string>, r: map<nat, string>)
    requires Told(head, got, m.base, m1.base) && Told(a, l, m1.base, m2.base) && Told(b, r, m2.base, m3.base)
    requires Ran(run, m.runs, head) && Ran(run, m1.runs, a) && Ran(run, m2.runs, b)
    requires m1.runs == m.runs + |head| && m2.runs == m1.runs + |a| && m3.runs == m2.runs + |b|
    ensures Told(head + a + b, got + l + r, m.base, m3.base) && Ran(run, m.runs, head + a + b)
    ensures m3.runs == m.runs + |head + a + b|
  {
    hide Told, Ran;
    ToldThen(head, a, got, l, m.base, m1.base, m2.base);
    ToldThen(head + a, b, got + l, r, m.base, m2.base, m3.base);
    RanThen(run, m.runs, head, a);
    RanThen(run, m.runs, head + a, b);
  }

  lemma RanOnce(run: Runner, m: Memory, idxs: seq<nat>)
    ensures Ran(run, m.runs, [(idxs, run(m.runs, idxs))]) && After(m, run(m.runs, idxs)).runs == m.runs + 1
  {}

  lemma NothingTold(m: Memory)
    ensures Told([], map[], m.base, m.base)
  {}

  /** Where answers are right the result holds only right ones, whatever times out. */
  lemma {:induction false} OnlyRightAnswers(run: Runner, m: Memory, idxs: seq<nat>, truth: nat -> string)
    requires Honest(run, truth)
    ensures forall i | i in Eval(run, m, idxs).0 :: i in idxs && Eval(run, m, idxs).0[i] == truth(i)
    decreases |idxs|
  {
    hide Honest;
    if idxs != [] {
      var out := run(m.runs, idxs);
      HonestAnswers(run, m.runs, idxs, truth);
      if out.Printed? && |Answers(out, idxs)| < |idxs| && |idxs| > 1 {
        var mid := |idxs| / 2;
        var m1 := After(m, out);
        OnlyRightAnswers(run, m1, idxs[..mid], truth);
        OnlyRightAnswers(run, Eval(run, m1, idxs[..mid]).1, idxs[mid..], truth);
      }
    }
  }

  lemma HonestAnswers(run: Runner, k: nat, idxs: seq<nat>, truth: nat -> string)
    requires Honest(run, truth)
    ensures run(k, idxs).Printed? ==>
      forall i | i in Answers(run(k, idxs), idxs) :: Answers(run(k, idxs), idxs)[i] == truth(i)
  {}

  /** A run that ends answers a batch without a bad case in full. */
  ghost predicate CleanWhenPrinted(run: Runner, bad: iset<nat>) {
    forall k, idxs :: run(k, idxs).Printed? && (forall i | i in idxs :: i !in bad) ==>
      forall i | i in idxs :: i in run(k, idxs).answers
  }

  /** A good case goes without an answer only if a batch it was in timed out. */
  lemma {:induction false} LostByTimeout(run: Runner, m: Memory, idxs: seq<nat>, bad: iset<nat>, i: nat)
    requires CleanWhenPrinted(run, bad) && i in idxs && i !in bad && i !in Eval(run, m, idxs).0
    ensures exists j :: 0 <= j < |Trail(run, m, idxs)| && Trail(run, m, idxs)[j].1.TimedOut?
              && i in Trail(run, m, idxs)[j].0
    decreases |idxs|
  {
    hide CleanWhenPrinted, Eval, Trail, Answers, After, Splits;
    EvalHalves(run, m, idxs);
    TrailHalves(run, m, idxs);
    var out := run(m.runs, idxs);
    var trail := Trail(run, m, idxs);
    assert trail[0] == (idxs, out);
    if Splits(out, idxs) {
      HalvesShorter(out, idxs);
      var left, right := idxs[..|idxs| / 2], idxs[|idxs| / 2..];
      var m1 := After(m, out);
      var m2 := Eval(run, m1, left).1;
      var a, b := Trail(run, m1, left), Trail(run, m2, right);
      if i in left {
        LostByTimeout(run, m1, left, bad, i);
        var j :| 0 <= j < |a| && a[j].1.TimedOut? && i in a[j].0;
        assert trail[1 + j] == a[j];
      } else {
        LostByTimeout(run, m2, right, bad, i);
        var j :| 0 <= j < |b| && b[j].1.TimedOut? && i in b[j].0;
        assert trail[1 + |a| + j] == b[j];
      }
    } else if out.Printed? {
      Answered(run, m.runs, idxs, bad, i);
    }
  }

  lemma Answered(run: Runner, k: nat, idxs: seq<nat>, bad: iset<nat>, i: nat)
    requires CleanWhenPrinted(run, bad) && i in idxs && i !in bad && run(k, idxs).Printed? && !Splits(run(k, idxs), idxs)
    ensures i in Answers(run(k, idxs), idxs)
  {
    hide CleanWhenPrinted, Answers;
    if |idxs| == 1 { CleanAlone(run, k, idxs, bad); } else { FullMeansAll(run(k, idxs), idxs); }
  }

  lemma CleanAlone(run: Runner, k: nat, idxs: seq<nat>, bad: iset<nat>)
    requires CleanWhenPrinted(run, bad) && |idxs| == 1 && idxs[0] !in bad && run(k, idxs).Printed?
    ensures idxs[0] in Answers(run(k, idxs), idxs)
  {}

  // ----- how many runs it takes -----

  function CeilLog2(n: nat): nat { if n <= 1 then 0 else 1 + CeilLog2((n + 1) / 2) }

  lemma {:induction false} LogGrows(m: nat, n: nat)
    requires m <= n
    ensures CeilLog2(m) <= CeilLog2(n)
    decreases n
  {
    if m > 1 { LogGrows((m + 1) / 2, (n + 1) / 2); }
  }

  function Count(bad: iset<nat>, idxs: seq<nat>): nat {
    if idxs == [] then 0 else (if idxs[0] in bad then 1 else 0) + Count(bad, idxs[1..])
  }

  lemma {:induction false} CountSplits(bad: iset<nat>, a: seq<nat>, b: seq<nat>)
    ensures Count(bad, a + b) == Count(bad, a) + Count(bad, b)
  {
    if a == [] { assert a + b == b; } else {
      assert (a + b)[1..] == a[1..] + b;
      CountSplits(bad, a[1..], b);
    }
  }

  lemma {:induction false} CountNone(bad: iset<nat>, idxs: seq<nat>)
    requires Count(bad, idxs) == 0
    ensures forall i | i in idxs :: i !in bad
  {
    if idxs != [] { CountNone(bad, idxs[1..]); }
  }

  /** A batch of distinct cases that falls short holds a bad one. */
  lemma ShortMeansBad(run: Runner, k: nat, idxs: seq<nat>, bad: iset<nat>)
    requires AnswersClean(run, bad) && Distinct(idxs)
    ensures run(k, idxs).Printed? && (|Answers(run(k, idxs), idxs)| < |idxs| ==> Count(bad, idxs) > 0)
  {
    if Count(bad, idxs) == 0 {
      CountNone(bad, idxs);
      SetOfSeq(idxs);
      assert forall i | i in idxs :: i in run(k, idxs).answers;
      assert Answers(run(k, idxs), idxs).Keys == Elements(idxs);
    }
  }

  lemma DistinctHalves(idxs: seq<nat>, mid: nat)
    requires Distinct(idxs) && mid <= |idxs|
    ensures Distinct(idxs[..mid]) && Distinct(idxs[mid..]) && idxs[..mid] + idxs[mid..] == idxs
  {}

  function Budget(b: nat, n: nat): (k: nat)
    ensures k >= 1
  {
    assert 2 * b * CeilLog2(n) >= 0;
    1 + 2 * b * CeilLog2(n)
  }

  function Power2(k: nat): nat { if k == 0 then 1 else 2 * Power2(k - 1) }

  /** The logarithm is the least power of two that reaches the number. */
  lemma {:induction false} LogExactly(n: nat)
    requires n > 0
    ensures n <= Power2(CeilLog2(n)) && (CeilLog2(n) > 0 ==> Power2(CeilLog2(n) - 1) < n)
    decreases n
  {
    if n > 1 {
      LogExactly((n + 1) / 2);
      if CeilLog2(n) == 1 { assert Power2(0) == 1; }
    }
  }

  ghost function BadOnes(bad: iset<nat>, idxs: seq<nat>): set<nat> { set i | i in idxs && i in bad }

  /** Among distinct cases the bad ones are counted once. */
  lemma {:induction false} CountExactly(bad: iset<nat>, idxs: seq<nat>)
    requires Distinct(idxs)
    ensures Count(bad, idxs) == |BadOnes(bad, idxs)|
  {
    if idxs == [] {
      assert BadOnes(bad, idxs) == {};
    } else {
      var rest := BadOnes(bad, idxs[1..]);
      assert idxs == [idxs[0]] + idxs[1..];
      forall j | 0 <= j < |idxs| - 1 ensures idxs[1..][j] == idxs[j + 1] {}
      assert idxs[0] !in idxs[1..];
      CountExactly(bad, idxs[1..]);
      assert BadOnes(bad, idxs) == if idxs[0] in bad then rest + {idxs[0]} else rest;
    }
  }

  /** With `b` bad cases among `n` distinct ones, at most 1 + 2 b ceil(log2 n) runs are made. */
  lemma FewRuns(run: Runner, m: Memory, idxs: seq<nat>, bad: iset<nat>)
    requires AnswersClean(run, bad) && Distinct(idxs)
    ensures Eval(run, m, idxs).1.runs <= m.runs + 1 + 2 * |BadOnes(bad, idxs)| * CeilLog2(|idxs|)
  {
    RunsWithin(run, m, idxs, bad);
    CountExactly(bad, idxs);
  }

  lemma {:induction false} RunsWithin(run: Runner, m: Memory, idxs: seq<nat>, bad: iset<nat>)
    requires AnswersClean(run, bad) && Distinct(idxs)
    ensures Eval(run, m, idxs).1.runs <= m.runs + Budget(Count(bad, idxs), |idxs|)
    decreases |idxs|
  {
    hide AnswersClean, Distinct, Count, Budget, CeilLog2, Answers;
    EmptyRuns(run, m);
    hide Eval;
    if idxs != [] {
      var out := run(m.runs, idxs);
      ShortMeansBad(run, m.runs, idxs, bad);
      EvalStep(run, m, idxs);
      if |Answers(out, idxs)| < |idxs| && |idxs| > 1 {
        var mid := |idxs| / 2;
        var left, right := idxs[..mid], idxs[mid..];
        var m1 := After(m, out);
        var m2 := Eval(run, m1, left).1;
        DistinctHalves(idxs, mid);
        RunsWithin(run, m1, left, bad);
        RunsWithin(run, m2, right, bad);
        CountSplits(bad, left, right);
        HalvesAddUp(Count(bad, left), Count(bad, right), |idxs|);
      }
    }
  }

  lemma HalvesAddUp(b1: nat, b2: nat, n: nat)
    requires b1 + b2 > 0 && n > 1
    ensures 1 + Budget(b1, n / 2) + Budget(b2, n - n / 2) <= Budget(b1 + b2, n)
  {
    LogGrows(n / 2, n - n / 2);
    Products(b1, b2, CeilLog2(n / 2), CeilLog2(n - n / 2), CeilLog2(n));
  }

  lemma Products(b1: nat, b2: nat, l1: nat, l2: nat, log: nat)
    requires b1 + b2 > 0 && l1 <= log - 1 && l2 <= log - 1
    ensures 3 + 2 * b1 * l1 + 2 * b2 * l2 <= 1 + 2 * (b1 + b2) * log
  {
    Scaled(b1, l1, log);
    Scaled(b2, l2, log);
    assert 2 * (b1 + b2) * log == 2 * (b1 * log) + 2 * (b2 * log);
    assert 2 * b1 * l1 == 2 * (b1 * l1) && 2 * b2 * l2 == 2 * (b2 * l2);
  }

  lemma Scaled(b: nat, l: nat, log: nat)
    requires l <= log - 1
    ensures b * l <= b * log - b
  {
    assert b * (log - 1) == b * log - b;
    assert b * l <= b * (log - 1);
  }

  lemma EmptyRuns(run: Runner, m: Memory)
    ensures Eval(run, m, []).1 == m
  {}

  lemma EvalStep(run: Runner, m: Memory, idxs: seq<nat>)
    requires idxs != [] && run(m.runs, idxs).Printed?
    ensures var out := run(m.runs, idxs);
            var m1 := After(m, out);
            Eval(run, m, idxs).1 ==
              if |Answers(out, idxs)| < |idxs| && |idxs| > 1 then
                Eval(run, Eval(run, m1, idxs[..|idxs| / 2]).1, idxs[|idxs| / 2..]).1
              else m1
  {}
}
