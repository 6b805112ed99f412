/** Conditions keep Python's jump rules: `and`, `or`, `not` and conditional expressions in
a condition decide by jumping, so each operand they reach is tested once. The pass writes
that down for the value-based Core, whose `if` tests the value of its condition. */
module TruthConditions {
  import opened Core

  // ----- Python's rules -----

  /** Evaluate a condition by jumping; the value is the Boolean outcome. Leaves are
  evaluated as values and then tested once. */
  function Jump(host: Host, ctx: Ctx, e: Expr, tr: Trace): (Reply, Trace)
    decreases e, 2
  {
    match e
    case And(a, b) =>
      var (left, tr1) := Jump(host, ctx, a, tr);
      if left.Ok? && PlainTruth(left.v) then Jump(host, ctx, b, tr1) else (left, tr1)
    case Or(a, b) =>
      var (left, tr1) := Jump(host, ctx, a, tr);
      if left.Ok? && !PlainTruth(left.v) then Jump(host, ctx, b, tr1) else (left, tr1)
    case Not(a) =>
      var (arg, tr1) := Jump(host, ctx, a, tr);
      (if arg.Ok? then Ok(Bool(!PlainTruth(arg.v))) else arg, tr1)
    case Cond(c, t, f) =>
      var (test, tr1) := Jump(host, ctx, c, tr);
      if !test.Ok? then (test, tr1)
      else if PlainTruth(test.v) then Jump(host, ctx, t, tr1) else Jump(host, ctx, f, tr1)
    case _ =>
      var (v, tr1) := Value(host, ctx, e, tr);
      if v.Ok? then Truth(host, v.v, tr1) else (v, tr1)
  }

  /** Evaluate an expression as a value. A conditional expression still jumps on its
  condition; `not` tests the value of its operand, which `and` and `or` may have tested
  already. */
  function Value(host: Host, ctx: Ctx, e: Expr, tr: Trace): (Reply, Trace)
    decreases e, 1
  {
    match e
    case Cond(c, t, f) =>
      var (test, tr1) := Jump(host, ctx, c, tr);
      if !test.Ok? then (test, tr1)
      else if PlainTruth(test.v) then Value(host, ctx, t, tr1) else Value(host, ctx, f, tr1)
    case And(a, b) =>
      var (left, tr1) := Value(host, ctx, a, tr);
      if !left.Ok? then (left, tr1) else
      var (test, tr2) := Truth(host, left.v, tr1);
      if !test.Ok? then (test, tr2)
      else if PlainTruth(test.v) then Value(host, ctx, b, tr2) else (left, tr2)
    case Or(a, b) =>
      var (left, tr1) := Value(host, ctx, a, tr);
      if !left.Ok? then (left, tr1) else
      var (test, tr2) := Truth(host, left.v, tr1);
      if !test.Ok? then (test, tr2)
      else if PlainTruth(test.v) then (left, tr2) else Value(host, ctx, b, tr2)
    case Not(a) =>
      var (arg, tr1) := Value(host, ctx, a, tr);
      if !arg.Ok? then (arg, tr1) else
      var (test, tr2) := Truth(host, arg.v, tr1);
      if !test.Ok? then (test, tr2) else (Ok(Bool(!PlainTruth(test.v))), tr2)
    case Op(op, args) =>
      var (vs, tr1) := Values(host, ctx, args, tr);
      if vs.Failed? then (vs.r, tr1) else Ask(host, Operate(op, vs.vs), tr1)
    case CallV(f, args) =>
      var (callee, tr1) := Value(host, ctx, f, tr);
      if !callee.Ok? then (callee, tr1) else
      var (vs, tr2) := Values(host, ctx, args, tr1);
      if vs.Failed? then (vs.r, tr2) else Ask(host, CallValue(callee.v, vs.vs), tr2)
    case Call(f, args) =>
      var (callee, tr1) :=
        if f in ctx.vars || f in ctx.declared then ReadName(host, ctx, f, tr) else (Ok(Unit), tr);
      if !callee.Ok? then (callee, tr1) else
      var (vs, tr2) := Values(host, ctx, args, tr1);
      if vs.Failed? then (vs.r, tr2)
      else if f in ctx.vars || f in ctx.declared then Ask(host, CallValue(callee.v, vs.vs), tr2)
      else Ask(host, CallNamed(f, vs.vs), tr2)
    case ResumeSelf(a) =>
      var (sent, tr1) := Value(host, ctx, a, tr);
      if !sent.Ok? then (sent, tr1) else
      var (gate, tr2) := Gate(host, ctx.frame, sent.v, tr1);
      (if gate == Ok(Unit) then Stuck("resume:nested-run") else gate, tr2)
    case Equal(a, b) =>
      var (x, tr1) := Value(host, ctx, a, tr);
      if !x.Ok? then (x, tr1) else
      var (y, tr2) := Value(host, ctx, b, tr1);
      if !y.Ok? then (y, tr2) else EqualVals(host, x.v, y.v, tr2)
    case Unequal(a, b) =>
      var (x, tr1) := Value(host, ctx, a, tr);
      if !x.Ok? then (x, tr1) else
      var (y, tr2) := Value(host, ctx, b, tr1);
      if !y.Ok? then (y, tr2) else UnequalVals(host, x.v, y.v, tr2)
    case _ => Eval(host, ctx, e, tr)
  }

  function Values(host: Host, ctx: Ctx, es: seq<Expr>, tr: Trace): (Replies, Trace)
    decreases es, 1
  {
    if es == [] then (All([]), tr) else
    var (head, tr1) := Value(host, ctx, es[0], tr);
    if !head.Ok? then (Failed(head), tr1) else
    var (tail, tr2) := Values(host, ctx, es[1..], tr1);
    (if tail.All? then All([head.v] + tail.vs) else tail, tr2)
  }

  // ----- the pass -----

  const YES: Expr := Lit(Bool(true))
  const NO: Expr := Lit(Bool(false))

  function Force(e: Expr): Expr {
    if e.Lit? && e.v.Bool? then e else Cond(e, YES, NO)
  }

  /** The value form: children are copied, and every condition becomes its predicate. */
  function Lower(e: Expr): Expr
    decreases e, 1
  {
    match e
    case Cond(c, t, f) => Cond(Predicate(c), Lower(t), Lower(f))
    case And(a, b) => And(Lower(a), Lower(b))
    case Or(a, b) => Or(Lower(a), Lower(b))
    case Not(a) => Not(Lower(a))
    case Op(op, args) => Op(op, LowerAll(args))
    case CallV(f, args) => CallV(Lower(f), LowerAll(args))
    case Call(f, args) => Call(f, LowerAll(args))
    case ResumeSelf(a) => ResumeSelf(Lower(a))
    case Equal(a, b) => Equal(Lower(a), Lower(b))
    case Unequal(a, b) => Unequal(Lower(a), Lower(b))
    case _ => e
  }

  function LowerAll(es: seq<Expr>): seq<Expr>
    decreases es, 0
  {
    seq(|es|, i requires 0 <= i < |es| => Lower(es[i]))
  }

  /** The predicate form, to be tested once. */
  function Predicate(e: Expr): Expr
    decreases e, 2
  {
    match e
    case And(a, b) => Cond(Predicate(a), Force(Predicate(b)), NO)
    case Or(a, b) => Cond(Predicate(a), YES, Force(Predicate(b)))
    case Not(a) => Not(Predicate(a))
    case Cond(c, t, f) => Cond(Predicate(c), Force(Predicate(t)), Force(Predicate(f)))
    case _ => Lower(e)
  }

  /** Statement conditions are tested through their predicate. */
  function LowerStmt(s: Stmt): Stmt {
    match s
    case Ifte(c, t, e) => Ifte(Predicate(c), LowerStmt(t), LowerStmt(e))
    case Loop(c, body) => Loop(Predicate(c), LowerStmt(body))
    case Seq(a, b) => Seq(LowerStmt(a), LowerStmt(b))
    case TryCatch(body, x, handler) => TryCatch(LowerStmt(body), x, LowerStmt(handler))
    case Ret(e) => Ret(Lower(e))
    case RaiseS(e) => RaiseS(Lower(e))
    case ExprS(e) => ExprS(Lower(e))
    case Assign(x, e) => Assign(x, Lower(e))
    case SetField(slot, e) => SetField(slot, Lower(e))
    case SetLocal(x, e) => SetLocal(x, Lower(e))
    case Effect(op, args) => Effect(op, LowerAll(args))
    case ForIn(x, e, ready, body) => ForIn(x, Lower(e), ready, LowerStmt(body))
    case TryFinally(body, fin) => TryFinally(LowerStmt(body), LowerStmt(fin))
    case BreakBlock(body) => BreakBlock(LowerStmt(body))
    case Yield(target, e) => Yield(target, Lower(e))
    case YieldFrom(e) => YieldFrom(Lower(e))
    case _ => s
  }

  /** The pass as it runs: a node is visited after its children, and once. Its copy is kept for
  the places that share it, its predicate for the condition it may be. */
  class Visitor {
    var copies: map<Expr, Expr>
    var predicates: map<Expr, Expr>

    ghost predicate Valid()
      reads this
    {
      && copies.Keys == predicates.Keys
      && forall e | e in copies :: copies[e] == Lower(e) && predicates[e] == Predicate(e)
    }

    constructor ()
      ensures Valid() && copies == map[]
    {
      copies, predicates := map[], map[];
    }

    method Keep(e: Expr, out: Expr, condition: Expr)
      requires Valid() && out == Lower(e) && condition == Predicate(e)
      modifies this
      ensures Valid() && copies == old(copies)[e := out]
    {
      copies, predicates := copies[e := out], predicates[e := condition];
    }

    /** Afterwards the expression, like everything visited before, has its copy and its
    predicate in the tables. */
    method Rewrite(e: Expr) returns (out: Expr)
      requires Valid()
      modifies this
      ensures Valid() && old(copies.Keys) <= copies.Keys && e in copies && out == Lower(e)
      decreases e, 1
    {
      hide Force, LowerAll;
      if e in copies { return copies[e]; }
      match e {
        case Cond(_, _, _) => out := RewriteCond(e);
        case And(a, b) =>
          var a' := Rewrite(a);
          var b' := Rewrite(b);
          out := And(a', b');
          Keep(e, out, Cond(predicates[a], Force(predicates[b]), NO));
        case Or(a, b) =>
          var a' := Rewrite(a);
          var b' := Rewrite(b);
          out := Or(a', b');
          Keep(e, out, Cond(predicates[a], YES, Force(predicates[b])));
        case Not(a) =>
          var a' := Rewrite(a);
          out := Not(a');
          Keep(e, out, Not(predicates[a]));
        case _ =>
          out := RewriteOther(e);
          Keep(e, out, out);
      }
    }

    method RewriteCond(e: Expr) returns (out: Expr)
      requires Valid() && e.Cond?
      modifies this
      ensures Valid() && old(copies.Keys) <= copies.Keys && e in copies && out == Lower(e)
      decreases e, 0
    {
      var _ := Rewrite(e.c);
      var t' := Rewrite(e.t);
      var f' := Rewrite(e.e);
      out := Cond(predicates[e.c], t', f');
      Keep(e, out, Cond(predicates[e.c], Force(predicates[e.t]), Force(predicates[e.e])));
    }

    method RewriteOther(e: Expr) returns (out: Expr)
      requires Valid() && !e.Cond? && !e.And? && !e.Or? && !e.Not?
      modifies this
      ensures Valid() && old(copies.Keys) <= copies.Keys && out == Lower(e)
      decreases e, 0
    {
      match e {
        case Op(op, args) =>
          var args' := RewriteArgs(args);
          out := Op(op, args');
        case CallV(f, args) =>
          var f' := Rewrite(f);
          var args' := RewriteArgs(args);
          out := CallV(f', args');
        case Call(f, args) =>
          var args' := RewriteArgs(args);
          out := Call(f, args');
        case ResumeSelf(a) =>
          var a' := Rewrite(a);
          out := ResumeSelf(a');
        case Equal(a, b) =>
          var a' := Rewrite(a);
          var b' := Rewrite(b);
          out := Equal(a', b');
        case Unequal(a, b) =>
          var a' := Rewrite(a);
          var b' := Rewrite(b);
          out := Unequal(a', b');
        case _ => out := e;
      }
    }

    method RewriteArgs(es: seq<Expr>) returns (outs: seq<Expr>)
      requires Valid()
      modifies this
      ensures Valid() && old(copies.Keys) <= copies.Keys && outs == LowerAll(es)
      decreases es, 0
    {
      outs := [];
      for i := 0 to |es|
        invariant Valid() && old(copies.Keys) <= copies.Keys
        invariant |outs| == i && forall j | 0 <= j < i :: outs[j] == Lower(es[j])
      {
        var out := Rewrite(es[i]);
        outs := outs + [out];
      }
    }

    /** A condition is looked up among the predicates once it has been visited. */
    method RewriteStmt(s: Stmt) returns (out: Stmt)
      requires Valid()
      modifies this
      ensures Valid() && old(copies.Keys) <= copies.Keys && out == LowerStmt(s)
    {
      hide Lower, Predicate, LowerAll;
      match s {
        case Seq(a, b) =>
          var a' := RewriteStmt(a);
          var b' := RewriteStmt(b);
          out := Seq(a', b');
        case Ifte(c, t, e) =>
          var _ := Rewrite(c);
          var t' := RewriteStmt(t);
          var e' := RewriteStmt(e);
          out := Ifte(predicates[c], t', e');
        case Loop(c, body) =>
          var _ := Rewrite(c);
          var body' := RewriteStmt(body);
          out := Loop(predicates[c], body');
        case ForIn(x, e, ready, body) =>
          var e' := Rewrite(e);
          var body' := RewriteStmt(body);
          out := ForIn(x, e', ready, body');
        case TryCatch(body, x, handler) =>
          var body' := RewriteStmt(body);
          var handler' := RewriteStmt(handler);
          out := TryCatch(body', x, handler');
        case TryFinally(body, fin) =>
          var body' := RewriteStmt(body);
          var fin' := RewriteStmt(fin);
          out := TryFinally(body', fin');
        case BreakBlock(body) =>
          var body' := RewriteStmt(body);
          out := BreakBlock(body');
        case _ => out := RewriteSimple(s);
      }
    }

    method RewriteSimple(s: Stmt) returns (out: Stmt)
      requires Valid() && !s.Seq? && !s.Ifte? && !s.Loop? && !s.ForIn? && !s.TryCatch? && !s.TryFinally?
               && !s.BreakBlock?
      modifies this
      ensures Valid() && old(copies.Keys) <= copies.Keys && out == LowerStmt(s)
    {
      hide Lower, Predicate, LowerAll;
      match s {
        case Effect(op, args) =>
          var args' := RewriteArgs(args);
          out := Effect(op, args');
        case Ret(e) =>
          var r := Rewrite(e);
          out := Ret(r);
        case RaiseS(e) =>
          var r := Rewrite(e);
          out := RaiseS(r);
        case ExprS(e) =>
          var r := Rewrite(e);
          out := ExprS(r);
        case Assign(x, e) =>
          var r := Rewrite(e);
          out := Assign(x, r);
        case SetField(slot, e) =>
          var r := Rewrite(e);
          out := SetField(slot, r);
        case SetLocal(x, e) =>
          var r := Rewrite(e);
          out := SetLocal(x, r);
        case Yield(target, e) =>
          var r := Rewrite(e);
          out := Yield(target, r);
        case YieldFrom(e) =>
          var r := Rewrite(e);
          out := YieldFrom(r);
        case _ => out := s;
      }
    }
  }

  /** Statements under Python's rules: conditions jump, other expressions are values. */
  function Steps(host: Host, fuel: nat, s: Stmt, st: CoreSt): (Ctl, CoreSt)
    decreases fuel, s, 0
  {
    match s
    case Seq(a, b) =>
      var (ctl, st1) := Steps(host, fuel, a, st);
      if ctl == Normal then Steps(host, fuel, b, st1) else (ctl, st1)
    case Ifte(c, t, e) =>
      var (test, tr1) := Jump(host, Here(st), c, st.tr);
      var st1 := st.(tr := tr1);
      if !test.Ok? then (Abort(test), st1)
      else if PlainTruth(test.v) then Steps(host, fuel, t, st1) else Steps(host, fuel, e, st1)
    case Loop(c, body) =>
      if fuel == 0 then (OutOfFuel, st) else
      var (test, tr1) := Jump(host, Here(st), c, st.tr);
      var st1 := st.(tr := tr1);
      if !test.Ok? then (Abort(test), st1)
      else if !PlainTruth(test.v) then (Normal, st1)
      else
        var (ctl, st2) := Steps(host, fuel - 1, body, st1);
        if ctl == Normal || ctl == Continued then Steps(host, fuel - 1, s, st2)
        else (if ctl == Broke then Normal else ctl, st2)
    case TryCatch(body, x, handler) =>
      var (ctl, st1) := Steps(host, fuel, body, st);
      if ctl.Raised? then Steps(host, fuel, handler, st1.(vars := st1.vars[x := Str(ctl.exn)]))
      else (ctl, st1)
    case TryFinally(body, fin) =>
      var (ctl, st1) := Steps(host, fuel, body, st);
      if !LanguageExit(ctl) then (ctl, st1) else
      var (ctl2, st2) := Steps(host, fuel, fin, st1);
      (if ctl2 == Normal then ctl else ctl2, st2)
    case BreakBlock(body) =>
      var (ctl, st1) := Steps(host, fuel, body, st);
      (if ctl == Broke then Normal else ctl, st1)
    case ForIn(x, e, ready, body) =>
      var (r, tr1) := Value(host, Here(st), e, st.tr);
      var st1 := st.(tr := tr1);
      if !r.Ok? then (Abort(r), st1)
      else if ready then StepsFor(host, fuel, x, r.v, body, st1)
      else
        var (got, tr2) := Ask(host, CallNamed("<python-iter>", [r.v]), tr1);
        var st2 := st.(tr := tr2);
        if !got.Ok? then (Abort(got), st2) else StepsFor(host, fuel, x, got.v, body, st2)
    case Ret(e) =>
      var (r, tr1) := Value(host, Here(st), e, st.tr);
      (if r.Ok? then Returned(r.v) else Abort(r), st.(tr := tr1))
    case RaiseS(e) =>
      var (r, tr1) := Value(host, Here(st), e, st.tr);
      if !r.Ok? then (Abort(r), st.(tr := tr1)) else
      var (ctl, tr2) := RaiseValue(host, r.v, tr1);
      (ctl, st.(tr := tr2))
    case ExprS(e) =>
      var (r, tr1) := Value(host, Here(st), e, st.tr);
      (if r.Ok? then Normal else Abort(r), st.(tr := tr1))
    case Effect(op, args) =>
      var (r, tr1) := Value(host, Here(st), Op(op, args), st.tr);
      (if r.Ok? then Normal else Abort(r), st.(tr := tr1))
    case Assign(x, e) =>
      var (r, tr1) := Value(host, Here(st), e, st.tr);
      if r.Ok? then (Normal, st.(vars := st.vars[x := r.v], tr := tr1)) else (Abort(r), st.(tr := tr1))
    case SetField(slot, e) =>
      var (r, tr1) := Value(host, Here(st), e, st.tr);
      if r.Ok? then (Normal, st.(frame := WithSlot(st.frame, slot, r.v), tr := tr1)) else (Abort(r), st.(tr := tr1))
    case SetLocal(x, e) =>
      var (r, tr1) := Value(host, Here(st), e, st.tr);
      if r.Ok? then (Normal, st.(frame := WithVar(st.frame, x, r.v), tr := tr1)) else (Abort(r), st.(tr := tr1))
    case _ => Run(host, 0, s, st)
  }

  function StepsFor(host: Host, fuel: nat, x: string, it: Val, body: Stmt, st: CoreSt): (Ctl, CoreSt)
    decreases fuel, body, 1
  {
    if fuel == 0 then (OutOfFuel, st) else
    var (ctl, st1) := NextItem(host, x, it, st);
    if ctl != Normal then (if ctl == Broke then Normal else ctl, st1) else
    var (ctl2, st2) := Steps(host, fuel - 1, body, st1);
    if ctl2 == Normal || ctl2 == Continued then StepsFor(host, fuel - 1, x, it, body, st2)
    else (if ctl2 == Broke then Normal else ctl2, st2)
  }

  function Here(st: CoreSt): Ctx {
    Ctx(st.vars, {}, st.frame)
  }

  // ----- meaning is preserved -----

  /** A jump's outcome is a Boolean. */
  lemma {:induction false} JumpGivesBool(host: Host, ctx: Ctx, e: Expr, tr: Trace)
    ensures var r := Jump(host, ctx, e, tr).0; r.Ok? ==> r.v.Bool?
    decreases e
  {
    hide Value, Truth;
    match e
    case And(a, b) =>
      JumpGivesBool(host, ctx, a, tr);
      JumpGivesBool(host, ctx, b, Jump(host, ctx, a, tr).1);
    case Or(a, b) =>
      JumpGivesBool(host, ctx, a, tr);
      JumpGivesBool(host, ctx, b, Jump(host, ctx, a, tr).1);
    case Not(a) =>
    case Cond(c, t, f) =>
      JumpGivesBool(host, ctx, t, Jump(host, ctx, c, tr).1);
      JumpGivesBool(host, ctx, f, Jump(host, ctx, c, tr).1);
    case _ =>
      var (v, tr1) := Value(host, ctx, e, tr);
      if v.Ok? {
        TruthGivesBool(host, v.v, tr1);
      }
  }

  lemma TruthGivesBool(host: Host, v: Val, tr: Trace)
    ensures var r := Truth(host, v, tr).0; r.Ok? ==> r.v.Bool?
  {
  }

  /** Forcing a predicate makes its value the outcome of its test. */
  lemma ForceTests(host: Host, ctx: Ctx, e: Expr, tr: Trace)
    ensures var (r, tr1) := EvalTest(host, ctx, e, tr);
            Eval(host, ctx, Force(e), tr) == (if r.Ok? then (Ok(Bool(PlainTruth(r.v))), tr1) else (r, tr1))
  {
    if !(e.Lit? && e.v.Bool?) {
      var (r, tr1) := EvalTest(host, ctx, e, tr);
      assert Eval(host, ctx, YES, tr1) == (Ok(Bool(true)), tr1);
      assert Eval(host, ctx, NO, tr1) == (Ok(Bool(false)), tr1);
    }
  }

  /** Testing the predicate once is the jump: same outcome, same trace. */
  lemma {:induction false} PredicateJumps(host: Host, ctx: Ctx, e: Expr, tr: Trace)
    ensures EvalTest(host, ctx, Predicate(e), tr) == Jump(host, ctx, e, tr)
    decreases e, 2
  {
    hide Truth, Value, Lower, Force;
    match e
    case And(a, b) =>
      PredicateJumps(host, ctx, a, tr);
      var (left, tr1) := Jump(host, ctx, a, tr);
      JumpGivesBool(host, ctx, a, tr);
      PredicateJumps(host, ctx, b, tr1);
      JumpGivesBool(host, ctx, b, tr1);
      ForceTests(host, ctx, Predicate(b), tr1);
      BothBools(host, Jump(host, ctx, b, tr1).1);
      BothBools(host, tr1);
      assert Eval(host, ctx, NO, tr1) == (Ok(Bool(false)), tr1);
    case Or(a, b) =>
      PredicateJumps(host, ctx, a, tr);
      var (left, tr1) := Jump(host, ctx, a, tr);
      JumpGivesBool(host, ctx, a, tr);
      PredicateJumps(host, ctx, b, tr1);
      JumpGivesBool(host, ctx, b, tr1);
      ForceTests(host, ctx, Predicate(b), tr1);
      BothBools(host, Jump(host, ctx, b, tr1).1);
      BothBools(host, tr1);
      assert Eval(host, ctx, YES, tr1) == (Ok(Bool(true)), tr1);
    case Not(a) =>
      PredicateJumps(host, ctx, a, tr);
      JumpGivesBool(host, ctx, a, tr);
      BothBools(host, Jump(host, ctx, a, tr).1);
    case Cond(c, t, f) =>
      PredicateJumps(host, ctx, c, tr);
      var tr1 := Jump(host, ctx, c, tr).1;
      PredicateJumps(host, ctx, t, tr1);
      PredicateJumps(host, ctx, f, tr1);
      JumpGivesBool(host, ctx, t, tr1);
      JumpGivesBool(host, ctx, f, tr1);
      ForceTests(host, ctx, Predicate(t), tr1);
      ForceTests(host, ctx, Predicate(f), tr1);
      BothBools(host, Jump(host, ctx, t, tr1).1);
      BothBools(host, Jump(host, ctx, f, tr1).1);
    case _ =>
      LowerKeepsValue(host, ctx, e, tr);
  }

  lemma BothBools(host: Host, tr: Trace)
    ensures Truth(host, Bool(true), tr) == (Ok(Bool(true)), tr)
    ensures Truth(host, Bool(false), tr) == (Ok(Bool(false)), tr)
  {
  }

  /** The value form keeps the ordinary meaning. */
  lemma {:induction false} LowerKeepsValue(host: Host, ctx: Ctx, e: Expr, tr: Trace)
    ensures Eval(host, ctx, Lower(e), tr) == Value(host, ctx, e, tr)
    decreases e, 1
  {
    hide Truth, Predicate, Jump, LowerAll, Force;
    match e
    case Cond(c, t, f) =>
      PredicateJumps(host, ctx, c, tr);
      var tr1 := Jump(host, ctx, c, tr).1;
      LowerKeepsValue(host, ctx, t, tr1);
      LowerKeepsValue(host, ctx, f, tr1);
    case And(a, b) =>
      LowerKeepsValue(host, ctx, a, tr);
      var (left, tr1) := Value(host, ctx, a, tr);
      if left.Ok? {
        LowerKeepsValue(host, ctx, b, Truth(host, left.v, tr1).1);
      }
    case Or(a, b) =>
      LowerKeepsValue(host, ctx, a, tr);
      var (left, tr1) := Value(host, ctx, a, tr);
      if left.Ok? {
        LowerKeepsValue(host, ctx, b, Truth(host, left.v, tr1).1);
      }
    case Not(a) => LowerKeepsValue(host, ctx, a, tr);
    case Op(_, args) => LowerAllKeepValues(host, ctx, args, tr);
    case CallV(f, args) =>
      LowerKeepsValue(host, ctx, f, tr);
      LowerAllKeepValues(host, ctx, args, Value(host, ctx, f, tr).1);
    case Call(f, args) =>
      LowerAllKeepValues(host, ctx, args, tr);
      LowerAllKeepValues(host, ctx, args, ReadName(host, ctx, f, tr).1);
    case ResumeSelf(a) => LowerKeepsValue(host, ctx, a, tr);
    case Equal(a, b) =>
      LowerKeepsValue(host, ctx, a, tr);
      LowerKeepsValue(host, ctx, b, Value(host, ctx, a, tr).1);
    case Unequal(a, b) =>
      LowerKeepsValue(host, ctx, a, tr);
      LowerKeepsValue(host, ctx, b, Value(host, ctx, a, tr).1);
    case _ =>
  }

  lemma {:induction false} LowerAllKeepValues(host: Host, ctx: Ctx, es: seq<Expr>, tr: Trace)
    ensures EvalAll(host, ctx, LowerAll(es), tr) == Values(host, ctx, es, tr)
    decreases es, 1
  {
    hide Lower, Value, Eval;
    if es != [] {
      assert LowerAll(es)[1..] == LowerAll(es[1..]);
      LowerKeepsValue(host, ctx, es[0], tr);
      LowerAllKeepValues(host, ctx, es[1..], Value(host, ctx, es[0], tr).1);
    }
  }

  /** Whole statements keep Python's meaning: the lowered code, run by Core, takes the same
  branches, leaves the same state and has the same trace. */
  lemma {:induction false} LowerKeepsMeaning(host: Host, fuel: nat, s: Stmt, st: CoreSt)
    ensures Run(host, fuel, LowerStmt(s), st) == Steps(host, fuel, s, st)
    decreases fuel, s, 0
  {
    hide Eval, EvalTest, Predicate, Lower, LowerAll, Jump, Value, Truth, PlainTruth, RunFor, StepsFor, NextItem;
    match s
    case Seq(a, b) =>
      LowerKeepsMeaning(host, fuel, a, st);
      LowerKeepsMeaning(host, fuel, b, Steps(host, fuel, a, st).1);
    case Ifte(c, t, e) =>
      PredicateJumps(host, Here(st), c, st.tr);
      var st1 := st.(tr := Jump(host, Here(st), c, st.tr).1);
      LowerKeepsMeaning(host, fuel, t, st1);
      LowerKeepsMeaning(host, fuel, e, st1);
    case Loop(c, body) =>
      if fuel > 0 {
        PredicateJumps(host, Here(st), c, st.tr);
        var st1 := st.(tr := Jump(host, Here(st), c, st.tr).1);
        LowerKeepsMeaning(host, fuel - 1, body, st1);
        LowerKeepsMeaning(host, fuel - 1, s, Steps(host, fuel - 1, body, st1).1);
      }
    case TryCatch(body, x, handler) =>
      LowerKeepsMeaning(host, fuel, body, st);
      var (ctl, st1) := Steps(host, fuel, body, st);
      if ctl.Raised? {
        LowerKeepsMeaning(host, fuel, handler, st1.(vars := st1.vars[x := Str(ctl.exn)]));
      }
    case TryFinally(body, fin) =>
      LowerKeepsMeaning(host, fuel, body, st);
      LowerKeepsMeaning(host, fuel, fin, Steps(host, fuel, body, st).1);
    case BreakBlock(body) => LowerKeepsMeaning(host, fuel, body, st);
    case ForIn(_, _, _, _) => ForKeepsMeaning(host, fuel, s, st);
    case _ => LeafKeepsMeaning(host, fuel, s, st);
  }

  lemma {:induction false} ForKeepsMeaning(host: Host, fuel: nat, s: Stmt, st: CoreSt)
    requires s.ForIn?
    ensures Run(host, fuel, LowerStmt(s), st) == Steps(host, fuel, s, st)
    decreases fuel, s.body, 2
  {
    hide Eval, Predicate, Lower, LowerAll, Jump, Value, Truth, RunFor, StepsFor, NextItem;
    LowerKeepsValue(host, Here(st), s.r, st.tr);
    var (r, tr1) := Value(host, Here(st), s.r, st.tr);
    if r.Ok? {
      LowerKeepsFor(host, fuel, s.x, r.v, s.body, st.(tr := tr1));
      var (got, tr2) := Ask(host, CallNamed("<python-iter>", [r.v]), tr1);
      if got.Ok? { LowerKeepsFor(host, fuel, s.x, got.v, s.body, st.(tr := tr2)); }
    }
  }

  lemma {:induction false} LowerKeepsFor(host: Host, fuel: nat, x: string, it: Val, body: Stmt, st: CoreSt)
    ensures RunFor(host, fuel, x, it, LowerStmt(body), st) == StepsFor(host, fuel, x, it, body, st)
    decreases fuel, body, 1
  {
    hide Run, Steps, LowerStmt;
    if fuel > 0 {
      var st1 := NextItem(host, x, it, st).1;
      LowerKeepsMeaning(host, fuel - 1, body, st1);
      LowerKeepsFor(host, fuel - 1, x, it, body, Steps(host, fuel - 1, body, st1).1);
    }
  }

  lemma LeafKeepsMeaning(host: Host, fuel: nat, s: Stmt, st: CoreSt)
    requires !s.Seq? && !s.Ifte? && !s.Loop? && !s.TryCatch? && !s.TryFinally? && !s.BreakBlock? && !s.ForIn?
    ensures Run(host, fuel, LowerStmt(s), st) == Steps(host, fuel, s, st)
  {
    hide Eval, Predicate, Lower, LowerAll, Jump, Value, Truth;
    match s
    case Ret(e) => LowerKeepsValue(host, Here(st), e, st.tr);
    case RaiseS(e) => LowerKeepsValue(host, Here(st), e, st.tr);
    case ExprS(e) => LowerKeepsValue(host, Here(st), e, st.tr);
    case Assign(x, e) => LowerKeepsValue(host, Here(st), e, st.tr);
    case SetField(slot, e) => LowerKeepsValue(host, Here(st), e, st.tr);
    case SetLocal(x, e) => LowerKeepsValue(host, Here(st), e, st.tr);
    case Effect(op, args) =>
      LowerKeepsValue(host, Here(st), Op(op, args), st.tr);
      LowerOp(op, args);
    case _ =>
  }

  lemma LowerOp(op: string, args: seq<Expr>)
    ensures Lower(Op(op, args)) == Op(op, LowerAll(args))
  {
  }

  /** No operator is left where a condition jumps. */
  predicate NoOperators(e: Expr) {
    match e
    case And(_, _) => false
    case Or(_, _) => false
    case Not(a) => NoOperators(a)
    case Cond(c, t, f) => NoOperators(c) && NoOperators(t) && NoOperators(f)
    case _ => true
  }

  lemma {:induction false} PredicateHasNone(e: Expr)
    ensures NoOperators(Predicate(e))
  {
    match e
    case And(a, b) => PredicateHasNone(a); PredicateHasNone(b);
    case Or(a, b) => PredicateHasNone(a); PredicateHasNone(b);
    case Not(a) => PredicateHasNone(a);
    case Cond(c, t, f) => PredicateHasNone(c); PredicateHasNone(t); PredicateHasNone(f);
    case _ => assert Predicate(e) == Lower(e);
  }

  /** Why the value form must not be tested as a condition: when `x and y` stops at an
  object that is false, testing its value tests the object again. */
  lemma SecondTest(host: Host, ctx: Ctx, x: string, y: Expr, tr: Trace)
    requires x in ctx.vars && ctx.vars[x].Obj? && host.owns(TestTruth(ctx.vars[x]))
    requires host.answer(tr, TestTruth(ctx.vars[x])) == Ok(Bool(false))
    ensures var e := And(Name(x), y);
            && Jump(host, ctx, e, tr) == (Ok(Bool(false)), tr + [TestTruth(ctx.vars[x])])
            && EvalTest(host, ctx, e, tr).1 == tr + [TestTruth(ctx.vars[x])] + [TestTruth(ctx.vars[x])]
  {
    var v := ctx.vars[x];
    assert Value(host, ctx, Name(x), tr) == (Ok(v), tr);
    assert Jump(host, ctx, Name(x), tr) == (Ok(Bool(false)), tr + [TestTruth(v)]);
    assert Eval(host, ctx, Name(x), tr) == (Ok(v), tr);
    assert Eval(host, ctx, And(Name(x), y), tr) == (Ok(v), tr + [TestTruth(v)]);
  }
}
