/** Compile the body of a generator to a graph of instruction nodes indexed by program
counter. `Compile` is the specification; the class `Compiler` of module `GeneratorPass`
works as the pass does, by updating its node table, and is proved to build exactly that
graph. */
module FrameCompiler {
  import opened Core
  import opened GeneratorSource

  datatype Result<+T> = Done(v: T) | Refused(reason: string) {
    predicate IsFailure() { Refused? }
    function PropagateFailure<U>(): Result<U>
      requires Refused?
    {
      Refused(reason)
    }
    function Extract(): T
      requires Done?
    {
      v
    }
  }

  const MAX_NODES: nat := 4096
  const MAX_DEPTH: nat := 128

  const COMPLETED := -1
  const FAILED := -2
  const ESCAPED := -3

  /** Where control goes for each way of leaving a statement. */
  datatype Conts = Conts(normal: int, breaking: int, continuing: int, returning: int, exceptional: int)

  /** Inside a loop, `break` goes where the loop goes and `continue` to its head. */
  function LoopConts(k: Conts, head: int): Conts {
    k.(normal := head, breaking := k.normal, continuing := head)
  }

  /** The nodes filled so far, the last index reserved, and the number of known locals,
  which names the next temporary. */
  datatype Graph = Graph(nodes: map<int, Stmt>, counter: nat, next: nat)

  // ----- constructors of emitted code -----

  function Seq2(a: Stmt, b: Stmt): Stmt {
    Seq(a, Seq(b, Skip))
  }

  function Goto(target: int): Stmt {
    SetField(Pc, Lit(Int(target)))
  }

  /** Every instruction catches whatever its body raises, records it, and goes to the
  exceptional continuation. */
  function Node(body: Stmt, exceptional: int): Stmt {
    TryCatch(body, "<caught>", Seq2(SetField(Exception, Name("<caught>")), Goto(exceptional)))
  }

  function Branch(c: Expr, yes: int, no: int): Stmt {
    Ifte(c, Goto(yes), Goto(no))
  }

  function YieldBody(e: Expr, resume: int, exceptional: int): Stmt {
    Seq(Assign("<yielded>", e),
        Seq(Goto(resume),
            Seq(SetField(Handler, Lit(Int(exceptional))),
                Seq(SetField(State, Lit(Int(1))),
                    Seq(Ret(Name("<yielded>")), Skip)))))
  }

  /** Reads of declared locals go through the frame. */
  function Rewrite(declared: set<string>, e: Expr): Expr {
    match e
    case Name(x) => if x in declared then ReadLocal(Source(x)) else e
    case Call(f, args) =>
      var args' := seq(|args|, i requires 0 <= i < |args| => Rewrite(declared, args[i]));
      if f in declared then CallV(ReadLocal(Source(f)), args') else Call(f, args')
    case CallV(f, args) =>
      CallV(Rewrite(declared, f), seq(|args|, i requires 0 <= i < |args| => Rewrite(declared, args[i])))
    case Op(op, args) => Op(op, seq(|args|, i requires 0 <= i < |args| => Rewrite(declared, args[i])))
    case And(a, b) => And(Rewrite(declared, a), Rewrite(declared, b))
    case Or(a, b) => Or(Rewrite(declared, a), Rewrite(declared, b))
    case Not(a) => Not(Rewrite(declared, a))
    case Cond(c, t, f) => Cond(Rewrite(declared, c), Rewrite(declared, t), Rewrite(declared, f))
    case ResumeSelf(a) => ResumeSelf(Rewrite(declared, a))
    case _ => e
  }

  /** A statement that neither branches nor suspends. */
  function Simple(declared: set<string>, s: Stmt): Stmt {
    match s
    case Assign(x, e) => SetLocal(Source(x), Rewrite(declared, e))
    case Del(x) =>
      if x in declared then Seq2(ExprS(ReadLocal(Source(x))), DelLocal(Source(x))) else s
    case RaiseS(e) => RaiseS(Rewrite(declared, e))
    case ExprS(e) => ExprS(Rewrite(declared, e))
    case Effect(op, args) => Effect(op, seq(|args|, i requires 0 <= i < |args| => Rewrite(declared, args[i])))
    case _ => s
  }

  // ----- the compilation as a function -----

  function Reserve(g: Graph): Result<(int, Graph)> {
    if g.counter + 1 > MAX_NODES then Refused("generator:control-graph-size")
    else Done((g.counter + 1, g.(counter := g.counter + 1)))
  }

  function Fill(g: Graph, body: Stmt, exceptional: int, index: int): Graph {
    g.(nodes := g.nodes[index := Node(body, exceptional)])
  }

  function Put(g: Graph, body: Stmt, exceptional: int): Result<(int, Graph)> {
    var (index, g1) :- Reserve(g);
    Done((index, Fill(g1, body, exceptional, index)))
  }

  function Fresh(g: Graph): (Var, Graph) {
    (Temp(g.next), g.(next := g.next + 1))
  }

  function Compile(declared: set<string>, s: Stmt, k: Conts, depth: nat, g: Graph): Result<(int, Graph)>
    decreases Size(s), 1
  {
    if depth + 1 > MAX_DEPTH then Refused("generator:control-graph-depth")
    else CompileNode(declared, s, k, depth + 1, g)
  }

  function CompileNode(declared: set<string>, s: Stmt, k: Conts, depth: nat, g: Graph): Result<(int, Graph)>
    decreases Size(s), 0
  {
    match s
    case Seq(_, _) => CompileAll(declared, Flatten(s), k, depth, g)
    case Skip => Done((k.normal, g))
    case Ifte(c, t, e) =>
      var (yes, g1) :- Compile(declared, t, k, depth, g);
      var (no, g2) :- Compile(declared, e, k, depth, g1);
      Put(g2, Branch(Rewrite(declared, c), yes, no), k.exceptional)
    case Loop(c, body) =>
      var (head, g1) :- Reserve(g);
      var (entry, g2) :- Compile(declared, body, LoopConts(k, head), depth, g1);
      Done((head, Fill(g2, Branch(Rewrite(declared, c), entry, k.normal), k.exceptional, head)))
    case Brk => Done((k.breaking, g))
    case Cont => Done((k.continuing, g))
    case Ret(e) => Put(g, Seq2(SetField(Return, Rewrite(declared, e)), Goto(k.returning)), k.exceptional)
    case Yield(target, e) =>
      var (resume, g1) :- YieldResume(target, k, g);
      Put(g1, YieldBody(Rewrite(declared, e), resume, k.exceptional), k.exceptional)
    case TryCatch(body, x, handler) =>
      var (entry, g1) :- Compile(declared, handler, k, depth, g);
      var (bind, g2) :- Put(g1, Seq2(SetLocal(Source(x), Field(Exception)), Goto(entry)), k.exceptional);
      Compile(declared, body, k.(exceptional := bind), depth, g2)
    case TryFinally(body, fin) =>
      var (inner, g1) :- CompileCleanups(declared, fin, k, depth, g);
      Compile(declared, body, inner, depth, g1)
    case ForIn(x, e, ready, body) =>
      var (it, g0) := Fresh(g);
      var (head, g1) :- Reserve(g0);
      var (entry, g2) :- Compile(declared, body, LoopConts(k, head), depth, g1);
      var (exhausted, g3) :- Put(g2, Branch(Equal(Field(Exception), Lit(Str("StopIteration"))), k.normal, k.exceptional), k.exceptional);
      var g4 := Fill(g3, Seq2(SetLocal(Source(x), Call("<python-next>", [ReadLocal(it)])), Goto(entry)), exhausted,
          head);
      var source := Rewrite(declared, e);
      Put(g4, Seq2(SetLocal(it, if ready then source else Call("<python-iter>", [source])), Goto(head)), k.exceptional)
    case BreakBlock(_) => Refused("generator:breakBlock")
    case YieldFrom(_) => Refused("generator:yieldFromS")
    case SetField(_, _) => Refused("generator:not-source")
    case SetLocal(_, _) => Refused("generator:not-source")
    case DelLocal(_) => Refused("generator:not-source")
    case _ => Put(g, Seq2(Simple(declared, s), Goto(k.normal)), k.exceptional)
  }

  /** Where a suspension resumes: at the binding of the sent value when there is a target. */
  function YieldResume(target: Option<string>, k: Conts, g: Graph): Result<(int, Graph)> {
    if target.None? then Done((k.normal, g))
    else Put(g, Seq2(SetLocal(Source(target.value), Field(Sent)), Goto(k.normal)), k.exceptional)
  }

  /** The copy of a finally block for exceptions runs between saving and restoring the
  pending exception. */
  function CompileUnwind(declared: set<string>, fin: Stmt, k: Conts, depth: nat, g: Graph): Result<(int, Graph)>
    decreases Size(fin), 2
  {
    var (saved, g0) := Fresh(g);
    var (restore, g1) :- Put(g0, Seq2(SetField(Exception, ReadLocal(saved)), Goto(k.exceptional)), k.exceptional);
    var (unwind, g2) :- Compile(declared, fin, k.(normal := restore), depth, g1);
    Put(g2, Seq2(SetLocal(saved, Field(Exception)), Goto(unwind)), k.exceptional)
  }

  /** The five copies of a finally block, one for each way of leaving the body. */
  function CompileCleanups(declared: set<string>, fin: Stmt, k: Conts, depth: nat, g: Graph): Result<(Conts, Graph)>
    decreases Size(fin), 3
  {
    var (exceptional, g3) :- CompileUnwind(declared, fin, k, depth, g);
    var (normal, g4) :- Compile(declared, fin, k, depth, g3);
    var (breaking, g5) :- Compile(declared, fin, k.(normal := k.breaking), depth, g4);
    var (continuing, g6) :- Compile(declared, fin, k.(normal := k.continuing), depth, g5);
    var (returning, g7) :- Compile(declared, fin, k.(normal := k.returning), depth, g6);
    Done((Conts(normal, breaking, continuing, returning, exceptional), g7))
  }

  /** A flattened sequence, compiled from its last statement to its first. */
  function CompileAll(declared: set<string>, items: seq<Stmt>, k: Conts, depth: nat, g: Graph): Result<(int, Graph)>
    decreases SizeAll(items), 2
  {
    if items == [] then Done((k.normal, g)) else
    var (next, g1) :- CompileAll(declared, items[1..], k, depth, g);
    Compile(declared, items[0], k.(normal := next), depth, g1)
  }

  lemma SizePositive(s: Stmt)
    ensures Size(s) > 0
  {
  }
}
