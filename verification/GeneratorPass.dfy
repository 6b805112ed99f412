/** The pass itself, as it works: an object whose node table, counter, depth and set of
locals are updated while it walks the body. Each method is proved to build what the
compilation function says. */
module GeneratorPass {
  import opened Core
  import opened GeneratorSource
  import FC = FrameCompiler
  import opened FrameCompiler
  import opened GeneratorGraph
  import opened GeneratorMachine
  import opened GeneratorProtocol
  import opened GeneratorSession

  /** The names a body binds, whatever the exporter's list says. */
  function Bound(s: Stmt): set<string> {
    match s
    case Assign(x, _) => {x}
    case ForIn(x, _, _, body) => {x} + Bound(body)
    case TryCatch(body, x, handler) => {x} + Bound(body) + Bound(handler)
    case Yield(target, _) => if target.Some? then {target.value} else {}
    case Seq(a, b) => Bound(a) + Bound(b)
    case Ifte(_, t, e) => Bound(t) + Bound(e)
    case Loop(_, body) => Bound(body)
    case TryFinally(body, fin) => Bound(body) + Bound(fin)
    case BreakBlock(body) => Bound(body)
    case _ => {}
  }

  function Children(s: Stmt): seq<Stmt> {
    match s
    case ForIn(_, _, _, body) => [body]
    case TryCatch(body, _, handler) => [body, handler]
    case Seq(a, b) => [a, b]
    case Ifte(_, t, e) => [t, e]
    case Loop(_, body) => [body]
    case TryFinally(body, fin) => [body, fin]
    case BreakBlock(body) => [body]
    case _ => []
  }

  function BoundAll(items: seq<Stmt>): set<string> {
    if items == [] then {} else BoundAll(items[..|items| - 1]) + Bound(items[|items| - 1])
  }

  /** The set of locals once `n` of them are known: the declared names, then temporaries. */
  function Known(declared: set<string>, n: nat): set<Var> {
    (set x | x in declared :: Source(x)) + (set k: nat | |declared| <= k < n :: Temp(k))
  }

  lemma KnownFresh(declared: set<string>, n: nat)
    requires |declared| <= n
    ensures Temp(n) !in Known(declared, n)
    ensures Known(declared, n) + {Temp(n)} == Known(declared, n + 1)
  {
    forall k: nat | |declared| <= k < n + 1
      ensures Temp(k) in Known(declared, n) + {Temp(n)}
    {
    }
  }

  lemma KnownSize(declared: set<string>)
    ensures |Known(declared, |declared|)| == |declared|
    ensures Known(declared, |declared|) == set x | x in declared :: Source(x)
  {
    var names := set x | x in declared :: Source(x);
    assert Known(declared, |declared|) == names;
    SourceSize(declared);
  }

  lemma SourceSize(declared: set<string>)
    ensures |set x | x in declared :: Source(x)| == |declared|
  {
    var names := set x | x in declared :: Source(x);
    if declared != {} {
      var x :| x in declared;
      SourceSize(declared - {x});
      var rest := set y | y in declared - {x} :: Source(y);
      assert names == rest + {Source(x)};
    } else {
      assert names == {};
    }
  }

  /** The statements on a stack, top first, flattened. */
  function FlattenStack(pending: seq<Stmt>): seq<Stmt> {
    if pending == [] then [] else Flatten(pending[|pending| - 1]) + FlattenStack(pending[..|pending| - 1])
  }

  function StackSize(pending: seq<Stmt>): nat {
    if pending == [] then 0 else Size(pending[|pending| - 1]) + StackSize(pending[..|pending| - 1])
  }

  lemma StackOne(s: Stmt)
    ensures FlattenStack([s]) == Flatten(s) && FlattenStack([]) == []
  {
    StackPush([], s);
    assert [] + [s] == [s];
  }

  lemma StackPush(pending: seq<Stmt>, s: Stmt)
    ensures FlattenStack(pending + [s]) == Flatten(s) + FlattenStack(pending)
    ensures StackSize(pending + [s]) == Size(s) + StackSize(pending)
    ensures BoundAll(pending + [s]) == BoundAll(pending) + Bound(s)
  {
    assert (pending + [s])[..|pending|] == pending;
  }

  /** The names one statement binds itself. */
  function Own(s: Stmt): set<string> {
    (if s.Assign? || s.ForIn? || s.TryCatch? then {s.x} else {})
    + (if s.Yield? && s.target.Some? then {s.target.value} else {})
  }

  lemma WalkStart(body: Stmt)
    ensures BoundAll([body]) == Bound(body)
  {
    StackPush([], body);
  }

  lemma WalkEnd()
    ensures BoundAll([]) == {}
  {
  }

  lemma OwnAndChildren(item: Stmt)
    ensures var c := Children(item);
            && |c| <= 2
            && Bound(item) == Own(item) + (if |c| > 0 then Bound(c[0]) else {}) + (if |c| > 1 then Bound(c[1]) else {})
            && Size(item) >= 1 + (if |c| > 0 then Size(c[0]) else 0) + (if |c| > 1 then Size(c[1]) else 0)
  {
  }

  lemma WalkStep(pending: seq<Stmt>, item: Stmt)
    ensures BoundAll(pending + [item]) == Own(item) + BoundAll(pending + Children(item))
    ensures StackSize(pending + Children(item)) < StackSize(pending + [item])
  {
    OwnAndChildren(item);
    hide BoundAll, StackSize, Bound, Size, Children, FlattenStack, Flatten;
    StackPush(pending, item);
    var children := Children(item);
    if |children| == 0 {
      assert pending + children == pending;
    } else {
      StackPush(pending, children[0]);
      if |children| == 1 {
        assert pending + children == pending + [children[0]];
      } else {
        StackPush(pending + [children[0]], children[1]);
        assert pending + children == pending + [children[0]] + [children[1]];
      }
    }
  }

  /** One turn of the flattening loop. */
  lemma FlattenStep(pending: seq<Stmt>, item: Stmt)
    ensures item.Seq? ==>
              FlattenStack(pending + [item]) == FlattenStack(pending + [item.s2, item.s1])
              && StackSize(pending + [item.s2, item.s1]) < StackSize(pending + [item])
    ensures !item.Seq? ==>
              FlattenStack(pending + [item]) == [item] + FlattenStack(pending)
                && StackSize(pending) < StackSize(pending + [item])
  {
    hide BoundAll, StackSize, Bound, Size, Children, FlattenStack, Flatten;
    StackPush(pending, item);
    if item.Seq? {
      FlattenSeqIs(item);
      StackPush(pending, item.s2);
      StackPush(pending + [item.s2], item.s1);
      assert pending + [item.s2, item.s1] == pending + [item.s2] + [item.s1];
      Associate(Flatten(item.s1), Flatten(item.s2), FlattenStack(pending));
    } else {
      SizePositive(item);
      FlattenLeafIs(item);
    }
  }

  lemma Associate(a: seq<Stmt>, b: seq<Stmt>, c: seq<Stmt>)
    ensures a + b + c == a + (b + c)
  {}

  lemma FlattenLeafIs(s: Stmt)
    requires !s.Seq?
    ensures Flatten(s) == [s]
  {}

  lemma FlattenSeqIs(s: Stmt)
    requires s.Seq?
    ensures Flatten(s) == Flatten(s.s1) + Flatten(s.s2) && Size(s) == 1 + Size(s.s1) + Size(s.s2)
  {
  }

  lemma ItemSize(items: seq<Stmt>, i: nat)
    requires i < |items|
    ensures Size(items[i]) <= SizeAll(items)
  {
    if i > 0 {
      ItemSize(items[1..], i - 1);
    }
  }

  /** A refusal while compiling a suffix is a refusal of the whole. */
  lemma {:induction false} SuffixRefused(declared: set<string>, items: seq<Stmt>, i: nat, k: Conts, depth: nat,
                                         g: Graph)
    requires i <= |items| && CompileAll(declared, items[i..], k, depth, g).Refused?
    ensures CompileAll(declared, items, k, depth, g) == CompileAll(declared, items[i..], k, depth, g)
    decreases i
  {
    hide Compile;
    if i == 0 {
      assert items[0..] == items;
    } else {
      assert items[i - 1..][1..] == items[i..];
      SuffixRefused(declared, items, i - 1, k, depth, g);
    }
  }

  /** The compiled generator: where its frame starts, and its resume function. */
  datatype Program = Program(entry: int, resume: Stmt)

  /** A method's result and the object's graph against the compilation function. */
  ghost predicate Built(r: Result<int>, g: Graph, spec: Result<(int, Graph)>) {
    if spec.Done? then r == Done(spec.v.0) && g == spec.v.1 else r == Refused(spec.reason)
  }

  class Compiler {
    const declared: set<string>
    const body: Stmt
    var nodes: map<int, Stmt>
    var counter: nat
    var depth: nat
    var locals: set<Var>

    ghost predicate Valid()
      reads this
    {
      locals == Known(declared, |locals|) && |declared| <= |locals|
    }

    ghost function G(): Graph
      reads this
    {
      Graph(nodes, counter, |locals|)
    }

    /** The names a body binds, found by walking it with a stack. */
    static method Walk(body: Stmt, start: set<string>) returns (found: set<string>)
      ensures found == start + Bound(body)
    {
      hide Bound, Children, BoundAll, StackSize;
      found := start;
      var pending := [body];
      WalkStart(body);
      while pending != []
        invariant found + BoundAll(pending) == start + Bound(body)
        decreases StackSize(pending)
      {
        var item := pending[|pending| - 1];
        assert pending == pending[..|pending| - 1] + [item];
        pending := pending[..|pending| - 1];
        WalkStep(pending, item);
        found := found + Own(item);
        pending := pending + Children(item);
      }
      WalkEnd();
    }

    /** The locals are the exporter's, the parameters, and every name the body binds. */
    constructor (body: Stmt, metadata: set<string>, parameters: set<string>)
      ensures Valid() && this.body == body && declared == metadata + parameters + Bound(body)
      ensures G() == StartGraph(declared) && depth == 0
    {
      var found := Walk(body, metadata + parameters);
      this.body := body;
      declared := found;
      nodes, counter, depth := map[], 0, 0;
      locals := set x | x in found :: Source(x);
      new;
      KnownSize(declared);
    }

    method FreshLocal() returns (x: Var)
      requires Valid()
      modifies this`locals
      ensures Valid() && x !in old(locals) && (x, G()) == Fresh(old(G()))
    {
      x := Temp(|locals|);
      KnownFresh(declared, |locals|);
      hide Known;
      locals := locals + {x};
    }

    method Reserve() returns (r: Result<int>)
      modifies this`counter
      ensures Built(r, G(), FC.Reserve(old(G())))
    {
      counter := counter + 1;
      if counter > MAX_NODES {
        return Refused("generator:control-graph-size");
      }
      return Done(counter);
    }

    method PutAt(code: Stmt, exceptional: int, index: int)
      modifies this`nodes
      ensures G() == Fill(old(G()), code, exceptional, index)
    {
      nodes := nodes[index := Node(code, exceptional)];
    }

    method Put(code: Stmt, exceptional: int) returns (r: Result<int>)
      modifies this`nodes, this`counter
      ensures Built(r, G(), FC.Put(old(G()), code, exceptional))
    {
      var index :- Reserve();
      PutAt(code, exceptional, index);
      return Done(index);
    }

    method Compile(s: Stmt, k: Conts) returns (r: Result<int>)
      requires Valid()
      modifies this
      ensures Valid() && depth == old(depth)
      ensures Built(r, G(), FC.Compile(declared, s, k, old(depth), old(G())))
      decreases Size(s), 2
    {
      hide FC.CompileNode, Known;
      depth := depth + 1;
      if depth > MAX_DEPTH {
        depth := depth - 1;
        return Refused("generator:control-graph-depth");
      }
      r := CompileNode(s, k);
      depth := depth - 1;
    }

    method CompileNode(s: Stmt, k: Conts) returns (r: Result<int>)
      requires Valid()
      modifies this
      ensures Valid() && depth == old(depth)
      ensures Built(r, G(), FC.CompileNode(declared, s, k, old(depth), old(G())))
      decreases Size(s), 1
    {
      hide FC.CompileNode, Known;
      if s.Seq? {
        r := CompileSeq(s, k);
      } else if s.Ifte? {
        r := CompileIf(s, k);
      } else if s.Loop? {
        r := CompileLoop(s, k);
      } else if s.Yield? {
        r := CompileYield(s, k);
      } else if s.TryCatch? || s.TryFinally? {
        r := CompileTry(s, k);
      } else if s.ForIn? {
        r := CompileFor(s, k);
      } else {
        r := CompileLeaf(s, k);
      }
    }

    method CompileLeaf(s: Stmt, k: Conts) returns (r: Result<int>)
      requires Valid() && (Children(s) == [] || s.BreakBlock?) && !s.Yield?
      modifies this
      ensures Valid() && depth == old(depth)
      ensures Built(r, G(), FC.CompileNode(declared, s, k, old(depth), old(G())))
      decreases Size(s), 0
    {
      hide FC.Compile, FC.Put, FC.Reserve, Rewrite, Known, FC.CompileAll, FC.CompileCleanups, FC.CompileUnwind,
           FC.Simple, Flatten;
      if s.Skip? {
        return Done(k.normal);
      } else if s.Brk? {
        return Done(k.breaking);
      } else if s.Cont? {
        return Done(k.continuing);
      } else if s.Ret? {
        r := Put(Seq2(SetField(Return, Rewrite(declared, s.r)), Goto(k.returning)), k.exceptional);
      } else if s.BreakBlock? {
        return Refused("generator:breakBlock");
      } else if s.YieldFrom? {
        return Refused("generator:yieldFromS");
      } else if s.SetField? || s.SetLocal? || s.DelLocal? {
        return Refused("generator:not-source");
      } else {
        r := Put(Seq2(Simple(declared, s), Goto(k.normal)), k.exceptional);
      }
    }

    method CompileIf(s: Stmt, k: Conts) returns (r: Result<int>)
      requires Valid() && s.Ifte?
      modifies this
      ensures Valid() && depth == old(depth)
      ensures Built(r, G(), FC.CompileNode(declared, s, k, old(depth), old(G())))
      decreases Size(s), 0
    {
      hide FC.Compile, FC.Put, FC.Reserve, Rewrite, Known, FC.CompileAll, FC.CompileCleanups, FC.CompileUnwind,
           FC.Simple, Flatten;
      var yes :- Compile(s.t, k);
      var no :- Compile(s.e, k);
      r := Put(Branch(Rewrite(declared, s.c), yes, no), k.exceptional);
    }

    method CompileLoop(s: Stmt, k: Conts) returns (r: Result<int>)
      requires Valid() && s.Loop?
      modifies this
      ensures Valid() && depth == old(depth)
      ensures Built(r, G(), FC.CompileNode(declared, s, k, old(depth), old(G())))
      decreases Size(s), 0
    {
      hide FC.Compile, FC.Put, Rewrite, Known, FC.CompileAll, FC.CompileCleanups, FC.CompileUnwind, FC.Simple, Flatten;
      var head :- Reserve();
      var entry :- Compile(s.body, LoopConts(k, head));
      PutAt(Branch(Rewrite(declared, s.c), entry, k.normal), k.exceptional, head);
      return Done(head);
    }

    method CompileYield(s: Stmt, k: Conts) returns (r: Result<int>)
      requires Valid() && s.Yield?
      modifies this
      ensures Valid() && depth == old(depth)
      ensures Built(r, G(), FC.CompileNode(declared, s, k, old(depth), old(G())))
      decreases Size(s), 0
    {
      hide FC.Compile, FC.Put, FC.Reserve, Rewrite, Known, FC.CompileAll, FC.CompileCleanups, FC.CompileUnwind,
           FC.Simple, Flatten;
      var resume := k.normal;
      if s.target.Some? {
        resume :- Put(Seq2(SetLocal(Source(s.target.value), Field(Sent)), Goto(k.normal)), k.exceptional);
      }
      r := Put(YieldBody(Rewrite(declared, s.r), resume, k.exceptional), k.exceptional);
    }

    method CompileTry(s: Stmt, k: Conts) returns (r: Result<int>)
      requires Valid() && (s.TryCatch? || s.TryFinally?)
      modifies this
      ensures Valid() && depth == old(depth)
      ensures Built(r, G(), FC.CompileNode(declared, s, k, old(depth), old(G())))
      decreases Size(s), 0
    {
      hide FC.Compile, FC.Put, FC.Reserve, Rewrite, Known, FC.CompileAll, FC.CompileCleanups, FC.CompileUnwind,
           FC.Simple, Flatten;
      if s.TryCatch? {
        var entry :- Compile(s.handler, k);
        var bind :- Put(Seq2(SetLocal(Source(s.x), Field(Exception)), Goto(entry)), k.exceptional);
        r := Compile(s.body, k.(exceptional := bind));
      } else {
        var inner :- CompileCleanups(s.fin, k);
        r := Compile(s.body, inner);
      }
    }

    method CompileFor(s: Stmt, k: Conts) returns (r: Result<int>)
      requires Valid() && s.ForIn?
      modifies this
      ensures Valid() && depth == old(depth)
      ensures Built(r, G(), FC.CompileNode(declared, s, k, old(depth), old(G())))
      decreases Size(s), 0
    {
      hide FC.Compile, FC.Put, FC.Reserve, Rewrite;
      var it := FreshLocal();
      var head :- Reserve();
      var entry :- Compile(s.body, LoopConts(k, head));
      var exhausted :- Put(Branch(Equal(Field(Exception), Lit(Str("StopIteration"))), k.normal, k.exceptional), k.exceptional);
      PutAt(Seq2(SetLocal(Source(s.x), Call("<python-next>", [ReadLocal(it)])), Goto(entry)), exhausted, head);
      var source := Rewrite(declared, s.r);
      r := Put(Seq2(SetLocal(it, if s.ready then source else Call("<python-iter>", [source])), Goto(head)), k.exceptional);
    }

    method CompileUnwind(fin: Stmt, k: Conts) returns (r: Result<int>)
      requires Valid()
      modifies this
      ensures Valid() && depth == old(depth)
      ensures Built(r, G(), FC.CompileUnwind(declared, fin, k, old(depth), old(G())))
      decreases Size(fin), 3
    {
      hide FC.Compile, FC.Put;
      var saved := FreshLocal();
      var restore :- Put(Seq2(SetField(Exception, ReadLocal(saved)), Goto(k.exceptional)), k.exceptional);
      var unwind :- Compile(fin, k.(normal := restore));
      r := Put(Seq2(SetLocal(saved, Field(Exception)), Goto(unwind)), k.exceptional);
    }

    method CompileCleanups(fin: Stmt, k: Conts) returns (r: Result<Conts>)
      requires Valid()
      modifies this
      ensures Valid() && depth == old(depth)
      ensures var spec := FC.CompileCleanups(declared, fin, k, old(depth), old(G()));
              if spec.Done? then r == Done(spec.v.0) && G() == spec.v.1 else r == Refused(spec.reason)
      decreases Size(fin), 4
    {
      hide FC.Compile, FC.CompileUnwind, Known;
      var exceptional :- CompileUnwind(fin, k);
      var normal :- Compile(fin, k);
      var breaking :- Compile(fin, k.(normal := k.breaking));
      var continuing :- Compile(fin, k.(normal := k.continuing));
      var returning :- Compile(fin, k.(normal := k.returning));
      return Done(Conts(normal, breaking, continuing, returning, exceptional));
    }

    /** A sequence is flattened with an explicit stack and compiled backwards. */
    method CompileSeq(s: Stmt, k: Conts) returns (r: Result<int>)
      requires Valid() && s.Seq?
      modifies this
      ensures Valid() && depth == old(depth)
      ensures Built(r, G(), FC.CompileNode(declared, s, k, old(depth), old(G())))
      decreases Size(s), 0
    {
      var statements := FlattenSeq(s);
      assert FC.CompileNode(declared, s, k, depth, G()) == FC.CompileAll(declared, statements, k, depth, G());
      assert SizeAll(statements) < Size(s);
      ghost var g0 := G();
      var i := |statements|;
      var next := k.normal;
      assert statements[i..] == [];
      hide FC.Compile, FC.CompileNode, Flatten;
      while i > 0
        invariant 0 <= i <= |statements| && Valid() && depth == old(depth)
        invariant FC.CompileAll(declared, statements[i..], k, depth, g0) == Done((next, G()))
      {
        i := i - 1;
        ItemSize(statements, i);
        assert statements[i..][1..] == statements[i + 1..];
        ghost var g1 := G();
        var pc := Compile(statements[i], k.(normal := next));
        if pc.Refused? {
          SuffixRefused(declared, statements, i, k, depth, g0);
          return pc;
        }
        next := pc.v;
      }
      assert statements[0..] == statements;
      return Done(next);
    }

    method FlattenSeq(s: Stmt) returns (statements: seq<Stmt>)
      ensures statements == Flatten(s)
    {
      hide Flatten, FlattenStack, StackSize;
      StackOne(s);
      statements := [];
      var pending := [s];
      assert [] + [s] == [s];
      while pending != []
        invariant statements + FlattenStack(pending) == Flatten(s)
        decreases StackSize(pending)
      {
        var item := pending[|pending| - 1];
        assert pending == pending[..|pending| - 1] + [item];
        pending := pending[..|pending| - 1];
        FlattenStep(pending, item);
        if item.Seq? {
          pending := pending + [item.s2, item.s1];
        } else {
          statements := statements + [item];
        }
      }
    }

    /** The whole pass: compile the body, then chain the nodes in order of their indices. */
    method Finish() returns (r: Result<Program>)
      requires Valid() && G() == StartGraph(declared) && depth == 0
      modifies this
      ensures var spec := CompileBody(declared, body);
              if spec.Done? then r == Done(Program(spec.v.0, ResumeOf(spec.v.1.nodes, spec.v.1.counter)))
                && G() == spec.v.1
              else r == Refused(spec.reason)
    {
      var entry :- Compile(body, TOP);
      var dispatch := TERMINAL;
      var i := counter;
      while i > 0
        invariant 0 <= i <= counter && dispatch == Dispatch(nodes, i + 1, counter)
        invariant CompileBody(declared, body) == Done((entry, G()))
      {
        if i in nodes {
          dispatch := Ifte(Equal(Field(Pc), Lit(Int(i))), nodes[i], dispatch);
        }
        i := i - 1;
      }
      return Done(Program(entry, ResumeBody(dispatch)));
    }
  }
}
