/** A JSON reader with its own stack instead of recursion. Containers are put into their
parents while still empty and filled afterwards, so they are kept in an arena. */
module DeepJson {
  import opened Texts

  /** Strings, and every other scalar. */
  datatype Atom = Text(s: string) | Other(code: int)

  datatype Read = Token(a: Atom, end: nat) | Bad(message: string, at: nat)

  /** The standard decoder, reading one scalar at a position. */
  type Reader = (string, nat) -> Read

  /** A scalar takes at least one character, and one that starts with a quote is a string. */
  ghost predicate Reads(scalar: Reader) {
    forall text: string, pos: nat | scalar(text, pos).Token? ::
      pos < scalar(text, pos).end <= |text| && (text[pos] == '"' ==> scalar(text, pos).a.Text?)
  }

  datatype Json = Scalar(a: Atom) | Array(items: seq<Json>) | Object(members: seq<(string, Json)>)

  datatype Parsed<T> = Good(value: T, end: nat) | Error(message: string, at: nat)

  /** Assignment to a dictionary: a key that is there keeps its place. */
  function Put<T>(members: seq<(string, T)>, key: string, v: T): seq<(string, T)> {
    if members == [] then [(key, v)]
    else if members[0].0 == key then [(key, v)] + members[1..]
    else [members[0]] + Put(members[1..], key, v)
  }

  function Skip(text: string, pos: nat): (p: nat)
    requires pos <= |text|
    ensures pos <= p <= |text|
    decreases |text| - pos
  {
    if pos < |text| && text[pos] in " \t\r\n" then Skip(text, pos + 1) else pos
  }

  predicate Looking(text: string, pos: nat, c: char) { pos < |text| && text[pos] == c }

  // ----- the recursive-descent parser -----

  function Value(scalar: Reader, text: string, pos: nat): (r: Parsed<Json>)
    requires Reads(scalar) && pos <= |text|
    ensures r.Good? ==> pos < r.end <= |text|
    decreases |text| - pos, 1
  {
    var p := Skip(text, pos);
    if Looking(text, p, '[') then
      var q := Skip(text, p + 1);
      if Looking(text, q, ']') then Good(Array([]), q + 1) else Items(scalar, text, q, [])
    else if Looking(text, p, '{') then
      var q := Skip(text, p + 1);
      if Looking(text, q, '}') then Good(Object([]), q + 1) else Members(scalar, text, q, [])
    else
      ScalarAt(scalar, text, p)
  }

  function ScalarAt(scalar: Reader, text: string, pos: nat): (r: Parsed<Json>)
    requires Reads(scalar)
    ensures r.Good? ==> pos < r.end <= |text|
  {
    match scalar(text, pos)
    case Token(a, end) => Good(Scalar(a), end)
    case Bad(m, at) => Error(m, at)
  }

  /** One item, then a comma and more or the end of the array. */
  function Items(scalar: Reader, text: string, pos: nat, before: seq<Json>): (r: Parsed<Json>)
    requires Reads(scalar) && pos <= |text|
    ensures r.Good? ==> pos < r.end <= |text|
    decreases |text| - pos, 2
  {
    var item := Value(scalar, text, pos);
    if item.Error? then item else AfterItem(scalar, text, item.end, before + [item.value])
  }

  function AfterItem(scalar: Reader, text: string, pos: nat, items: seq<Json>): (r: Parsed<Json>)
    requires Reads(scalar) && pos <= |text|
    ensures r.Good? ==> pos < r.end <= |text|
    decreases |text| - pos, 0
  {
    var q := Skip(text, pos);
    if Looking(text, q, ']') then Good(Array(items), q + 1)
    else if Looking(text, q, ',') then Items(scalar, text, q + 1, items)
    else Error("Expecting ',' delimiter", q)
  }

  /** A key and its colon: where the member's value starts. */
  function Key(scalar: Reader, text: string, pos: nat): (r: Parsed<string>)
    requires Reads(scalar) && pos <= |text|
    ensures r.Good? ==> pos < r.end <= |text|
  {
    var q := Skip(text, pos);
    if !Looking(text, q, '"') then Error("Expecting property name enclosed in double quotes", q) else
    match scalar(text, q)
    case Bad(m, at) => Error(m, at)
    case Token(a, end) =>
      var colon := Skip(text, end);
      if Looking(text, colon, ':') then Good(a.s, colon + 1) else Error("Expecting ':' delimiter", colon)
  }

  function Members(scalar: Reader, text: string, pos: nat, before: seq<(string, Json)>): (r: Parsed<Json>)
    requires Reads(scalar) && pos <= |text|
    ensures r.Good? ==> pos < r.end <= |text|
    decreases |text| - pos, 2
  {
    var key := Key(scalar, text, pos);
    if key.Error? then Error(key.message, key.at) else
    var item := Value(scalar, text, key.end);
    if item.Error? then item else AfterMember(scalar, text, item.end, Put(before, key.value, item.value))
  }

  function AfterMember(scalar: Reader, text: string, pos: nat, members: seq<(string, Json)>): (r: Parsed<Json>)
    requires Reads(scalar) && pos <= |text|
    ensures r.Good? ==> pos < r.end <= |text|
    decreases |text| - pos, 0
  {
    var q := Skip(text, pos);
    if Looking(text, q, '}') then Good(Object(members), q + 1)
    else if Looking(text, q, ',') then Members(scalar, text, q + 1, members)
    else Error("Expecting ',' delimiter", q)
  }

  function Document(text: string, r: Parsed<Json>): Parsed<Json>
    requires r.Good? ==> r.end <= |text|
  {
    if r.Error? then r else
    var q := Skip(text, r.end);
    if q != |text| then Error("Extra data", q) else Good(r.value, q)
  }

  function Parse(scalar: Reader, text: string): Parsed<Json>
    requires Reads(scalar)
  {
    Document(text, Value(scalar, text, 0))
  }

  // ----- the arena -----

  datatype Ref = Leaf(a: Atom) | Node(id: nat)

  datatype Container = Arr(items: seq<Ref>) | Obj(members: seq<(string, Ref)>)

  /** `item` holds `tree`, without going through a container of `busy`. */
  ghost predicate Holds(arena: seq<Container>, busy: set<nat>, item: Ref, tree: Json)
    decreases tree, 1
  {
    match tree
    case Scalar(a) => item == Leaf(a)
    case _ => item.Node? && item.id < |arena| && item.id !in busy && Contains(arena, busy, arena[item.id], tree)
  }

  ghost predicate Contains(arena: seq<Container>, busy: set<nat>, c: Container, tree: Json)
    decreases tree, 0
  {
    match tree
    case Scalar(_) => false
    case Array(trees) =>
      c.Arr? && |c.items| == |trees| && forall i | 0 <= i < |trees| :: Holds(arena, busy, c.items[i], trees[i])
    case Object(trees) =>
      c.Obj? && |c.members| == |trees|
      && forall i | 0 <= i < |trees| :: c.members[i].0 == trees[i].0 && Holds(arena, busy, c.members[i].1, trees[i].1)
  }

  /** Containers outside `busy` are as they were, and fewer are busy. */
  ghost predicate Settled(arena: seq<Container>, busy: set<nat>, arena': seq<Container>, busy': set<nat>) {
    && |arena| <= |arena'| && (forall id | id in busy' && id < |arena| :: id in busy)
    && forall id | 0 <= id < |arena| && id !in busy :: arena'[id] == arena[id]
  }

  lemma {:induction false} StillHolds(arena: seq<Container>, busy: set<nat>, arena': seq<Container>, busy': set<nat>,
                                      item: Ref, tree: Json)
    requires Settled(arena, busy, arena', busy') && Holds(arena, busy, item, tree)
    ensures Holds(arena', busy', item, tree)
    decreases tree, 1
  {
    if !tree.Scalar? { StillContains(arena, busy, arena', busy', arena[item.id], tree); }
  }

  lemma {:induction false} StillContains(arena: seq<Container>, busy: set<nat>, arena': seq<Container>,
                                         busy': set<nat>, c: Container, tree: Json)
    requires Settled(arena, busy, arena', busy') && Contains(arena, busy, c, tree)
    ensures Contains(arena', busy', c, tree)
    decreases tree, 0
  {
    hide Settled, Holds;
    match tree
    case Array(trees) =>
      forall i | 0 <= i < |trees| ensures Holds(arena', busy', c.items[i], trees[i]) {
        StillHolds(arena, busy, arena', busy', c.items[i], trees[i]);
      }
    case Object(trees) =>
      forall i | 0 <= i < |trees| ensures Holds(arena', busy', c.members[i].1, trees[i].1) {
        StillHolds(arena, busy, arena', busy', c.members[i].1, trees[i].1);
      }
  }

  /** Append an item, or assign a member under `key`. */
  function Added(c: Container, key: string, item: Ref): Container {
    match c
    case Arr(items) => Arr(items + [item])
    case Obj(members) => Obj(Put(members, key, item))
  }

  function AddedTree(tree: Json, key: string, item: Json): Json {
    match tree
    case Array(items) => Array(items + [item])
    case Object(members) => Object(Put(members, key, item))
    case Scalar(_) => tree
  }

  lemma AddedContains(arena: seq<Container>, busy: set<nat>, c: Container, tree: Json, key: string, item: Ref,
                      itemTree: Json)
    requires Contains(arena, busy, c, tree) && Holds(arena, busy, item, itemTree)
    ensures Contains(arena, busy, Added(c, key, item), AddedTree(tree, key, itemTree))
  {
    hide Holds;
    if tree.Object? { PutContains(arena, busy, c.members, tree.members, key, item, itemTree); }
  }

  lemma {:induction false} PutContains(arena: seq<Container>, busy: set<nat>, ms: seq<(string, Ref)>,
                                       ts: seq<(string, Json)>,
                                       key: string, item: Ref, itemTree: Json)
    requires |ms| == |ts| && forall i | 0 <= i < |ts| :: ms[i].0 == ts[i].0 && Holds(arena, busy, ms[i].1, ts[i].1)
    requires Holds(arena, busy, item, itemTree)
    ensures var ms', ts' := Put(ms, key, item), Put(ts, key, itemTree);
            |ms'| == |ts'| && forall i | 0 <= i < |ts'| :: ms'[i].0 == ts'[i].0 && Holds(arena, busy, ms'[i].1, ts'[i].1)
  {
    hide Holds;
    if ms != [] && ms[0].0 != key { PutContains(arena, busy, ms[1..], ts[1..], key, item, itemTree); }
  }

  // ----- the machine -----

  /** An open container. In phase 0 nothing was read from it, in phase 1 a comma was, and in
  phase 2 an item was: only after a comma may it not be closed. */
  datatype Frame = Frame(id: nat, kind: char, phase: int)

  /** Beside each frame: what its container holds apart from the open child, and the key the
  open child goes under. */
  datatype Waiting = Waiting(tree: Json, c: Container, key: string)

  function Busy(stack: seq<Frame>): set<nat> { set i | 0 <= i < |stack| :: stack[i].id }

  ghost predicate Matches(kind: char, tree: Json) { if kind == '[' then tree.Array? else kind == '{' && tree.Object? }

  /** The frames name distinct containers; each but the innermost holds, besides what is
  complete, the container of the next. */
  ghost predicate Chained(arena: seq<Container>, stack: seq<Frame>, ws: seq<Waiting>) {
    && |ws| == |stack|
    && (forall i | 0 <= i < |stack| :: stack[i].id < |arena| && Matches(stack[i].kind, ws[i].tree))
    && (forall i, j | 0 <= i < j < |stack| :: stack[i].id != stack[j].id)
    && (forall i | 0 <= i < |stack| :: Contains(arena, Busy(stack), ws[i].c, ws[i].tree))
    && (forall i | 0 <= i < |stack| - 1 ::
         stack[i].phase == 2 && arena[stack[i].id] == Added(ws[i].c, ws[i].key, Node(stack[i + 1].id)))
    && (stack != [] ==> var top := |stack| - 1; arena[stack[top].id] == ws[top].c)
  }

  function Close(kind: char): char { if kind == '[' then ']' else '}' }

  /** What the recursive parser makes of the rest of a container that holds `tree` so far. */
  function Continue(scalar: Reader, text: string, pos: nat, tree: Json, phase: int): (r: Parsed<Json>)
    requires Reads(scalar) && pos <= |text|
    ensures r.Good? ==> pos < r.end <= |text|
  {
    match tree
    case Array(items) =>
      if phase == 0 && Looking(text, Skip(text, pos), ']') then Good(tree, Skip(text, pos) + 1)
      else if phase == 2 then AfterItem(scalar, text, pos, items)
      else Items(scalar, text, Skip(text, pos), items)
    case Object(members) =>
      if phase == 0 && Looking(text, Skip(text, pos), '}') then Good(tree, Skip(text, pos) + 1)
      else if phase == 2 then AfterMember(scalar, text, pos, members)
      else Members(scalar, text, Skip(text, pos), members)
    case Scalar(_) => Error("", pos)
  }

  /** Hand the value just read to the innermost waiting container, and go on outwards. */
  function Outward(scalar: Reader, text: string, r: Parsed<Json>, ws: seq<Waiting>): Parsed<Json>
    requires Reads(scalar) && (r.Good? ==> r.end <= |text|)
    decreases |ws|
  {
    if r.Error? then r
    else if ws == [] then Document(text, r)
    else
      var w := ws[|ws| - 1];
      Outward(scalar, text, Continue(scalar, text, r.end, AddedTree(w.tree, w.key, r.value), 2), ws[..|ws| - 1])
  }

  datatype Loaded = Tree(arena: seq<Container>, root: Ref) | Refused(message: string, at: nat)

  ghost predicate Started(scalar: Reader, text: string, pos: nat, arena: seq<Container>, stack: seq<Frame>,
                          r: Parsed<Ref>, arena': seq<Container>, stack': seq<Frame>)
    requires pos <= |text|
  {
    var p := Skip(text, pos);
    if Looking(text, p, '[') then
      r == Good(Node(|arena|), p + 1) && arena' == arena + [Arr([])] && stack' == stack + [Frame(|arena|, '[', 0)]
    else if Looking(text, p, '{') then
      r == Good(Node(|arena|), p + 1) && arena' == arena + [Obj([])] && stack' == stack + [Frame(|arena|, '{', 0)]
    else
      var t := scalar(text, p);
      arena' == arena && stack' == stack && r == if t.Token? then Good(Leaf(t.a), t.end) else Error(t.message, t.at)
  }

  /** What `value` does: open a container on the stack, or read a scalar. */
  method Start(scalar: Reader, text: string, pos: nat, arena: seq<Container>, stack: seq<Frame>)
    returns (r: Parsed<Ref>, arena': seq<Container>, stack': seq<Frame>)
    requires Reads(scalar) && pos <= |text|
    ensures r.Good? ==> pos < r.end <= |text|
    ensures Started(scalar, text, pos, arena, stack, r, arena', stack')
  {
    var p := Skip(text, pos);
    arena', stack' := arena, stack;
    if Looking(text, p, '[') || Looking(text, p, '{') {
      stack' := stack + [Frame(|arena|, text[p], 0)];
      arena' := arena + [if text[p] == '[' then Arr([]) else Obj([])];
      return Good(Node(|arena|), p + 1), arena', stack';
    }
    var t := scalar(text, p);
    r := if t.Token? then Good(Leaf(t.a), t.end) else Error(t.message, t.at);
  }

  lemma {:induction false} SkipTwice(text: string, pos: nat)
    requires pos <= |text|
    ensures Skip(text, Skip(text, pos)) == Skip(text, pos)
    decreases |text| - pos
  {
    if pos < |text| && text[pos] in " \t\r\n" { SkipTwice(text, pos + 1); }
  }

  const EMPTY_ARRAY: Waiting := Waiting(Array([]), Arr([]), "")
  const EMPTY_OBJECT: Waiting := Waiting(Object([]), Obj([]), "")

  function Replace<T>(s: seq<T>, x: T): seq<T>
    requires s != []
  {
    s[..|s| - 1] + [x]
  }

  /** A complete value goes into the innermost container. */
  lemma TakeScalar(arena: seq<Container>, stack: seq<Frame>, ws: seq<Waiting>, key: string, a: Atom, phase: int)
    requires Chained(arena, stack, ws) && stack != []
    ensures var top := stack[|stack| - 1]; var w := ws[|ws| - 1];
            var c := Added(w.c, key, Leaf(a));
            Chained(arena[top.id := c], Replace(stack, top.(phase := phase)),
                    Replace(ws, Waiting(AddedTree(w.tree, key, Scalar(a)), c, "")))
  {
    hide Contains;
    var top := stack[|stack| - 1];
    var w := ws[|ws| - 1];
    var c := Added(w.c, key, Leaf(a));
    var tree := AddedTree(w.tree, key, Scalar(a));
    var arena' := arena[top.id := c];
    var stack' := Replace(stack, top.(phase := phase));
    var ws' := Replace(ws, Waiting(tree, c, ""));
    SameBusy(stack, stack');
    AddedContains(arena, Busy(stack), w.c, w.tree, key, Leaf(a), Scalar(a));
    forall i | 0 <= i < |stack| ensures Contains(arena', Busy(stack'), ws'[i].c, ws'[i].tree) {
      StillContains(arena, Busy(stack), arena', Busy(stack'), ws'[i].c, ws'[i].tree);
    }
  }

  lemma SameBusy(stack: seq<Frame>, stack': seq<Frame>)
    requires |stack| == |stack'| && forall i | 0 <= i < |stack| :: stack[i].id == stack'[i].id
    ensures Busy(stack) == Busy(stack')
  {
    assert forall i | 0 <= i < |stack| :: stack[i].id in Busy(stack') && stack'[i].id in Busy(stack);
  }

  /** A new container goes into the innermost one, still empty, and becomes the innermost. */
  lemma OpenContainer(arena: seq<Container>, stack: seq<Frame>, ws: seq<Waiting>, key: string, kind: char)
    requires Chained(arena, stack, ws) && stack != [] && kind in "[{"
    ensures var top := stack[|stack| - 1]; var w := ws[|ws| - 1];
            var empty := if kind == '[' then EMPTY_ARRAY else EMPTY_OBJECT;
            Chained(arena[top.id := Added(w.c, key, Node(|arena|))] + [empty.c],
                    Replace(stack, top.(phase := 2)) + [Frame(|arena|, kind, 0)],
                    Replace(ws, w.(key := key)) + [empty])
  {
    hide Contains, Added;
    var top := stack[|stack| - 1];
    var w := ws[|ws| - 1];
    var empty := if kind == '[' then EMPTY_ARRAY else EMPTY_OBJECT;
    var arena' := arena[top.id := Added(w.c, key, Node(|arena|))] + [empty.c];
    var stack' := Replace(stack, top.(phase := 2)) + [Frame(|arena|, kind, 0)];
    var ws' := Replace(ws, w.(key := key)) + [empty];
    NewBusy(arena, stack, stack', arena');
    forall i | 0 <= i < |stack| ensures Contains(arena', Busy(stack'), ws'[i].c, ws'[i].tree) {
      StillContains(arena, Busy(stack), arena', Busy(stack'), ws'[i].c, ws'[i].tree);
    }
    EmptyContains(arena', Busy(stack'));
  }

  lemma EmptyContains(arena: seq<Container>, busy: set<nat>)
    ensures Contains(arena, busy, Arr([]), Array([])) && Contains(arena, busy, Obj([]), Object([]))
  {}

  lemma NewBusy(arena: seq<Container>, stack: seq<Frame>, stack': seq<Frame>, arena': seq<Container>)
    requires |stack'| == |stack| + 1 && stack'[|stack|].id == |arena| && stack != []
    requires forall i | 0 <= i < |stack| :: stack[i].id == stack'[i].id && stack[i].id < |arena|
    requires |arena| <= |arena'|
    requires forall id | 0 <= id < |arena| && id != stack[|stack| - 1].id :: arena'[id] == arena[id]
    ensures Settled(arena, Busy(stack), arena', Busy(stack'))
  {
    assert stack[|stack| - 1].id in Busy(stack);
    forall id | id in Busy(stack') && id < |arena| ensures id in Busy(stack) {
      var i :| 0 <= i < |stack'| && stack'[i].id == id;
      assert stack[i].id in Busy(stack);
    }
  }

  /** The innermost container is complete: it counts as the open child of the next one. */
  lemma CloseContainer(arena: seq<Container>, stack: seq<Frame>, ws: seq<Waiting>)
    requires Chained(arena, stack, ws) && stack != []
    ensures Holds(arena, Busy(stack[..|stack| - 1]), Node(stack[|stack| - 1].id), ws[|ws| - 1].tree)
    ensures |stack| > 1 ==>
      var w := ws[|ws| - 2];
      Chained(arena, stack[..|stack| - 1],
              ws[..|ws| - 2] + [Waiting(AddedTree(w.tree, w.key, ws[|ws| - 1].tree), Added(w.c, w.key, Node(stack[|stack| - 1].id)), "")])
  {
    hide Contains, Added, AddedTree;
    var n := |stack| - 1;
    var stack' := stack[..n];
    var id := stack[n].id;
    FewerBusy(arena, stack);
    assert id !in Busy(stack');
    StillContains(arena, Busy(stack), arena, Busy(stack'), ws[n].c, ws[n].tree);
    HoldsNode(arena, Busy(stack'), id, ws[n].tree);
    if n > 0 {
      var w := ws[n - 1];
      var last := Waiting(AddedTree(w.tree, w.key, ws[n].tree), Added(w.c, w.key, Node(id)), "");
      var ws' := ws[..n - 1] + [last];
      forall i | 0 <= i < n ensures Contains(arena, Busy(stack'), ws'[i].c, ws'[i].tree) {
        StillContains(arena, Busy(stack), arena, Busy(stack'), ws[i].c, ws[i].tree);
        if i == n - 1 { AddedContains(arena, Busy(stack'), w.c, w.tree, w.key, Node(id), ws[n].tree); }
      }
      AddedMatches(stack[n - 1].kind, w.tree, w.key, ws[n].tree);
    }
  }

  lemma AddedMatches(kind: char, tree: Json, key: string, item: Json)
    requires Matches(kind, tree)
    ensures Matches(kind, AddedTree(tree, key, item))
  {}

  lemma HoldsNode(arena: seq<Container>, busy: set<nat>, id: nat, tree: Json)
    requires id < |arena| && id !in busy && Contains(arena, busy, arena[id], tree)
    ensures Holds(arena, busy, Node(id), tree)
  {}

  lemma FewerBusy(arena: seq<Container>, stack: seq<Frame>)
    requires stack != []
    ensures Settled(arena, Busy(stack), arena, Busy(stack[..|stack| - 1]))
  {
    forall id | id in Busy(stack[..|stack| - 1]) ensures id in Busy(stack) {
      var i :| 0 <= i < |stack| - 1 && stack[i].id == id;
    }
  }

  /** The loop. At every turn the rest of the text, read outwards through the waiting
  containers, is what the recursive parser makes of the whole text. */
  ghost predicate OnTrack(scalar: Reader, text: string, pos: nat, arena: seq<Container>, stack: seq<Frame>,
                          ws: seq<Waiting>, root: Ref)
    requires Reads(scalar)
  {
    && pos <= |text| && Chained(arena, stack, ws) && (forall i | 0 <= i < |stack| :: 0 <= stack[i].phase <= 2)
    && if stack == [] then exists tree :: Holds(arena, {}, root, tree) && Parse(scalar, text) == Document(text, Good(tree, pos))
       else
         var top := |stack| - 1;
         && root == Node(stack[0].id)
         && Parse(scalar, text) == Outward(scalar, text, Continue(scalar, text, pos, ws[top].tree, stack[top].phase), ws[..top])
  }

  /** The parser's step after an item, or its error. */
  function After(scalar: Reader, text: string, tree: Json, key: string, v: Parsed<Json>): (r: Parsed<Json>)
    requires Reads(scalar) && (v.Good? ==> v.end <= |text|)
    ensures r.Good? ==> r.end <= |text|
  {
    if v.Error? then v else Continue(scalar, text, v.end, AddedTree(tree, key, v.value), 2)
  }

  lemma OutwardAfter(scalar: Reader, text: string, w: Waiting, v: Parsed<Json>, ws: seq<Waiting>)
    requires Reads(scalar) && (v.Good? ==> v.end <= |text|)
    ensures Outward(scalar, text, After(scalar, text, w.tree, w.key, v), ws) == Outward(scalar, text, v, ws + [w])
  {
    hide Continue, Reads;
    assert (ws + [w])[..|ws|] == ws;
  }

  /** A value starts with a scalar or is an empty container to be continued. */
  lemma ValueStarts(scalar: Reader, text: string, pos: nat)
    requires Reads(scalar) && pos <= |text|
    ensures var p := Skip(text, pos);
            Value(scalar, text, pos) ==
              if Looking(text, p, '[') then Continue(scalar, text, p + 1, Array([]), 0)
              else if Looking(text, p, '{') then Continue(scalar, text, p + 1, Object([]), 0)
              else ScalarAt(scalar, text, p)
  {
    hide Items, Members, AfterItem, AfterMember;
  }

  lemma ValueSkips(scalar: Reader, text: string, pos: nat)
    requires Reads(scalar) && pos <= |text|
    ensures Value(scalar, text, Skip(text, pos)) == Value(scalar, text, pos)
    ensures Key(scalar, text, Skip(text, pos)) == Key(scalar, text, pos)
  {
    hide Items, Members;
    SkipTwice(text, pos);
  }

  /** A container that is not closed here needs an item. */
  lemma NeedsItem(scalar: Reader, text: string, pos: nat, tree: Json, phase: int)
    requires Reads(scalar) && pos <= |text| && !tree.Scalar? && phase in {0, 1}
    requires phase == 0 ==> !Looking(text, Skip(text, pos), if tree.Array? then ']' else '}')
    ensures tree.Array? ==>
      Continue(scalar, text, pos, tree, phase) == After(scalar, text, tree, "", Value(scalar, text, Skip(text, pos)))
    ensures tree.Object? ==>
      var key := Key(scalar, text, Skip(text, pos));
      Continue(scalar, text, pos, tree, phase) ==
        if key.Error? then Error(key.message, key.at) else After(scalar, text, tree, key.value, Value(scalar, text, key.end))
  {
    hide Reads, Value, Key, AfterItem, AfterMember, Skip;
  }

  lemma ItemsSkip(scalar: Reader, text: string, pos: nat)
    requires Reads(scalar) && pos <= |text|
    ensures forall items :: Items(scalar, text, Skip(text, pos), items) == Items(scalar, text, pos, items)
    ensures forall members :: Members(scalar, text, Skip(text, pos), members) == Members(scalar, text, pos, members)
  {
    hide AfterItem, AfterMember, Value, Key, Reads;
    ValueSkips(scalar, text, pos);
  }

  /** After an item: the end, or a comma and then an item is required. */
  lemma Separated(scalar: Reader, text: string, pos: nat, tree: Json)
    requires Reads(scalar) && pos <= |text| && !tree.Scalar?
    ensures var q := Skip(text, pos);
            Continue(scalar, text, pos, tree, 2) ==
              if Looking(text, q, if tree.Array? then ']' else '}') then Good(tree, q + 1)
              else if Looking(text, q, ',') then Continue(scalar, text, q + 1, tree, 1)
              else Error("Expecting ',' delimiter", q)
  {
    hide Reads, Items, Members, Skip;
    var q := Skip(text, pos);
    if Looking(text, q, ',') { ItemsSkip(scalar, text, q + 1); }
  }

  /** An end where one is allowed closes the container. */
  lemma Ends(scalar: Reader, text: string, pos: nat, tree: Json, kind: char, phase: int)
    requires Reads(scalar) && pos <= |text| && Matches(kind, tree) && phase in {0, 2}
    requires Looking(text, Skip(text, pos), Close(kind))
    ensures Continue(scalar, text, pos, tree, phase) == Good(tree, Skip(text, pos) + 1)
  {
    hide Reads, Items, Members, Skip, Looking;
    if phase == 2 { Separated(scalar, text, pos, tree); }
  }

  lemma Innermost(arena: seq<Container>, stack: seq<Frame>, ws: seq<Waiting>)
    requires Chained(arena, stack, ws) && stack != []
    ensures |ws| == |stack| && var n := |stack| - 1;
      && stack[n].id < |arena| && Matches(stack[n].kind, ws[n].tree) && !ws[n].tree.Scalar?
         && arena[stack[n].id] == ws[n].c
      && (stack[n].kind == '[' <==> ws[n].tree.Array?) && (stack[n].kind == '{' <==> ws[n].tree.Object?)
      && (n > 0 ==> stack[n - 1].phase == 2)
  {
    hide Contains;
  }

  lemma OneChained(kind: char, w: Waiting)
    requires (kind == '[' && w == EMPTY_ARRAY) || (kind == '{' && w == EMPTY_OBJECT)
    ensures Chained([w.c], [Frame(0, kind, 0)], [w])
  {
    assert [Frame(0, kind, 0)][0].id == 0 && Busy([Frame(0, kind, 0)]) == {0};
  }

  lemma FirstOnTrack(scalar: Reader, text: string)
    requires Reads(scalar)
    ensures var p := Skip(text, 0);
            if Looking(text, p, '[') then
              OnTrack(scalar, text, p + 1, [Arr([])], [Frame(0, '[', 0)], [EMPTY_ARRAY], Node(0))
            else if Looking(text, p, '{') then
              OnTrack(scalar, text, p + 1, [Obj([])], [Frame(0, '{', 0)], [EMPTY_OBJECT], Node(0))
            else
              var t := scalar(text, p);
              if t.Token? then OnTrack(scalar, text, t.end, [], [], [], Leaf(t.a)) else Parse(scalar, text) == Error(t.message, t.at)
  {
    hide Value, Continue, Chained, Contains, Skip;
    ValueStarts(scalar, text, 0);
    var p := Skip(text, 0);
    OneChained('[', EMPTY_ARRAY);
    OneChained('{', EMPTY_OBJECT);
    EmptyChained([]);
    assert [EMPTY_ARRAY][..0] == [] && [EMPTY_OBJECT][..0] == [];
    if scalar(text, p).Token? {
      assert Holds([], {}, Leaf(scalar(text, p).a), Scalar(scalar(text, p).a));
    }
  }

  ghost function Closed(stack: seq<Frame>, ws: seq<Waiting>): seq<Waiting>
    requires |ws| == |stack| > 0
  {
    if |stack| == 1 then [] else
    var w := ws[|ws| - 2];
    ws[..|ws| - 2] + [Waiting(AddedTree(w.tree, w.key, ws[|ws| - 1].tree), Added(w.c, w.key, Node(stack[|stack| - 1].id)), "")]
  }

  lemma CloseStep(scalar: Reader, text: string, pos: nat, arena: seq<Container>, stack: seq<Frame>, ws: seq<Waiting>,
                  root: Ref)
    requires Reads(scalar) && stack != [] && OnTrack(scalar, text, pos, arena, stack, ws, root)
    requires var top := stack[|stack| - 1]; top.phase in {0, 2} && Looking(text, Skip(text, pos), Close(top.kind))
    ensures OnTrack(scalar, text, Skip(text, pos) + 1, arena, stack[..|stack| - 1], Closed(stack, ws), root)
  {
    hide Continue, Contains, Holds, Chained, Skip, Looking, Reads, Matches, Value, Parse;
    var n := |stack| - 1;
    var end := Skip(text, pos) + 1;
    Innermost(arena, stack, ws);
    CloseContainer(arena, stack, ws);
    Ends(scalar, text, pos, ws[n].tree, stack[n].kind, stack[n].phase);
    PositionAfter(text, pos, Close(stack[n].kind));
    assert Parse(scalar, text) == Outward(scalar, text, Good(ws[n].tree, end), ws[..n]);
    if n == 0 {
      assert stack[..0] == [] && Busy(stack[..0]) == {};
      EmptyChained(arena);
      assert Holds(arena, {}, root, ws[n].tree);
    } else {
      var ws' := Closed(stack, ws);
      assert ws'[n - 1].tree == AddedTree(ws[n - 1].tree, ws[n - 1].key, ws[n].tree);
      assert ws[..n][..n - 1] == ws'[..n - 1];
    }
  }

  lemma PositionAfter(text: string, pos: nat, c: char)
    requires pos <= |text| && Looking(text, Skip(text, pos), c)
    ensures Skip(text, pos) + 1 <= |text|
  {}

  lemma EmptyChained(arena: seq<Container>)
    ensures Chained(arena, [], [])
  {}

  lemma CommaStep(scalar: Reader, text: string, pos: nat, arena: seq<Container>, stack: seq<Frame>, ws: seq<Waiting>,
                  root: Ref)
    requires Reads(scalar) && stack != [] && OnTrack(scalar, text, pos, arena, stack, ws, root)
    requires var top := stack[|stack| - 1]; top.phase == 2 && !Looking(text, Skip(text, pos), Close(top.kind))
    ensures var q := Skip(text, pos);
            if Looking(text, q, ',') then
              OnTrack(scalar, text, q + 1, arena, Replace(stack, stack[|stack| - 1].(phase := 1)), ws, root)
            else Parse(scalar, text) == Error("Expecting ',' delimiter", q)
  {
    hide Continue, Contains, Holds, Chained, Skip, Reads, Value, Parse;
    var n := |stack| - 1;
    var stack' := Replace(stack, stack[n].(phase := 1));
    Innermost(arena, stack, ws);
    Separated(scalar, text, pos, ws[n].tree);
    SamePlaces(arena, stack, stack', ws);
  }

  lemma SamePlaces(arena: seq<Container>, stack: seq<Frame>, stack': seq<Frame>, ws: seq<Waiting>)
    requires Chained(arena, stack, ws) && stack != [] && |stack'| == |stack|
    requires forall i | 0 <= i < |stack| :: stack'[i].id == stack[i].id && stack'[i].kind == stack[i].kind
    requires forall i | 0 <= i < |stack| - 1 :: stack'[i] == stack[i]
    ensures Chained(arena, stack', ws)
  {
    hide Contains;
    SameBusy(stack, stack');
  }

  /** Where the machine is about to read an item: an array needs no key. */
  ghost predicate ItemAt(scalar: Reader, text: string, pos: nat, kind: char, key: string, start: nat)
    requires Reads(scalar) && pos <= |text|
  {
    if kind == '[' then key == "" && start == Skip(text, pos) else Key(scalar, text, Skip(text, pos)) == Good(key, start)
  }

  lemma ItemNeeded(scalar: Reader, text: string, pos: nat, arena: seq<Container>, stack: seq<Frame>, ws: seq<Waiting>,
                   root: Ref)
    requires Reads(scalar) && stack != [] && OnTrack(scalar, text, pos, arena, stack, ws, root)
    requires var top := stack[|stack| - 1]; top.phase == 1 || (top.phase == 0 && !Looking(text, Skip(text, pos), Close(top.kind)))
    ensures |ws| == |stack| && pos <= |text|
    ensures var n := |stack| - 1;
      && (stack[n].kind == '{' && Key(scalar, text, Skip(text, pos)).Error? ==>
            Parse(scalar, text) == Error(Key(scalar, text, Skip(text, pos)).message, Key(scalar, text, Skip(text, pos)).at))
      && forall key: string, start: nat | ItemAt(scalar, text, pos, stack[n].kind, key, start) :: start <= |text| &&
           Parse(scalar, text) == Outward(scalar, text, After(scalar, text, ws[n].tree, key, Value(scalar, text, start)), ws[..n])
  {
    hide Continue, Contains, Holds, Chained, Skip, Reads, Value, Parse, Key;
    Innermost(arena, stack, ws);
    NeedsItem(scalar, text, pos, ws[|ws| - 1].tree, stack[|stack| - 1].phase);
  }

  /** An item is started: a scalar goes in, an open container becomes the innermost. */
  lemma ItemStep(scalar: Reader, text: string, pos: nat, arena: seq<Container>, stack: seq<Frame>, ws: seq<Waiting>,
                 root: Ref,
                 key: string, start: nat)
    requires Reads(scalar) && stack != [] && OnTrack(scalar, text, pos, arena, stack, ws, root) && |ws| == |stack|
    requires var n := |ws| - 1;
             && stack[n].id < |arena| && ws[n].c == arena[stack[n].id] && start <= |text|
             && Parse(scalar, text) == Outward(scalar, text, After(scalar, text, ws[n].tree, key, Value(scalar, text, start)), ws[..n])
    ensures var p := Skip(text, start);
            var n := |stack| - 1;
            var c := arena[stack[n].id];
            if Looking(text, p, '[') || Looking(text, p, '{') then
              var empty := if text[p] == '[' then EMPTY_ARRAY else EMPTY_OBJECT;
              OnTrack(scalar, text, p + 1, arena[stack[n].id := Added(c, key, Node(|arena|))] + [empty.c],
                      Replace(stack, stack[n].(phase := 2)) + [Frame(|arena|, text[p], 0)], Replace(ws, ws[n].(key := key)) + [empty], root)
            else
              var t := scalar(text, p);
              if t.Bad? then Parse(scalar, text) == Error(t.message, t.at) else
              OnTrack(scalar, text, t.end, arena[stack[n].id := Added(c, key, Leaf(t.a))], Replace(stack, stack[n].(phase := 2)),
                      Replace(ws, Waiting(AddedTree(ws[n].tree, key, Scalar(t.a)), Added(c, key, Leaf(t.a)), "")), root)
  {
    hide Value, Continue, Contains, Holds, Chained, Added, AddedTree, Skip, Reads, Parse, OnTrack, Outward, After, Looking;
    var p := Skip(text, start);
    if Looking(text, p, '[') || Looking(text, p, '{') {
      ItemOpened(scalar, text, pos, arena, stack, ws, root, key, start);
    } else {
      ItemRead(scalar, text, pos, arena, stack, ws, root, key, start);
    }
  }

  lemma ItemOpened(scalar: Reader, text: string, pos: nat, arena: seq<Container>, stack: seq<Frame>, ws: seq<Waiting>,
                   root: Ref, key: string, start: nat)
    requires Reads(scalar) && stack != [] && OnTrack(scalar, text, pos, arena, stack, ws, root) && |ws| == |stack|
    requires var n := |ws| - 1;
             && stack[n].id < |arena| && ws[n].c == arena[stack[n].id] && start <= |text|
             && Parse(scalar, text) ==
                Outward(scalar, text, After(scalar, text, ws[n].tree, key, Value(scalar, text, start)), ws[..n])
    requires var p := Skip(text, start); Looking(text, p, '[') || Looking(text, p, '{')
    ensures var p := Skip(text, start);
            var n := |stack| - 1;
            var empty := if text[p] == '[' then EMPTY_ARRAY else EMPTY_OBJECT;
            OnTrack(scalar, text, p + 1, arena[stack[n].id := Added(arena[stack[n].id], key, Node(|arena|))] + [empty.c],
                    Replace(stack, stack[n].(phase := 2)) + [Frame(|arena|, text[p], 0)],
                    Replace(ws, ws[n].(key := key)) + [empty], root)
  {
    hide Value, Continue, Contains, Holds, Chained, Added, AddedTree, Skip, Reads, Parse;
    var n := |ws| - 1;
    var p := Skip(text, start);
    var w := ws[n];
    ValueStarts(scalar, text, start);
    var empty := if text[p] == '[' then EMPTY_ARRAY else EMPTY_OBJECT;
    OpenContainer(arena, stack, ws, key, text[p]);
    var ws' := Replace(ws, w.(key := key)) + [empty];
    OutwardAfter(scalar, text, w.(key := key), Value(scalar, text, start), ws[..n]);
    assert ws'[..n + 1] == ws[..n] + [w.(key := key)];
  }

  lemma ItemRead(scalar: Reader, text: string, pos: nat, arena: seq<Container>, stack: seq<Frame>, ws: seq<Waiting>,
                 root: Ref, key: string, start: nat)
    requires Reads(scalar) && stack != [] && OnTrack(scalar, text, pos, arena, stack, ws, root) && |ws| == |stack|
    requires var n := |ws| - 1;
             && stack[n].id < |arena| && ws[n].c == arena[stack[n].id] && start <= |text|
             && Parse(scalar, text) ==
                Outward(scalar, text, After(scalar, text, ws[n].tree, key, Value(scalar, text, start)), ws[..n])
    requires var p := Skip(text, start); !Looking(text, p, '[') && !Looking(text, p, '{')
    ensures var n := |stack| - 1;
            var c := arena[stack[n].id];
            var t := scalar(text, Skip(text, start));
            if t.Bad? then Parse(scalar, text) == Error(t.message, t.at) else
            OnTrack(scalar, text, t.end, arena[stack[n].id := Added(c, key, Leaf(t.a))], Replace(stack, stack[n].(phase := 2)),
                    Replace(ws, Waiting(AddedTree(ws[n].tree, key, Scalar(t.a)), Added(c, key, Leaf(t.a)), "")), root)
  {
    hide Value, Continue, Contains, Holds, Chained, Added, AddedTree, Skip, Reads, Parse;
    var n := |ws| - 1;
    var p := Skip(text, start);
    var w := ws[n];
    ValueStarts(scalar, text, start);
    var t := scalar(text, p);
    assert ScalarAt(scalar, text, p) == if t.Token? then Good(Scalar(t.a), t.end) else Error(t.message, t.at);
    if t.Token? {
      TakeScalar(arena, stack, ws, key, t.a, 2);
      var ws' := Replace(ws, Waiting(AddedTree(w.tree, key, Scalar(t.a)), Added(w.c, key, Leaf(t.a)), ""));
      assert ws'[..n] == ws[..n];
    }
  }

  /** The same, of what `Start` leaves. */
  lemma ItemTaken(scalar: Reader, text: string, pos: nat, arena: seq<Container>, stack: seq<Frame>, ws: seq<Waiting>,
                  root: Ref,
                  key: string, start: nat, item: Parsed<Ref>, arena': seq<Container>, stack': seq<Frame>)
    requires Reads(scalar) && stack != [] && OnTrack(scalar, text, pos, arena, stack, ws, root) && |ws| == |stack|
    requires var n := |ws| - 1;
             && stack[n].id < |arena| && ws[n].c == arena[stack[n].id] && start <= |text|
             && Parse(scalar, text) == Outward(scalar, text, After(scalar, text, ws[n].tree, key, Value(scalar, text, start)), ws[..n])
    requires Started(scalar, text, start, arena, stack, item, arena', stack')
    ensures item.Error? ==> Parse(scalar, text) == Error(item.message, item.at)
    ensures |stack'| >= |stack| && |arena'| >= |arena|
    ensures item.Good? ==>
      var n := |stack| - 1;
      var id := stack[n].id;
      OnTrack(scalar, text, item.end, arena'[id := Added(arena'[id], key, item.value)], stack'[n := stack[n].(phase := 2)],
              NextWaiting(arena, stack, ws, key, item.value, stack'), root)
  {
    hide OnTrack, Parse, Skip, Reads, Outward, After, Value, AddedTree, Added;
    ItemStep(scalar, text, pos, arena, stack, ws, root, key, start);
    if item.Good? {
      var n := |stack| - 1;
      var c := Added(arena[stack[n].id], key, item.value);
      if item.value.Node? {
        assert arena'[stack[n].id := c] == arena[stack[n].id := c] + [arena'[|arena|]];
        assert stack'[n := stack[n].(phase := 2)] == Replace(stack, stack[n].(phase := 2)) + [stack'[|stack|]];
      } else {
        assert stack'[n := stack[n].(phase := 2)] == Replace(stack, stack[n].(phase := 2));
      }
    }
  }

  lemma FirstTaken(scalar: Reader, text: string, first: Parsed<Ref>, arena: seq<Container>, stack: seq<Frame>)
    requires Reads(scalar) && Started(scalar, text, 0, [], [], first, arena, stack)
    ensures first.Error? ==> Parse(scalar, text) == Error(first.message, first.at)
    ensures first.Good? ==>
      OnTrack(scalar, text, first.end, arena, stack,
              if stack == [] then [] else if stack[0].kind == '[' then [EMPTY_ARRAY] else [EMPTY_OBJECT], first.value)
  {
    hide OnTrack, Parse, Skip, Reads;
    FirstOnTrack(scalar, text);
    assert [] + [Arr([])] == [Arr([])] && [] + [Obj([])] == [Obj([])];
    assert |stack| <= 1;
    assert stack != [] ==> stack == [stack[0]];
  }

  lemma TrackFacts(scalar: Reader, text: string, pos: nat, arena: seq<Container>, stack: seq<Frame>, ws: seq<Waiting>,
                   root: Ref)
    requires Reads(scalar) && OnTrack(scalar, text, pos, arena, stack, ws, root)
    ensures pos <= |text|
    ensures stack != [] ==> |ws| == |stack| && var n := |stack| - 1;
              stack[n].id < |arena| && ws[n].c == arena[stack[n].id] && stack[n].phase in {0, 1, 2}
                && stack[n].kind in "[{"
    ensures stack == [] ==>
      exists tree :: Holds(arena, {}, root, tree) && Parse(scalar, text) == Document(text, Good(tree, pos))
  {
    hide Value, Continue, Contains, Holds, Chained, Parse;
    if stack != [] { Innermost(arena, stack, ws); }
  }

  method Loads(scalar: Reader, text: string) returns (r: Loaded)
    requires Reads(scalar)
    ensures match Parse(scalar, text)
            case Good(tree, _) => r.Tree? && Holds(r.arena, {}, r.root, tree)
            case Error(message, at) => r == Refused(message, at)
  {
    hide OnTrack, Parse, Holds, Skip, Reads, Outward, After, Value, AddedTree, Added, Started, NextWaiting;
    var first, arena, stack := Start(scalar, text, 0, [], []);
    FirstTaken(scalar, text, first, arena, stack);
    if first.Error? { return Refused(first.message, first.at); }
    var root, pos := first.value, first.end;
    ghost var ws: seq<Waiting> := if stack == [] then [] else if stack[0].kind ==
      '[' then [EMPTY_ARRAY] else [EMPTY_OBJECT];
    while stack != []
      invariant OnTrack(scalar, text, pos, arena, stack, ws, root)
      decreases |text| - pos
    {
      TrackFacts(scalar, text, pos, arena, stack, ws, root);
      var top := stack[|stack| - 1];
      ghost var was := pos;
      pos := Skip(text, pos);
      if (top.phase == 0 || top.phase == 2) && Looking(text, pos, Close(top.kind)) {
        CloseStep(scalar, text, was, arena, stack, ws, root);
        ws := Closed(stack, ws);
        stack := stack[..|stack| - 1];
        pos := pos + 1;
      } else if top.phase == 2 {
        CommaStep(scalar, text, was, arena, stack, ws, root);
        if !Looking(text, pos, ',') { return Refused("Expecting ',' delimiter", pos); }
        stack := Replace(stack, top.(phase := 1));
        pos := pos + 1;
      } else {
        ItemNeeded(scalar, text, was, arena, stack, ws, root);
        var key := "";
        if top.kind == '{' {
          SkipTwice(text, was);
          var named := ReadKey(scalar, text, pos);
          if named.Error? { return Refused(named.message, named.at); }
          key, pos := named.value, named.end;
        }
        assert ItemAt(scalar, text, was, top.kind, key, pos);
        var item, arena', stack' := Start(scalar, text, pos, arena, stack);
        ItemTaken(scalar, text, was, arena, stack, ws, root, key, pos, item, arena', stack');
        if item.Error? { return Refused(item.message, item.at); }
        ws := NextWaiting(arena, stack, ws, key, item.value, stack');
        arena := arena'[top.id := Added(arena'[top.id], key, item.value)];
        stack := stack'[|stack| - 1 := top.(phase := 2)];
        pos := item.end;
      }
    }
    TrackFacts(scalar, text, pos, arena, stack, ws, root);
    pos := Skip(text, pos);
    if pos != |text| { return Refused("Extra data", pos); }
    return Tree(arena, root);
  }

  ghost function NextWaiting(arena: seq<Container>, stack: seq<Frame>, ws: seq<Waiting>, key: string, item: Ref,
                             stack': seq<Frame>): seq<Waiting>
    requires |ws| == |stack| > 0 && stack[|stack| - 1].id < |arena|
  {
    var w := ws[|ws| - 1];
    if item.Leaf? then
      Replace(ws, Waiting(AddedTree(w.tree, key, Scalar(item.a)), Added(arena[stack[|stack| - 1].id], key, item), ""))
    else
      Replace(ws, w.(key := key)) + [if stack' != []
        && stack'[|stack'| - 1].kind == '[' then EMPTY_ARRAY else EMPTY_OBJECT]
  }

  method ReadKey(scalar: Reader, text: string, pos: nat) returns (r: Parsed<string>)
    requires Reads(scalar) && pos <= |text| && Skip(text, pos) == pos
    ensures r == Key(scalar, text, pos)
  {
    if !Looking(text, pos, '"') { return Error("Expecting property name enclosed in double quotes", pos); }
    var t := scalar(text, pos);
    if t.Bad? { return Error(t.message, t.at); }
    var colon := Skip(text, t.end);
    if !Looking(text, colon, ':') { return Error("Expecting ':' delimiter", colon); }
    return Good(t.a.s, colon + 1);
  }
}
