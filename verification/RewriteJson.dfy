/** The stack-safe rewriter that the truth passes use: containers are copied into new ones,
each copy is put into its parent while still empty, and a callback replaces each dictionary
after everything below it. Results are references, so that sharing can be told. */
module RewriteJson {
  import opened Core

  // ----- what is rewritten -----

  datatype Ref = Leaf(v: int) | At(id: nat)

  datatype Node = Dictionary(entries: seq<(string, Ref)>) | List(items: seq<Ref>)

  /** Containers by identity, numbered so that each contains only smaller ones: any input
  without cycles can be numbered so. */
  type Store = nat -> Node

  function Children(n: Node): seq<Ref> {
    match n
    case List(items) => items
    case Dictionary(entries) => seq(|entries|, i requires 0 <= i < |entries| => entries[i].1)
  }

  ghost predicate Acyclic(store: Store) {
    forall id: nat, i | 0 <= i < |Children(store(id))| && Children(store(id))[i].At? :: Children(store(id))[i].id < id
  }

  /** The keys of a dictionary are distinct. */
  ghost predicate Keyed(store: Store) {
    forall id: nat | store(id).Dictionary? ::
      forall i, j | 0 <= i < j < |store(id).entries| :: store(id).entries[i].0 != store(id).entries[j].0
  }

  // ----- what it is rewritten to -----

  datatype Value = Plain(v: int) | Box(at: nat)

  datatype Container = Dict(entries: seq<(string, Value)>) | Items(items: seq<Value>)

  type Heap = seq<Container>

  const NONE: Value := Plain(0)

  /** A slot of a container: by position in a list, by name in a dictionary. */
  datatype Place = Place(copy: nat, slot: nat, name: string)

  function PlaceOf(n: Node, copy: nat, i: nat): Place
    requires i < |Children(n)|
  {
    Place(copy, i, if n.Dictionary? then n.entries[i].0 else "")
  }

  function Put(entries: seq<(string, Value)>, name: string, v: Value): seq<(string, Value)> {
    if entries == [] then [(name, v)]
    else if entries[0].0 == name then [(name, v)] + entries[1..]
    else [entries[0]] + Put(entries[1..], name, v)
  }

  function With(c: Container, p: Place, v: Value): Container {
    match c
    case Items(items) => if p.slot < |items| then Items(items[p.slot := v]) else c
    case Dict(entries) => Dict(Put(entries, p.name, v))
  }

  function Assign(heap: Heap, p: Place, v: Value): (h: Heap)
    ensures |h| == |heap|
  {
    if p.copy < |heap| then heap[p.copy := With(heap[p.copy], p, v)] else heap
  }

  function Blank(n: Node): Container {
    match n
    case List(items) => Items(seq(|items|, _ => NONE))
    case Dictionary(_) => Dict([])
  }

  /** One container finished: where its result went, its copy and what the copy held when it
  was complete, the first number the callback could give a container of its own, and the
  result. */
  datatype Visit = Visit(id: nat, place: Place, copy: nat, content: Container, made: nat, result: Value)

  /** The callback may keep state: it sees all that was finished before, the copy it is given
  and everything that can be reached. It may change the containers it is given. */
  type Callback = (seq<Visit>, nat, nat, Heap) -> (Value, Heap)

  datatype Progress = Progress(heap: Heap, cache: map<nat, Value>, log: seq<Visit>)

  /** A container whose copy is complete. A list's copy is its result. */
  function Finish(store: Store, rewrite: Callback, memoize: bool, id: nat, place: Place, copy: nat,
                  st: Progress): (Value, Progress) {
    var content := if copy < |st.heap| then st.heap[copy] else Items([]);
    var (v, heap) := if store(id).Dictionary? then rewrite(st.log, id, copy, st.heap) else (Box(copy), st.heap);
    (v, Progress(if store(id).Dictionary? then Assign(heap, place, v) else heap,
                 if memoize then st.cache[id := v] else st.cache,
                 st.log + [Visit(id, place, copy, content, |st.heap|, v)]))
  }

  /** Put a new, empty copy in its place. */
  function Opened(n: Node, place: Place, st: Progress): Progress {
    st.(heap := Assign(st.heap, place, Box(|st.heap|)) + [Blank(n)])
  }

  // ----- recursively -----

  /** Fill `place` with what `r` is rewritten to. */
  function Fill(store: Store, rewrite: Callback, memoize: bool, r: Ref, place: Place, st: Progress): (Value, Progress)
    requires Acyclic(store)
    decreases if r.At? then r.id + 1 else 0, 0
  {
    if r.Leaf? then (Plain(r.v), st.(heap := Assign(st.heap, place, Plain(r.v))))
    else if memoize && r.id in st.cache then (st.cache[r.id], st.(heap := Assign(st.heap, place, st.cache[r.id])))
    else
      var (_, st1) := FillAll(store, rewrite, memoize, r.id, |st.heap|, 0, Opened(store(r.id), place, st));
      Finish(store, rewrite, memoize, r.id, place, |st.heap|, st1)
  }

  /** Fill the slots of `copy` from slot `from` on with the children of container `id`. */
  function FillAll(store: Store, rewrite: Callback, memoize: bool, id: nat, copy: nat, from: nat,
                   st: Progress): (r: (seq<Value>, Progress))
    requires Acyclic(store) && from <= |Children(store(id))|
    ensures |r.0| == |Children(store(id))| - from
    decreases id, 1, |Children(store(id))| - from
  {
    if from == |Children(store(id))| then ([], st) else
    var (v, st1) := Fill(store, rewrite, memoize, Children(store(id))[from], PlaceOf(store(id), copy, from), st);
    var (vs, st2) := FillAll(store, rewrite, memoize, id, copy, from + 1, st1);
    ([v] + vs, st2)
  }

  // ----- with a stack -----

  /** Fill `place` with what `current` is rewritten to; a `ready` item has had its children put
  on the stack above it, to fill copy `ready`. */
  datatype Item = Item(current: Ref, place: Place, ready: Option<nat>)

  function Fills(n: Node, copy: nat, from: nat): seq<Item>
    requires from <= |Children(n)|
    decreases |Children(n)| - from
  {
    if from == |Children(n)| then []
    else Fills(n, copy, from + 1) + [Item(Children(n)[from], PlaceOf(n, copy, from), None)]
  }

  /** What the stack still comes to. */
  ghost function Rest(store: Store, rewrite: Callback, memoize: bool, pending: seq<Item>, st: Progress): Progress
    requires Acyclic(store)
    decreases |pending|
  {
    if pending == [] then st else
    var top := pending[|pending| - 1];
    Rest(store, rewrite, memoize, pending[..|pending| - 1],
         if top.ready.Some? && top.current.At?
         then Finish(store, rewrite, memoize, top.current.id, top.place, top.ready.value, st).1
         else Fill(store, rewrite, memoize, top.current, top.place, st).1)
  }

  lemma RestPush(store: Store, rewrite: Callback, memoize: bool, pending: seq<Item>, top: Item, st: Progress)
    requires Acyclic(store)
    ensures Rest(store, rewrite, memoize, pending + [top], st) ==
      Rest(store, rewrite, memoize, pending,
           if top.ready.Some? && top.current.At?
           then Finish(store, rewrite, memoize, top.current.id, top.place, top.ready.value, st).1
           else Fill(store, rewrite, memoize, top.current, top.place, st).1)
  {
    hide Fill, Finish, Acyclic;
    assert (pending + [top])[..|pending|] == pending;
  }

  /** The children's items, all processed, fill the copy in order. */
  lemma {:induction false} RestFills(store: Store, rewrite: Callback, memoize: bool, pending: seq<Item>, id: nat,
                                     copy: nat, from: nat, st: Progress)
    requires Acyclic(store) && from <= |Children(store(id))|
    ensures Rest(store, rewrite, memoize, pending + Fills(store(id), copy, from), st) ==
            Rest(store, rewrite, memoize, pending, FillAll(store, rewrite, memoize, id, copy, from, st).1)
    decreases |Children(store(id))| - from
  {
    hide Fill, Rest, Acyclic, Children;
    if from == |Children(store(id))| {
      assert pending + [] == pending;
    } else {
      var item := Item(Children(store(id))[from], PlaceOf(store(id), copy, from), None);
      assert pending + Fills(store(id), copy, from) == pending + Fills(store(id), copy, from + 1) + [item];
      RestPush(store, rewrite, memoize, pending + Fills(store(id), copy, from + 1), item, st);
      RestFills(store, rewrite, memoize, pending, id, copy, from + 1,
          Fill(store, rewrite, memoize, item.current, item.place, st).1);
    }
  }

  /** Opening a container on the stack comes to filling its place. */
  lemma OpenContainer(store: Store, rewrite: Callback, memoize: bool, pending: seq<Item>, id: nat, place: Place,
                      st: Progress)
    requires Acyclic(store) && !(memoize && id in st.cache)
    ensures Rest(store, rewrite, memoize, pending + [Item(At(id), place, Some(|st.heap|))] + Fills(store(id), |st.heap|, 0), Opened(store(id), place, st))
            == Rest(store, rewrite, memoize, pending + [Item(At(id), place, None)], st)
  {
    hide Rest, Acyclic, Finish, FillAll, Opened, Children, Fills;
    var ready := Item(At(id), place, Some(|st.heap|));
    var st1 := Opened(store(id), place, st);
    RestFills(store, rewrite, memoize, pending + [ready], id, |st.heap|, 0, st1);
    RestPush(store, rewrite, memoize, pending, ready, FillAll(store, rewrite, memoize, id, |st.heap|, 0, st1).1);
    RestPush(store, rewrite, memoize, pending, Item(At(id), place, None), st);
  }

  // ----- it ends -----

  ghost function Work(store: Store, r: Ref): nat
    requires Acyclic(store)
    decreases if r.At? then r.id + 1 else 0, 0
  {
    if r.Leaf? then 1 else 2 + WorkAll(store, r.id, 0)
  }

  ghost function WorkAll(store: Store, id: nat, from: nat): nat
    requires Acyclic(store) && from <= |Children(store(id))|
    decreases id, 1, |Children(store(id))| - from
  {
    if from == |Children(store(id))| then 0 else Work(store, Children(store(id))[from]) + WorkAll(store, id, from + 1)
  }

  ghost function Load(store: Store, pending: seq<Item>): nat
    requires Acyclic(store)
    decreases |pending|
  {
    if pending == [] then 0 else
    var top := pending[|pending| - 1];
    (if top.ready.Some? then 1 else Work(store, top.current)) + Load(store, pending[..|pending| - 1])
  }

  lemma LoadPush(store: Store, pending: seq<Item>, top: Item)
    requires Acyclic(store)
    ensures Load(store, pending + [top]) ==
            (if top.ready.Some? then 1 else Work(store, top.current)) + Load(store, pending)
  {
    assert (pending + [top])[..|pending|] == pending;
  }

  lemma {:induction false} LoadFills(store: Store, pending: seq<Item>, id: nat, copy: nat, from: nat)
    requires Acyclic(store) && from <= |Children(store(id))|
    ensures Load(store, pending + Fills(store(id), copy, from)) == WorkAll(store, id, from) + Load(store, pending)
    decreases |Children(store(id))| - from
  {
    hide Work, Acyclic, Load, Children;
    if from == |Children(store(id))| {
      assert pending + [] == pending;
    } else {
      var item := Item(Children(store(id))[from], PlaceOf(store(id), copy, from), None);
      assert pending + Fills(store(id), copy, from) == pending + Fills(store(id), copy, from + 1) + [item];
      LoadPush(store, pending + Fills(store(id), copy, from + 1), item);
      LoadFills(store, pending, id, copy, from + 1);
    }
  }

  lemma OpenLoad(store: Store, pending: seq<Item>, id: nat, ready: Item, copy: nat)
    requires Acyclic(store) && ready.ready.Some?
    ensures Load(store, pending + [ready] + Fills(store(id), copy, 0)) < Work(store, At(id)) + Load(store, pending)
  {
    hide Load, Fills, Children;
    LoadPush(store, pending, ready);
    LoadFills(store, pending + [ready], id, copy, 0);
  }

  const START: Progress := Progress([Items([NONE])], map[], [])
  const ROOT: Place := Place(0, 0, "")

  /** The loop, memoised or not, does what the recursion does: same result, same copies with
  the same contents, and the same calls of the callback in the same order. */
  method Rewrite(store: Store, rewrite: Callback, memoize: bool, root: Ref) returns (st: Progress)
    requires Acyclic(store)
    ensures st == Fill(store, rewrite, memoize, root, ROOT, START).1
  {
    hide Rest, Fill, Work, Load, Acyclic, Finish, Fills, Opened, Children;
    st := START;
    var pending := [Item(root, ROOT, None)];
    Begin(store, rewrite, memoize, root);
    while pending != []
      invariant Rest(store, rewrite, memoize, pending, st) == Fill(store, rewrite, memoize, root, ROOT, START).1
      decreases Load(store, pending)
    {
      var top := pending[|pending| - 1];
      ghost var was := pending;
      pending := pending[..|pending| - 1];
      assert was == pending + [top];
      RestPush(store, rewrite, memoize, pending, top, st);
      LoadPush(store, pending, top);
      Steps(store, rewrite, memoize, top.current, top.place, st);
      if top.ready.Some? && top.current.At? {
        st := Finish(store, rewrite, memoize, top.current.id, top.place, top.ready.value, st).1;
      } else if top.current.Leaf? {
        st := st.(heap := Assign(st.heap, top.place, Plain(top.current.v)));
      } else if memoize && top.current.id in st.cache {
        st := st.(heap := Assign(st.heap, top.place, st.cache[top.current.id]));
      } else {
        var id, copy := top.current.id, |st.heap|;
        var ready := Item(top.current, top.place, Some(copy));
        OpenContainer(store, rewrite, memoize, pending, id, top.place, st);
        OpenLoad(store, pending, id, ready, copy);
        st := Opened(store(id), top.place, st);
        pending := pending + [ready] + Fills(store(id), copy, 0);
      }
    }
    NothingLeft(store, rewrite, memoize, st);
  }

  lemma Begin(store: Store, rewrite: Callback, memoize: bool, root: Ref)
    requires Acyclic(store)
    ensures Rest(store, rewrite, memoize, [Item(root, ROOT, None)], START) ==
            Fill(store, rewrite, memoize, root, ROOT, START).1
  {
    hide Fill, Acyclic;
    assert [Item(root, ROOT, None)][..0] == [];
  }

  lemma NothingLeft(store: Store, rewrite: Callback, memoize: bool, st: Progress)
    requires Acyclic(store)
    ensures Rest(store, rewrite, memoize, [], st) == st
  {}

  lemma Steps(store: Store, rewrite: Callback, memoize: bool, r: Ref, place: Place, st: Progress)
    requires Acyclic(store)
    ensures r.Leaf? ==> Fill(store, rewrite, memoize, r, place, st).1 == st.(heap := Assign(st.heap, place, Plain(r.v)))
    ensures r.At? && memoize && r.id in st.cache ==>
      Fill(store, rewrite, memoize, r, place, st).1 == st.(heap := Assign(st.heap, place, st.cache[r.id]))
    ensures Work(store, r) > 0
  {
    hide FillAll, Finish;
  }

  // ----- sharing -----

  /** A callback changes no container but the copy it is given. */
  ghost predicate Polite(rewrite: Callback) {
    forall log: seq<Visit>, id: nat, copy: nat, heap: Heap | copy < |heap| ::
      var h := rewrite(log, id, copy, heap).1;
      |h| >= |heap| && forall i | 0 <= i < |heap| && i != copy :: h[i] == heap[i]
  }

  function SlotValue(c: Container, i: nat): Value {
    match c
    case Items(items) => if i < |items| then items[i] else NONE
    case Dict(entries) => if i < |entries| then entries[i].1 else NONE
  }

  /** A value in a slot comes from the child: it is the child, or the result of a visit to it
  among the first `n`, which unmemoised was for this very slot. */
  ghost predicate Explains(memoize: bool, log: seq<Visit>, n: nat, child: Ref, place: Place, v: Value) {
    match child
    case Leaf(x) => v == Plain(x)
    case At(c) => exists j :: 0 <= j < n && j < |log| && log[j].id == c && log[j].result == v && (!memoize ==> log[j].place == place)
  }

  /** A copy with the first slots filled. */
  function Partial(n: Node, vs: seq<Value>): Container
    requires |vs| <= |Children(n)|
  {
    match n
    case List(items) => Items(vs + seq(|items| - |vs|, _ => NONE))
    case Dictionary(entries) => Dict(seq(|vs|, i requires 0 <= i < |vs| => (entries[i].0, vs[i])))
  }

  /** What a complete copy held: all slots filled, each with the value its child accounts for. */
  ghost predicate Accounted(store: Store, memoize: bool, log: seq<Visit>, k: nat)
    requires k < |log|
  {
    var n := store(log[k].id);
    exists vs: seq<Value> :: |vs| == |Children(n)| && log[k].content == Partial(n, vs)
      && forall i | 0 <= i < |vs| :: Explains(memoize, log, k, Children(n)[i], PlaceOf(n, log[k].copy, i), vs[i])
  }

  ghost predicate Kept(store: Store, memoize: bool, st: Progress) {
    && (forall k | 0 <= k < |st.log| :: Accounted(store, memoize, st.log, k))
    && Copies(store, st) && (memoize ==> Cached(st)) && (!memoize ==> OnePlace(st.log))
  }

  /** Every visit has a copy of its own; a list's copy is its result and stays as it was. */
  ghost predicate Copies(store: Store, st: Progress) {
    && (forall k | 0 <= k < |st.log| :: st.log[k].copy < |st.heap| && st.log[k].place.copy < |st.heap|)
    && (forall k | 0 <= k < |st.log| && store(st.log[k].id).List? ::
         st.heap[st.log[k].copy] == st.log[k].content && st.log[k].result == Box(st.log[k].copy))
    && (forall j, k | 0 <= j < k < |st.log| :: st.log[j].copy != st.log[k].copy)
  }

  ghost predicate OnePlace(log: seq<Visit>) {
    forall j, k | 0 <= j < k < |log| :: log[j].place != log[k].place
  }

  /** The cache holds the result of the one visit to each container. */
  ghost predicate Cached(st: Progress) {
    && (forall k | 0 <= k < |st.log| :: st.log[k].id in st.cache && st.cache[st.log[k].id] == st.log[k].result)
    && (forall j, k | 0 <= j < k < |st.log| :: st.log[j].id != st.log[k].id)
    && (forall id | id in st.cache :: exists k :: 0 <= k < |st.log| && st.log[k].id == id)
  }

  /** `copy` is open: no finished container's copy. */
  ghost predicate Open(st: Progress, copy: nat) {
    copy < |st.heap| && forall k | 0 <= k < |st.log| :: st.log[k].copy != copy
  }

  /** What happens while `copy` is being filled: other containers stay, and what is finished
  has copies of its own. */
  ghost predicate Grows(st: Progress, st': Progress, copy: nat) {
    && st.log <= st'.log && |st.heap| <= |st'.heap|
    && (forall i | 0 <= i < |st.heap| && i != copy :: st'.heap[i] == st.heap[i])
    && (forall k | |st.log| <= k < |st'.log| ::
         st'.log[k].copy >= |st.heap| && (st'.log[k].place.copy >= |st.heap| || st'.log[k].place.copy == copy))
  }

  /** Containers finished since `st` are numbered below `bound`. */
  ghost predicate Lower(st: Progress, st': Progress, bound: nat) {
    forall k | |st.log| <= k < |st'.log| :: st'.log[k].id < bound
  }

  /** `place` is new: no visit was for it. Unmemoised there is one visit for each. */
  ghost predicate Fresh(memoize: bool, log: seq<Visit>, place: Place) {
    !memoize ==> forall k | 0 <= k < |log| :: log[k].place != place
  }

  /** A container after `v` was put in a slot, which may have held a copy for a while. */
  ghost predicate Landed(c: Container, p: Place, v: Value, c': Container) {
    c' == With(c, p, v) || exists b :: c' == With(With(c, p, b), p, v)
  }

  lemma {:induction false} PutAtEnd(entries: seq<(string, Value)>, name: string, b: Value, v: Value)
    requires forall i | 0 <= i < |entries| :: entries[i].0 != name
    ensures Put(entries, name, v) == entries + [(name, v)]
    ensures Put(entries + [(name, b)], name, v) == entries + [(name, v)]
  {
    if entries != [] {
      PutAtEnd(entries[1..], name, b, v);
      assert (entries + [(name, b)])[1..] == entries[1..] + [(name, b)];
    }
  }

  /** Filling the next slot, whatever stood there for a while. */
  lemma WithPartial(store: Store, id: nat, copy: nat, vs: seq<Value>, b: Value, v: Value)
    requires Keyed(store) && |vs| < |Children(store(id))|
    ensures var p := PlaceOf(store(id), copy, |vs|);
            var c := Partial(store(id), vs);
            With(c, p, v) == Partial(store(id), vs + [v]) == With(With(c, p, b), p, v)
  {
    var n := store(id);
    var p := PlaceOf(n, copy, |vs|);
    if n.Dictionary? {
      var before := Partial(n, vs).entries;
      PutAtEnd(before, p.name, b, v);
      PutAtEnd(before, p.name, b, b);
      assert Partial(n, vs + [v]).entries == before + [(p.name, v)];
    } else {
      assert Partial(n, vs + [v]).items == Partial(n, vs).items[|vs| := v];
    }
  }

  lemma BlankIsPartial(n: Node)
    ensures Blank(n) == Partial(n, [])
  {
    if n.List? { assert Blank(n).items == Partial(n, []).items; }
  }

  lemma {:induction false} FillKeeps(store: Store, rewrite: Callback, memoize: bool, r: Ref, place: Place, st: Progress)
    requires Acyclic(store) && Keyed(store) && Polite(rewrite)
    requires Kept(store, memoize, st) && Open(st, place.copy) && Fresh(memoize, st.log, place)
    ensures var (v, st') := Fill(store, rewrite, memoize, r, place, st);
      && Kept(store, memoize, st') && Open(st', place.copy) && Grows(st, st', place.copy)
      && Lower(st, st', if r.At? then r.id + 1 else 0)
      && (forall k | |st.log| <= k < |st'.log| :: st'.log[k].place == place || st'.log[k].place.copy >= |st.heap|)
      && Landed(st.heap[place.copy], place, v, st'.heap[place.copy])
      && Explains(memoize, st'.log, |st'.log|, r, place, v)
    decreases if r.At? then r.id + 1 else 0, 0
  {
    hide Kept, Open, Grows, Landed, Explains, Lower, Fresh, FillAll, Finish, Acyclic, Keyed, Polite, Filling, Partial;
    if r.Leaf? {
      PutKeeps(store, memoize, place, Plain(r.v), st);
      LeafExplained(memoize, st.log, r, place);
    } else if memoize && r.id in st.cache {
      PutKeeps(store, memoize, place, st.cache[r.id], st);
      CacheExplained(store, st, r.id, place);
    } else {
      var st1 := Opened(store(r.id), place, st);
      OpenKeeps(store, memoize, r.id, place, st);
      StartsFilling(store, memoize, r.id, |st.heap|, st1);
      FillAllKeeps(store, rewrite, memoize, r.id, |st.heap|, [], st1);
      var (vs, st2) := FillAll(store, rewrite, memoize, r.id, |st.heap|, 0, st1);
      assert [] + vs == vs;
      FillingParts(store, memoize, r.id, |st.heap|, vs, st2);
      NotYet(store, memoize, r.id, st1, st2);
      FinishKeeps(store, rewrite, memoize, r.id, place, vs, st, st2);
    }
  }

  /** The slots of an open copy, filled as far as `vals` goes. */
  ghost predicate Filling(store: Store, memoize: bool, id: nat, copy: nat, vals: seq<Value>, st: Progress) {
    var n := store(id);
    && Kept(store, memoize, st) && Open(st, copy) && |vals| <= |Children(n)| && st.heap[copy] == Partial(n, vals)
    && (forall i | 0 <= i < |vals| :: Explains(memoize, st.log, |st.log|, Children(n)[i], PlaceOf(n, copy, i), vals[i]))
    && forall k | 0 <= k < |st.log| && st.log[k].place.copy == copy :: st.log[k].place.slot < |vals|
  }

  lemma {:induction false} FillAllKeeps(store: Store, rewrite: Callback, memoize: bool, id: nat, copy: nat,
                                        vals: seq<Value>, st: Progress)
    requires Acyclic(store) && Keyed(store) && Polite(rewrite) && Filling(store, memoize, id, copy, vals, st)
    ensures var (vs, st') := FillAll(store, rewrite, memoize, id, copy, |vals|, st);
      Filling(store, memoize, id, copy, vals + vs, st') && Grows(st, st', copy) && Lower(st, st', id)
    decreases id, 2, |Children(store(id))| - |vals|
  {
    hide Filling, Grows, Lower, Fill, Acyclic, Keyed, Polite;
    InRange(store, memoize, id, copy, vals, st);
    if |vals| == |Children(store(id))| {
      assert vals + [] == vals;
      NothingGrows(st, copy, id);
    } else {
      FillNext(store, rewrite, memoize, id, copy, vals, st);
      var (v, st1) := Fill(store, rewrite, memoize, Children(store(id))[|vals|], PlaceOf(store(id), copy, |vals|), st);
      FillAllKeeps(store, rewrite, memoize, id, copy, vals + [v], st1);
      var (vs, st2) := FillAll(store, rewrite, memoize, id, copy, |vals| + 1, st1);
      assert vals + [v] + vs == vals + ([v] + vs);
      GrowsTwice(st, st1, st2, copy, id, id);
    }
  }

  lemma InRange(store: Store, memoize: bool, id: nat, copy: nat, vals: seq<Value>, st: Progress)
    requires Filling(store, memoize, id, copy, vals, st)
    ensures |vals| <= |Children(store(id))| && Open(st, copy) && copy < |st.heap| && Kept(store, memoize, st)
  {
    hide Kept;
  }

  /** One more slot. */
  lemma {:induction false} FillNext(store: Store, rewrite: Callback, memoize: bool, id: nat, copy: nat,
                                    vals: seq<Value>, st: Progress)
    requires Acyclic(store) && Keyed(store) && Polite(rewrite) && Filling(store, memoize, id, copy, vals, st)
             && |vals| < |Children(store(id))|
    ensures var (v, st1) := Fill(store, rewrite, memoize, Children(store(id))[|vals|],
        PlaceOf(store(id), copy, |vals|), st);
      && Filling(store, memoize, id, copy, vals + [v], st1) && Grows(st, st1, copy) && Lower(st, st1, id)
      && Fresh(memoize, st.log, PlaceOf(store(id), copy, |vals|))
    decreases id, 1
  {
    hide Kept, Open, Grows, Landed, Explains, Lower, Fill, Acyclic, Keyed, Polite, Partial, With;
    var n := store(id);
    var from := |vals|;
    var child, place := Children(n)[from], PlaceOf(n, copy, from);
    ChildBelow(store, id, from);
    FillKeeps(store, rewrite, memoize, child, place, st);
    var (v, st1) := Fill(store, rewrite, memoize, child, place, st);
    InHeap(st, copy);
    InHeap(st1, copy);
    LandsNext(store, id, copy, vals, v, st.heap[copy], st1.heap[copy]);
    StillExplained(memoize, st, st1, copy);
    GrowsNext(st, st1, copy, from, place);
    NothingGrows(st1, copy, id);
    GrowsTwice(st, st1, st1, copy, if child.At? then child.id + 1 else 0, id);
  }

  lemma InHeap(st: Progress, copy: nat)
    requires Open(st, copy)
    ensures copy < |st.heap|
  {}

  lemma ChildBelow(store: Store, id: nat, i: nat)
    requires Acyclic(store) && i < |Children(store(id))|
    ensures Children(store(id))[i].At? ==> Children(store(id))[i].id < id
  {}

  lemma NothingGrows(st: Progress, copy: nat, bound: nat)
    ensures Grows(st, st, copy) && Lower(st, st, bound)
  {}

  lemma LandsNext(store: Store, id: nat, copy: nat, vals: seq<Value>, v: Value, c: Container, c': Container)
    requires Keyed(store) && |vals| < |Children(store(id))| && c == Partial(store(id), vals)
    requires Landed(c, PlaceOf(store(id), copy, |vals|), v, c')
    ensures c' == Partial(store(id), vals + [v])
  {
    hide Keyed, Partial, With;
    var p := PlaceOf(store(id), copy, |vals|);
    WithPartial(store, id, copy, vals, v, v);
    if c' != With(c, p, v) {
      var b :| c' == With(With(c, p, b), p, v);
      WithPartial(store, id, copy, vals, b, v);
    }
  }

  lemma StillExplained(memoize: bool, st: Progress, st1: Progress, copy: nat)
    requires Grows(st, st1, copy)
    ensures forall child, place, v | Explains(memoize, st.log, |st.log|, child, place, v) ::
            Explains(memoize, st1.log, |st1.log|, child, place, v)
  {}

  lemma GrowsNext(st: Progress, st1: Progress, copy: nat, from: nat, place: Place)
    requires Grows(st, st1, copy) && Open(st, copy) && place.copy == copy && place.slot == from
    requires forall k | 0 <= k < |st.log| && st.log[k].place.copy == copy :: st.log[k].place.slot < from
    requires forall k | |st.log| <= k < |st1.log| :: st1.log[k].place == place || st1.log[k].place.copy >= |st.heap|
    ensures forall k | 0 <= k < |st1.log| && st1.log[k].place.copy == copy :: st1.log[k].place.slot < from + 1
  {}

  lemma GrowsTwice(st: Progress, st1: Progress, st2: Progress, copy: nat, b1: nat, b2: nat)
    requires Grows(st, st1, copy) && Grows(st1, st2, copy) && Lower(st, st1, b1) && Lower(st1, st2, b2) && b1 <= b2
    ensures Grows(st, st2, copy) && Lower(st, st2, b2)
  {}

  lemma LeafExplained(memoize: bool, log: seq<Visit>, r: Ref, place: Place)
    requires r.Leaf?
    ensures Explains(memoize, log, |log|, r, place, Plain(r.v))
  {}

  lemma CacheExplained(store: Store, st: Progress, id: nat, place: Place)
    requires Kept(store, true, st) && id in st.cache
    ensures Explains(true, st.log, |st.log|, At(id), place, st.cache[id])
  {
    hide Accounted;
    var k :| 0 <= k < |st.log| && st.log[k].id == id;
  }

  /** Assigning to a slot of an open copy. */
  lemma PutKeeps(store: Store, memoize: bool, place: Place, v: Value, st: Progress)
    requires Kept(store, memoize, st) && Open(st, place.copy)
    ensures var st' := st.(heap := Assign(st.heap, place, v));
      && Kept(store, memoize, st') && Open(st', place.copy) && Grows(st, st', place.copy)
      && (forall bound :: Lower(st, st', bound))
      && Landed(st.heap[place.copy], place, v, st'.heap[place.copy])
  {
    hide With;
    var st' := st.(heap := Assign(st.heap, place, v));
    SameAccounts(store, memoize, st.log, st'.log);
    hide Accounted;
  }

  lemma SameAccounts(store: Store, memoize: bool, log: seq<Visit>, log': seq<Visit>)
    requires log <= log' && forall k | 0 <= k < |log| :: Accounted(store, memoize, log, k)
    ensures forall k | 0 <= k < |log| :: Accounted(store, memoize, log', k)
  {
    forall k | 0 <= k < |log| ensures Accounted(store, memoize, log', k) {
      assert Accounted(store, memoize, log, k);
      var n := store(log[k].id);
      var vs: seq<Value> :| |vs| == |Children(n)| && log[k].content == Partial(n, vs)
        && forall i | 0 <= i < |vs| :: Explains(memoize, log, k, Children(n)[i], PlaceOf(n, log[k].copy, i), vs[i]);
      forall i | 0 <= i < |vs| ensures Explains(memoize, log', k, Children(n)[i], PlaceOf(n, log[k].copy, i), vs[i]) {
        assert Explains(memoize, log, k, Children(n)[i], PlaceOf(n, log[k].copy, i), vs[i]);
      }
    }
  }

  /** Putting a new, empty copy in its place. */
  lemma OpenKeeps(store: Store, memoize: bool, id: nat, place: Place, st: Progress)
    requires Kept(store, memoize, st) && Open(st, place.copy)
    ensures var st1 := Opened(store(id), place, st);
      && Kept(store, memoize, st1) && Open(st1, |st.heap|) && Open(st1, place.copy)
      && st1.heap[|st.heap|] == Partial(store(id), []) && st1.log == st.log && st1.cache == st.cache
         && |st1.heap| == |st.heap| + 1
      && (forall i | 0 <= i < |st.heap| && i != place.copy :: st1.heap[i] == st.heap[i])
      && st1.heap[place.copy] == With(st.heap[place.copy], place, Box(|st.heap|))
      && forall k | 0 <= k < |st.log| :: st.log[k].place.copy != |st.heap|
  {
    hide With, Accounted;
    BlankIsPartial(store(id));
  }

  lemma StartsFilling(store: Store, memoize: bool, id: nat, copy: nat, st: Progress)
    requires Kept(store, memoize, st) && Open(st, copy) && st.heap[copy] == Partial(store(id), [])
    requires forall k | 0 <= k < |st.log| :: st.log[k].place.copy != copy
    ensures Filling(store, memoize, id, copy, [], st)
  {
    hide Kept, Partial;
  }

  lemma FillingParts(store: Store, memoize: bool, id: nat, copy: nat, vals: seq<Value>, st: Progress)
    requires Filling(store, memoize, id, copy, vals, st)
    ensures Kept(store, memoize, st) && Open(st, copy) && copy < |st.heap| && |vals| <= |Children(store(id))|
    ensures st.heap[copy] == Partial(store(id), vals)
    ensures forall i | 0 <= i < |vals| ::
            Explains(memoize, st.log, |st.log|, Children(store(id))[i], PlaceOf(store(id), copy, i), vals[i])
  {
    hide Kept, Partial, Explains;
  }

  /** What was done below a new copy leaves the rest as it was; the container itself is not
  among what was finished. */
  lemma NotYet(store: Store, memoize: bool, id: nat, st: Progress, st2: Progress)
    requires Kept(store, memoize, st) && Kept(store, memoize, st2) && (exists copy :: Grows(st, st2, copy))
    requires Lower(st, st2, id) && !(memoize && id in st.cache)
    ensures memoize ==> id !in st2.cache
  {
    hide Accounted;
  }

  /** Finishing a container whose slots are filled. */
  lemma FinishKeeps(store: Store, rewrite: Callback, memoize: bool, id: nat, place: Place, vs: seq<Value>,
                    st: Progress, st2: Progress)
    requires Polite(rewrite) && Kept(store, memoize, st) && Open(st, place.copy) && Fresh(memoize, st.log, place)
    requires Kept(store, memoize, st2) && Open(st2, |st.heap|) && (memoize ==> id !in st2.cache)
    requires var st1 := Opened(store(id), place, st); Grows(st1, st2, |st.heap|) && Lower(st1, st2, id)
    requires |vs| == |Children(store(id))| && st2.heap[|st.heap|] == Partial(store(id), vs)
    requires forall i | 0 <= i < |vs| ::
      Explains(memoize, st2.log, |st2.log|, Children(store(id))[i], PlaceOf(store(id), |st.heap|, i), vs[i])
    ensures var (v, st') := Finish(store, rewrite, memoize, id, place, |st.heap|, st2);
      && Kept(store, memoize, st') && Open(st', place.copy) && Grows(st, st', place.copy) && Lower(st, st', id + 1)
      && (forall k | |st.log| <= k < |st'.log| :: st'.log[k].place == place || st'.log[k].place.copy >= |st.heap|)
      && Landed(st.heap[place.copy], place, v, st'.heap[place.copy])
      && Explains(memoize, st'.log, |st'.log|, At(id), place, v)
  {
    hide Kept, Grows, Lower, Fresh, Accounted, Polite, Cached, Landed, With, Blank, Partial, Explains;
    var copy := |st.heap|;
    var (v, st') := Finish(store, rewrite, memoize, id, place, copy, st2);
    FinishHeap(store, rewrite, memoize, id, place, st, st2);
    LastVisit(memoize, id, place, st2.log, st'.log, v);
    FinishLog(store, rewrite, memoize, id, place, vs, st, st2);
  }

  lemma LastVisit(memoize: bool, id: nat, place: Place, log: seq<Visit>, log': seq<Visit>, v: Value)
    requires |log'| == |log| + 1 && var last := log'[|log|]; last.id == id && last.place == place && last.result == v
    ensures Explains(memoize, log', |log'|, At(id), place, v)
  {}

  /** The callback changes only its copy, and its result goes where the copy stood. */
  lemma FinishHeap(store: Store, rewrite: Callback, memoize: bool, id: nat, place: Place, st: Progress, st2: Progress)
    requires Polite(rewrite) && Open(st, place.copy) && Open(st2, |st.heap|)
    requires Grows(Opened(store(id), place, st), st2, |st.heap|)
    ensures var (v, st') := Finish(store, rewrite, memoize, id, place, |st.heap|, st2);
      && |st'.heap| >= |st2.heap| && |st2.heap| > |st.heap|
      && (forall i | 0 <= i < |st2.heap| && i != place.copy && i != |st.heap| :: st'.heap[i] == st2.heap[i])
      && (forall i | 0 <= i < |st.heap| && i != place.copy :: st'.heap[i] == st.heap[i])
      && (store(id).List? ==> st'.heap[|st.heap|] == st2.heap[|st.heap|])
      && Landed(st.heap[place.copy], place, v, st'.heap[place.copy])
  {
    hide With, Blank;
    var copy := |st.heap|;
    var st1 := Opened(store(id), place, st);
    var (v, st') := Finish(store, rewrite, memoize, id, place, copy, st2);
    assert st1.heap[place.copy] == With(st.heap[place.copy], place, Box(copy));
    assert st2.heap[place.copy] == st1.heap[place.copy];
    if store(id).Dictionary? {
      var h := rewrite(st2.log, id, copy, st2.heap).1;
      assert h[place.copy] == st2.heap[place.copy];
      assert st'.heap[place.copy] == With(With(st.heap[place.copy], place, Box(copy)), place, v);
    }
  }

  lemma FinishLog(store: Store, rewrite: Callback, memoize: bool, id: nat, place: Place, vs: seq<Value>, st: Progress,
                  st2: Progress)
    requires Polite(rewrite) && Kept(store, memoize, st) && Open(st, place.copy) && Fresh(memoize, st.log, place)
    requires Kept(store, memoize, st2) && Open(st2, |st.heap|) && (memoize ==> id !in st2.cache)
    requires var st1 := Opened(store(id), place, st); Grows(st1, st2, |st.heap|) && Lower(st1, st2, id)
    requires |vs| == |Children(store(id))| && st2.heap[|st.heap|] == Partial(store(id), vs)
    requires forall i | 0 <= i < |vs| ::
      Explains(memoize, st2.log, |st2.log|, Children(store(id))[i], PlaceOf(store(id), |st.heap|, i), vs[i])
    ensures var st' := Finish(store, rewrite, memoize, id, place, |st.heap|, st2).1;
      && Kept(store, memoize, st') && Open(st', place.copy) && Grows(st, st', place.copy) && Lower(st, st', id + 1)
      && (forall k | |st.log| <= k < |st'.log| :: st'.log[k].place == place || st'.log[k].place.copy >= |st.heap|)
  {
    hide With, Blank, Partial, Polite, Explains, Accounted, Landed, Kept, Copies, Cached, OnePlace;
    var copy := |st.heap|;
    var st' := Finish(store, rewrite, memoize, id, place, copy, st2).1;
    FinishHeap(store, rewrite, memoize, id, place, st, st2);
    KeptParts(store, memoize, st2);
    SameAccounts(store, memoize, st2.log, st'.log);
    LastAccounted(store, memoize, vs, st2.log, st'.log);
    CopiesNext(store, place, st2, st');
    if memoize { CachedNext(st2, st'); } else { PlacesNext(place, st, st2, st'); }
    assert Kept(store, memoize, st') by { KeptTogether(store, memoize, st'); }
    GrowsPast(id, place, st, Opened(store(id), place, st), st2, st');
  }

  lemma KeptParts(store: Store, memoize: bool, st: Progress)
    requires Kept(store, memoize, st)
    ensures forall k | 0 <= k < |st.log| :: Accounted(store, memoize, st.log, k)
    ensures Copies(store, st) && (memoize ==> Cached(st)) && (!memoize ==> OnePlace(st.log))
  {
    hide Accounted, Copies, Cached, OnePlace;
  }

  lemma KeptTogether(store: Store, memoize: bool, st: Progress)
    requires forall k | 0 <= k < |st.log| :: Accounted(store, memoize, st.log, k)
    requires Copies(store, st) && (memoize ==> Cached(st)) && (!memoize ==> OnePlace(st.log))
    ensures Kept(store, memoize, st)
  {
    hide Accounted, Copies, Cached, OnePlace;
  }

  lemma CopiesNext(store: Store, place: Place, st2: Progress, st': Progress)
    requires Copies(store, st2) && Open(st2, place.copy) && |st'.heap| >= |st2.heap|
    requires |st'.log| == |st2.log| + 1 && st2.log <= st'.log
    requires var v := st'.log[|st2.log|];
      && Open(st2, v.copy) && v.place == place && v.content == st2.heap[v.copy]
      && (forall i | 0 <= i < |st2.heap| && i != place.copy && i != v.copy :: st'.heap[i] == st2.heap[i])
      && (store(v.id).List? ==> st'.heap[v.copy] == st2.heap[v.copy] && v.result == Box(v.copy))
    ensures Copies(store, st')
  {
    assert forall k | 0 <= k < |st2.log| :: st'.log[k] == st2.log[k];
  }

  lemma CachedNext(st2: Progress, st': Progress)
    requires Cached(st2) && |st'.log| == |st2.log| + 1 && st2.log <= st'.log
    requires var v := st'.log[|st2.log|]; v.id !in st2.cache && st'.cache == st2.cache[v.id := v.result]
    ensures Cached(st')
  {
    assert forall k | 0 <= k < |st2.log| :: st'.log[k] == st2.log[k];
    forall id | id in st'.cache ensures exists k :: 0 <= k < |st'.log| && st'.log[k].id == id {
      if id in st2.cache {
        var k :| 0 <= k < |st2.log| && st2.log[k].id == id;
        assert st'.log[k].id == id;
      } else {
        assert st'.log[|st2.log|].id == id;
      }
    }
  }

  lemma PlacesNext(place: Place, st: Progress, st2: Progress, st': Progress)
    requires OnePlace(st2.log) && st.log <= st2.log && place.copy < |st.heap| && Fresh(false, st.log, place)
    requires forall k | |st.log| <= k < |st2.log| :: st2.log[k].place.copy >= |st.heap|
    requires |st'.log| == |st2.log| + 1 && st2.log <= st'.log && st'.log[|st2.log|].place == place
    ensures OnePlace(st'.log)
  {
    assert forall k | 0 <= k < |st2.log| :: st'.log[k] == st2.log[k];
  }

  lemma GrowsPast(id: nat, place: Place, st: Progress, st1: Progress, st2: Progress, st': Progress)
    requires Open(st, place.copy) && st1.log == st.log && |st1.heap| == |st.heap| + 1
    requires Grows(st1, st2, |st.heap|) && Lower(st1, st2, id)
    requires |st'.log| == |st2.log| + 1 && st2.log <= st'.log && |st'.heap| >= |st2.heap|
    requires forall i | 0 <= i < |st.heap| && i != place.copy :: st'.heap[i] == st.heap[i]
    requires var v := st'.log[|st2.log|]; v.id == id && v.place == place && v.copy == |st.heap|
    ensures Open(st', place.copy) && Grows(st, st', place.copy) && Lower(st, st', id + 1)
    ensures forall k | |st.log| <= k < |st'.log| :: st'.log[k].place == place || st'.log[k].place.copy >= |st.heap|
  {
    assert forall k | 0 <= k < |st2.log| :: st'.log[k] == st2.log[k];
  }

  lemma LastAccounted(store: Store, memoize: bool, vs: seq<Value>, log: seq<Visit>, log': seq<Visit>)
    requires log <= log' && |log'| == |log| + 1
    requires var v := log'[|log|]; var n := store(v.id);
      && |vs| == |Children(n)| && v.content == Partial(n, vs)
      && forall i | 0 <= i < |vs| :: Explains(memoize, log, |log|, Children(n)[i], PlaceOf(n, v.copy, i), vs[i])
    ensures Accounted(store, memoize, log', |log|)
  {
    hide Partial;
    var v := log'[|log|];
    var n := store(v.id);
    forall i | 0 <= i < |vs| ensures Explains(memoize, log', |log|, Children(n)[i], PlaceOf(n, v.copy, i), vs[i]) {
      assert Explains(memoize, log, |log|, Children(n)[i], PlaceOf(n, v.copy, i), vs[i]);
    }
  }

  // ----- what sharing comes to -----

  lemma StartKept(store: Store, memoize: bool)
    ensures Kept(store, memoize, START) && Open(START, ROOT.copy) && Fresh(memoize, START.log, ROOT)
  {}

  lemma FromStart(store: Store, rewrite: Callback, memoize: bool, root: Ref)
    requires Acyclic(store) && Keyed(store) && Polite(rewrite)
    ensures var (v, st) := Fill(store, rewrite, memoize, root, ROOT, START);
            && Kept(store, memoize, st) && Explains(memoize, st.log, |st.log|, root, ROOT, v)
  {
    StartKept(store, memoize);
    FillKeeps(store, rewrite, memoize, root, ROOT, START);
  }

  lemma SlotExplained(store: Store, memoize: bool, log: seq<Visit>, k: nat, i: nat)
    requires k < |log| && Accounted(store, memoize, log, k) && i < |Children(store(log[k].id))|
    ensures Explains(memoize, log, k, Children(store(log[k].id))[i], PlaceOf(store(log[k].id), log[k].copy, i), SlotValue(log[k].content, i))
  {}

  /** A slot of a finished container whose child is container `c`. */
  ghost predicate Holds(store: Store, log: seq<Visit>, k: nat, i: nat, c: nat) {
    k < |log| && i < |Children(store(log[k].id))| && Children(store(log[k].id))[i] == At(c)
  }

  /** Memoised, sharing is preserved: wherever two places hold the same input container, their
  copies hold the same reference, the result of its one visit. */
  lemma MemoShares(store: Store, rewrite: Callback, root: Ref, k1: nat, i1: nat, k2: nat, i2: nat, c: nat)
    requires Acyclic(store) && Keyed(store) && Polite(rewrite)
    requires var log := Fill(store, rewrite, true, root, ROOT, START).1.log; Holds(store, log, k1, i1, c) && Holds(store, log, k2, i2, c)
    ensures var log := Fill(store, rewrite, true, root, ROOT, START).1.log;
      && SlotValue(log[k1].content, i1) == SlotValue(log[k2].content, i2)
      && exists j :: 0 <= j < |log| && log[j].id == c && log[j].result == SlotValue(log[k1].content, i1)
  {
    hide Fill, Acyclic, Keyed, Polite, Accounted, Copies, SlotValue;
    FromStart(store, rewrite, true, root);
    var log := Fill(store, rewrite, true, root, ROOT, START).1.log;
    SlotExplained(store, true, log, k1, i1);
    SlotExplained(store, true, log, k2, i2);
  }

  /** Unmemoised, every occurrence is its own: two different places that hold containers hold
  the results of two different visits, with different copies. */
  lemma EachItsOwn(store: Store, rewrite: Callback, root: Ref, k1: nat, i1: nat, c1: nat, k2: nat, i2: nat,
                   c2: nat) returns (j1: nat, j2: nat)
    requires Acyclic(store) && Keyed(store) && Polite(rewrite) && (k1 != k2 || i1 != i2)
    requires var log := Fill(store, rewrite, false, root, ROOT, START).1.log; Holds(store, log, k1, i1, c1) && Holds(store, log, k2, i2, c2)
    ensures var log := Fill(store, rewrite, false, root, ROOT, START).1.log;
      && j1 < |log| && j2 < |log| && log[j1].id == c1 && log[j2].id == c2
      && SlotValue(log[k1].content, i1) == log[j1].result && SlotValue(log[k2].content, i2) == log[j2].result
      && j1 != j2 && log[j1].copy != log[j2].copy
  {
    hide Fill, Acyclic, Keyed, Polite, Accounted, SlotValue;
    FromStart(store, rewrite, false, root);
    var log := Fill(store, rewrite, false, root, ROOT, START).1.log;
    SlotExplained(store, false, log, k1, i1);
    SlotExplained(store, false, log, k2, i2);
    var p1 := PlaceOf(store(log[k1].id), log[k1].copy, i1);
    var p2 := PlaceOf(store(log[k2].id), log[k2].copy, i2);
    j1 :| 0 <= j1 < |log| && log[j1].id == c1 && log[j1].result == SlotValue(log[k1].content, i1)
      && log[j1].place == p1;
    j2 :| 0 <= j2 < |log| && log[j2].id == c2 && log[j2].result == SlotValue(log[k2].content, i2)
      && log[j2].place == p2;
    assert p1 != p2;
  }

  /** Memoised, each container is finished, and so each dictionary given to the callback,
  exactly once if it is reached: no container twice, the root, and with a container its
  children. */
  lemma MemoisedOnce(store: Store, rewrite: Callback, root: Ref)
    requires Acyclic(store) && Keyed(store) && Polite(rewrite)
    ensures var log := Fill(store, rewrite, true, root, ROOT, START).1.log;
      && (forall j, k | 0 <= j < k < |log| :: log[j].id != log[k].id)
      && (root.At? ==> exists k :: 0 <= k < |log| && log[k].id == root.id)
      && forall k, i, c | Holds(store, log, k, i, c) :: exists j :: 0 <= j < |log| && log[j].id == c
  {
    hide Fill, Acyclic, Keyed, Polite, Accounted, Copies, SlotValue;
    FromStart(store, rewrite, true, root);
    var log := Fill(store, rewrite, true, root, ROOT, START).1.log;
    forall k, i, c | Holds(store, log, k, i, c) ensures exists j :: 0 <= j < |log| && log[j].id == c {
      SlotExplained(store, true, log, k, i);
    }
  }

  // ----- memoised or not, the same tree -----

  datatype Tree = Whole(v: int) | Object(entries: seq<(string, Tree)>) | Array(items: seq<Tree>)

  /** `v` stands for tree `t`, without going through a container of `busy`. */
  ghost predicate Denotes(heap: Heap, busy: set<nat>, v: Value, t: Tree)
    decreases t
  {
    match t
    case Whole(x) => v == Plain(x)
    case Array(ts) =>
      v.Box? && v.at < |heap| && v.at !in busy && heap[v.at].Items? && |heap[v.at].items| == |ts|
      && forall i | 0 <= i < |ts| :: Denotes(heap, busy, heap[v.at].items[i], ts[i])
    case Object(ts) =>
      v.Box? && v.at < |heap| && v.at !in busy && heap[v.at].Dict? && |heap[v.at].entries| == |ts|
      && forall i | 0 <= i < |ts| :: heap[v.at].entries[i].0 == ts[i].0 && Denotes(heap, busy, heap[v.at].entries[i].1, ts[i].1)
  }

  /** The bottom-up map on trees. */
  ghost function TreeOf(store: Store, f: (nat, Tree) -> Tree, r: Ref): Tree
    requires Acyclic(store)
    decreases if r.At? then r.id + 1 else 0, 0
  {
    if r.Leaf? then Whole(r.v) else
    var t := TreeBuilt(store(r.id), TreesOf(store, f, r.id, 0));
    if store(r.id).Dictionary? then f(r.id, t) else t
  }

  ghost function TreesOf(store: Store, f: (nat, Tree) -> Tree, id: nat, from: nat): (ts: seq<Tree>)
    requires Acyclic(store) && from <= |Children(store(id))|
    ensures |ts| == |Children(store(id))| - from
    decreases id, 1, |Children(store(id))| - from
  {
    if from == |Children(store(id))| then [] else [TreeOf(store, f, Children(store(id))[from])] + TreesOf(store, f, id, from + 1)
  }

  ghost function TreeBuilt(n: Node, ts: seq<Tree>): Tree
    requires |ts| == |Children(n)|
  {
    match n
    case List(_) => Array(ts)
    case Dictionary(entries) => Object(seq(|ts|, i requires 0 <= i < |ts| => (entries[i].0, ts[i])))
  }

  /** Containers outside `busy` are as they were, and fewer are busy. */
  ghost predicate Settled(heap: Heap, busy: set<nat>, heap': Heap, busy': set<nat>) {
    && |heap| <= |heap'| && (forall i | i in busy' && i < |heap| :: i in busy)
    && forall i | 0 <= i < |heap| && i !in busy :: heap'[i] == heap[i]
  }

  lemma {:induction false} StillDenotes(heap: Heap, busy: set<nat>, heap': Heap, busy': set<nat>, v: Value, t: Tree)
    requires Settled(heap, busy, heap', busy') && Denotes(heap, busy, v, t)
    ensures Denotes(heap', busy', v, t)
    decreases t
  {
    match t
    case Whole(_) =>
    case Array(ts) =>
      forall i | 0 <= i < |ts| ensures Denotes(heap', busy', heap[v.at].items[i], ts[i]) {
        StillDenotes(heap, busy, heap', busy', heap[v.at].items[i], ts[i]);
      }
    case Object(ts) =>
      forall i | 0 <= i < |ts| ensures Denotes(heap', busy', heap[v.at].entries[i].1, ts[i].1) {
        StillDenotes(heap, busy, heap', busy', heap[v.at].entries[i].1, ts[i].1);
      }
  }

  ghost predicate CacheDenotes(store: Store, f: (nat, Tree) -> Tree, busy: set<nat>, st: Progress)
    requires Acyclic(store)
  {
    forall id | id in st.cache :: Denotes(st.heap, busy, st.cache[id], TreeOf(store, f, At(id)))
  }

  lemma StillCache(store: Store, f: (nat, Tree) -> Tree, busy: set<nat>, st: Progress, busy': set<nat>, st': Progress)
    requires Acyclic(store) && CacheDenotes(store, f, busy, st) && Settled(st.heap, busy, st'.heap, busy')
             && st'.cache == st.cache
    ensures CacheDenotes(store, f, busy', st')
  {
    hide Denotes, TreeOf, Settled, Acyclic;
    forall id | id in st'.cache ensures Denotes(st'.heap, busy', st'.cache[id], TreeOf(store, f, At(id))) {
      StillDenotes(st.heap, busy, st'.heap, busy', st.cache[id], TreeOf(store, f, At(id)));
    }
  }

  // ----- callbacks whose results are told by trees -----

  /** What a callback that remembers relies on: a property of the containers finished so far
  and of the heap, given the containers that are still being filled. */
  type Memory = (seq<Visit>, Heap, set<nat>) -> bool

  /** The property holds at the start, outlives changes to containers still being filled, and
  finished lists do not matter to it. */
  ghost predicate Lasting(store: Store, memory: Memory) {
    && memory(START.log, START.heap, {ROOT.copy})
    && (forall log: seq<Visit>, heap: Heap, busy: set<nat>, heap': Heap, busy': set<nat>
          | memory(log, heap, busy) && Settled(heap, busy, heap', busy') :: memory(log, heap', busy'))
    && forall log: seq<Visit>, heap: Heap, busy: set<nat>, v: Visit
         | memory(log, heap, busy) && store(v.id).List? :: memory(log + [v], heap, busy)
  }

  /** A dictionary is ready for the callback: its copy is complete, and each slot holds what its
  child was rewritten to, which stands for the child's tree. */
  ghost predicate Ready(store: Store, f: (nat, Tree) -> Tree, log: seq<Visit>, id: nat, copy: nat, heap: Heap,
                        busy: set<nat>, vs: seq<Value>)
    requires Acyclic(store)
  {
    var children := Children(store(id));
    && store(id).Dictionary? && |vs| == |children| && copy < |heap| && copy !in busy
       && heap[copy] == Partial(store(id), vs)
    && (forall i | i in busy :: i < |heap|)
    && (forall i | 0 <= i < |vs| :: Denotes(heap, busy + {copy}, vs[i], TreeOf(store, f, children[i])))
    && forall i | 0 <= i < |vs| && children[i].At? :: exists j :: 0 <= j < |log| && log[j].id == children[i].id && log[j].result == vs[i]
  }

  /** The callback makes of this dictionary what the map on trees makes of its children's trees,
  and keeps its memory. */
  ghost predicate Makes(store: Store, rewrite: Callback, f: (nat, Tree) -> Tree, memory: Memory,
                        log: seq<Visit>, id: nat, place: Place, copy: nat, heap: Heap, busy: set<nat>)
    requires Acyclic(store) && copy < |heap|
  {
    var (v, h) := rewrite(log, id, copy, heap);
    Denotes(h, busy, v, TreeOf(store, f, At(id)))
      && memory(log + [Visit(id, place, copy, heap[copy], |heap|, v)], h, busy)
  }

  /** It does so at every dictionary that is ready, whatever it remembers and whatever
  containers it makes. */
  ghost predicate Told(store: Store, rewrite: Callback, f: (nat, Tree) -> Tree, memory: Memory)
    requires Acyclic(store)
  {
    forall log: seq<Visit>, id: nat, place: Place, copy: nat, heap: Heap, busy: set<nat>, vs: seq<Value>
      | Ready(store, f, log, id, copy, heap, busy, vs) && memory(log, heap, busy + {copy}) ::
      Makes(store, rewrite, f, memory, log, id, place, copy, heap, busy)
  }

  /** The results kept for sharing stand for their trees, and the memory holds. */
  ghost predicate Sound(store: Store, f: (nat, Tree) -> Tree, memory: Memory, busy: set<nat>, st: Progress)
    requires Acyclic(store)
  {
    CacheDenotes(store, f, busy, st) && memory(st.log, st.heap, busy)
  }

  lemma StillSound(store: Store, f: (nat, Tree) -> Tree, memory: Memory, busy: set<nat>, st: Progress,
                   busy': set<nat>, st': Progress)
    requires Acyclic(store) && Lasting(store, memory) && Sound(store, f, memory, busy, st)
    requires Settled(st.heap, busy, st'.heap, busy') && st'.cache == st.cache && st'.log == st.log
    ensures Sound(store, f, memory, busy', st')
  {
    StillCache(store, f, busy, st, busy', st');
    hide CacheDenotes, Settled, Acyclic;
  }

  lemma {:induction false} FillDenotes(store: Store, rewrite: Callback, f: (nat, Tree) -> Tree, memory: Memory,
                                       memoize: bool, r: Ref, place: Place, busy: set<nat>, st: Progress)
    requires Acyclic(store) && Keyed(store) && Polite(rewrite) && Lasting(store, memory)
             && Told(store, rewrite, f, memory)
    requires Kept(store, memoize, st) && Open(st, place.copy) && Fresh(memoize, st.log, place)
    requires place.copy in busy && (forall i | i in busy :: i < |st.heap|) && Sound(store, f, memory, busy, st)
    ensures var (v, st') := Fill(store, rewrite, memoize, r, place, st);
      Denotes(st'.heap, busy, v, TreeOf(store, f, r)) && Sound(store, f, memory, busy, st')
    decreases if r.At? then r.id + 1 else 0, 0
  {
    hide Kept, Open, FillAll, Finish, Acyclic, Keyed, Polite, Lasting, Told, Filling, Partial, Sound, Denotes, TreeOf,
         Fresh, Grows, Lower;
    PutDenotes(store, f, memory, busy, place, Plain(0), st);
    if r.Leaf? {
      PutDenotes(store, f, memory, busy, place, Plain(r.v), st);
      LeafDenotes(store, f, r, busy, Assign(st.heap, place, Plain(r.v)));
    } else if memoize && r.id in st.cache {
      PutDenotes(store, f, memory, busy, place, st.cache[r.id], st);
      CachedDenotes(store, f, memory, r.id, busy, st.(heap := Assign(st.heap, place, st.cache[r.id])));
    } else {
      var copy := |st.heap|;
      var st1 := Opened(store(r.id), place, st);
      OpenKeeps(store, memoize, r.id, place, st);
      StartsFilling(store, memoize, r.id, copy, st1);
      OpenDenotes(store, f, memory, busy, place, r.id, st);
      FillAllDenotes(store, rewrite, f, memory, memoize, r.id, copy, [], busy + {copy}, st1);
      FillAllKeeps(store, rewrite, memoize, r.id, copy, [], st1);
      var (vs, st2) := FillAll(store, rewrite, memoize, r.id, copy, 0, st1);
      assert [] + vs == vs;
      FillingParts(store, memoize, r.id, copy, vs, st2);
      FinishDenotes(store, rewrite, f, memory, memoize, r.id, place, vs, busy, copy, st2);
    }
  }

  lemma PutDenotes(store: Store, f: (nat, Tree) -> Tree, memory: Memory, busy: set<nat>, place: Place, v: Value,
                   st: Progress)
    requires Acyclic(store) && Lasting(store, memory) && Sound(store, f, memory, busy, st) && place.copy in busy
    ensures Sound(store, f, memory, busy, st.(heap := Assign(st.heap, place, v)))
  {
    hide Sound, Acyclic, With;
    StillSound(store, f, memory, busy, st, busy, st.(heap := Assign(st.heap, place, v)));
  }

  lemma LeafDenotes(store: Store, f: (nat, Tree) -> Tree, r: Ref, busy: set<nat>, heap: Heap)
    requires Acyclic(store) && r.Leaf?
    ensures Denotes(heap, busy, Plain(r.v), TreeOf(store, f, r))
  {}

  lemma CachedDenotes(store: Store, f: (nat, Tree) -> Tree, memory: Memory, id: nat, busy: set<nat>, st: Progress)
    requires Acyclic(store) && Sound(store, f, memory, busy, st) && id in st.cache
    ensures Denotes(st.heap, busy, st.cache[id], TreeOf(store, f, At(id)))
  {
    hide Denotes, TreeOf, Acyclic;
  }

  lemma OpenDenotes(store: Store, f: (nat, Tree) -> Tree, memory: Memory, busy: set<nat>, place: Place, id: nat,
                    st: Progress)
    requires Acyclic(store) && Lasting(store, memory) && Sound(store, f, memory, busy, st) && place.copy in busy
             && forall i | i in busy :: i < |st.heap|
    ensures var st1 := Opened(store(id), place, st);
      Sound(store, f, memory, busy + {|st.heap|}, st1) && forall i | i in busy + {|st.heap|} :: i < |st1.heap|
  {
    hide Sound, Acyclic, With, Blank;
    StillSound(store, f, memory, busy, st, busy + {|st.heap|}, Opened(store(id), place, st));
  }

  lemma {:induction false} FillAllDenotes(store: Store, rewrite: Callback, f: (nat, Tree) -> Tree, memory: Memory,
                                          memoize: bool,
                                          id: nat, copy: nat, vals: seq<Value>, busy: set<nat>, st: Progress)
    requires Acyclic(store) && Keyed(store) && Polite(rewrite) && Lasting(store, memory)
             && Told(store, rewrite, f, memory) && Filling(store, memoize, id, copy, vals, st)
    requires copy in busy && (forall i | i in busy :: i < |st.heap|) && Sound(store, f, memory, busy, st)
    requires |vals| <= |Children(store(id))|
    requires forall i | 0 <= i < |vals| :: Denotes(st.heap, busy, vals[i], TreeOf(store, f, Children(store(id))[i]))
    ensures var (vs, st') := FillAll(store, rewrite, memoize, id, copy, |vals|, st);
      && (forall i | 0 <= i < |vals + vs| :: Denotes(st'.heap, busy, (vals + vs)[i], TreeOf(store, f, Children(store(id))[i])))
      && Sound(store, f, memory, busy, st')
    decreases id, 2, |Children(store(id))| - |vals|
  {
    hide Filling, Fill, Acyclic, Keyed, Polite, Lasting, Told, Sound, Denotes, TreeOf, Grows, Lower, Kept, Open, Fresh;
    if |vals| == |Children(store(id))| {
      assert vals + [] == vals;
    } else {
      var child, place := Children(store(id))[|vals|], PlaceOf(store(id), copy, |vals|);
      InRange(store, memoize, id, copy, vals, st);
      FillNext(store, rewrite, memoize, id, copy, vals, st);
      ChildBelow(store, id, |vals|);
      FillDenotes(store, rewrite, f, memory, memoize, child, place, busy, st);
      var (v, st1) := Fill(store, rewrite, memoize, child, place, st);
      GrownDenotes(st, st1, copy, busy);
      forall i | 0 <= i < |vals| ensures Denotes(st1.heap, busy, vals[i], TreeOf(store, f, Children(store(id))[i])) {
        StillDenotes(st.heap, busy, st1.heap, busy, vals[i], TreeOf(store, f, Children(store(id))[i]));
      }
      FillAllDenotes(store, rewrite, f, memory, memoize, id, copy, vals + [v], busy, st1);
      var (vs, st2) := FillAll(store, rewrite, memoize, id, copy, |vals| + 1, st1);
      assert vals + [v] + vs == vals + ([v] + vs);
    }
  }

  lemma GrownDenotes(st: Progress, st1: Progress, copy: nat, busy: set<nat>)
    requires Grows(st, st1, copy) && copy in busy
    ensures Settled(st.heap, busy, st1.heap, busy) && |st.heap| <= |st1.heap|
  {}

  lemma FinishDenotes(store: Store, rewrite: Callback, f: (nat, Tree) -> Tree, memory: Memory, memoize: bool, id: nat,
                      place: Place,
                      vs: seq<Value>, busy: set<nat>, copy: nat, st2: Progress)
    requires Acyclic(store) && Polite(rewrite) && Lasting(store, memory) && Told(store, rewrite, f, memory)
    requires place.copy in busy && copy !in busy && (forall i | i in busy :: i < |st2.heap|)
    requires |vs| == |Children(store(id))| && copy < |st2.heap| && st2.heap[copy] == Partial(store(id), vs)
    requires forall i | 0 <= i < |vs| ::
             Denotes(st2.heap, busy + {copy}, vs[i], TreeOf(store, f, Children(store(id))[i]))
    requires forall i | 0 <= i < |vs| ::
             Explains(memoize, st2.log, |st2.log|, Children(store(id))[i], PlaceOf(store(id), copy, i), vs[i])
    requires Sound(store, f, memory, busy + {copy}, st2)
    ensures var (v, st') := Finish(store, rewrite, memoize, id, place, copy, st2);
      Denotes(st'.heap, busy, v, TreeOf(store, f, At(id))) && Sound(store, f, memory, busy, st')
  {
    hide Acyclic, Polite, Lasting, Told, CacheDenotes, Denotes, TreeOf, Partial, With, Settled, Explains, Ready;
    var (v, st') := Finish(store, rewrite, memoize, id, place, copy, st2);
    CallSettles(store, rewrite, id, place, busy, copy, st2);
    var visit := Visit(id, place, copy, st2.heap[copy], |st2.heap|, v);
    if store(id).Dictionary? {
      var h := rewrite(st2.log, id, copy, st2.heap).1;
      IsReady(store, f, memoize, st2.log, id, copy, st2.heap, busy, vs);
      CallTold(store, rewrite, f, memory, st2.log, id, place, copy, st2.heap, busy, vs);
      StillDenotes(h, busy, st'.heap, busy, v, TreeOf(store, f, At(id)));
      StillHeld(store, memory, st2.log + [visit], h, busy, st'.heap, busy);
    } else {
      TreeIs(store, f, id);
      CopyDenotes(store, f, id, vs, busy, copy, st2.heap);
      ListHeld(store, memory, st2.log, visit, st2.heap, busy + {copy});
      StillHeld(store, memory, st2.log + [visit], st2.heap, busy + {copy}, st'.heap, busy);
    }
    StillCache(store, f, busy + {copy}, st2, busy, st'.(cache := st2.cache));
    if memoize { CacheMore(store, f, busy, id, v, st'.(cache := st2.cache)); }
  }

  lemma IsReady(store: Store, f: (nat, Tree) -> Tree, memoize: bool, log: seq<Visit>, id: nat, copy: nat, heap: Heap,
                busy: set<nat>, vs: seq<Value>)
    requires Acyclic(store) && store(id).Dictionary? && copy !in busy && (forall i | i in busy :: i < |heap|)
    requires |vs| == |Children(store(id))| && copy < |heap| && heap[copy] == Partial(store(id), vs)
    requires forall i | 0 <= i < |vs| :: Denotes(heap, busy + {copy}, vs[i], TreeOf(store, f, Children(store(id))[i]))
    requires forall i | 0 <= i < |vs| ::
             Explains(memoize, log, |log|, Children(store(id))[i], PlaceOf(store(id), copy, i), vs[i])
    ensures Ready(store, f, log, id, copy, heap, busy, vs)
  {
    hide Acyclic, Denotes, TreeOf, Partial;
    forall i | 0 <= i < |vs| && Children(store(id))[i].At?
      ensures exists j :: 0 <= j < |log| && log[j].id == Children(store(id))[i].id && log[j].result == vs[i]
    {
      assert Explains(memoize, log, |log|, Children(store(id))[i], PlaceOf(store(id), copy, i), vs[i]);
    }
  }

  lemma CallTold(store: Store, rewrite: Callback, f: (nat, Tree) -> Tree, memory: Memory, log: seq<Visit>, id: nat,
                 place: Place,
                 copy: nat, heap: Heap, busy: set<nat>, vs: seq<Value>)
    requires Acyclic(store) && Told(store, rewrite, f, memory) && copy < |heap|
    requires Ready(store, f, log, id, copy, heap, busy, vs) && memory(log, heap, busy + {copy})
    ensures Makes(store, rewrite, f, memory, log, id, place, copy, heap, busy)
  {
    hide Acyclic, Denotes, TreeOf, Ready, Makes;
  }

  lemma StillHeld(store: Store, memory: Memory, log: seq<Visit>, heap: Heap, busy: set<nat>, heap': Heap,
                  busy': set<nat>)
    requires Lasting(store, memory) && memory(log, heap, busy) && Settled(heap, busy, heap', busy')
    ensures memory(log, heap', busy')
  {
    hide Settled;
  }

  lemma ListHeld(store: Store, memory: Memory, log: seq<Visit>, v: Visit, heap: Heap, busy: set<nat>)
    requires Lasting(store, memory) && memory(log, heap, busy) && store(v.id).List?
    ensures memory(log + [v], heap, busy)
  {
    hide Settled;
  }

  lemma CallSettles(store: Store, rewrite: Callback, id: nat, place: Place, busy: set<nat>, copy: nat, st2: Progress)
    requires Polite(rewrite) && place.copy in busy && copy < |st2.heap|
    ensures var st' := Finish(store, rewrite, false, id, place, copy, st2).1;
      && Settled(st2.heap, busy + {copy}, st'.heap, busy)
      && (store(id).Dictionary? ==> Settled(rewrite(st2.log, id, copy, st2.heap).1, busy, st'.heap, busy))
  {
    hide With;
  }

  lemma CacheMore(store: Store, f: (nat, Tree) -> Tree, busy: set<nat>, id: nat, v: Value, st: Progress)
    requires Acyclic(store) && CacheDenotes(store, f, busy, st) && Denotes(st.heap, busy, v, TreeOf(store, f, At(id)))
    ensures CacheDenotes(store, f, busy, st.(cache := st.cache[id := v]))
  {
    hide Denotes, TreeOf, Acyclic;
  }

  lemma TreeIs(store: Store, f: (nat, Tree) -> Tree, id: nat)
    requires Acyclic(store)
    ensures var t := TreeBuilt(store(id), TreesOf(store, f, id, 0));
            TreeOf(store, f, At(id)) == if store(id).Dictionary? then f(id, t) else t
  {
    hide TreesOf, TreeBuilt, Acyclic;
  }

  lemma {:induction false} TreesAt(store: Store, f: (nat, Tree) -> Tree, id: nat, from: nat, i: nat)
    requires Acyclic(store) && from <= i < |Children(store(id))|
    ensures TreesOf(store, f, id, from)[i - from] == TreeOf(store, f, Children(store(id))[i])
    decreases i - from
  {
    hide TreeOf, Acyclic;
    if from < i { TreesAt(store, f, id, from + 1, i); }
  }

  /** A complete copy denotes the container built of its children's trees. */
  lemma CopyDenotes(store: Store, f: (nat, Tree) -> Tree, id: nat, vs: seq<Value>, busy: set<nat>, copy: nat,
                    heap: Heap)
    requires Acyclic(store) && |vs| == |Children(store(id))| && copy < |heap| && copy !in busy
             && heap[copy] == Partial(store(id), vs)
    requires forall i | 0 <= i < |vs| :: Denotes(heap, busy + {copy}, vs[i], TreeOf(store, f, Children(store(id))[i]))
    ensures Denotes(heap, busy, Box(copy), TreeBuilt(store(id), TreesOf(store, f, id, 0)))
  {
    var ts := TreesOf(store, f, id, 0);
    forall i | 0 <= i < |vs| ensures Denotes(heap, busy, vs[i], ts[i]) {
      TreesAt(store, f, id, 0, i);
      StillDenotes(heap, busy + {copy}, heap, busy, vs[i], ts[i]);
    }
    hide TreesOf, TreeOf, Acyclic;
    if store(id).List? { assert Partial(store(id), vs).items == vs; }
  }

  /** Memoised or not, for any callback whose results are told by trees, the result is the tree
  of the bottom-up map. */
  lemma MemoAgrees(store: Store, rewrite: Callback, f: (nat, Tree) -> Tree, memory: Memory, memoize: bool, root: Ref)
    requires Acyclic(store) && Keyed(store) && Polite(rewrite) && Lasting(store, memory)
             && Told(store, rewrite, f, memory)
    ensures var (v, st) := Fill(store, rewrite, memoize, root, ROOT, START); Denotes(st.heap, {0}, v, TreeOf(store, f, root))
  {
    hide Fill, Acyclic, Keyed, Polite, Told, TreeOf, Denotes, Kept, Fresh, Settled;
    StartKept(store, memoize);
    FillDenotes(store, rewrite, f, memory, memoize, root, ROOT, {0}, START);
  }

  // ----- two such callbacks -----

  /** As the pass over values does, put every copy into a new container. */
  const WRAP: Callback := (log: seq<Visit>, id: nat, copy: nat, heap: Heap) => (Box(|heap|), heap + [Dict([("value", Box(copy))])])

  function Wrapped(id: nat, t: Tree): Tree {
    Object([("value", t)])
  }

  lemma WrapAgrees(store: Store, memoize: bool, root: Ref)
    requires Acyclic(store) && Keyed(store)
    ensures var (v, st) := Fill(store, WRAP, memoize, root, ROOT, START); Denotes(st.heap, {0}, v, TreeOf(store, Wrapped, root))
  {
    var nothing: Memory := (log, heap, busy) => true;
    forall log: seq<Visit>, id: nat, place: Place, copy: nat, heap: Heap, busy: set<nat>, vs: seq<Value>
      | Ready(store, Wrapped, log, id, copy, heap, busy, vs)
      ensures Makes(store, WRAP, Wrapped, nothing, log, id, place, copy, heap, busy)
    {
      hide TreeOf, TreesOf, TreeBuilt, Acyclic;
      var h := heap + [Dict([("value", Box(copy))])];
      var t := TreeBuilt(store(id), TreesOf(store, Wrapped, id, 0));
      TreeIs(store, Wrapped, id);
      CopyDenotes(store, Wrapped, id, vs, busy, copy, heap);
      StillDenotes(heap, busy, h, busy, Box(copy), t);
    }
    hide Fill, Denotes, TreeOf, Acyclic, Keyed, Ready, Settled, Makes;
    MemoAgrees(store, WRAP, Wrapped, nothing, memoize, root);
  }

  /** Where the last visit to container `id` is logged. */
  function Found(log: seq<Visit>, id: nat): (j: Option<nat>)
    ensures j.Some? ==> j.value < |log| && log[j.value].id == id
    ensures j.None? ==> forall k | 0 <= k < |log| :: log[k].id != id
  {
    if log == [] then None
    else if log[|log| - 1].id == id then Some(|log| - 1)
    else Found(log[..|log| - 1], id)
  }

  /** Whether the first entry of a dictionary is another dictionary, here its condition. */
  predicate Tests(store: Store, id: nat) {
    var n := store(id);
    n.Dictionary? && n.entries != [] && n.entries[0].1.At? && store(n.entries[0].1.id).Dictionary?
  }

  /** As the pass over conditions does, make a predicate of every dictionary, and put into a
  dictionary with a condition the predicate that was made when the condition was visited. */
  function Conditions(store: Store): Callback {
    (log: seq<Visit>, id: nat, copy: nat, heap: Heap) =>
      var h := heap + [Dict([("test", Box(copy))])];
      if !Tests(store, id) || copy >= |heap| || !heap[copy].Dict? || heap[copy].entries == [] then (Box(copy), h) else
      var j := Found(log, store(id).entries[0].1.id);
      if j.None? then (Box(copy), h) else
      var entries := heap[copy].entries;
      (Box(copy), h[copy := Dict([(entries[0].0, Box(log[j.value].made))] + entries[1..])])
  }

  function Conditioned(store: Store): (nat, Tree) -> Tree {
    (id: nat, t: Tree) =>
      if !Tests(store, id) || !t.Object? || t.entries == [] then t
      else Object([(t.entries[0].0, Object([("test", t.entries[0].1)]))] + t.entries[1..])
  }

  /** Every dictionary finished so far has its predicate in the heap. */
  ghost predicate Predicated(store: Store, log: seq<Visit>, heap: Heap, busy: set<nat>) {
    Acyclic(store) && forall j | 0 <= j < |log| && store(log[j].id).Dictionary? ::
      HasPredicate(store, log[j], heap, busy)
  }

  ghost predicate HasPredicate(store: Store, v: Visit, heap: Heap, busy: set<nat>)
    requires Acyclic(store)
  {
    && v.made < |heap| && v.made !in busy && heap[v.made] == Dict([("test", v.result)])
    && Denotes(heap, busy, v.result, TreeOf(store, Conditioned(store), At(v.id)))
  }

  lemma StillPredicate(store: Store, v: Visit, heap: Heap, busy: set<nat>, heap': Heap, busy': set<nat>)
    requires Acyclic(store) && HasPredicate(store, v, heap, busy) && Settled(heap, busy, heap', busy')
    ensures HasPredicate(store, v, heap', busy')
  {
    hide TreeOf, Acyclic;
    StillDenotes(heap, busy, heap', busy', v.result, TreeOf(store, Conditioned(store), At(v.id)));
  }

  lemma StillPredicated(store: Store, log: seq<Visit>, heap: Heap, busy: set<nat>, heap': Heap, busy': set<nat>)
    requires Predicated(store, log, heap, busy) && Settled(heap, busy, heap', busy')
    ensures Predicated(store, log, heap', busy')
  {
    hide HasPredicate, Settled, Acyclic;
    forall j | 0 <= j < |log| && store(log[j].id).Dictionary? ensures HasPredicate(store, log[j], heap', busy') {
      StillPredicate(store, log[j], heap, busy, heap', busy');
    }
  }

  /** The predicate of the condition is in the heap. */
  lemma FoundPredicate(store: Store, log: seq<Visit>, c: nat, heap: Heap, busy: set<nat>)
    requires Predicated(store, log, heap, busy) && store(c).Dictionary? && exists j :: 0 <= j < |log| && log[j].id == c
    ensures var j := Found(log, c);
      j.Some? && Denotes(heap, busy, Box(log[j.value].made), Object([("test", TreeOf(store, Conditioned(store), At(c)))]))
  {
    hide TreeOf, Acyclic, Found;
    var j := Found(log, c);
    assert HasPredicate(store, log[j.value], heap, busy);
  }

  lemma ObjectDenotes(heap: Heap, busy: set<nat>, at: nat, ts: seq<(string, Tree)>)
    requires at < |heap| && at !in busy && heap[at].Dict? && |heap[at].entries| == |ts|
    requires forall i | 0 <= i < |ts| :: heap[at].entries[i].0 == ts[i].0 && Denotes(heap, busy, heap[at].entries[i].1, ts[i].1)
    ensures Denotes(heap, busy, Box(at), Object(ts))
  {}

  /** The callback changes the copy alone, and puts the predicate there if there is one. */
  lemma ConditionPut(store: Store, log: seq<Visit>, id: nat, copy: nat, heap: Heap, busy: set<nat>, vs: seq<Value>)
    requires store(id).Dictionary? && |vs| == |Children(store(id))| && copy < |heap|
             && heap[copy] == Partial(store(id), vs)
    requires Tests(store, id) ==> Found(log, store(id).entries[0].1.id).Some?
    ensures var (v, h) := Conditions(store)(log, id, copy, heap);
      && v == Box(copy) && |h| == |heap| + 1 && h[|heap|] == Dict([("test", v)])
         && Settled(heap, busy + {copy}, h, busy)
      && h[copy] == Partial(store(id), if Tests(store, id) then vs[0 := Box(log[Found(log, store(id).entries[0].1.id).value].made)] else vs)
  {
    hide Found;
  }

  lemma ConditionMade(store: Store, log: seq<Visit>, id: nat, copy: nat, heap: Heap, busy: set<nat>, vs: seq<Value>)
    requires Acyclic(store) && Ready(store, Conditioned(store), log, id, copy, heap, busy, vs)
             && Predicated(store, log, heap, busy + {copy})
    ensures var (v, h) := Conditions(store)(log, id, copy, heap);
      && Settled(heap, busy + {copy}, h, busy) && |h| == |heap| + 1 && h[|heap|] == Dict([("test", v)])
      && Denotes(h, busy, v, TreeOf(store, Conditioned(store), At(id)))
  {
    hide TreeOf, Acyclic, Found, Predicated, Denotes, Settled, Conditions;
    var f, n := Conditioned(store), store(id);
    var ts := TreesOf(store, f, id, 0);
    if Tests(store, id) {
      assert Children(n)[0] == n.entries[0].1;
      FoundPredicate(store, log, n.entries[0].1.id, heap, busy + {copy});
    }
    ConditionPut(store, log, id, copy, heap, busy, vs);
    var h := Conditions(store)(log, id, copy, heap).1;
    forall i | 0 <= i < |vs| ensures Denotes(h, busy, vs[i], ts[i]) {
      TreesAt(store, f, id, 0, i);
      StillDenotes(heap, busy + {copy}, h, busy, vs[i], ts[i]);
    }
    TreeIs(store, f, id);
    if Tests(store, id) {
      var c := n.entries[0].1.id;
      var test := Object([("test", TreeOf(store, f, At(c)))]);
      StillDenotes(heap, busy + {copy}, h, busy, Box(log[Found(log, c).value].made), test);
      TreesAt(store, f, id, 0, 0);
      ObjectDenotes(h, busy, copy, f(id, TreeBuilt(n, ts)).entries);
    } else {
      ObjectDenotes(h, busy, copy, TreeBuilt(n, ts).entries);
    }
  }

  lemma ConditionsTold(store: Store)
    requires Acyclic(store)
    ensures var memory: Memory := (log, heap, busy) => Predicated(store, log, heap, busy);
      Lasting(store, memory) && Told(store, Conditions(store), Conditioned(store), memory)
  {
    var memory: Memory := (log, heap, busy) => Predicated(store, log, heap, busy);
    forall log: seq<Visit>, heap: Heap, busy: set<nat>, heap': Heap, busy': set<nat>
      | Predicated(store, log, heap, busy) && Settled(heap, busy, heap', busy')
      ensures Predicated(store, log, heap', busy')
    {
      StillPredicated(store, log, heap, busy, heap', busy');
    }
    hide Acyclic, Settled, HasPredicate, Ready;
    forall log: seq<Visit>, id: nat, place: Place, copy: nat, heap: Heap, busy: set<nat>, vs: seq<Value>
      | Ready(store, Conditioned(store), log, id, copy, heap, busy, vs) && memory(log, heap, busy + {copy})
      ensures Makes(store, Conditions(store), Conditioned(store), memory, log, id, place, copy, heap, busy)
    {
      MakesCondition(store, memory, log, id, place, copy, heap, busy, vs);
    }
  }

  lemma MakesCondition(store: Store, memory: Memory, log: seq<Visit>, id: nat, place: Place, copy: nat, heap: Heap,
                       busy: set<nat>, vs: seq<Value>)
    requires Acyclic(store) && memory == ((log, heap, busy) => Predicated(store, log, heap, busy))
    requires Ready(store, Conditioned(store), log, id, copy, heap, busy, vs) && memory(log, heap, busy + {copy})
    ensures Makes(store, Conditions(store), Conditioned(store), memory, log, id, place, copy, heap, busy)
  {
    hide Acyclic, Settled, TreeOf, Denotes;
    var (v, h) := Conditions(store)(log, id, copy, heap);
    ConditionMade(store, log, id, copy, heap, busy, vs);
    StillPredicated(store, log, heap, busy + {copy}, h, busy);
    var last := Visit(id, place, copy, heap[copy], |heap|, v);
    assert HasPredicate(store, last, h, busy);
  }

  lemma ConditionsAgree(store: Store, memoize: bool, root: Ref)
    requires Acyclic(store) && Keyed(store)
    ensures var (v, st) := Fill(store, Conditions(store), memoize, root, ROOT, START);
      Denotes(st.heap, {0}, v, TreeOf(store, Conditioned(store), root))
  {
    hide Fill, Denotes, TreeOf, Acyclic, Keyed, Told, Lasting;
    ConditionsTold(store);
    var memory: Memory := (log, heap, busy) => Predicated(store, log, heap, busy);
    MemoAgrees(store, Conditions(store), Conditioned(store), memory, memoize, root);
  }
}
