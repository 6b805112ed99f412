/** The heap snapshot the oracle compares: an object graph, with any cycles and sharing, is
encoded into a list of cells in which every object has exactly one reference. */
module HeapEncoder {
  import opened Core

  const MAX_DEPTH: nat := 8
  const MAX_ELEMS: nat := 512

  /** Floats are their 64 bits. */
  datatype Atom = Nothing | Truth(b: bool) | Int(i: int) | Float(bits: nat) | Text(s: string)

  datatype Live = Immediate(a: Atom) | At(id: nat)

  datatype Kind = List | Tuple

  /** What introspection finds at an identity. An `Instance` is an object with its class
  identity and its ordered fields, an `Opaque` one an object whose state cannot be read. */
  datatype Thing =
    | Sequence(kind: Kind, items: seq<Live>)
    | Mapping(entries: seq<(Live, Live)>)
    | Named(name: string)
    | Refused(reason: string)
    | Opaque(reason: string)
    | Instance(cls: string, fields: seq<(string, Live)>)

  type World = nat -> Thing

  datatype Encoded =
    | Plain(a: Atom)
    | Items(kind: Kind, items: seq<Encoded>)
    | Dict(entries: seq<(Encoded, Encoded)>)
    | Fn(name: string)
    | Ref(cell: nat)

  datatype Cell = Cell(cls: string, fields: seq<(string, Encoded)>)

  datatype Outcome<T> = Done(value: T) | Unencodable(reason: string)

  // ----- what an encoding means -----

  /** `e` stands for `v` when the objects in `byid` have the cells it names. */
  ghost predicate Encodes(w: World, byid: map<nat, nat>, v: Live, e: Encoded)
    decreases e
  {
    match e
    case Plain(a) => v == Immediate(a)
    case Items(kind, items) =>
      v.At? && w(v.id).Sequence? && w(v.id).kind == kind && |w(v.id).items| == |items|
      && forall i | 0 <= i < |items| :: Encodes(w, byid, w(v.id).items[i], items[i])
    case Dict(entries) =>
      v.At? && w(v.id).Mapping? && |w(v.id).entries| == |entries|
      && forall i | 0 <= i < |entries| ::
           Encodes(w, byid, w(v.id).entries[i].0, entries[i].0) && Encodes(w, byid, w(v.id).entries[i].1, entries[i].1)
    case Fn(name) => v.At? && w(v.id) == Named(name)
    case Ref(cell) => v.At? && v.id in byid && byid[v.id] == cell && (w(v.id).Instance? || w(v.id).Opaque?)
  }

  /** A cell holds its object's class and, field by field, its values. */
  ghost predicate Snapshot(w: World, byid: map<nat, nat>, id: nat, cell: Cell) {
    var thing := w(id);
    && thing.Instance? && thing.cls == cell.cls && |thing.fields| == |cell.fields|
    && forall i | 0 <= i < |cell.fields| ::
         cell.fields[i].0 == thing.fields[i].0 && Encodes(w, byid, thing.fields[i].1, cell.fields[i].1)
  }

  /** Objects and cells are in bijection, and every filled cell is a snapshot. */
  ghost predicate Sound(w: World, heap: seq<Option<Cell>>, byid: map<nat, nat>, objs: map<nat, nat>) {
    && (forall id | id in byid :: byid[id] < |heap| && byid[id] in objs && objs[byid[id]] == id)
    && (forall k | 0 <= k < |heap| :: k in objs && objs[k] in byid && byid[objs[k]] == k)
    && (forall k | k in objs :: k < |heap|)
    && (forall k | 0 <= k < |heap| :: k in objs && (heap[k].Some? ==> Snapshot(w, byid, objs[k], heap[k].value)))
    && (forall k | 0 <= k < |heap| && heap[k].Some? :: CellKeys(heap[k].value))
  }

  ghost predicate NoRef(e: Encoded) {
    match e
    case Items(_, items) => forall i | 0 <= i < |items| :: NoRef(items[i])
    case Dict(entries) => forall i | 0 <= i < |entries| :: NoRef(entries[i].0) && NoRef(entries[i].1)
    case Ref(_) => false
    case _ => true
  }

  /** No object stands inside a dictionary key, where its own equality would decide. */
  ghost predicate PlainKeys(e: Encoded) {
    match e
    case Items(_, items) => forall i | 0 <= i < |items| :: PlainKeys(items[i])
    case Dict(entries) => forall i | 0 <= i < |entries| :: NoRef(entries[i].0) && PlainKeys(entries[i].0) && PlainKeys(entries[i].1)
    case _ => true
  }

  ghost predicate CellKeys(cell: Cell) {
    forall i | 0 <= i < |cell.fields| :: PlainKeys(cell.fields[i].1)
  }

  // ----- the encoder -----

  /** Cells already there stay as they are, new ones are filled, and allocated objects keep
  their cells. */
  ghost predicate Grows(heap: seq<Option<Cell>>, byid: map<nat, nat>, heap': seq<Option<Cell>>, byid': map<nat, nat>) {
    && heap <= heap' && (forall k | |heap| <= k < |heap'| :: heap'[k].Some?)
    && (forall id | id in byid :: id in byid' && byid'[id] == byid[id])
  }

  /** `s` contains everything its members refer to directly. */
  ghost predicate Closed(w: World, s: iset<nat>) {
    forall id | id in s ::
      match w(id)
      case Sequence(_, items) => forall i | 0 <= i < |items| :: Inside(s, items[i])
      case Mapping(entries) => forall i | 0 <= i < |entries| :: Inside(s, entries[i].0) && Inside(s, entries[i].1)
      case Instance(_, fields) => forall i | 0 <= i < |fields| :: Inside(s, fields[i].1)
      case _ => true
  }

  ghost predicate EntryReached(w: World, byid: map<nat, nat>, byid': map<nat, nat>, e: (Live, Live)) {
    forall s: iset<nat> | Closed(w, s) && Inside(s, e.0) && Inside(s, e.1) && (forall id | id in byid :: id in s) ::
      forall id | id in byid' :: id in s
  }

  ghost predicate Inside(s: iset<nat>, v: Live) { v.At? ==> v.id in s }

  /** Every object that has a cell was reached: it is in every closed set that holds what was
  encoded and what had a cell before. */
  ghost predicate Reached(w: World, byid: map<nat, nat>, byid': map<nat, nat>, v: Live) {
    forall s: iset<nat> | Closed(w, s) && Inside(s, v) && (forall id | id in byid :: id in s) ::
      forall id | id in byid' :: id in s
  }

  /** Which graphs are refused, and what for: a walk in the encoder's order that carries the
  objects met so far, does not go through them again, and keeps no cells. */
  function Walk(w: World, v: Live, depth: nat, inKey: bool, met: set<nat>): Outcome<set<nat>>
    requires depth <= MAX_DEPTH + 1
    decreases MAX_DEPTH + 1 - depth, 2
  {
    if depth > MAX_DEPTH then Unencodable("depth") else
    match v
    case Immediate(_) => Done(met)
    case At(id) =>
      match w(id)
      case Sequence(_, items) =>
        if |items| > MAX_ELEMS then Unencodable("wide") else WalkAll(w, items, depth, inKey, met)
      case Mapping(entries) =>
        if |entries| > MAX_ELEMS then Unencodable("wide") else WalkEntries(w, entries, depth, inKey, met)
      case Named(_) => Done(met)
      case Refused(why) => Unencodable(why)
      case Opaque(why) =>
        if inKey then Unencodable("object-as-dict-key") else if id in met then Done(met) else Unencodable(why)
      case Instance(_, fields) =>
        if inKey then Unencodable("object-as-dict-key")
        else if id in met then Done(met)
        else if |fields| > MAX_ELEMS then Unencodable("wide-object")
        else WalkAll(w, Values(fields), depth, false, met + {id})
  }

  function Values(fields: seq<(string, Live)>): seq<Live> {
    seq(|fields|, i requires 0 <= i < |fields| => fields[i].1)
  }

  function WalkAll(w: World, vs: seq<Live>, depth: nat, inKey: bool, met: set<nat>): Outcome<set<nat>>
    requires depth <= MAX_DEPTH
    decreases MAX_DEPTH + 1 - depth, 1, |vs|
  {
    if vs == [] then Done(met) else
    var first := Walk(w, vs[0], depth + 1, inKey, met);
    if first.Unencodable? then first else WalkAll(w, vs[1..], depth, inKey, first.value)
  }

  function WalkEntries(w: World, es: seq<(Live, Live)>, depth: nat, inKey: bool, met: set<nat>): Outcome<set<nat>>
    requires depth <= MAX_DEPTH
    decreases MAX_DEPTH + 1 - depth, 1, |es|
  {
    if es == [] then Done(met) else
    var first := WalkEntry(w, es[0], depth, inKey, met);
    if first.Unencodable? then first else WalkEntries(w, es[1..], depth, inKey, first.value)
  }

  function WalkEntry(w: World, e: (Live, Live), depth: nat, inKey: bool, met: set<nat>): Outcome<set<nat>>
    requires depth <= MAX_DEPTH
    decreases MAX_DEPTH + 1 - depth, 0
  {
    var key := Walk(w, e.0, depth + 1, true, met);
    if key.Unencodable? then key else Walk(w, e.1, depth + 1, inKey, key.value)
  }

  lemma WalkObject(w: World, v: Live, depth: nat, met: set<nat>)
    requires depth <= MAX_DEPTH && v.At? && w(v.id).Instance? && v.id !in met && |w(v.id).fields| <= MAX_ELEMS
    ensures Walk(w, v, depth, false, met) == WalkAll(w, Values(w(v.id).fields), depth, false, met + {v.id})
  {}

  /** The encoder's answer is the walk's: the same objects have cells afterwards, or the same
  reason is given. */
  ghost predicate AsWalked<T>(r: Outcome<T>, byid: map<nat, nat>, walk: Outcome<set<nat>>) {
    if walk.Done? then r.Done? && byid.Keys == walk.value else r == Unencodable(walk.reason)
  }

  class Encoder {
    const world: World
    var heap: seq<Option<Cell>>
    var byid: map<nat, nat>
    var objs: map<nat, nat>
    var pin: set<nat>

    ghost predicate Valid()
      reads this
    {
      Sound(world, heap, byid, objs)
    }

    /** Between two encodings every cell is filled. */
    ghost predicate Complete()
      reads this
    {
      Valid() && forall k | 0 <= k < |heap| :: heap[k].Some?
    }

    constructor (w: World)
      ensures world == w && Complete() && heap == [] && byid == map[] && pin == {}
    {
      world := w;
      heap, byid, objs, pin := [], map[], map[], {};
    }

    method Enc(v: Live, depth: nat, inKey: bool) returns (r: Outcome<Encoded>)
      requires Valid() && depth <= MAX_DEPTH + 1
      modifies this`heap, this`byid, this`objs
      ensures r.Done? ==> Valid() && Grows(old(heap), old(byid), heap, byid) && Reached(world, old(byid), byid, v)
      ensures r.Done? ==> Encodes(world, byid, v, r.value) && PlainKeys(r.value) && (inKey ==> NoRef(r.value))
      ensures AsWalked(r, byid, Walk(world, v, depth, inKey, old(byid).Keys))
      decreases MAX_DEPTH + 1 - depth, 2
    {
      if depth > MAX_DEPTH { return Unencodable("depth"); }
      match v {
        case Immediate(a) => return Done(Plain(a));
        case At(id) =>
          match world(id) {
            case Sequence(kind, items) =>
              if |items| > MAX_ELEMS { return Unencodable("wide"); }
              var es := EncSequence(v, depth, inKey);
              r := if es.Done? then Done(Items(kind, es.value)) else Unencodable(es.reason);
            case Mapping(entries) =>
              if |entries| > MAX_ELEMS { return Unencodable("wide"); }
              var es := EncMapping(v, depth, inKey);
              r := if es.Done? then Done(Dict(es.value)) else Unencodable(es.reason);
            case Named(name) => return Done(Fn(name));
            case Refused(why) => return Unencodable(why);
            case Opaque(_) =>
              if inKey { return Unencodable("object-as-dict-key"); }
              r := Alloc(v, depth);
            case Instance(_, _) =>
              if inKey { return Unencodable("object-as-dict-key"); }
              r := Alloc(v, depth);
          }
      }
    }

    method EncSequence(v: Live, depth: nat, inKey: bool) returns (r: Outcome<seq<Encoded>>)
      requires Valid() && depth <= MAX_DEPTH
      requires v.At? && world(v.id).Sequence? && |world(v.id).items| <= MAX_ELEMS
      modifies this`heap, this`byid, this`objs
      ensures r.Done? ==> Valid() && Grows(old(heap), old(byid), heap, byid) && Reached(world, old(byid), byid, v)
      ensures r.Done? ==> var e := Items(world(v.id).kind, r.value);
        Encodes(world, byid, v, e) && PlainKeys(e) && (inKey ==> NoRef(e))
      ensures AsWalked(r, byid, Walk(world, v, depth, inKey, old(byid).Keys))
      decreases MAX_DEPTH + 1 - depth, 1
    {
      hide Encodes, NoRef, PlainKeys, Sound, Walk, Reached, Grows;
      StartsReached(world, byid, v);
      WalkParts(world, v, depth, inKey, byid.Keys);
      GrowsFrom(heap, byid);
      var items := world(v.id).items;
      var es: seq<Encoded> := [];
      assert items[0..] == items;
      while |es| < |items|
        invariant |es| <= |items|
        invariant Valid() && Grows(old(heap), old(byid), heap, byid) && Reached(world, old(byid), byid, v)
        invariant forall i | 0 <= i < |es| :: Encodes(world, byid, items[i], es[i])
        invariant forall i | 0 <= i < |es| :: PlainKeys(es[i]) && (inKey ==> NoRef(es[i]))
        invariant Walk(world, v, depth, inKey, old(byid).Keys) == WalkAll(world, items[|es|..], depth, inKey, byid.Keys)
      {
        ghost var before, cells := byid, heap;
        InsideParts(world, v);
        assert items[|es|..][0] == items[|es|] && items[|es|..][1..] == items[|es| + 1..];
        var next := Enc(items[|es|], depth + 1, inKey);
        if next.Unencodable? { return Unencodable(next.reason); }
        GrowsOn(old(heap), old(byid), cells, before, heap, byid);
        ItemsStay(world, before, byid, items, es);
        ReachedOn(world, old(byid), before, byid, v, items[|es|]);
        es := es + [next.value];
      }
      ItemsEncoded(world, byid, v, es);
      return Done(es);
    }

    method EncMapping(v: Live, depth: nat, inKey: bool) returns (r: Outcome<seq<(Encoded, Encoded)>>)
      requires Valid() && depth <= MAX_DEPTH
      requires v.At? && world(v.id).Mapping? && |world(v.id).entries| <= MAX_ELEMS
      modifies this`heap, this`byid, this`objs
      ensures r.Done? ==> Valid() && Grows(old(heap), old(byid), heap, byid) && Reached(world, old(byid), byid, v)
      ensures r.Done? ==> var e := Dict(r.value);
        Encodes(world, byid, v, e) && PlainKeys(e) && (inKey ==> NoRef(e))
      ensures AsWalked(r, byid, Walk(world, v, depth, inKey, old(byid).Keys))
      decreases MAX_DEPTH + 1 - depth, 1
    {
      hide Encodes, NoRef, PlainKeys, Sound, Walk, Reached, Grows;
      StartsReached(world, byid, v);
      WalkParts(world, v, depth, inKey, byid.Keys);
      GrowsFrom(heap, byid);
      var entries := world(v.id).entries;
      var es: seq<(Encoded, Encoded)> := [];
      assert entries[0..] == entries;
      while |es| < |entries|
        invariant |es| <= |entries|
        invariant Valid() && Grows(old(heap), old(byid), heap, byid) && Reached(world, old(byid), byid, v)
        invariant forall i | 0 <= i < |es| :: Encodes(world, byid, entries[i].0, es[i].0) && Encodes(world, byid, entries[i].1, es[i].1)
        invariant forall i | 0 <= i < |es| :: NoRef(es[i].0) && PlainKeys(es[i].0) && PlainKeys(es[i].1) && (inKey ==> NoRef(es[i].1))
        invariant Walk(world, v, depth, inKey, old(byid).Keys) ==
                  WalkEntries(world, entries[|es|..], depth, inKey, byid.Keys)
      {
        ghost var before, cells := byid, heap;
        InsideParts(world, v);
        assert entries[|es|..][0] == entries[|es|] && entries[|es|..][1..] == entries[|es| + 1..];
        var entry := EncEntry(entries[|es|], depth, inKey);
        if entry.Unencodable? { return Unencodable(entry.reason); }
        GrowsOn(old(heap), old(byid), cells, before, heap, byid);
        EntriesStay(world, before, byid, entries, es);
        EntryReachedOn(world, old(byid), before, byid, v, entries[|es|]);
        es := es + [entry.value];
      }
      EntriesEncoded(world, byid, v, es);
      return Done(es);
    }

    method EncEntry(e: (Live, Live), depth: nat, inKey: bool) returns (r: Outcome<(Encoded, Encoded)>)
      requires Valid() && depth <= MAX_DEPTH
      modifies this`heap, this`byid, this`objs
      ensures r.Done? ==> Valid() && Grows(old(heap), old(byid), heap, byid) && EntryReached(world, old(byid), byid, e)
      ensures r.Done? ==> Encodes(world, byid, e.0, r.value.0) && Encodes(world, byid, e.1, r.value.1)
      ensures r.Done? ==> NoRef(r.value.0) && PlainKeys(r.value.0) && PlainKeys(r.value.1) && (inKey ==> NoRef(r.value.1))
      ensures AsWalked(r, byid, WalkEntry(world, e, depth, inKey, old(byid).Keys))
      decreases MAX_DEPTH + 1 - depth, 0
    {
      hide Encodes, NoRef, PlainKeys, Sound, Walk, Grows;
      ghost var before, cells := byid, heap;
      var key := Enc(e.0, depth + 1, true);
      if key.Unencodable? { return Unencodable(key.reason); }
      ghost var between, more := byid, heap;
      var value := Enc(e.1, depth + 1, inKey);
      if value.Unencodable? { return Unencodable(value.reason); }
      GrowsOn(cells, before, more, between, heap, byid);
      StaysEncoded(world, between, byid, e.0, key.value);
      return Done((key.value, value.value));
    }

    /** Give an object a cell, once, before its fields are encoded: cycles come back to it. */
    method Alloc(v: Live, depth: nat) returns (r: Outcome<Encoded>)
      requires Valid() && depth <= MAX_DEPTH
      requires v.At? && (world(v.id).Instance? || world(v.id).Opaque?)
      modifies this`heap, this`byid, this`objs
      ensures r.Done? ==> Valid() && Grows(old(heap), old(byid), heap, byid) && Reached(world, old(byid), byid, v)
      ensures r.Done? ==> r.value.Ref? && Encodes(world, byid, v, r.value)
      ensures AsWalked(r, byid, Walk(world, v, depth, false, old(byid).Keys))
      decreases MAX_DEPTH + 1 - depth, 1
    {
      hide NoRef, PlainKeys, Sound, Closed, Snapshot, CellKeys;
      var id := v.id;
      if id in byid { return Done(Ref(byid[id])); }
      var thing := world(id);
      if thing.Opaque? { return Unencodable(thing.reason); }
      if |thing.fields| > MAX_ELEMS { return Unencodable("wide-object"); }
      var index := |heap|;
      OpenCell(world, heap, byid, objs, id);
      heap := heap + [None];
      byid := byid[id := index];
      objs := objs[index := id];
      ghost var cells, named := heap, byid;
      assert named.Keys == old(byid).Keys + {id};
      WalkObject(world, v, depth, old(byid).Keys);
      var fields := EncFields(v, depth);
      if fields.Unencodable? { return Unencodable(fields.reason); }
      CloseCell(world, cells, named, heap, byid, objs, id, fields.value);
      ReachedObject(world, old(byid), named, byid, v);
      heap := heap[index := Some(Cell(thing.cls, fields.value))];
      return Done(Ref(index));
    }

    method EncFields(v: Live, depth: nat) returns (r: Outcome<seq<(string, Encoded)>>)
      requires Valid() && depth <= MAX_DEPTH
      requires v.At? && world(v.id).Instance? && |world(v.id).fields| <= MAX_ELEMS
      modifies this`heap, this`byid, this`objs
      ensures r.Done? ==> Valid() && Grows(old(heap), old(byid), heap, byid) && Reached(world, old(byid), byid, v)
      ensures r.Done? ==> var cell := Cell(world(v.id).cls, r.value);
        Snapshot(world, byid, v.id, cell) && CellKeys(cell)
      ensures AsWalked(r, byid, WalkAll(world, Values(world(v.id).fields), depth, false, old(byid).Keys))
      decreases MAX_DEPTH + 1 - depth, 0
    {
      hide Encodes, NoRef, PlainKeys, Sound, Walk, Reached, Grows;
      StartsReached(world, byid, v);
      GrowsFrom(heap, byid);
      var fields := world(v.id).fields;
      var es: seq<(string, Encoded)> := [];
      assert fields[0..] == fields;
      while |es| < |fields|
        invariant |es| <= |fields|
        invariant Valid() && Grows(old(heap), old(byid), heap, byid) && Reached(world, old(byid), byid, v)
        invariant forall i | 0 <= i < |es| ::
          es[i].0 == fields[i].0 && Encodes(world, byid, fields[i].1, es[i].1) && PlainKeys(es[i].1)
        invariant WalkAll(world, Values(fields), depth, false, old(byid).Keys) ==
          WalkAll(world, Values(fields[|es|..]), depth, false, byid.Keys)
      {
        ghost var before, cells := byid, heap;
        InsideParts(world, v);
        assert Values(fields[|es|..])[0] == fields[|es|].1 && Values(fields[|es|..])[1..] == Values(fields[|es| + 1..]);
        var value := Enc(fields[|es|].1, depth + 1, false);
        if value.Unencodable? { return Unencodable(value.reason); }
        GrowsOn(old(heap), old(byid), cells, before, heap, byid);
        FieldsStay(world, before, byid, fields, es);
        ReachedOn(world, old(byid), before, byid, v, fields[|es|].1);
        es := es + [(fields[|es|].0, value.value)];
      }
      return Done(es);
    }

    /** From here on an object without a cell is new. `InputHeap` goes on being `heap`, whatever
    is appended to it: the source keeps one list under both names. */
    method Freeze()
      modifies this`pin
      ensures pin == byid.Keys
    {
      pin := byid.Keys;
    }

    function InputHeap(): (h: seq<Option<Cell>>)
      reads this
    {
      heap
    }

    /** Encode a result in the namespace of the arguments: when it succeeds after `Freeze`,
    the frozen heap is untouched and every object in the result already had a cell. */
    method EncResult(v: Live) returns (r: Outcome<Encoded>)
      requires Complete() && pin == byid.Keys
      modifies this`heap, this`byid, this`objs
      ensures r.Done? ==> Complete() && heap == old(heap) && byid == old(byid)
      ensures r.Done? ==> Encodes(world, old(byid), v, r.value)
      ensures var walk := Walk(world, v, 0, false, pin);
              if walk.Unencodable? then r == Unencodable(walk.reason)
              else if walk.value == pin then r.Done?
              else r == Unencodable("result-allocates-fresh-object")
    {
      r := Enc(v, 0, false);
      if r.Done? {
        if exists id | id in byid.Keys :: id !in pin {
          return Unencodable("result-allocates-fresh-object");
        }
        NothingNew(world, old(heap), old(byid), old(objs), heap, byid, objs);
      }
    }
  }

  // ----- what the encoder relies on -----

  lemma {:induction false} StaysEncoded(w: World, byid: map<nat, nat>, byid': map<nat, nat>, v: Live, e: Encoded)
    requires forall id | id in byid :: id in byid' && byid'[id] == byid[id]
    requires Encodes(w, byid, v, e)
    ensures Encodes(w, byid', v, e)
    decreases e
  {
    match e
    case Items(_, items) =>
      forall i | 0 <= i < |items| ensures Encodes(w, byid', w(v.id).items[i], items[i]) {
        StaysEncoded(w, byid, byid', w(v.id).items[i], items[i]);
      }
    case Dict(entries) =>
      forall i | 0 <= i < |entries|
        ensures Encodes(w, byid', w(v.id).entries[i].0, entries[i].0)
                && Encodes(w, byid', w(v.id).entries[i].1, entries[i].1) {
        StaysEncoded(w, byid, byid', w(v.id).entries[i].0, entries[i].0);
        StaysEncoded(w, byid, byid', w(v.id).entries[i].1, entries[i].1);
      }
    case _ =>
  }

  lemma ItemsEncoded(w: World, byid: map<nat, nat>, v: Live, es: seq<Encoded>)
    requires v.At? && w(v.id).Sequence? && |es| == |w(v.id).items|
    requires forall i | 0 <= i < |es| :: Encodes(w, byid, w(v.id).items[i], es[i]) && PlainKeys(es[i])
    ensures var e := Items(w(v.id).kind, es);
            Encodes(w, byid, v, e) && PlainKeys(e) && ((forall i | 0 <= i < |es| :: NoRef(es[i])) ==> NoRef(e))
  {}

  lemma EntriesEncoded(w: World, byid: map<nat, nat>, v: Live, es: seq<(Encoded, Encoded)>)
    requires v.At? && w(v.id).Mapping? && |es| == |w(v.id).entries|
    requires forall i | 0 <= i < |es| ::
      Encodes(w, byid, w(v.id).entries[i].0, es[i].0) && Encodes(w, byid, w(v.id).entries[i].1, es[i].1)
      && NoRef(es[i].0) && PlainKeys(es[i].0) && PlainKeys(es[i].1)
    ensures var e := Dict(es);
            Encodes(w, byid, v, e) && PlainKeys(e) && ((forall i | 0 <= i < |es| :: NoRef(es[i].1)) ==> NoRef(e))
  {}

  lemma GrowsFrom(heap: seq<Option<Cell>>, byid: map<nat, nat>)
    ensures Grows(heap, byid, heap, byid)
  {}

  lemma GrowsOn(h0: seq<Option<Cell>>, b0: map<nat, nat>, h1: seq<Option<Cell>>, b1: map<nat, nat>,
                h2: seq<Option<Cell>>, b2: map<nat, nat>)
    requires Grows(h0, b0, h1, b1) && Grows(h1, b1, h2, b2)
    ensures Grows(h0, b0, h2, b2) && forall id | id in b1 :: id in b2 && b2[id] == b1[id]
  {}

  lemma StartsReached(w: World, byid: map<nat, nat>, v: Live)
    ensures Reached(w, byid, byid, v)
  {}

  /** A closed set that holds a thing holds its parts. */
  lemma InsideParts(w: World, v: Live)
    requires v.At?
    ensures forall s: iset<nat> | Closed(w, s) && Inside(s, v) ::
      && (w(v.id).Sequence? ==> forall i | 0 <= i < |w(v.id).items| :: Inside(s, w(v.id).items[i]))
      && (w(v.id).Mapping? ==> forall i | 0 <= i < |w(v.id).entries| :: Inside(s, w(v.id).entries[i].0) && Inside(s, w(v.id).entries[i].1))
      && (w(v.id).Instance? ==> forall i | 0 <= i < |w(v.id).fields| :: Inside(s, w(v.id).fields[i].1))
  {}

  lemma WalkParts(w: World, v: Live, depth: nat, inKey: bool, met: set<nat>)
    requires v.At? && depth <= MAX_DEPTH
    ensures w(v.id).Sequence? && |w(v.id).items| <= MAX_ELEMS ==>
      Walk(w, v, depth, inKey, met) == WalkAll(w, w(v.id).items, depth, inKey, met)
    ensures w(v.id).Mapping? && |w(v.id).entries| <= MAX_ELEMS ==>
      Walk(w, v, depth, inKey, met) == WalkEntries(w, w(v.id).entries, depth, inKey, met)
  {}

  lemma ItemsStay(w: World, byid: map<nat, nat>, byid': map<nat, nat>, vs: seq<Live>, es: seq<Encoded>)
    requires forall id | id in byid :: id in byid' && byid'[id] == byid[id]
    requires |es| <= |vs| && forall i | 0 <= i < |es| :: Encodes(w, byid, vs[i], es[i])
    ensures forall i | 0 <= i < |es| :: Encodes(w, byid', vs[i], es[i])
  {
    forall i | 0 <= i < |es| ensures Encodes(w, byid', vs[i], es[i]) { StaysEncoded(w, byid, byid', vs[i], es[i]); }
  }

  lemma FieldsStay(w: World, byid: map<nat, nat>, byid': map<nat, nat>, vs: seq<(string, Live)>,
                   es: seq<(string, Encoded)>)
    requires forall id | id in byid :: id in byid' && byid'[id] == byid[id]
    requires |es| <= |vs| && forall i | 0 <= i < |es| :: Encodes(w, byid, vs[i].1, es[i].1)
    ensures forall i | 0 <= i < |es| :: Encodes(w, byid', vs[i].1, es[i].1)
  {
    forall i | 0 <= i < |es| ensures Encodes(w, byid', vs[i].1, es[i].1) { StaysEncoded(w, byid, byid', vs[i].1, es[i].1); }
  }

  lemma EntriesStay(w: World, byid: map<nat, nat>, byid': map<nat, nat>, vs: seq<(Live, Live)>,
                    es: seq<(Encoded, Encoded)>)
    requires forall id | id in byid :: id in byid' && byid'[id] == byid[id]
    requires |es| <= |vs| && forall i | 0 <= i < |es| :: Encodes(w, byid, vs[i].0, es[i].0) && Encodes(w, byid, vs[i].1, es[i].1)
    ensures forall i | 0 <= i < |es| :: Encodes(w, byid', vs[i].0, es[i].0) && Encodes(w, byid', vs[i].1, es[i].1)
  {
    forall i | 0 <= i < |es| ensures Encodes(w, byid', vs[i].0, es[i].0) && Encodes(w, byid', vs[i].1, es[i].1) {
      StaysEncoded(w, byid, byid', vs[i].0, es[i].0);
      StaysEncoded(w, byid, byid', vs[i].1, es[i].1);
    }
  }

  lemma EntryReachedOn(w: World, byid0: map<nat, nat>, byid1: map<nat, nat>, byid2: map<nat, nat>, v: Live,
                       e: (Live, Live))
    requires Reached(w, byid0, byid1, v) && EntryReached(w, byid1, byid2, e)
    requires forall s: iset<nat> | Closed(w, s) && Inside(s, v) :: Inside(s, e.0) && Inside(s, e.1)
    ensures Reached(w, byid0, byid2, v)
  {}

  lemma ReachedOn(w: World, byid0: map<nat, nat>, byid1: map<nat, nat>, byid2: map<nat, nat>, v: Live, part: Live)
    requires Reached(w, byid0, byid1, v) && Reached(w, byid1, byid2, part)
    requires forall s: iset<nat> | Closed(w, s) && Inside(s, v) :: Inside(s, part)
    ensures Reached(w, byid0, byid2, v)
  {}

  lemma OpenCell(w: World, heap: seq<Option<Cell>>, byid: map<nat, nat>, objs: map<nat, nat>, id: nat)
    requires Sound(w, heap, byid, objs) && id !in byid
    ensures Sound(w, heap + [None], byid[id := |heap|], objs[|heap| := id])
  {
    forall k | 0 <= k < |heap| && heap[k].Some? ensures Snapshot(w, byid[id := |heap|], objs[k], heap[k].value) {
      var cell := heap[k].value;
      forall i | 0 <= i < |cell.fields|
        ensures Encodes(w, byid[id := |heap|], w(objs[k]).fields[i].1, cell.fields[i].1) {
        StaysEncoded(w, byid, byid[id := |heap|], w(objs[k]).fields[i].1, cell.fields[i].1);
      }
    }
  }

  lemma CloseCell(w: World, cells: seq<Option<Cell>>, named: map<nat, nat>,
                  heap: seq<Option<Cell>>, byid: map<nat, nat>, objs: map<nat, nat>, id: nat, fields: seq<(string, Encoded)>)
    requires cells != [] && Grows(cells, named, heap, byid) && Sound(w, heap, byid, objs)
    requires id in named && named[id] == |cells| - 1
    requires w(id).Instance?
    requires var cell := Cell(w(id).cls, fields); Snapshot(w, byid, id, cell) && CellKeys(cell)
    ensures var heap' := heap[|cells| - 1 := Some(Cell(w(id).cls, fields))];
            Sound(w, heap', byid, objs) && Grows(cells[..|cells| - 1], named, heap', byid)
  {
    hide Snapshot, CellKeys;
  }

  lemma ReachedObject(w: World, byid0: map<nat, nat>, named: map<nat, nat>, byid1: map<nat, nat>, v: Live)
    requires v.At? && (forall id | id in named :: id in byid0 || id == v.id)
    requires Reached(w, named, byid1, v)
    ensures Reached(w, byid0, byid1, v)
  {}

  lemma NothingNew(w: World, heap: seq<Option<Cell>>, byid: map<nat, nat>, objs: map<nat, nat>,
                   heap': seq<Option<Cell>>, byid': map<nat, nat>, objs': map<nat, nat>)
    requires Sound(w, heap, byid, objs) && Sound(w, heap', byid', objs') && Grows(heap, byid, heap', byid')
    requires byid'.Keys <= byid.Keys
    ensures heap' == heap && byid' == byid
  {
    if heap' != [] {
      var last := objs'[|heap'| - 1];
      assert last in byid && byid[last] == byid'[last];
    }
    assert heap' == heap;
  }

  // ----- what is refused -----

  /** A reason to refuse on a path from `v` that goes through no object twice and through none
  that was met before: a cycle is no reason. */
  ghost predicate Blamed(w: World, v: Live, depth: nat, inKey: bool, met: set<nat>, reason: string)
    decreases 9 - depth
  {
    if depth > 8 then depth == 9 && reason == "depth" else
    v.At? &&
    match w(v.id)
    case Sequence(_, items) =>
      if |items| > 512 then reason == "wide"
      else exists i | 0 <= i < |items| :: Blamed(w, items[i], depth + 1, inKey, met, reason)
    case Mapping(entries) =>
      if |entries| > 512 then reason == "wide"
      else exists i | 0 <= i < |entries| ::
        Blamed(w, entries[i].0, depth + 1, true, met, reason) || Blamed(w, entries[i].1, depth + 1, inKey, met, reason)
    case Named(_) => false
    case Refused(why) => reason == why
    case Opaque(why) => if inKey then reason == "object-as-dict-key" else v.id !in met && reason == why
    case Instance(_, fields) =>
      if inKey then reason == "object-as-dict-key"
      else if v.id in met then false
      else if |fields| > 512 then reason == "wide-object"
      else exists i | 0 <= i < |fields| :: Blamed(w, fields[i].1, depth + 1, false, met + {v.id}, reason)
  }

  lemma {:induction false} BlamedFewer(w: World, v: Live, depth: nat, inKey: bool, met: set<nat>, fewer: set<nat>,
                                       reason: string)
    requires fewer <= met && Blamed(w, v, depth, inKey, met, reason)
    ensures Blamed(w, v, depth, inKey, fewer, reason)
    decreases MAX_DEPTH + 1 - depth
  {
    if depth <= MAX_DEPTH {
      match w(v.id)
      case Sequence(_, items) =>
        if |items| <= MAX_ELEMS {
          var i :| 0 <= i < |items| && Blamed(w, items[i], depth + 1, inKey, met, reason);
          BlamedFewer(w, items[i], depth + 1, inKey, met, fewer, reason);
        }
      case Mapping(entries) =>
        if |entries| <= MAX_ELEMS {
          var i :| 0 <= i < |entries|
            && (Blamed(w, entries[i].0, depth + 1, true, met, reason) || Blamed(w, entries[i].1, depth + 1, inKey, met, reason));
          if Blamed(w, entries[i].0, depth + 1, true, met, reason) {
            BlamedFewer(w, entries[i].0, depth + 1, true, met, fewer, reason);
          } else {
            BlamedFewer(w, entries[i].1, depth + 1, inKey, met, fewer, reason);
          }
        }
      case Instance(_, fields) =>
        if !inKey && |fields| <= MAX_ELEMS {
          var i :| 0 <= i < |fields| && Blamed(w, fields[i].1, depth + 1, false, met + {v.id}, reason);
          BlamedFewer(w, fields[i].1, depth + 1, false, met + {v.id}, fewer + {v.id}, reason);
        }
      case _ =>
    }
  }

  /** The walk only adds to the objects met. */
  lemma {:induction false} WalkAdds(w: World, v: Live, depth: nat, inKey: bool, met: set<nat>)
    requires depth <= MAX_DEPTH + 1
    ensures var r := Walk(w, v, depth, inKey, met); r.Done? ==> met <= r.value
    decreases MAX_DEPTH + 1 - depth, 2
  {
    if depth <= MAX_DEPTH && v.At? {
      match w(v.id)
      case Sequence(_, items) => WalkAllAdds(w, items, depth, inKey, met);
      case Mapping(entries) => WalkEntriesAdds(w, entries, depth, inKey, met);
      case Instance(_, fields) => WalkAllAdds(w, Values(fields), depth, false, met + {v.id});
      case _ =>
    }
  }

  lemma {:induction false} WalkAllAdds(w: World, vs: seq<Live>, depth: nat, inKey: bool, met: set<nat>)
    requires depth <= MAX_DEPTH
    ensures var r := WalkAll(w, vs, depth, inKey, met); r.Done? ==> met <= r.value
    decreases MAX_DEPTH + 1 - depth, 1, |vs|
  {
    if vs != [] {
      WalkAdds(w, vs[0], depth + 1, inKey, met);
      var first := Walk(w, vs[0], depth + 1, inKey, met);
      if first.Done? { WalkAllAdds(w, vs[1..], depth, inKey, first.value); }
    }
  }

  lemma {:induction false} WalkEntriesAdds(w: World, es: seq<(Live, Live)>, depth: nat, inKey: bool, met: set<nat>)
    requires depth <= MAX_DEPTH
    ensures var r := WalkEntries(w, es, depth, inKey, met); r.Done? ==> met <= r.value
    decreases MAX_DEPTH + 1 - depth, 1, |es|
  {
    if es != [] {
      WalkAdds(w, es[0].0, depth + 1, true, met);
      var key := Walk(w, es[0].0, depth + 1, true, met);
      if key.Done? {
        WalkAdds(w, es[0].1, depth + 1, inKey, key.value);
        var first := WalkEntry(w, es[0], depth, inKey, met);
        if first.Done? { WalkEntriesAdds(w, es[1..], depth, inKey, first.value); }
      }
    }
  }

  /** A refusal has its reason in the graph, on a path without a repetition. */
  lemma {:induction false} RefusalHasReason(w: World, v: Live, depth: nat, inKey: bool, met: set<nat>)
    requires depth <= MAX_DEPTH + 1
    ensures var r := Walk(w, v, depth, inKey, met); r.Unencodable? ==> Blamed(w, v, depth, inKey, met, r.reason)
    decreases MAX_DEPTH + 1 - depth, 2
  {
    if depth <= MAX_DEPTH && v.At? && Walk(w, v, depth, inKey, met).Unencodable? {
      match w(v.id)
      case Sequence(_, items) =>
        if |items| <= MAX_ELEMS { var i := ItemToBlame(w, items, depth, inKey, met); }
      case Mapping(entries) =>
        if |entries| <= MAX_ELEMS { var i := EntryToBlame(w, entries, depth, inKey, met); }
      case Instance(_, fields) =>
        if !inKey && v.id !in met && |fields| <= MAX_ELEMS {
          var i := ItemToBlame(w, Values(fields), depth, false, met + {v.id});
        }
      case _ =>
    }
  }

  lemma {:induction false} ItemToBlame(w: World, vs: seq<Live>, depth: nat, inKey: bool, met: set<nat>) returns (i: nat)
    requires depth <= MAX_DEPTH && WalkAll(w, vs, depth, inKey, met).Unencodable?
    ensures i < |vs| && Blamed(w, vs[i], depth + 1, inKey, met, WalkAll(w, vs, depth, inKey, met).reason)
    decreases MAX_DEPTH + 1 - depth, 1, |vs|
  {
    hide Blamed, Walk;
    RefusalHasReason(w, vs[0], depth + 1, inKey, met);
    var first := Walk(w, vs[0], depth + 1, inKey, met);
    if first.Unencodable? {
      i := 0;
    } else {
      WalkAdds(w, vs[0], depth + 1, inKey, met);
      var k := ItemToBlame(w, vs[1..], depth, inKey, first.value);
      i := k + 1;
      BlamedFewer(w, vs[i], depth + 1, inKey, first.value, met, WalkAll(w, vs, depth, inKey, met).reason);
    }
  }

  lemma {:induction false} EntryToBlame(w: World, es: seq<(Live, Live)>, depth: nat, inKey: bool,
                                        met: set<nat>) returns (i: nat)
    requires depth <= MAX_DEPTH && WalkEntries(w, es, depth, inKey, met).Unencodable?
    ensures var reason := WalkEntries(w, es, depth, inKey, met).reason;
            i < |es| && (Blamed(w, es[i].0, depth + 1, true, met, reason) || Blamed(w, es[i].1, depth + 1, inKey, met, reason))
    decreases MAX_DEPTH + 1 - depth, 1, |es|
  {
    hide Blamed, Walk;
    var reason := WalkEntries(w, es, depth, inKey, met).reason;
    RefusalHasReason(w, es[0].0, depth + 1, true, met);
    WalkAdds(w, es[0].0, depth + 1, true, met);
    var key := Walk(w, es[0].0, depth + 1, true, met);
    i := 0;
    if key.Done? {
      RefusalHasReason(w, es[0].1, depth + 1, inKey, key.value);
      WalkAdds(w, es[0].1, depth + 1, inKey, key.value);
      var value := Walk(w, es[0].1, depth + 1, inKey, key.value);
      if value.Unencodable? {
        BlamedFewer(w, es[0].1, depth + 1, inKey, key.value, met, reason);
      } else {
        var k := EntryToBlame(w, es[1..], depth, inKey, value.value);
        i := k + 1;
        if Blamed(w, es[i].0, depth + 1, true, value.value, reason) {
          BlamedFewer(w, es[i].0, depth + 1, true, value.value, met, reason);
        } else {
          BlamedFewer(w, es[i].1, depth + 1, inKey, value.value, met, reason);
        }
      }
    }
  }

  /** Objects whose fields hold only atoms and one another, in any cycles. */
  ghost predicate Entangled(w: World, objects: set<nat>) {
    forall id | id in objects :: w(id).Instance? && |w(id).fields| <= 512
      && forall i | 0 <= i < |w(id).fields| :: w(id).fields[i].1.At? ==> w(id).fields[i].1.id in objects
  }

  /** However such objects refer to one another, as few of them as there are levels encode. */
  lemma {:induction false} CyclesEncode(w: World, objects: set<nat>, v: Live, depth: nat, met: set<nat>)
    requires Entangled(w, objects) && (v.At? ==> v.id in objects) && depth + |objects - met| <= 8
    ensures Walk(w, v, depth, false, met).Done?
    decreases MAX_DEPTH + 1 - depth, 1
  {
    if v.At? && v.id !in met {
      var left, less := objects - met, objects - (met + {v.id});
      assert left == less + {v.id};
      AllCyclesEncode(w, objects, Values(w(v.id).fields), depth, met + {v.id});
    }
  }

  lemma {:induction false} AllCyclesEncode(w: World, objects: set<nat>, vs: seq<Live>, depth: nat, met: set<nat>)
    requires Entangled(w, objects) && (forall i | 0 <= i < |vs| :: vs[i].At? ==> vs[i].id in objects)
    requires depth + 1 + |objects - met| <= MAX_DEPTH
    ensures WalkAll(w, vs, depth, false, met).Done?
    decreases MAX_DEPTH + 1 - depth, 0, |vs|
  {
    hide Walk, Entangled;
    if vs != [] {
      CyclesEncode(w, objects, vs[0], depth + 1, met);
      WalkAdds(w, vs[0], depth + 1, false, met);
      var more := Walk(w, vs[0], depth + 1, false, met).value;
      FewerLeft(objects, met, more);
      AllCyclesEncode(w, objects, vs[1..], depth, more);
    }
  }

  lemma FewerLeft(objects: set<nat>, met: set<nat>, more: set<nat>)
    requires met <= more
    ensures |objects - more| <= |objects - met|
  {
    assert objects - met == (objects - more) + (objects - met) * more;
    assert |objects - met| == |objects - more| + |(objects - met) * more|;
  }

  // ----- what is encoded -----

  /** Within the limits: at most eight levels down, no container of more than 512 parts, no
  refusal, no object in a key, and every object among those encoded. */
  ghost predicate Admits(w: World, v: Live, depth: nat, inKey: bool, done: set<nat>)
    decreases 9 - depth
  {
    depth <= 8 &&
    match v
    case Immediate(_) => true
    case At(id) =>
      match w(id)
      case Sequence(_, items) => |items| <= 512 && forall i | 0 <= i < |items| :: Admits(w, items[i], depth + 1, inKey, done)
      case Mapping(entries) =>
        |entries| <= 512 && forall i | 0 <= i < |entries| ::
          Admits(w, entries[i].0, depth + 1, true, done) && Admits(w, entries[i].1, depth + 1, inKey, done)
      case Named(_) => true
      case Refused(_) => false
      case Opaque(_) => !inKey && id in done
      case Instance(_, _) => !inKey && id in done
  }

  /** An object whose fields, one level below it, are within the limits. */
  ghost predicate ObjectFits(w: World, id: nat, depth: nat, done: set<nat>) {
    && w(id).Instance? && |w(id).fields| <= 512
    && forall i | 0 <= i < |w(id).fields| :: Admits(w, w(id).fields[i].1, depth + 1, false, done)
  }

  ghost predicate NewFit(w: World, met: set<nat>, done: set<nat>) {
    met <= done && forall id | id in done && id !in met :: exists depth: nat :: depth <= 8 && ObjectFits(w, id, depth, done)
  }

  lemma {:induction false} AdmitsMore(w: World, v: Live, depth: nat, inKey: bool, done: set<nat>, more: set<nat>)
    requires done <= more && Admits(w, v, depth, inKey, done)
    ensures Admits(w, v, depth, inKey, more)
    decreases 9 - depth
  {
    if v.At? {
      match w(v.id)
      case Sequence(_, items) =>
        forall i | 0 <= i < |items| ensures Admits(w, items[i], depth + 1, inKey, more) {
          AdmitsMore(w, items[i], depth + 1, inKey, done, more);
        }
      case Mapping(entries) =>
        forall i | 0 <= i < |entries|
          ensures Admits(w, entries[i].0, depth + 1, true, more) && Admits(w, entries[i].1, depth + 1, inKey, more) {
          AdmitsMore(w, entries[i].0, depth + 1, true, done, more);
          AdmitsMore(w, entries[i].1, depth + 1, inKey, done, more);
        }
      case _ =>
    }
  }

  lemma FitsMore(w: World, id: nat, depth: nat, done: set<nat>, more: set<nat>)
    requires done <= more && ObjectFits(w, id, depth, done)
    ensures ObjectFits(w, id, depth, more)
  {
    hide Admits;
    var fields := w(id).fields;
    forall i | 0 <= i < |fields| ensures Admits(w, fields[i].1, depth + 1, false, more) {
      AdmitsMore(w, fields[i].1, depth + 1, false, done, more);
    }
  }

  lemma NewFitThen(w: World, met: set<nat>, done: set<nat>, more: set<nat>)
    requires NewFit(w, met, done) && NewFit(w, done, more)
    ensures NewFit(w, met, more)
  {
    hide ObjectFits;
    forall id | id in more && id !in met ensures exists depth: nat :: depth <= 8 && ObjectFits(w, id, depth, more) {
      if id in done {
        var depth: nat :| depth <= 8 && ObjectFits(w, id, depth, done);
        FitsMore(w, id, depth, done, more);
      }
    }
  }

  /** What the walk lets pass is within the limits, and so is every object it meets. */
  lemma {:induction false} SuccessFits(w: World, v: Live, depth: nat, inKey: bool, met: set<nat>)
    requires depth <= 9 && Walk(w, v, depth, inKey, met).Done?
    ensures var done := Walk(w, v, depth, inKey, met).value;
            Admits(w, v, depth, inKey, done) && NewFit(w, met, done)
    decreases 9 - depth, 2
  {
    if v.At? {
      match w(v.id)
      case Sequence(_, items) => AllFit(w, items, depth, inKey, met);
      case Mapping(entries) => EntriesFit(w, entries, depth, inKey, met);
      case Instance(_, fields) => if v.id !in met { ObjectMet(w, v, depth, met); }
      case _ =>
    }
  }

  lemma {:induction false} ObjectMet(w: World, v: Live, depth: nat, met: set<nat>)
    requires depth <= 8 && v.At? && w(v.id).Instance? && v.id !in met && Walk(w, v, depth, false, met).Done?
    ensures var done := Walk(w, v, depth, false, met).value;
            v.id in done && NewFit(w, met, done)
    decreases 9 - depth, 1
  {
    hide Admits;
    var fields := w(v.id).fields;
    var start := met + {v.id};
    AllFit(w, Values(fields), depth, false, start);
    var done := Walk(w, v, depth, false, met).value;
    forall i | 0 <= i < |fields| ensures Admits(w, fields[i].1, depth + 1, false, done) {
      assert Values(fields)[i] == fields[i].1;
    }
    assert ObjectFits(w, v.id, depth, done);
  }

  lemma {:induction false} AllFit(w: World, vs: seq<Live>, depth: nat, inKey: bool, met: set<nat>)
    requires depth <= 8 && WalkAll(w, vs, depth, inKey, met).Done?
    ensures var done := WalkAll(w, vs, depth, inKey, met).value;
            (forall i | 0 <= i < |vs| :: Admits(w, vs[i], depth + 1, inKey, done)) && NewFit(w, met, done)
    decreases 9 - depth, 0, |vs|
  {
    hide Walk, Admits, NewFit;
    if vs == [] {
      NothingMet(w, met);
    } else {
      SuccessFits(w, vs[0], depth + 1, inKey, met);
      var first := Walk(w, vs[0], depth + 1, inKey, met).value;
      AllFit(w, vs[1..], depth, inKey, first);
      var done := WalkAll(w, vs[1..], depth, inKey, first).value;
      NewFitThen(w, met, first, done);
      WalkAllAdds(w, vs[1..], depth, inKey, first);
      AdmitsMore(w, vs[0], depth + 1, inKey, first, done);
      assert forall i | 1 <= i < |vs| :: vs[i] == vs[1..][i - 1];
    }
  }

  lemma NothingMet(w: World, met: set<nat>)
    ensures NewFit(w, met, met)
  {}

  lemma {:induction false} EntriesFit(w: World, es: seq<(Live, Live)>, depth: nat, inKey: bool, met: set<nat>)
    requires depth <= 8 && WalkEntries(w, es, depth, inKey, met).Done?
    ensures var done := WalkEntries(w, es, depth, inKey, met).value;
            && NewFit(w, met, done)
            && forall i | 0 <= i < |es| ::
                 Admits(w, es[i].0, depth + 1, true, done) && Admits(w, es[i].1, depth + 1, inKey, done)
    decreases 9 - depth, 0, |es|
  {
    hide Walk, Admits, NewFit;
    if es == [] {
      NothingMet(w, met);
    } else {
      SuccessFits(w, es[0].0, depth + 1, true, met);
      var key := Walk(w, es[0].0, depth + 1, true, met).value;
      SuccessFits(w, es[0].1, depth + 1, inKey, key);
      var first := Walk(w, es[0].1, depth + 1, inKey, key).value;
      EntriesFit(w, es[1..], depth, inKey, first);
      var done := WalkEntries(w, es[1..], depth, inKey, first).value;
      NewFitThen(w, met, key, first);
      NewFitThen(w, met, first, done);
      WalkAdds(w, es[0].1, depth + 1, inKey, key);
      WalkEntriesAdds(w, es[1..], depth, inKey, first);
      AdmitsMore(w, es[0].0, depth + 1, true, key, done);
      AdmitsMore(w, es[0].1, depth + 1, inKey, first, done);
      assert forall i | 1 <= i < |es| :: es[i] == es[1..][i - 1];
    }
  }

  // ----- what an encoding tells -----

  ghost predicate InRange(e: Encoded, n: nat) {
    match e
    case Items(_, items) => forall i | 0 <= i < |items| :: InRange(items[i], n)
    case Dict(entries) => forall i | 0 <= i < |entries| :: InRange(entries[i].0, n) && InRange(entries[i].1, n)
    case Ref(cell) => cell < n
    case _ => true
  }

  /** No reference dangles, in a value or in a cell. */
  lemma {:induction false} RefsInRange(w: World, heap: seq<Option<Cell>>, byid: map<nat, nat>, objs: map<nat, nat>,
                                       v: Live, e: Encoded)
    requires Sound(w, heap, byid, objs) && Encodes(w, byid, v, e)
    ensures InRange(e, |heap|)
    decreases e
  {
    match e
    case Items(_, items) =>
      forall i | 0 <= i < |items| ensures InRange(items[i], |heap|) {
        RefsInRange(w, heap, byid, objs, w(v.id).items[i], items[i]);
      }
    case Dict(entries) =>
      forall i | 0 <= i < |entries| ensures InRange(entries[i].0, |heap|) && InRange(entries[i].1, |heap|) {
        RefsInRange(w, heap, byid, objs, w(v.id).entries[i].0, entries[i].0);
        RefsInRange(w, heap, byid, objs, w(v.id).entries[i].1, entries[i].1);
      }
    case _ =>
  }

  /** An object encodes the same way wherever it appears. */
  lemma {:induction false} OneEncoding(w: World, byid: map<nat, nat>, v: Live, e1: Encoded, e2: Encoded)
    requires Encodes(w, byid, v, e1) && Encodes(w, byid, v, e2)
    ensures e1 == e2
    decreases e1
  {
    if e1.Items? {
      forall i | 0 <= i < |e1.items| ensures e1.items[i] == e2.items[i] {
        OneEncoding(w, byid, w(v.id).items[i], e1.items[i], e2.items[i]);
      }
      assert e1.items == e2.items;
    } else if e1.Dict? {
      forall i | 0 <= i < |e1.entries| ensures e1.entries[i] == e2.entries[i] {
        OneEncoding(w, byid, w(v.id).entries[i].0, e1.entries[i].0, e2.entries[i].0);
        OneEncoding(w, byid, w(v.id).entries[i].1, e1.entries[i].1, e2.entries[i].1);
      }
      assert e1.entries == e2.entries;
    }
  }

  /** Two values look alike to depth `n`: same atoms and names, same containers, and objects
  that have the same cell number. */
  ghost predicate Alike(w1: World, byid1: map<nat, nat>, v1: Live, w2: World, byid2: map<nat, nat>, v2: Live, n: nat)
    decreases n
  {
    if v1.Immediate? || v2.Immediate? then v1 == v2 else
    match (w1(v1.id), w2(v2.id))
    case (Sequence(k1, xs), Sequence(k2, ys)) =>
      k1 == k2 && |xs| == |ys|
      && (n > 0 ==> forall i | 0 <= i < |xs| :: Alike(w1, byid1, xs[i], w2, byid2, ys[i], n - 1))
    case (Mapping(xs), Mapping(ys)) =>
      |xs| == |ys|
      && (n > 0 ==> forall i | 0 <= i < |xs| ::
           Alike(w1, byid1, xs[i].0, w2, byid2, ys[i].0, n - 1) && Alike(w1, byid1, xs[i].1, w2, byid2, ys[i].1, n - 1))
    case (Named(f), Named(g)) => f == g
    case (_, _) => v1.id in byid1 && v2.id in byid2 && byid1[v1.id] == byid2[v2.id]
  }

  lemma {:induction false} EncodedAlike(w1: World, byid1: map<nat, nat>, v1: Live, w2: World, byid2: map<nat, nat>,
                                        v2: Live, e: Encoded, n: nat)
    requires Encodes(w1, byid1, v1, e) && Encodes(w2, byid2, v2, e)
    ensures Alike(w1, byid1, v1, w2, byid2, v2, n)
    decreases e
  {
    if n > 0 && e.Items? {
      forall i | 0 <= i < |e.items| ensures Alike(w1, byid1, w1(v1.id).items[i], w2, byid2, w2(v2.id).items[i], n - 1) {
        EncodedAlike(w1, byid1, w1(v1.id).items[i], w2, byid2, w2(v2.id).items[i], e.items[i], n - 1);
      }
    } else if n > 0 && e.Dict? {
      forall i | 0 <= i < |e.entries|
        ensures Alike(w1, byid1, w1(v1.id).entries[i].0, w2, byid2, w2(v2.id).entries[i].0, n - 1)
             && Alike(w1, byid1, w1(v1.id).entries[i].1, w2, byid2, w2(v2.id).entries[i].1, n - 1) {
        EncodedAlike(w1, byid1, w1(v1.id).entries[i].0, w2, byid2, w2(v2.id).entries[i].0, e.entries[i].0, n - 1);
        EncodedAlike(w1, byid1, w1(v1.id).entries[i].1, w2, byid2, w2(v2.id).entries[i].1, e.entries[i].1, n - 1);
      }
    }
  }

  /** A snapshot loses nothing but identities and callables' bodies: when two object graphs
  have the same cells, matching the objects that share a cell number is one to one and
  relates objects of the same class whose fields have the same names and are alike to every
  depth. */
  lemma SnapshotsIsomorphic(w1: World, byid1: map<nat, nat>, objs1: map<nat, nat>,
                            w2: World, byid2: map<nat, nat>, objs2: map<nat, nat>,
                            heap: seq<Option<Cell>>, k: nat)
    requires Sound(w1, heap, byid1, objs1) && Sound(w2, heap, byid2, objs2)
    requires k < |heap| && heap[k].Some?
    ensures k in objs1 && k in objs2
    ensures forall id1, id2 | id1 in byid1 && id2 in byid2 && byid1[id1] == k == byid2[id2] :: id1 == objs1[k] && id2 == objs2[k]
    ensures var t1, t2 := w1(objs1[k]), w2(objs2[k]);
            && t1.Instance? && t2.Instance? && t1.cls == t2.cls && |t1.fields| == |t2.fields|
            && forall i, n: nat | 0 <= i < |t1.fields| ::
                 t1.fields[i].0 == t2.fields[i].0 && Alike(w1, byid1, t1.fields[i].1, w2, byid2, t2.fields[i].1, n)
  {
    var t1, t2 := w1(objs1[k]), w2(objs2[k]);
    var cell := heap[k].value;
    assert Snapshot(w1, byid1, objs1[k], cell) && Snapshot(w2, byid2, objs2[k], cell);
    forall i, n: nat | 0 <= i < |t1.fields|
      ensures t1.fields[i].0 == t2.fields[i].0 && Alike(w1, byid1, t1.fields[i].1, w2, byid2, t2.fields[i].1, n) {
      EncodedAlike(w1, byid1, t1.fields[i].1, w2, byid2, t2.fields[i].1, cell.fields[i].1, n);
    }
  }
}
