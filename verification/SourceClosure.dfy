/** The compile units of a script: its file and the files its directives name, each once,
in declaration order, through imports that may be cyclic. */
module SourceClosure {
  import opened Core

  type Path = nat

  /** The file system. `identity` is the resolved file with its resolved parent directory;
  `imports` are the paths a file's directives name, or nothing when there is no file. */
  datatype Files = Files(identity: Path -> nat, imports: Path -> Option<seq<Path>>)

  /** Only finitely many units can be named, starting from those in `units`. */
  ghost predicate Confined(fs: Files, units: set<nat>) {
    forall p: Path | fs.identity(p) in units && fs.imports(p).Some? ::
      forall i | 0 <= i < |fs.imports(p).value| :: fs.identity(fs.imports(p).value[i]) in units
  }

  ghost predicate Inside(fs: Files, units: set<nat>, ps: seq<Path>) {
    forall i | 0 <= i < |ps| :: fs.identity(ps[i]) in units
  }

  /** The units visited, in order, and the identities seen. */
  datatype Visit = Visit(order: seq<Path>, seen: set<nat>)

  // ----- recursive depth-first search -----

  /** Visit `ps` in order: each new unit before its imports, and its imports before what
  follows it. A missing file ends everything. */
  function Search(fs: Files, ghost units: set<nat>, ps: seq<Path>, seen: set<nat>): (r: Option<Visit>)
    requires Confined(fs, units) && Inside(fs, units, ps)
    ensures r.Some? ==> seen <= r.value.seen
    decreases |units - seen|, |ps|
  {
    if ps == [] then Some(Visit([], seen)) else
    var p := ps[0];
    var id := fs.identity(p);
    if id in seen then Search(fs, units, ps[1..], seen)
    else if fs.imports(p).None? then None
    else
      assert units - (seen + {id}) < units - seen by { assert id in units - seen; }
      Smaller(units - (seen + {id}), units - seen);
      var below := Search(fs, units, fs.imports(p).value, seen + {id});
      if below.None? then None else
      Smaller(units - below.value.seen, units - (seen + {id}));
      var rest := Search(fs, units, ps[1..], below.value.seen);
      if rest.None? then None else
      Some(Visit([p] + below.value.order + rest.value.order, rest.value.seen))
  }

  lemma Smaller(a: set<nat>, b: set<nat>)
    requires a <= b
    ensures |a| <= |b| && (a < b ==> |a| < |b|)
  {
    assert b == a + (b - a);
    assert |b| == |a| + |b - a|;
    if a < b { assert b - a != {}; }
  }

  lemma Fewer(units: set<nat>, seen: set<nat>, id: nat)
    requires id in units && id !in seen
    ensures |units - (seen + {id})| < |units - seen|
  {
    assert id in units - seen && units - (seen + {id}) <= units - seen;
    Smaller(units - (seen + {id}), units - seen);
  }

  lemma NoMore(units: set<nat>, seen: set<nat>, more: set<nat>)
    requires seen <= more
    ensures |units - more| <= |units - seen|
  {
    Smaller(units - more, units - seen);
  }

  /** What `first` found, then what a search from there finds. */
  function Then(first: Visit, rest: Option<Visit>): Option<Visit> {
    if rest.None? then None else Some(Visit(first.order + rest.value.order, rest.value.seen))
  }

  lemma ThenThen(a: Visit, b: Visit, rest: Option<Visit>)
    ensures Then(a, Then(b, rest)) == Then(Visit(a.order + b.order, b.seen), rest)
  {
    if rest.Some? { assert a.order + (b.order + rest.value.order) == a.order + b.order + rest.value.order; }
  }

  lemma ThenNothing(seen: set<nat>, rest: Option<Visit>)
    ensures Then(Visit([], seen), rest) == rest
  {
    if rest.Some? { assert [] + rest.value.order == rest.value.order; }
  }

  lemma SearchCons(fs: Files, units: set<nat>, ps: seq<Path>, seen: set<nat>)
    requires Confined(fs, units) && Inside(fs, units, ps) && ps != []
    ensures Inside(fs, units, ps[1..])
    ensures var p := ps[0]; var id := fs.identity(p);
      if id in seen then Search(fs, units, ps, seen) == Search(fs, units, ps[1..], seen)
      else if fs.imports(p).None? then Search(fs, units, ps, seen) == None
      else
        && |units - (seen + {id})| < |units - seen|
        && Inside(fs, units, fs.imports(p).value)
        && var below := Search(fs, units, fs.imports(p).value, seen + {id});
           if below.None? then Search(fs, units, ps, seen) == None
           else
             && seen + {id} <= below.value.seen && |units - below.value.seen| < |units - seen|
             && Search(fs, units, ps, seen) ==
                Then(Visit([p] + below.value.order, below.value.seen), Search(fs, units, ps[1..], below.value.seen))
  {
    var id := fs.identity(ps[0]);
    if id !in seen && fs.imports(ps[0]).Some? {
      Fewer(units, seen, id);
      var below := Search(fs, units, fs.imports(ps[0]).value, seen + {id});
      if below.Some? { NoMore(units, seen + {id}, below.value.seen); }
    }
  }

  lemma InsideBoth(fs: Files, units: set<nat>, a: seq<Path>, b: seq<Path>)
    requires Inside(fs, units, a) && Inside(fs, units, b)
    ensures Inside(fs, units, a + b)
  {}

  lemma {:induction false} SearchAppend(fs: Files, units: set<nat>, a: seq<Path>, b: seq<Path>, seen: set<nat>)
    requires Confined(fs, units) && Inside(fs, units, a) && Inside(fs, units, b)
    ensures Inside(fs, units, a + b)
    ensures var first := Search(fs, units, a, seen);
            Search(fs, units, a + b, seen) ==
              if first.None? then None else Then(first.value, Search(fs, units, b, first.value.seen))
    decreases |units - seen|, |a|
  {
    hide Search, Confined, Inside;
    InsideBoth(fs, units, a, b);
    if a == [] {
      assert a + b == b;
      EmptySearch(fs, units, seen);
      ThenNothing(seen, Search(fs, units, b, seen));
    } else {
      var p := a[0];
      var id := fs.identity(p);
      assert (a + b)[1..] == a[1..] + b && (a + b)[0] == p;
      SearchCons(fs, units, a, seen);
      SearchCons(fs, units, a + b, seen);
      if id in seen {
        SearchAppend(fs, units, a[1..], b, seen);
      } else if fs.imports(p).Some? {
        var below := Search(fs, units, fs.imports(p).value, seen + {id});
        if below.Some? {
          SearchAppend(fs, units, a[1..], b, below.value.seen);
          var rest := Search(fs, units, a[1..], below.value.seen);
          if rest.Some? {
            ThenThen(Visit([p] + below.value.order, below.value.seen), rest.value,
                Search(fs, units, b, rest.value.seen));
          }
        }
      }
    }
  }

  // ----- the loop -----

  function Reversed(ps: seq<Path>): seq<Path> {
    if ps == [] then [] else Reversed(ps[1..]) + [ps[0]]
  }

  lemma {:induction false} ReversedAppend(a: seq<Path>, b: seq<Path>)
    ensures Reversed(a + b) == Reversed(b) + Reversed(a)
    decreases |a|
  {
    if a == [] {
      assert a + b == b;
    } else {
      assert (a + b)[1..] == a[1..] + b;
      ReversedAppend(a[1..], b);
    }
  }

  lemma {:induction false} ReversedTwice(ps: seq<Path>)
    ensures Reversed(Reversed(ps)) == ps
    decreases |ps|
  {
    if ps != [] {
      ReversedTwice(ps[1..]);
      ReversedOne(ps[0]);
      ReversedAppend(Reversed(ps[1..]), [ps[0]]);
    }
  }

  /** With a stack of pending paths instead of recursion. */
  method SourceFiles(fs: Files, ghost units: set<nat>, entry: Path) returns (r: Option<seq<Path>>)
    requires Confined(fs, units) && fs.identity(entry) in units
    ensures var search := Search(fs, units, [entry], {});
            r == if search.None? then None else Some(search.value.order)
  {
    hide Search, Confined, Inside, Reversed;
    var pending := [entry];
    var seen: set<nat> := {};
    var result: seq<Path> := [];
    ReversedOne(entry);
    InsideOne(fs, units, entry);
    ghost var whole := Search(fs, units, [entry], {});
    ThenNothing({}, whole);
    while pending != []
      invariant Inside(fs, units, Reversed(pending))
      invariant whole == Then(Visit(result, seen), Search(fs, units, Reversed(pending), seen))
      decreases |units - seen|, |pending|
    {
      var path := pending[|pending| - 1];
      ghost var todo := Reversed(pending);
      ReversedTop(pending);
      pending := pending[..|pending| - 1];
      assert todo[0] == path && todo[1..] == Reversed(pending);
      var identity := fs.identity(path);
      IdentityInside(fs, units, todo);
      SearchHead(fs, units, todo, seen);
      if identity !in seen {
        if fs.imports(path).None? { return None; }
        var names := fs.imports(path).value;
        Fewer(units, seen, identity);
        ReversedPush(pending, names);
        ThenThen(Visit(result, seen), Visit([path], seen + {identity}),
            Search(fs, units, names + Reversed(pending), seen + {identity}));
        seen := seen + {identity};
        result := result + [path];
        pending := pending + Reversed(names);
      }
    }
    ReversedEmpty();
    EmptySearch(fs, units, seen);
    assert result + [] == result;
    return Some(result);
  }

  lemma ReversedEmpty()
    ensures Reversed([]) == []
  {}

  lemma ReversedOne(p: Path)
    ensures Reversed([p]) == [p]
  {}

  lemma ReversedTop(ps: seq<Path>)
    requires ps != []
    ensures Reversed(ps) == [ps[|ps| - 1]] + Reversed(ps[..|ps| - 1])
  {
    hide Reversed;
    var init, last := ps[..|ps| - 1], ps[|ps| - 1];
    assert ps == init + [last];
    ReversedAppend(init, [last]);
    ReversedOne(last);
  }

  lemma ReversedPush(pending: seq<Path>, names: seq<Path>)
    ensures Reversed(pending + Reversed(names)) == names + Reversed(pending)
  {
    ReversedAppend(pending, Reversed(names));
    ReversedTwice(names);
  }

  lemma InsideOne(fs: Files, units: set<nat>, p: Path)
    requires fs.identity(p) in units
    ensures Inside(fs, units, [p])
  {}

  lemma IdentityInside(fs: Files, units: set<nat>, ps: seq<Path>)
    requires Inside(fs, units, ps) && ps != []
    ensures fs.identity(ps[0]) in units
  {}

  lemma EmptySearch(fs: Files, units: set<nat>, seen: set<nat>)
    requires Confined(fs, units)
    ensures Inside(fs, units, []) && Search(fs, units, [], seen) == Some(Visit([], seen))
  {}

  /** The first path: skipped, refused, or put before its imports and the rest. */
  lemma SearchHead(fs: Files, units: set<nat>, ps: seq<Path>, seen: set<nat>)
    requires Confined(fs, units) && ps != [] && Inside(fs, units, ps)
    ensures Inside(fs, units, ps[1..])
    ensures var p := ps[0]; var id := fs.identity(p);
            if id in seen then Search(fs, units, ps, seen) == Search(fs, units, ps[1..], seen)
            else if fs.imports(p).None? then Search(fs, units, ps, seen) == None
            else
              && Inside(fs, units, fs.imports(p).value) && Inside(fs, units, fs.imports(p).value + ps[1..])
              && Search(fs, units, ps, seen) ==
                 Then(Visit([p], seen + {id}), Search(fs, units, fs.imports(p).value + ps[1..], seen + {id}))
  {
    hide Search, Confined, Inside;
    var p := ps[0];
    var id := fs.identity(p);
    SearchCons(fs, units, ps, seen);
    if id !in seen && fs.imports(p).Some? {
      InsideBoth(fs, units, fs.imports(p).value, ps[1..]);
      SearchAppend(fs, units, fs.imports(p).value, ps[1..], seen + {id});
      var below := Search(fs, units, fs.imports(p).value, seen + {id});
      if below.Some? {
        ThenThen(Visit([p], seen + {id}), below.value, Search(fs, units, ps[1..], below.value.seen));
      }
    }
  }

  // ----- what is listed -----

  ghost predicate Once(fs: Files, order: seq<Path>) {
    forall i, j | 0 <= i < j < |order| :: fs.identity(order[i]) != fs.identity(order[j])
  }

  function Ids(fs: Files, ps: seq<Path>): set<nat> { set p | p in ps :: fs.identity(p) }

  ghost predicate ImportsSeen(fs: Files, order: seq<Path>, seen: set<nat>) {
    forall p | p in order :: fs.imports(p).Some? && Ids(fs, fs.imports(p).value) <= seen
  }

  /** What became seen is what is listed, each identity once and with all its imports. */
  ghost predicate Listing(fs: Files, seen: set<nat>, v: Visit) {
    v.seen == seen + Ids(fs, v.order) && seen * Ids(fs, v.order) == {} && Once(fs, v.order)
      && ImportsSeen(fs, v.order, v.seen)
  }

  lemma {:induction false} Listed(fs: Files, units: set<nat>, ps: seq<Path>, seen: set<nat>)
    requires Confined(fs, units) && Inside(fs, units, ps)
    ensures var r := Search(fs, units, ps, seen); r.Some? ==> Listing(fs, seen, r.value) && Ids(fs, ps) <= r.value.seen
    decreases |units - seen|, |ps|
  {
    hide Search, Confined, Inside, Ids, Once, ImportsSeen;
    if ps == [] {
      EmptySearch(fs, units, seen);
      NothingListed(fs, seen);
    } else if Search(fs, units, ps, seen).Some? {
      var p := ps[0];
      var id := fs.identity(p);
      SearchCons(fs, units, ps, seen);
      IdsCons(fs, ps);
      if id in seen {
        Listed(fs, units, ps[1..], seen);
      } else {
        Listed(fs, units, fs.imports(p).value, seen + {id});
        var below := Search(fs, units, fs.imports(p).value, seen + {id}).value;
        Listed(fs, units, ps[1..], below.seen);
        var rest := Search(fs, units, ps[1..], below.seen).value;
        ListedTogether(fs, seen, p, below, rest);
        assert [p] + below.order + rest.order == Search(fs, units, ps, seen).value.order;
      }
    }
  }

  lemma NothingListed(fs: Files, seen: set<nat>)
    ensures Listing(fs, seen, Visit([], seen)) && Ids(fs, []) == {}
  {}

  lemma IdsCons(fs: Files, ps: seq<Path>)
    requires ps != []
    ensures Ids(fs, ps) == {fs.identity(ps[0])} + Ids(fs, ps[1..])
  {
    assert ps == [ps[0]] + ps[1..];
  }

  lemma IdsTogether(fs: Files, p: Path, a: seq<Path>, b: seq<Path>)
    ensures Ids(fs, [p] + a + b) == {fs.identity(p)} + Ids(fs, a) + Ids(fs, b)
  {}

  lemma ListedTogether(fs: Files, seen: set<nat>, p: Path, below: Visit, rest: Visit)
    requires fs.identity(p) !in seen && fs.imports(p).Some? && Ids(fs, fs.imports(p).value) <= below.seen
    requires Listing(fs, seen + {fs.identity(p)}, below) && Listing(fs, below.seen, rest)
    ensures Listing(fs, seen, Visit([p] + below.order + rest.order, rest.seen))
  {
    hide Ids;
    IdsTogether(fs, p, below.order, rest.order);
    OnceTogether(fs, p, below.order, rest.order);
  }

  lemma OnceTogether(fs: Files, p: Path, a: seq<Path>, b: seq<Path>)
    requires Once(fs, a) && Once(fs, b)
    requires fs.identity(p) !in Ids(fs, a) + Ids(fs, b) && Ids(fs, a) * Ids(fs, b) == {}
    ensures Once(fs, [p] + a + b)
  {
    var all := [p] + a + b;
    forall i, j | 0 <= i < j < |all| ensures fs.identity(all[i]) != fs.identity(all[j]) {
      assert all[i] == if i == 0 then p else if i <= |a| then a[i - 1] else b[i - 1 - |a|];
      assert all[j] == if j <= |a| then a[j - 1] else b[j - 1 - |a|];
      assert fs.identity(all[j]) in if j <= |a| then Ids(fs, a) else Ids(fs, b);
      if i > |a| {
        assert fs.identity(b[i - 1 - |a|]) != fs.identity(b[j - 1 - |a|]);
      } else if i > 0 {
        assert fs.identity(all[i]) in Ids(fs, a);
        assert j <= |a| ==> fs.identity(a[i - 1]) != fs.identity(a[j - 1]);
        assert fs.identity(all[i]) !in Ids(fs, a) * Ids(fs, b);
      }
    }
  }

  /** Two paths of one identity import the same identities. */
  ghost predicate Stable(fs: Files) {
    forall p: Path, q: Path | fs.identity(p) == fs.identity(q) && fs.imports(p).Some? && fs.imports(q).Some? ::
      Ids(fs, fs.imports(p).value) == Ids(fs, fs.imports(q).value)
  }

  /** `ids` holds the identities of everything imported by any unit it holds. */
  ghost predicate Closed(fs: Files, ids: iset<nat>) {
    forall p: Path | fs.identity(p) in ids && fs.imports(p).Some? ::
      forall q | q in fs.imports(p).value :: fs.identity(q) in ids
  }

  lemma {:induction false} NothingElse(fs: Files, units: set<nat>, ps: seq<Path>, seen: set<nat>, ids: iset<nat>)
    requires Confined(fs, units) && Inside(fs, units, ps) && Closed(fs, ids)
    requires (forall p | p in ps :: fs.identity(p) in ids) && forall id | id in seen :: id in ids
    ensures var r := Search(fs, units, ps, seen); r.Some? ==> forall id | id in r.value.seen :: id in ids
    decreases |units - seen|, |ps|
  {
    if ps != [] && Search(fs, units, ps, seen).Some? {
      var p := ps[0];
      var id := fs.identity(p);
      if id in seen {
        NothingElse(fs, units, ps[1..], seen, ids);
      } else {
        assert id in units - seen && units - (seen + {id}) < units - seen;
        Smaller(units - (seen + {id}), units - seen);
        NothingElse(fs, units, fs.imports(p).value, seen + {id}, ids);
        var below := Search(fs, units, fs.imports(p).value, seen + {id}).value;
        Smaller(units - below.seen, units - (seen + {id}));
        NothingElse(fs, units, ps[1..], below.seen, ids);
      }
    }
  }

  lemma ImportsListed(fs: Files, order: seq<Path>, p: Path, q: Path)
    requires Stable(fs) && ImportsSeen(fs, order, Ids(fs, order))
    requires fs.identity(p) in Ids(fs, order) && fs.imports(p).Some? && q in fs.imports(p).value
    ensures fs.identity(q) in Ids(fs, order)
  {
    var listed :| listed in order && fs.identity(listed) == fs.identity(p);
    assert Ids(fs, fs.imports(p).value) == Ids(fs, fs.imports(listed).value);
    assert fs.identity(q) in Ids(fs, fs.imports(p).value);
  }

  /** The list names each unit once, and its identities are the least closed set that holds
  the entry: exactly those reachable from it. */
  lemma ExactlyReachable(fs: Files, units: set<nat>, entry: Path)
    requires Confined(fs, units) && fs.identity(entry) in units && Stable(fs)
    requires Search(fs, units, [entry], {}).Some?
    ensures var order := Search(fs, units, [entry], {}).value.order;
            var ids := iset id | id in Ids(fs, order);
            && Once(fs, order) && fs.identity(entry) in ids && Closed(fs, ids)
            && forall other | Closed(fs, other) && fs.identity(entry) in other :: ids <= other
  {
    hide Search, Confined, Ids, Once, ImportsSeen, Stable;
    InsideOne(fs, units, entry);
    var r := Search(fs, units, [entry], {}).value;
    var ids := iset id | id in Ids(fs, r.order);
    Listed(fs, units, [entry], {});
    IdsCons(fs, [entry]);
    assert r.seen == Ids(fs, r.order);
    forall p: Path | fs.identity(p) in ids && fs.imports(p).Some?
      ensures forall q | q in fs.imports(p).value :: fs.identity(q) in ids {
      forall q | q in fs.imports(p).value ensures fs.identity(q) in ids { ImportsListed(fs, r.order, p, q); }
    }
    forall other | Closed(fs, other) && fs.identity(entry) in other ensures ids <= other {
      NothingElse(fs, units, [entry], {}, other);
    }
  }
}
