/** The comparison of an encoded Python value with a value read back from Lean. */
module SameValues {
  import opened Core
  import opened HeapEncoder
  import opened Texts

  /** What the reader of Lean's output builds. `Boxed` is an instance of a builtin's subclass
  with the builtin value it carries. */
  datatype Lean =
    | LPlain(a: Atom)
    | LItems(kind: Kind, items: seq<Lean>)
    | LDict(entries: seq<(Lean, Lean)>)
    | LFn(name: string)
    | LRef(cell: nat)
    | Boxed(cls: string, payload: Lean)

  function Unwrap(l: Lean): Lean {
    if l.Boxed? then Unwrap(l.payload) else l
  }

  // ----- floats: payloads of NaNs are not values, signs of zeros are -----

  predicate IsNaN(bits: nat) {
    bits / 0x10_0000_0000_0000 % 0x800 == 0x7FF && bits % 0x10_0000_0000_0000 != 0
  }

  predicate SameAtom(a: Atom, b: Atom) {
    if a.Float? && b.Float? then a.bits == b.bits || (IsNaN(a.bits) && IsNaN(b.bits)) else a == b
  }

  // ----- callables: matched by dotted suffix -----

  function AfterColon(s: string): string {
    if ':' in s then AfterColon(s[1..]) else s
  }

  function JoinNamed(parts: seq<string>, first: bool): string {
    if parts == [] then ""
    else if parts[0] == "<locals>" || parts[0] == "<module>" then JoinNamed(parts[1..], first)
    else (if first then "" else ".") + parts[0] + JoinNamed(parts[1..], false)
  }

  function Qualified(name: string): string { JoinNamed(SplitDots(AfterColon(name)), true) }

  predicate EndsWith(s: string, tail: string) {
    |s| >= |tail| && s[|s| - |tail|..] == tail
  }

  predicate SameName(p: string, l: string) {
    if EndsWith(p, "<meta>") || EndsWith(l, "<meta>") then p == l
    else
      var a, b := Qualified(p), Qualified(l);
      a == b || EndsWith(a, "." + b) || EndsWith(b, "." + a)
  }

  // ----- the comparison -----

  function Same(p: Encoded, l: Lean, base: nat): bool
    decreases p, 1
  {
    match (p, Unwrap(l))
    case (Plain(a), LPlain(b)) => SameAtom(a, b)
    case (Fn(f), LFn(g)) => SameName(f, g)
    case (Ref(i), LRef(j)) => i + base == j
    case (Items(k1, xs), LItems(k2, ys)) =>
      k1 == k2 && |xs| == |ys| && forall i | 0 <= i < |xs| :: Same(xs[i], ys[i], base)
    case (Dict(xs), LDict(ys)) => |xs| == |ys| && Greedy(xs, ys, base)
    case (_, _) => false
  }

  function SameEntry(p: (Encoded, Encoded), l: (Lean, Lean), base: nat): bool
    decreases p, 2
  {
    Same(p.0, l.0, base) && Same(p.1, l.1, base)
  }

  /** Where the first entry equal to `p` stands, or the length. */
  function FirstMatch(p: (Encoded, Encoded), rest: seq<(Lean, Lean)>, base: nat): (j: nat)
    ensures j <= |rest|
    decreases p, 3, |rest|
  {
    if rest == [] then 0
    else if SameEntry(p, rest[0], base) then 0
    else 1 + FirstMatch(p, rest[1..], base)
  }

  function Without<T>(s: seq<T>, j: nat): seq<T>
    requires j < |s|
  {
    s[..j] + s[j + 1..]
  }

  /** Each entry takes the first equal entry that is left. */
  function Greedy(es: seq<(Encoded, Encoded)>, rest: seq<(Lean, Lean)>, base: nat): bool
    decreases es, 0
  {
    if es == [] then true else
    var j := FirstMatch(es[0], rest, base);
    j < |rest| && Greedy(es[1..], Without(rest, j), base)
  }

  /** The comparison as it runs: `rest` loses an entry for each one matched. */
  method Compare(p: Encoded, l: Lean, base: nat) returns (same: bool)
    ensures same == Same(p, l, base)
    decreases p
  {
    var l := l;
    ghost var given := l;
    while l.Boxed?
      invariant Unwrap(l) == Unwrap(given)
      decreases l
    {
      l := l.payload;
    }
    match (p, l) {
      case (Plain(a), LPlain(b)) => same := SameAtom(a, b);
      case (Fn(f), LFn(g)) => same := SameName(f, g);
      case (Ref(i), LRef(j)) => same := i + base == j;
      case (Items(k1, xs), LItems(k2, ys)) =>
        if k1 != k2 || |xs| != |ys| { return false; }
        for i := 0 to |xs|
          invariant forall m | 0 <= m < i :: Same(xs[m], ys[m], base)
        {
          var item := Compare(xs[i], ys[i], base);
          if !item { return false; }
        }
        same := true;
      case (Dict(xs), LDict(ys)) =>
        if |xs| != |ys| { return false; }
        var rest := ys;
        for i := 0 to |xs|
          invariant Greedy(xs, ys, base) == Greedy(xs[i..], rest, base)
        {
          assert xs[i..][0] == xs[i] && xs[i..][1..] == xs[i + 1..];
          var j := 0;
          var found := false;
          while j < |rest| && !found
            invariant j <= |rest|
            invariant if found then j == FirstMatch(xs[i], rest, base) < |rest|
                      else FirstMatch(xs[i], rest, base) == j + FirstMatch(xs[i], rest[j..], base)
            decreases |rest| - j, !found
          {
            assert rest[j..][0] == rest[j] && rest[j..][1..] == rest[j + 1..];
            found := Compare(xs[i].0, rest[j].0, base);
            if found { found := Compare(xs[i].1, rest[j].1, base); }
            if !found { j := j + 1; }
          }
          if !found { return false; }
          rest := rest[..j] + rest[j + 1..];
        }
        same := true;
      case (_, _) => same := false;
    }
  }

  // ----- floats by their fields -----

  /** The 64 bits of a float with this sign, exponent and fraction. */
  function Packed(sign: nat, exponent: nat, fraction: nat): nat {
    sign * 0x8000_0000_0000_0000 + exponent * 0x10_0000_0000_0000 + fraction
  }

  predicate Fields(sign: nat, exponent: nat, fraction: nat) {
    sign < 2 && exponent < 2048 && fraction < 0x10_0000_0000_0000
  }

  lemma Unpacked(sign: nat, exponent: nat, fraction: nat)
    requires Fields(sign, exponent, fraction)
    ensures var bits := Packed(sign, exponent, fraction);
            && bits % 0x10_0000_0000_0000 == fraction
            && bits / 0x10_0000_0000_0000 % 0x800 == exponent
            && bits / 0x8000_0000_0000_0000 == sign
  {
    var bits := Packed(sign, exponent, fraction);
    assert bits == (sign * 0x800 + exponent) * 0x10_0000_0000_0000 + fraction;
    assert bits / 0x10_0000_0000_0000 == sign * 0x800 + exponent;
  }

  /** Two floats are the same exactly when their fields are, or both are NaNs, whose exponent is
  all ones and whose fraction is not zero. */
  lemma FloatsAlike(s1: nat, e1: nat, f1: nat, s2: nat, e2: nat, f2: nat, base: nat)
    requires Fields(s1, e1, f1) && Fields(s2, e2, f2)
    ensures Same(Plain(Float(Packed(s1, e1, f1))), LPlain(Float(Packed(s2, e2, f2))), base) <==>
            (s1 == s2 && e1 == e2 && f1 == f2) || (e1 == 2047 && f1 > 0 && e2 == 2047 && f2 > 0)
  {
    Unpacked(s1, e1, f1);
    Unpacked(s2, e2, f2);
  }

  /** Infinities and zeros of different sign stay apart; payloads and signs of NaNs do not
  matter. */
  lemma SpecialFloats(f1: nat, f2: nat, s1: nat, s2: nat, base: nat)
    requires s1 < 2 && s2 < 2 && 0 < f1 < 0x10_0000_0000_0000 && 0 < f2 < 0x10_0000_0000_0000
    ensures !Same(Plain(Float(Packed(0, 2047, 0))), LPlain(Float(Packed(1, 2047, 0))), base)
    ensures !Same(Plain(Float(Packed(0, 0, 0))), LPlain(Float(Packed(1, 0, 0))), base)
    ensures !Same(Plain(Float(Packed(s1, 2047, 0))), LPlain(Float(Packed(s2, 2047, f2))), base)
    ensures Same(Plain(Float(Packed(s1, 2047, f1))), LPlain(Float(Packed(s2, 2047, f2))), base)
  {
    hide Same, Packed;
    FloatsAlike(0, 2047, 0, 1, 2047, 0, base);
    FloatsAlike(0, 0, 0, 1, 0, 0, base);
    FloatsAlike(s1, 2047, 0, s2, 2047, f2, base);
    FloatsAlike(s1, 2047, f1, s2, 2047, f2, base);
  }

  // ----- names by their segments -----

  /** The segments a name is matched by. */
  function Visible(segments: seq<string>): seq<string> {
    if segments == [] then []
    else if segments[0] == "<locals>" || segments[0] == "<module>" then Visible(segments[1..])
    else [segments[0]] + Visible(segments[1..])
  }

  predicate Segments(segments: seq<string>) {
    forall i | 0 <= i < |segments| :: '.' !in segments[i] && ':' !in segments[i]
  }

  /** A name as exported: segments after a file and a colon, or on their own. */
  function Located(file: Option<string>, segments: seq<string>): string {
    (if file.Some? then file.value + ":" else "") + JoinDots(segments)
  }

  predicate Tail(short: seq<string>, long: seq<string>) {
    |short| <= |long| && long[|long| - |short|..] == short
  }

  lemma {:induction false} LastColon(file: string, s: string)
    requires ':' !in s
    ensures AfterColon(s) == s && AfterColon(file + ":" + s) == s
    decreases |file|
  {
    var all := file + ":" + s;
    if file == "" {
      assert all[1..] == s;
    } else {
      assert all[1..] == file[1..] + ":" + s && all[|file|] == ':';
      LastColon(file[1..], s);
    }
  }

  lemma {:induction false} JoinHasNone(segments: seq<string>)
    requires Segments(segments)
    ensures ':' !in JoinDots(segments)
    decreases |segments|
  {
    if |segments| > 1 { JoinHasNone(segments[1..]); }
  }

  lemma {:induction false} VisibleJoined(segments: seq<string>)
    requires Segments(segments)
    ensures Segments(Visible(segments)) && JoinNamed(segments, true) == JoinDots(Visible(segments))
    ensures JoinNamed(segments, false) == if Visible(segments) == [] then "" else "." + JoinDots(Visible(segments))
    decreases |segments|
  {
    if segments != [] {
      VisibleJoined(segments[1..]);
      var rest := Visible(segments[1..]);
      assert ([segments[0]] + rest)[1..] == rest;
    }
  }

  /** Its visible segments; a name with none of them is the empty name. */
  function Matched(segments: seq<string>): seq<string> {
    if Visible(segments) == [] then [""] else Visible(segments)
  }

  lemma QualifiedIs(file: Option<string>, segments: seq<string>)
    requires Segments(segments) && segments != []
    ensures Segments(Matched(segments)) && Matched(segments) != []
    ensures Qualified(Located(file, segments)) == JoinDots(Matched(segments))
  {
    var s := JoinDots(segments);
    JoinHasNone(segments);
    LastColon(if file.Some? then file.value else "", s);
    assert file.None? ==> Located(file, segments) == s;
    SplitJoined(segments);
    VisibleJoined(segments);
  }

  /** Ending in a dot and a name is having its segments last, and more before them. */
  lemma TailEnds(a: seq<string>, b: seq<string>)
    requires Segments(a) && Segments(b) && a != [] && b != []
    ensures EndsWith(JoinDots(a), "." + JoinDots(b)) <==> |b| < |a| && Tail(b, a)
    ensures JoinDots(a) == JoinDots(b) <==> a == b
  {
    hide SplitDots, JoinDots, Segments;
    if EndsWith(JoinDots(a), "." + JoinDots(b)) { EndsTail(a, b); }
    if |b| < |a| && Tail(b, a) { TailsEnd(a, b); }
    SplitSegments(a);
    SplitSegments(b);
  }

  lemma SplitSegments(a: seq<string>)
    requires Segments(a) && a != []
    ensures SplitDots(JoinDots(a)) == a
  {
    SplitJoined(a);
  }

  lemma EndsTail(a: seq<string>, b: seq<string>)
    requires Segments(a) && Segments(b) && a != [] && b != []
    requires EndsWith(JoinDots(a), "." + JoinDots(b))
    ensures |b| < |a| && Tail(b, a)
  {
    hide SplitDots, JoinDots, Segments;
    SplitSegments(a);
    SplitSegments(b);
    var s, t := JoinDots(a), JoinDots(b);
    var x := s[..|s| - |t| - 1];
    assert s == x + ("." + t) == x + "." + t;
    SplitAround(x, t);
  }

  lemma TailsEnd(a: seq<string>, b: seq<string>)
    requires Segments(a) && Segments(b) && b != [] && |b| < |a| && Tail(b, a)
    ensures EndsWith(JoinDots(a), "." + JoinDots(b))
  {
    hide SplitDots, JoinDots, Segments, EndsWith;
    var first := a[..|a| - |b|];
    FirstSegments(a, |a| - |b|);
    assert a == first + b;
    SplitSegments(a);
    SplitSegments(b);
    SplitSegments(first);
    var s, t, x := JoinDots(a), JoinDots(b), JoinDots(first);
    SplitAround(x, t);
    JoinSplit(x + "." + t);
    JoinSplit(s);
    Ends(x, t);
  }

  lemma FirstSegments(a: seq<string>, n: nat)
    requires Segments(a) && n <= |a|
    ensures Segments(a[..n])
  {}

  lemma Ends(x: string, t: string)
    ensures EndsWith(x + "." + t, "." + t)
  {
    assert x + "." + t == x + ("." + t);
  }

  /** Two names match when the visible segments of one are the last of the other's; a recovered
  class matches its own name only. */
  lemma NamesAlike(file1: Option<string>, segments1: seq<string>, file2: Option<string>, segments2: seq<string>)
    requires Segments(segments1) && Segments(segments2) && segments1 != [] && segments2 != []
    ensures var f, g := Located(file1, segments1), Located(file2, segments2);
            var a, b := Matched(segments1), Matched(segments2);
            Same(Fn(f), LFn(g), 0) <==>
            if Meta(f) || Meta(g) then f == g else Tail(a, b) || Tail(b, a)
  {
    QualifiedIs(file1, segments1);
    QualifiedIs(file2, segments2);
    MetaEnds(Located(file1, segments1));
    MetaEnds(Located(file2, segments2));
    hide Qualified, Located, EndsWith, Matched;
    TailEnds(Matched(segments1), Matched(segments2));
    TailEnds(Matched(segments2), Matched(segments1));
  }

  /** Whether the name is a recovered class's. */
  ghost predicate Meta(name: string) {
    exists before: string :: name == before + "<meta>"
  }

  lemma MetaEnds(name: string)
    ensures Meta(name) <==> EndsWith(name, "<meta>")
  {
    if EndsWith(name, "<meta>") {
      var before := name[..|name| - |"<meta>"|];
      assert name == before + "<meta>";
    }
  }

  // ----- canonical forms -----

  /** The names a comparison is about: callables' names on the Python and on the Lean side. */
  datatype Names = Names(python: iset<string>, lean: iset<string>)

  /** Matching names fall into groups: who shares one partner shares all. */
  ghost predicate Grouped(n: Names) {
    forall f1, f2, g1, g2 | f1 in n.python && f2 in n.python && g1 in n.lean && g2 in n.lean
      && SameName(f1, g1) && SameName(f2, g1) && SameName(f1, g2) :: SameName(f2, g2)
  }

  predicate KnownPython(p: Encoded, names: iset<string>) {
    match p
    case Items(_, xs) => forall i | 0 <= i < |xs| :: KnownPython(xs[i], names)
    case Dict(xs) => forall i | 0 <= i < |xs| :: KnownPython(xs[i].0, names) && KnownPython(xs[i].1, names)
    case Fn(f) => f in names
    case _ => true
  }

  predicate KnownLean(l: Lean, names: iset<string>) {
    match l
    case LItems(_, xs) => forall i | 0 <= i < |xs| :: KnownLean(xs[i], names)
    case LDict(xs) => forall i | 0 <= i < |xs| :: KnownLean(xs[i].0, names) && KnownLean(xs[i].1, names)
    case LFn(g) => g in names
    case Boxed(_, payload) => KnownLean(payload, names)
    case _ => true
  }

  /** A group of names is told by its Lean members; a name that matches nothing is alone. */
  datatype Canon =
    | NaN
    | CAtom(a: Atom)
    | CItems(kind: Kind, items: seq<Canon>)
    | CDict(entries: multiset<(Canon, Canon)>)
    | CRef(cell: nat)
    | CGroup(members: iset<string>)
    | CAlonePython
    | CAloneLean

  function CanonAtom(a: Atom): Canon {
    if a.Float? && IsNaN(a.bits) then NaN else CAtom(a)
  }

  ghost function PythonGroup(f: string, n: Names): Canon {
    if exists g :: g in n.lean && SameName(f, g) then CGroup(iset g | g in n.lean && SameName(f, g)) else CAlonePython
  }

  ghost function LeanGroup(g: string, n: Names): Canon {
    if exists f :: f in n.python && SameName(f, g)
    then CGroup(iset g2 | g2 in n.lean && exists f :: f in n.python && SameName(f, g) && SameName(f, g2))
    else CAloneLean
  }

  ghost function CanonPython(p: Encoded, base: nat, n: Names): Canon
    decreases p
  {
    match p
    case Plain(a) => CanonAtom(a)
    case Fn(f) => PythonGroup(f, n)
    case Ref(i) => CRef(i + base)
    case Items(k, xs) => CItems(k, seq(|xs|, i requires 0 <= i < |xs| => CanonPython(xs[i], base, n)))
    case Dict(xs) => CDict(multiset(PythonPairs(xs, base, n)))
  }

  ghost function PythonPair(x: (Encoded, Encoded), base: nat, n: Names): (Canon, Canon)
    decreases x
  {
    (CanonPython(x.0, base, n), CanonPython(x.1, base, n))
  }

  ghost function PythonPairs(xs: seq<(Encoded, Encoded)>, base: nat, n: Names): seq<(Canon, Canon)>
    decreases xs
  {
    seq(|xs|, i requires 0 <= i < |xs| => PythonPair(xs[i], base, n))
  }

  ghost function CanonLean(l: Lean, n: Names): Canon
    decreases l
  {
    match l
    case LPlain(a) => CanonAtom(a)
    case LFn(g) => LeanGroup(g, n)
    case LRef(i) => CRef(i)
    case LItems(k, xs) => CItems(k, seq(|xs|, i requires 0 <= i < |xs| => CanonLean(xs[i], n)))
    case LDict(xs) => CDict(multiset(LeanPairs(xs, n)))
    case Boxed(_, payload) => CanonLean(payload, n)
  }

  ghost function LeanPair(x: (Lean, Lean), n: Names): (Canon, Canon)
    decreases x
  {
    (CanonLean(x.0, n), CanonLean(x.1, n))
  }

  ghost function LeanPairs(xs: seq<(Lean, Lean)>, n: Names): seq<(Canon, Canon)>
    decreases xs
  {
    seq(|xs|, i requires 0 <= i < |xs| => LeanPair(xs[i], n))
  }

  // ----- the comparison decides equality of canonical forms -----

  lemma SameGroup(f: string, g: string, n: Names)
    requires Grouped(n) && f in n.python && g in n.lean
    ensures SameName(f, g) <==> PythonGroup(f, n) == LeanGroup(g, n)
  {
    hide SameName;
    if SameName(f, g) {
      var mine := iset g2 | g2 in n.lean && SameName(f, g2);
      var theirs := iset g2 | g2 in n.lean && exists f2 :: f2 in n.python && SameName(f2, g) && SameName(f2, g2);
      assert mine == theirs;
    } else if PythonGroup(f, n).CGroup? && LeanGroup(g, n).CGroup? {
      var f2 :| f2 in n.python && SameName(f2, g);
      assert g in LeanGroup(g, n).members && g !in PythonGroup(f, n).members;
    }
  }

  /** Where names fall into groups, callables or none, the answer is exactly equality of
  canonical forms, with dictionaries as multisets: matching greedily never misses a
  matching. */
  lemma {:induction false} SameIffCanonical(p: Encoded, l: Lean, base: nat, n: Names)
    requires Grouped(n) && KnownPython(p, n.python) && KnownLean(l, n.lean)
    ensures Same(p, l, base) <==> CanonPython(p, base, n) == CanonLean(l, n)
    decreases p, 1
  {
    hide Grouped, SameName, PythonGroup, LeanGroup;
    UnwrapCanon(l, n);
    var u := Unwrap(l);
    SameUnwrapped(p, l, base);
    if p.Items? && u.LItems? && |p.items| == |u.items| {
      forall i | 0 <= i < |p.items|
        ensures Same(p.items[i], u.items[i], base) <==> CanonPython(p.items[i], base, n) == CanonLean(u.items[i], n) {
        SameIffCanonical(p.items[i], u.items[i], base, n);
      }
      var cp, cl := CanonPython(p, base, n).items, CanonLean(u, n).items;
      assert forall i | 0 <= i < |p.items| :: cp[i] == CanonPython(p.items[i], base, n) && cl[i] == CanonLean(u.items[i], n);
      assert cp == cl <==> forall i | 0 <= i < |p.items| :: cp[i] == cl[i];
    } else if p.Dict? && u.LDict? {
      if |p.entries| == |u.entries| {
        GreedyIsComplete(p.entries, u.entries, base, n);
      } else {
        assert |multiset(PythonPairs(p.entries, base, n))| == |p.entries|;
        assert |multiset(LeanPairs(u.entries, n))| == |u.entries|;
      }
    } else if p.Fn? && u.LFn? {
      SameGroup(p.name, u.name, n);
    } else {
      ApartOrPlain(p, u, base, n);
    }
  }

  /** Values of different kinds or lengths, and values without parts. */
  lemma ApartOrPlain(p: Encoded, u: Lean, base: nat, n: Names)
    requires !u.Boxed? && !(p.Items? && u.LItems? && |p.items| == |u.items|) && !(p.Dict? && u.LDict?)
             && !(p.Fn? && u.LFn?)
    ensures Same(p, u, base) <==> CanonPython(p, base, n) == CanonLean(u, n)
  {
    if p.Items? && u.LItems? {
      assert |CanonPython(p, base, n).items| == |p.items| && |CanonLean(u, n).items| == |u.items|;
    }
  }

  lemma {:induction false} SameUnwrapped(p: Encoded, l: Lean, base: nat)
    ensures Same(p, l, base) == Same(p, Unwrap(l), base)
  {
    hide Greedy, SameName, SameAtom;
    UnwrapTwice(l);
  }

  lemma {:induction false} UnwrapTwice(l: Lean)
    ensures Unwrap(Unwrap(l)) == Unwrap(l)
  {
    if l.Boxed? { UnwrapTwice(l.payload); }
  }

  lemma {:induction false} UnwrapCanon(l: Lean, n: Names)
    requires KnownLean(l, n.lean)
    ensures KnownLean(Unwrap(l), n.lean) && !Unwrap(l).Boxed? && CanonLean(Unwrap(l), n) == CanonLean(l, n)
  {
    hide LeanGroup;
    if l.Boxed? { UnwrapCanon(l.payload, n); }
  }

  lemma {:induction false} GreedyIsComplete(es: seq<(Encoded, Encoded)>, rest: seq<(Lean, Lean)>, base: nat, n: Names)
    requires Grouped(n) && |es| == |rest|
    requires forall i | 0 <= i < |es| :: KnownPython(es[i].0, n.python) && KnownPython(es[i].1, n.python)
    requires forall i | 0 <= i < |rest| :: KnownLean(rest[i].0, n.lean) && KnownLean(rest[i].1, n.lean)
    ensures Greedy(es, rest, base) <==> multiset(PythonPairs(es, base, n)) == multiset(LeanPairs(rest, n))
    decreases es, 0
  {
    hide KnownPython, KnownLean, PythonPair, LeanPair, FirstMatch, Grouped;
    if es != [] {
      var mine, theirs := PythonPairs(es, base, n), LeanPairs(rest, n);
      var pair := mine[0];
      assert mine == [pair] + PythonPairs(es[1..], base, n);
      FirstMatchFinds(es[0], rest, base, n);
      var j := FirstMatch(es[0], rest, base);
      if j < |rest| {
        assert LeanPairs(Without(rest, j), n) == Without(theirs, j);
        TakeOut(theirs, j);
        GreedyIsComplete(es[1..], Without(rest, j), base, n);
        CancelOne(multiset(PythonPairs(es[1..], base, n)), multiset(Without(theirs, j)), pair);
        assert multiset([pair] + PythonPairs(es[1..], base, n)) ==
               multiset(PythonPairs(es[1..], base, n)) + multiset{pair};
      } else {
        assert pair in multiset(mine) && pair !in multiset(theirs);
      }
    }
  }

  lemma TakeOut<T>(s: seq<T>, j: nat)
    requires j < |s|
    ensures multiset(s) == multiset(Without(s, j)) + multiset{s[j]}
  {
    assert s == s[..j] + [s[j]] + s[j + 1..];
  }

  lemma CancelOne<T>(a: multiset<T>, b: multiset<T>, x: T)
    ensures a + multiset{x} == b + multiset{x} <==> a == b
  {
    assert a + multiset{x} - multiset{x} == a && b + multiset{x} - multiset{x} == b;
  }

  lemma {:induction false} FirstMatchFinds(e: (Encoded, Encoded), rest: seq<(Lean, Lean)>, base: nat, n: Names)
    requires Grouped(n) && KnownPython(e.0, n.python) && KnownPython(e.1, n.python)
    requires forall i | 0 <= i < |rest| :: KnownLean(rest[i].0, n.lean) && KnownLean(rest[i].1, n.lean)
    ensures var j := FirstMatch(e, rest, base);
            if j < |rest| then LeanPairs(rest, n)[j] ==
              PythonPair(e, base, n) else PythonPair(e, base, n) !in LeanPairs(rest, n)
    decreases e, 2, |rest|
  {
    hide Grouped, KnownPython, KnownLean;
    if rest != [] {
      SameIffCanonical(e.0, rest[0].0, base, n);
      SameIffCanonical(e.1, rest[0].1, base, n);
      FirstMatchFinds(e, rest[1..], base, n);
      assert LeanPairs(rest, n) == [LeanPair(rest[0], n)] + LeanPairs(rest[1..], n);
    }
  }

  // ----- the order of entries -----

  ghost predicate IsOrder(order: seq<nat>, length: nat) {
    && |order| == length && (forall i | 0 <= i < length :: order[i] < length)
    && forall i, j | 0 <= i < j < length :: order[i] != order[j]
  }

  /** The same value but for the order of dictionary entries, at any depth. */
  ghost predicate Reordered(a: Lean, b: Lean)
    decreases a
  {
    match (a, b)
    case (LItems(k1, xs), LItems(k2, ys)) => k1 == k2 && |xs| == |ys| && forall i | 0 <= i < |xs| ::
      Reordered(xs[i], ys[i])
    case (LDict(xs), LDict(ys)) =>
      exists order: seq<nat> :: IsOrder(order, |xs|) && |ys| == |xs|
        && forall i | 0 <= i < |xs| :: Reordered(xs[i].0, ys[order[i]].0) && Reordered(xs[i].1, ys[order[i]].1)
    case (Boxed(c1, x), Boxed(c2, y)) => c1 == c2 && Reordered(x, y)
    case (_, _) => a == b
  }

  /** The same for encoded Python values. */
  ghost predicate Rearranged(a: Encoded, b: Encoded)
    decreases a
  {
    match (a, b)
    case (Items(k1, xs), Items(k2, ys)) => k1 == k2 && |xs| == |ys| && forall i | 0 <= i < |xs| ::
      Rearranged(xs[i], ys[i])
    case (Dict(xs), Dict(ys)) =>
      exists order: seq<nat> :: IsOrder(order, |xs|) && |ys| == |xs|
        && forall i | 0 <= i < |xs| :: Rearranged(xs[i].0, ys[order[i]].0) && Rearranged(xs[i].1, ys[order[i]].1)
    case (_, _) => a == b
  }

  /** An order without its first number, closed up. */
  lemma RestOrder(order: seq<nat>, length: nat) returns (less: seq<nat>)
    requires length > 0 && IsOrder(order, length)
    ensures IsOrder(less, length - 1)
    ensures forall i | 0 <= i < length - 1 :: order[i + 1] == if less[i] >= order[0] then less[i] + 1 else less[i]
  {
    less := seq(length - 1, i requires 0 <= i < length - 1 => if order[i + 1] > order[0] then order[i + 1] - 1 else order[i + 1]);
    forall i | 0 <= i < length - 1
      ensures less[i] < length - 1 && order[i + 1] == if less[i] >= order[0] then less[i] + 1 else less[i]
    {
      assert order[0] != order[i + 1];
    }
    forall i, k | 0 <= i < k < length - 1 ensures less[i] != less[k] {
      assert order[i + 1] != order[k + 1];
    }
  }

  lemma {:induction false} OrderMultiset<T>(a: seq<T>, b: seq<T>, order: seq<nat>)
    requires IsOrder(order, |a|) && |a| == |b| && forall i | 0 <= i < |a| :: a[i] == b[order[i]]
    ensures multiset(a) == multiset(b)
    decreases |a|
  {
    if a != [] {
      var less := RestOrder(order, |a|);
      var rest := Without(b, order[0]);
      forall i | 0 <= i < |a| - 1 ensures a[1..][i] == rest[less[i]] {
        assert a[i + 1] == b[order[i + 1]];
      }
      OrderMultiset(a[1..], rest, less);
      TakeOut(b, order[0]);
      assert a == [a[0]] + a[1..];
    }
  }

  lemma {:induction false} ReorderedCanon(a: Lean, b: Lean, n: Names)
    requires Reordered(a, b)
    ensures CanonLean(a, n) == CanonLean(b, n)
    decreases a, 1
  {
    hide LeanGroup, LeanPairs;
    match (a, b)
    case (LItems(_, xs), LItems(_, ys)) =>
      forall i | 0 <= i < |xs| ensures CanonLean(xs[i], n) == CanonLean(ys[i], n) { ReorderedCanon(xs[i], ys[i], n); }
      assert CanonLean(a, n).items == CanonLean(b, n).items;
    case (LDict(xs), LDict(ys)) =>
      var order: seq<nat> :| IsOrder(order, |xs|) && |ys| == |xs|
        && forall i | 0 <= i < |xs| :: Reordered(xs[i].0, ys[order[i]].0) && Reordered(xs[i].1, ys[order[i]].1);
      ReorderedEntries(xs, ys, order, n);
    case (Boxed(_, x), Boxed(_, y)) => ReorderedCanon(x, y, n);
    case (_, _) =>
  }

  lemma {:induction false} ReorderedEntry(x: (Lean, Lean), y: (Lean, Lean), n: Names)
    requires Reordered(x.0, y.0) && Reordered(x.1, y.1)
    ensures LeanPair(x, n) == LeanPair(y, n)
    decreases x
  {
    hide Reordered, CanonLean;
    ReorderedCanon(x.0, y.0, n);
    ReorderedCanon(x.1, y.1, n);
  }

  lemma {:induction false} ReorderedEntries(xs: seq<(Lean, Lean)>, ys: seq<(Lean, Lean)>, order: seq<nat>, n: Names)
    requires IsOrder(order, |xs|) && |ys| == |xs|
    requires forall i | 0 <= i < |xs| :: Reordered(xs[i].0, ys[order[i]].0) && Reordered(xs[i].1, ys[order[i]].1)
    ensures multiset(LeanPairs(xs, n)) == multiset(LeanPairs(ys, n))
    decreases xs, 0
  {
    hide Reordered, CanonLean;
    forall i | 0 <= i < |xs| ensures LeanPairs(xs, n)[i] == LeanPairs(ys, n)[order[i]] {
      ReorderedEntry(xs[i], ys[order[i]], n);
    }
    OrderMultiset(LeanPairs(xs, n), LeanPairs(ys, n), order);
  }

  lemma {:induction false} RearrangedCanon(a: Encoded, b: Encoded, base: nat, n: Names)
    requires Rearranged(a, b)
    ensures CanonPython(a, base, n) == CanonPython(b, base, n)
    decreases a, 1
  {
    hide PythonGroup, PythonPairs;
    match (a, b)
    case (Items(_, xs), Items(_, ys)) =>
      forall i | 0 <= i < |xs| ensures CanonPython(xs[i], base, n) == CanonPython(ys[i], base, n) {
        RearrangedCanon(xs[i], ys[i], base, n);
      }
      assert CanonPython(a, base, n).items == CanonPython(b, base, n).items;
    case (Dict(xs), Dict(ys)) =>
      var order: seq<nat> :| IsOrder(order, |xs|) && |ys| == |xs|
        && forall i | 0 <= i < |xs| :: Rearranged(xs[i].0, ys[order[i]].0) && Rearranged(xs[i].1, ys[order[i]].1);
      RearrangedEntries(xs, ys, order, base, n);
    case (_, _) =>
  }

  lemma {:induction false} RearrangedEntry(x: (Encoded, Encoded), y: (Encoded, Encoded), base: nat, n: Names)
    requires Rearranged(x.0, y.0) && Rearranged(x.1, y.1)
    ensures PythonPair(x, base, n) == PythonPair(y, base, n)
    decreases x
  {
    hide Rearranged, CanonPython;
    RearrangedCanon(x.0, y.0, base, n);
    RearrangedCanon(x.1, y.1, base, n);
  }

  lemma {:induction false} RearrangedEntries(xs: seq<(Encoded, Encoded)>, ys: seq<(Encoded, Encoded)>, order: seq<nat>, base: nat, n: Names)
    requires IsOrder(order, |xs|) && |ys| == |xs|
    requires forall i | 0 <= i < |xs| :: Rearranged(xs[i].0, ys[order[i]].0) && Rearranged(xs[i].1, ys[order[i]].1)
    ensures multiset(PythonPairs(xs, base, n)) == multiset(PythonPairs(ys, base, n))
    decreases xs, 0
  {
    hide Rearranged, CanonPython;
    forall i | 0 <= i < |xs| ensures PythonPairs(xs, base, n)[i] == PythonPairs(ys, base, n)[order[i]] {
      RearrangedEntry(xs[i], ys[order[i]], base, n);
    }
    OrderMultiset(PythonPairs(xs, base, n), PythonPairs(ys, base, n), order);
  }

  lemma {:induction false} RearrangedSelf(p: Encoded)
    ensures Rearranged(p, p)
    decreases p
  {
    match p
    case Items(_, xs) => forall i | 0 <= i < |xs| ensures Rearranged(xs[i], xs[i]) { RearrangedSelf(xs[i]); }
    case Dict(xs) =>
      var order := seq(|xs|, i => i);
      assert IsOrder(order, |xs|);
      forall i | 0 <= i < |xs| ensures Rearranged(xs[i].0, xs[order[i]].0) && Rearranged(xs[i].1, xs[order[i]].1) {
        RearrangedSelf(xs[i].0);
        RearrangedSelf(xs[i].1);
      }
    case _ =>
  }

  /** Over values built from these names, the answer never depends on entry order, of either
  side. */
  ghost predicate OrderFree(n: Names) {
    forall p1, p2, l1, l2, base: nat
      | KnownPython(p1, n.python) && KnownPython(p2, n.python) && KnownLean(l1, n.lean) && KnownLean(l2, n.lean)
        && Rearranged(p1, p2) && Reordered(l1, l2) ::
        Same(p1, l1, base) == Same(p2, l2, base)
  }

  /** The order of entries never matters, at any depth, exactly when the names fall into
  groups; without callables they always do. */
  lemma OrderIsFree(n: Names)
    ensures OrderFree(n) <==> Grouped(n)
  {
    if Grouped(n) {
      forall p1, p2, l1, l2, base: nat
        | KnownPython(p1, n.python) && KnownPython(p2, n.python) && KnownLean(l1, n.lean) && KnownLean(l2, n.lean)
          && Rearranged(p1, p2) && Reordered(l1, l2)
        ensures Same(p1, l1, base) == Same(p2, l2, base) {
        hide *;
        SameIffCanonical(p1, l1, base, n);
        SameIffCanonical(p2, l2, base, n);
        RearrangedCanon(p1, p2, base, n);
        ReorderedCanon(l1, l2, n);
      }
    } else {
      hide SameName;
      var f1, f2, g1, g2 :| f1 in n.python && f2 in n.python && g1 in n.lean && g2 in n.lean
        && SameName(f1, g1) && SameName(f2, g1) && SameName(f1, g2) && !SameName(f2, g2);
      OpenSquare(f1, f2, g1, g2, n);
    }
  }

  lemma NoNamesGrouped()
    ensures Grouped(Names(iset{}, iset{}))
  {}

  function Entry(f: string): (Encoded, Encoded) { (Fn(f), Plain(Nothing)) }

  function LEntry(g: string): (Lean, Lean) { (LFn(g), LPlain(Nothing)) }

  /** Two names each, all matching but one pair: `f1` can take what only `f2` could do with. */
  lemma OpenSquare(f1: string, f2: string, g1: string, g2: string, n: Names)
    requires f1 in n.python && f2 in n.python && g1 in n.lean && g2 in n.lean
    requires SameName(f1, g1) && SameName(f2, g1) && SameName(f1, g2) && !SameName(f2, g2)
    ensures !OrderFree(n)
  {
    hide *;
    var p := Dict([Entry(f1), Entry(f2)]);
    var x, y := LEntry(g1), LEntry(g2);
    KnownPairs(f1, f2, g1, g2, n);
    KnownPairs(f1, f2, g2, g1, n);
    SwapReorders(g1, g2);
    NameEntries(f1, g1);
    NameEntries(f1, g2);
    NameEntries(f2, g1);
    NameEntries(f2, g2);
    TwoEntries(Entry(f1), Entry(f2), x, y);
    TwoEntries(Entry(f1), Entry(f2), y, x);
    NotFree(p, LDict([x, y]), LDict([y, x]), n);
  }

  lemma NotFree(p: Encoded, l1: Lean, l2: Lean, n: Names)
    requires KnownPython(p, n.python) && KnownLean(l1, n.lean) && KnownLean(l2, n.lean) && Reordered(l1, l2)
    requires Same(p, l1, 0) != Same(p, l2, 0)
    ensures !OrderFree(n)
  {
    hide KnownPython, KnownLean, Reordered, Rearranged, Same;
    RearrangedSelf(p);
  }

  lemma KnownPairs(f1: string, f2: string, g1: string, g2: string, n: Names)
    requires f1 in n.python && f2 in n.python && g1 in n.lean && g2 in n.lean
    ensures KnownPython(Dict([Entry(f1), Entry(f2)]), n.python) && KnownLean(LDict([LEntry(g1), LEntry(g2)]), n.lean)
  {
    var xs, ys := [Entry(f1), Entry(f2)], [LEntry(g1), LEntry(g2)];
    forall i | 0 <= i < 2 ensures KnownPython(xs[i].0, n.python) && KnownPython(xs[i].1, n.python) {
      assert xs[i] == Entry(f1) || xs[i] == Entry(f2);
    }
    forall i | 0 <= i < 2 ensures KnownLean(ys[i].0, n.lean) && KnownLean(ys[i].1, n.lean) {
      assert ys[i] == LEntry(g1) || ys[i] == LEntry(g2);
    }
  }

  lemma SwapReorders(g1: string, g2: string)
    ensures Reordered(LDict([LEntry(g1), LEntry(g2)]), LDict([LEntry(g2), LEntry(g1)]))
  {
    var x, y := LEntry(g1), LEntry(g2);
    var order: seq<nat> := [1, 0];
    assert IsOrder(order, 2);
    assert [x, y][0] == [y, x][order[0]] && [x, y][1] == [y, x][order[1]];
    assert Reordered(x.0, x.0) && Reordered(x.1, x.1) && Reordered(y.0, y.0) && Reordered(y.1, y.1);
  }

  lemma NameEntries(f: string, g: string)
    ensures SameEntry(Entry(f), LEntry(g), 0) == SameName(f, g)
  {
    hide SameName;
  }

  /** Two entries against two: the first takes what it can, the second what is left. */
  lemma TwoEntries(e1: (Encoded, Encoded), e2: (Encoded, Encoded), x: (Lean, Lean), y: (Lean, Lean))
    requires SameEntry(e1, x, 0)
    ensures Same(Dict([e1, e2]), LDict([x, y]), 0) <==> SameEntry(e2, y, 0)
  {
    hide SameEntry;
    assert [e1, e2][1..] == [e2] && [e2][1..] == [];
    assert Without([x, y], 0) == [y] && Without([y], 0) == [] && [y][1..] == [];
    assert FirstMatch(e1, [x, y], 0) == 0;
    assert FirstMatch(e2, [y], 0) == if SameEntry(e2, y, 0) then 0 else 1;
    assert Greedy([e2], [y], 0) == SameEntry(e2, y, 0);
  }

  // ----- what is written into the Lean file compares as the same -----

  function Written(p: Encoded, base: nat): Lean
    decreases p
  {
    match p
    case Plain(a) => LPlain(a)
    case Fn(f) => LFn(f)
    case Ref(i) => LRef(base + i)
    case Items(k, xs) => LItems(k, seq(|xs|, i requires 0 <= i < |xs| => Written(xs[i], base)))
    case Dict(xs) => LDict(WrittenPairs(xs, base))
  }

  function WrittenPair(x: (Encoded, Encoded), base: nat): (Lean, Lean)
    decreases x
  {
    (Written(x.0, base), Written(x.1, base))
  }

  function WrittenPairs(xs: seq<(Encoded, Encoded)>, base: nat): seq<(Lean, Lean)>
    decreases xs
  {
    seq(|xs|, i requires 0 <= i < |xs| => WrittenPair(xs[i], base))
  }

  lemma {:induction false} WrittenIsSame(p: Encoded, base: nat)
    ensures Same(p, Written(p, base), base)
    decreases p, 1
  {
    if p.Items? {
      forall i | 0 <= i < |p.items| ensures Same(p.items[i], Written(p, base).items[i], base) {
        WrittenIsSame(p.items[i], base);
      }
    } else if p.Dict? {
      WrittenEntriesMatch(p.entries, base);
    }
  }

  lemma {:induction false} WrittenEntriesMatch(es: seq<(Encoded, Encoded)>, base: nat)
    ensures Greedy(es, WrittenPairs(es, base), base)
    decreases es, 0
  {
    if es != [] {
      var rest := WrittenPairs(es, base);
      WrittenEntryIsSame(es[0], base);
      assert FirstMatch(es[0], rest, base) == 0;
      assert Without(rest, 0) == WrittenPairs(es[1..], base);
      WrittenEntriesMatch(es[1..], base);
    }
  }

  lemma {:induction false} WrittenEntryIsSame(e: (Encoded, Encoded), base: nat)
    ensures SameEntry(e, WrittenPair(e, base), base)
    decreases e
  {
    WrittenIsSame(e.0, base);
    WrittenIsSame(e.1, base);
  }

  /** Dotted suffixes do not fall into groups: `f` matches `A.f` and `g.f`, `A.f` only itself. */
  lemma CallablesDependOnOrder()
    ensures var n := Names(iset{"f", "A.f"}, iset{"A.f", "g.f"}); !Grouped(n) && !OrderFree(n)
  {
    hide SameName;
    var n := Names(iset{"f", "A.f"}, iset{"A.f", "g.f"});
    NameFacts();
    assert "f" in n.python && "A.f" in n.python && "A.f" in n.lean && "g.f" in n.lean;
    OrderIsFree(n);
  }

  lemma NameFacts()
    ensures SameName("f", "A.f") && SameName("f", "g.f") && SameName("A.f", "A.f") && !SameName("A.f", "g.f")
  {
    DottedName('A');
    DottedName('g');
    assert SplitDots("f") == ["f"] by { assert "f"[1..] == "" && SplitDots("") == [""] && [""][1..] == []
           && ['f'] + "" == "f"; }
    assert Qualified("f") == "f" by { assert ["f"][1..] == []; }
  }

  lemma DottedName(c: char)
    requires c != '.' && c != ':'
    ensures Qualified([c] + ".f") == [c] + ".f"
  {
    var s := [c] + ".f";
    assert SplitDots("f") == ["f"] by { assert "f"[1..] == "" && SplitDots("") == [""] && [""][1..] == []
           && ['f'] + "" == "f"; }
    assert SplitDots(".f") == [""] + ["f"] by { assert ".f"[1..] == "f"; }
    var rest := [""] + ["f"];
    assert s[0] == c && s[1..] == ".f" && rest[1..] == ["f"] && [c] + rest[0] == [c];
    assert SplitDots(s) == [[c] + rest[0]] + rest[1..] == [[c], "f"];
    assert [[c], "f"][1..] == ["f"] && ["f"][1..] == [];
    assert JoinNamed([], false) == "";
    assert JoinNamed(["f"], false) == ".f";
    assert JoinNamed([[c], "f"], true) == [c] + ".f";
  }
}
