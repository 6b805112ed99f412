/** What the reader accepts: a grammar of texts, without positions of a machine in it, and the
dictionaries that repeated keys come to. */
module JsonGrammar {
  import opened Texts
  import opened DeepJson

  // ----- dictionaries made of members in order -----

  /** The keys in the order in which they come up first. */
  function Keys<T>(members: seq<(string, T)>): (keys: seq<string>)
    ensures forall i, j | 0 <= i < j < |keys| :: keys[i] != keys[j]
    ensures forall key :: key in keys <==> exists i :: 0 <= i < |members| && members[i].0 == key
  {
    if members == [] then [] else
    var shorter, last := members[..|members| - 1], members[|members| - 1];
    assert forall i | 0 <= i < |shorter| :: shorter[i] == members[i];
    var keys := Keys(shorter);
    if last.0 in keys then keys else keys + [last.0]
  }

  /** Where the last member with this key stands. */
  function LastOf<T>(members: seq<(string, T)>, key: string): (n: nat)
    requires exists i :: 0 <= i < |members| && members[i].0 == key
    ensures n < |members| && members[n].0 == key && forall i | n < i < |members| :: members[i].0 != key
  {
    var shorter, last := members[..|members| - 1], members[|members| - 1];
    if last.0 == key then |members| - 1
    else
      var i :| 0 <= i < |members| && members[i].0 == key;
      assert shorter[i].0 == key;
      LastOf(shorter, key)
  }

  /** Each key once, where it came up first, with the value it was given last. */
  function Merged<T>(members: seq<(string, T)>): seq<(string, T)> {
    var keys := Keys(members);
    seq(|keys|, i requires 0 <= i < |keys| =>
      assert keys[i] in keys;
      (keys[i], members[LastOf(members, keys[i])].1))
  }

  /** Assigning one more key: in place where it is, else at the end. */
  lemma {:induction false} PutExactly<T>(members: seq<(string, T)>, key: string, v: T)
    requires forall i, j | 0 <= i < j < |members| :: members[i].0 != members[j].0
    ensures (forall i | 0 <= i < |members| :: members[i].0 != key) ==> Put(members, key, v) == members + [(key, v)]
    ensures forall i | 0 <= i < |members| && members[i].0 == key :: Put(members, key, v) == members[i := (key, v)]
  {
    if members != [] {
      var rest := members[1..];
      assert forall i | 0 <= i < |rest| :: rest[i] == members[i + 1];
      PutExactly(rest, key, v);
      forall i | 0 <= i < |members| && members[i].0 == key ensures Put(members, key, v) == members[i := (key, v)] {
        if i > 0 {
          assert rest[i - 1].0 == key && members[0].0 != key;
          assert members[i := (key, v)] == [members[0]] + rest[i - 1 := (key, v)];
        }
      }
    }
  }

  function PutAll<T>(before: seq<(string, T)>, members: seq<(string, T)>): seq<(string, T)>
    decreases |members|
  {
    if members == [] then before else PutAll(Put(before, members[0].0, members[0].1), members[1..])
  }

  lemma {:induction false} PutLast<T>(before: seq<(string, T)>, members: seq<(string, T)>, m: (string, T))
    ensures PutAll(before, members + [m]) == Put(PutAll(before, members), m.0, m.1)
    decreases |members|
  {
    if members != [] {
      assert (members + [m])[1..] == members[1..] + [m];
      PutLast(Put(before, members[0].0, members[0].1), members[1..], m);
    } else {
      assert [] + [m] == [m] && [m][1..] == [];
    }
  }

  lemma MergedAt<T>(members: seq<(string, T)>, i: nat)
    requires i < |Keys(members)|
    ensures |Merged(members)| == |Keys(members)| && Keys(members)[i] in Keys(members)
    ensures Merged(members)[i] == (Keys(members)[i], members[LastOf(members, Keys(members)[i])].1)
  {}

  lemma LastIs<T>(members: seq<(string, T)>, key: string, n: nat)
    requires n < |members| && members[n].0 == key && forall i | n < i < |members| :: members[i].0 != key
    ensures LastOf(members, key) == n
  {}

  /** Assigning the members one after the other gives the merged dictionary. */
  lemma {:induction false} PutAllMerges<T>(members: seq<(string, T)>)
    ensures PutAll([], members) == Merged(members)
    decreases |members|
  {
    if members != [] {
      var shorter, last := members[..|members| - 1], members[|members| - 1];
      assert members == shorter + [last];
      PutAllMerges(shorter);
      PutLast([], shorter, last);
      MergedMore(shorter, last);
    }
  }

  lemma MergedMore<T>(shorter: seq<(string, T)>, last: (string, T))
    ensures Put(Merged(shorter), last.0, last.1) == Merged(shorter + [last])
  {
    var members := shorter + [last];
    var merged, more, keys := Merged(shorter), Merged(members), Keys(shorter);
    assert members[..|members| - 1] == shorter && last == (last.0, last.1);
    assert Keys(members) == if last.0 in keys then keys else keys + [last.0];
    LastIs(members, last.0, |shorter|);
    forall i | 0 <= i < |keys|
      ensures merged[i].0 == keys[i] && more[i] == if keys[i] == last.0 then last else merged[i]
    {
      MergedAt(shorter, i);
      MergedAt(members, i);
      if keys[i] != last.0 { LastIs(members, keys[i], LastOf(shorter, keys[i])); }
    }
    PutExactly(merged, last.0, last.1);
    if last.0 in keys {
      var i :| 0 <= i < |keys| && keys[i] == last.0;
      assert more == merged[i := last];
    } else {
      MergedAt(members, |keys|);
      assert more == merged + [last];
    }
  }

  /** With distinct keys nothing is merged. */
  lemma MergedDistinct<T>(members: seq<(string, T)>)
    requires forall i, j | 0 <= i < j < |members| :: members[i].0 != members[j].0
    ensures Merged(members) == members
  {
    KeysDistinct(members);
    forall i | 0 <= i < |members| ensures Merged(members)[i] == members[i] {
      MergedAt(members, i);
      LastIs(members, members[i].0, i);
    }
  }

  lemma {:induction false} KeysDistinct<T>(members: seq<(string, T)>)
    requires forall i, j | 0 <= i < j < |members| :: members[i].0 != members[j].0
    ensures |Keys(members)| == |members| && forall i | 0 <= i < |members| :: Keys(members)[i] == members[i].0
    decreases |members|
  {
    if members != [] { KeysDistinct(members[..|members| - 1]); }
  }

  /** A tree as written, with any members, as the dictionaries it stands for. */
  function Latest(t: Json): Json
    decreases t, 1
  {
    match t
    case Scalar(_) => t
    case Array(items) => Array(LatestItems(items))
    case Object(members) => Object(Merged(LatestMembers(members)))
  }

  function LatestItems(items: seq<Json>): (r: seq<Json>)
    ensures |r| == |items|
    decreases items, 0
  {
    if items == [] then [] else [Latest(items[0])] + LatestItems(items[1..])
  }

  function LatestMembers(members: seq<(string, Json)>): (r: seq<(string, Json)>)
    ensures |r| == |members| && forall i | 0 <= i < |r| :: r[i].0 == members[i].0
    decreases members, 0
  {
    if members == [] then [] else [LatestMember(members[0])] + LatestMembers(members[1..])
  }

  function LatestMember(m: (string, Json)): (string, Json)
    decreases m, 2
  {
    (m.0, Latest(m.1))
  }

  // ----- the grammar -----

  predicate Blank(text: string, a: nat, b: nat) {
    a <= b <= |text| && forall i | a <= i < b :: text[i] in " \t\r\n"
  }

  /** After blanks, `c` stands at `p`. */
  predicate Next(text: string, a: nat, p: nat, c: char) {
    Blank(text, a, p) && p < |text| && text[p] == c
  }

  /** `text` from `a` to `b` spells a value, after blanks. */
  ghost predicate Spells(scalar: Reader, text: string, a: nat, b: nat, t: Json)
    decreases t, 2
  {
    match t
    case Scalar(x) => exists p: nat :: IsScalar(scalar, text, a, p, b, x)
    case Array(items) => exists p: nat :: Next(text, a, p, '[') && SpellsArray(scalar, text, p + 1, b, items)
    case Object(members) => exists p: nat :: Next(text, a, p, '{') && SpellsObject(scalar, text, p + 1, b, members)
  }

  ghost predicate IsScalar(scalar: Reader, text: string, a: nat, p: nat, b: nat, x: Atom) {
    Blank(text, a, p) && p < |text| && text[p] !in " \t\r\n[{]}" && scalar(text, p) == Token(x, b)
  }

  /** The rest of an array after its bracket. */
  ghost predicate SpellsArray(scalar: Reader, text: string, a: nat, b: nat, items: seq<Json>)
    decreases items, 1
  {
    if items == [] then b > 0 && Next(text, a, b - 1, ']') else SpellsItems(scalar, text, a, b, items)
  }

  /** Items separated by commas, and the closing bracket. */
  ghost predicate SpellsItems(scalar: Reader, text: string, a: nat, b: nat, items: seq<Json>)
    requires items != []
    decreases items, 0
  {
    if |items| == 1 then b > 0 && exists m: nat :: Spells(scalar, text, a, m, items[0]) && Next(text, m, b - 1, ']')
    else exists m: nat, q: nat ::
      Spells(scalar, text, a, m, items[0]) && Next(text, m, q, ',') && SpellsItems(scalar, text, q + 1, b, items[1..])
  }

  ghost predicate SpellsObject(scalar: Reader, text: string, a: nat, b: nat, members: seq<(string, Json)>)
    decreases members, 1
  {
    if members == [] then b > 0 && Next(text, a, b - 1, '}') else SpellsMembers(scalar, text, a, b, members)
  }

  ghost predicate SpellsMembers(scalar: Reader, text: string, a: nat, b: nat, members: seq<(string, Json)>)
    requires members != []
    decreases members, 0
  {
    if |members| == 1 then
      b > 0 && exists m: nat :: SpellsMember(scalar, text, a, m, members[0]) && Next(text, m, b - 1, '}')
    else exists m: nat, q: nat ::
      SpellsMember(scalar, text, a, m, members[0]) && Next(text, m, q, ',')
      && SpellsMembers(scalar, text, q + 1, b, members[1..])
  }

  /** A key in quotes, a colon, a value. */
  ghost predicate SpellsMember(scalar: Reader, text: string, a: nat, b: nat, m: (string, Json))
    decreases m, 3
  {
    exists c: nat :: SpellsKey(scalar, text, a, c, m.0) && Spells(scalar, text, c, b, m.1)
  }

  ghost predicate SpellsKey(scalar: Reader, text: string, a: nat, c: nat, key: string) {
    c > 0 && exists p: nat, e: nat ::
      Next(text, a, p, '"') && scalar(text, p) == Token(Text(key), e) && Next(text, e, c - 1, ':')
  }

  /** The whole text is one value and blanks. */
  ghost predicate SpellsText(scalar: Reader, text: string, t: Json) {
    exists b: nat :: Spells(scalar, text, 0, b, t) && Blank(text, b, |text|)
  }

  /** No scalar starts with a closing bracket. */
  ghost predicate Proper(scalar: Reader) {
    Reads(scalar) && forall text: string, pos: nat | pos < |text| && scalar(text, pos).Token? :: text[pos] !in "]}"
  }

  // ----- blanks are skipped -----

  lemma {:induction false} SkipTo(text: string, a: nat, p: nat)
    requires Blank(text, a, p) && (p == |text| || text[p] !in " \t\r\n")
    ensures Skip(text, a) == p
    decreases p - a
  {
    if a < p { SkipTo(text, a + 1, p); }
  }

  lemma {:induction false} SkipsBlank(text: string, a: nat)
    requires a <= |text|
    ensures Blank(text, a, Skip(text, a)) && (Skip(text, a) == |text| || text[Skip(text, a)] !in " \t\r\n")
    decreases |text| - a
  {
    if a < |text| && text[a] in " \t\r\n" { SkipsBlank(text, a + 1); }
  }

  /** After blanks a character stands where the reader looks for it. */
  lemma LooksAt(text: string, a: nat, p: nat, c: char)
    requires a <= |text| && c !in " \t\r\n"
    ensures Next(text, a, p, c) <==> p == Skip(text, a) && Looking(text, p, c)
  {
    SkipsBlank(text, a);
    if Next(text, a, p, c) { SkipTo(text, a, p); }
  }

  // ----- what is spelled is read -----

  /** Where a spelled value starts. */
  lemma Start(scalar: Reader, text: string, a: nat, b: nat, t: Json) returns (p: nat)
    requires Spells(scalar, text, a, b, t)
    ensures Blank(text, a, p) && p < |text| && text[p] !in " \t\r\n" && Skip(text, a) == p
    ensures t.Scalar? ==> IsScalar(scalar, text, a, p, b, t.a)
    ensures t.Array? ==> text[p] == '[' && SpellsArray(scalar, text, p + 1, b, t.items)
    ensures t.Object? ==> text[p] == '{' && SpellsObject(scalar, text, p + 1, b, t.members)
  {
    hide SpellsArray, SpellsObject;
    match t {
      case Scalar(x) => p :| IsScalar(scalar, text, a, p, b, x);
      case Array(items) => p :| Next(text, a, p, '[') && SpellsArray(scalar, text, p + 1, b, items);
      case Object(members) => p :| Next(text, a, p, '{') && SpellsObject(scalar, text, p + 1, b, members);
    }
    SkipTo(text, a, p);
  }

  lemma {:induction false} SpelledIsRead(scalar: Reader, text: string, a: nat, b: nat, t: Json)
    requires Reads(scalar) && Spells(scalar, text, a, b, t)
    ensures a < b <= |text| && Value(scalar, text, a) == Good(Latest(t), b)
    decreases t, 2
  {
    hide Value, Items, Members, SpellsArray, SpellsObject, Latest, Spells, Skip, PutAll, LatestItems, LatestMembers;
    var p := Start(scalar, text, a, b, t);
    LatestParts(t);
    ValueIs(scalar, text, a);
    match t
    case Scalar(x) =>
    case Array(items) => ArrayIsRead(scalar, text, p + 1, b, items);
    case Object(members) => ObjectIsRead(scalar, text, p + 1, b, members);
  }

  lemma ValueIs(scalar: Reader, text: string, a: nat)
    requires Reads(scalar) && a <= |text|
    ensures var p := Skip(text, a);
            Value(scalar, text, a) ==
            if Looking(text, p, '[') then
              var q := Skip(text, p + 1); if Looking(text, q, ']') then Good(Array([]), q + 1) else Items(scalar, text, q, [])
            else if Looking(text, p, '{') then
              var q := Skip(text, p + 1); if Looking(text, q, '}') then Good(Object([]), q + 1) else Members(scalar, text, q, [])
            else ScalarAt(scalar, text, p)
  {
    hide Items, Members, Skip;
  }

  lemma LatestParts(t: Json)
    ensures t.Scalar? ==> Latest(t) == t
    ensures t.Array? ==> Latest(t) == Array([] + LatestItems(t.items))
    ensures t.Object? ==> Latest(t) == Object(PutAll([], LatestMembers(t.members)))
  {
    if t.Object? { PutAllMerges(LatestMembers(t.members)); }
  }

  lemma {:induction false} ArrayIsRead(scalar: Reader, text: string, a: nat, b: nat, items: seq<Json>)
    requires Reads(scalar) && SpellsArray(scalar, text, a, b, items) && a <= |text|
    ensures a < b <= |text|
    ensures var q := Skip(text, a);
            (if Looking(text, q, ']') then Good(Array([]), q + 1) else Items(scalar, text, q, [])) ==
            Good(Array([] + LatestItems(items)), b)
    decreases items, 1
  {
    hide Items;
    if items == [] {
      LooksAt(text, a, b - 1, ']');
      assert [] + LatestItems(items) == [];
    } else {
      ItemsAreRead(scalar, text, a, b, items, []);
      NoClose(scalar, text, a, b, items);
      ItemsSkip(scalar, text, a);
    }
  }

  lemma {:induction false} ItemsAreRead(scalar: Reader, text: string, a: nat, b: nat, items: seq<Json>, before: seq<Json>)
    requires Reads(scalar) && items != [] && SpellsItems(scalar, text, a, b, items)
    ensures a < b <= |text| && Items(scalar, text, a, before) == Good(Array(before + LatestItems(items)), b)
    decreases items, 0
  {
    hide Value, Spells, Latest, Skip, Next, Looking;
    var v := Latest(items[0]);
    if |items| == 1 {
      var m: nat :| Spells(scalar, text, a, m, items[0]) && Next(text, m, b - 1, ']');
      SpelledIsRead(scalar, text, a, m, items[0]);
      ItemGoes(scalar, text, a, before, m, b - 1);
      assert LatestItems(items) == [v];
    } else {
      var m: nat, q: nat :| Spells(scalar, text, a, m, items[0]) && Next(text, m, q, ',')
        && SpellsItems(scalar, text, q + 1, b, items[1..]);
      SpelledIsRead(scalar, text, a, m, items[0]);
      ItemGoes(scalar, text, a, before, m, q);
      ItemsAreRead(scalar, text, q + 1, b, items[1..], before + [v]);
      assert before + [v] + LatestItems(items[1..]) == before + LatestItems(items);
    }
  }

  lemma ItemGoes(scalar: Reader, text: string, a: nat, before: seq<Json>, m: nat, q: nat)
    requires Reads(scalar) && a <= |text| && var v := Value(scalar, text, a); v.Good? && v.end == m
    ensures var more := before + [Value(scalar, text, a).value];
            && (Next(text, m, q, ']') ==> q < |text| && Items(scalar, text, a, before) == Good(Array(more), q + 1))
            && (Next(text, m, q, ',') ==>
                  q < |text| && Items(scalar, text, a, before) == Items(scalar, text, q + 1, more))
  {
    hide Value, Skip;
    LooksAt(text, m, q, ']');
    LooksAt(text, m, q, ',');
  }

  /** What starts an item closes nothing. */
  lemma NoClose(scalar: Reader, text: string, a: nat, b: nat, items: seq<Json>)
    requires Reads(scalar) && items != [] && SpellsItems(scalar, text, a, b, items) && a <= |text|
    ensures !Looking(text, Skip(text, a), ']')
  {
    hide Spells, SpellsArray, SpellsObject, Skip;
    var m: nat :| Spells(scalar, text, a, m, items[0]);
    var p := Start(scalar, text, a, m, items[0]);
  }

  lemma {:induction false} ObjectIsRead(scalar: Reader, text: string, a: nat, b: nat, members: seq<(string, Json)>)
    requires Reads(scalar) && SpellsObject(scalar, text, a, b, members) && a <= |text|
    ensures a < b <= |text|
    ensures var q := Skip(text, a);
            (if Looking(text, q, '}') then Good(Object([]), q + 1) else Members(scalar, text, q, [])) ==
            Good(Object(PutAll([], LatestMembers(members))), b)
    decreases members, 1
  {
    hide Members;
    if members == [] {
      LooksAt(text, a, b - 1, '}');
    } else {
      MembersAreRead(scalar, text, a, b, members, []);
      KeyNotClose(scalar, text, a, b, members);
      ItemsSkip(scalar, text, a);
    }
  }

  lemma KeyNotClose(scalar: Reader, text: string, a: nat, b: nat, members: seq<(string, Json)>)
    requires members != [] && SpellsMembers(scalar, text, a, b, members) && a <= |text|
    ensures !Looking(text, Skip(text, a), '}')
  {
    hide Spells, SpellsKey, Skip;
    var m: nat :| SpellsMember(scalar, text, a, m, members[0]);
    KeyStart(scalar, text, a, m, members[0]);
  }

  lemma KeyStart(scalar: Reader, text: string, a: nat, b: nat, m: (string, Json))
    requires SpellsMember(scalar, text, a, b, m)
    ensures a <= |text| && Looking(text, Skip(text, a), '"')
  {
    hide Spells, Skip;
    var c: nat :| SpellsKey(scalar, text, a, c, m.0) && Spells(scalar, text, c, b, m.1);
    var p: nat, e: nat :|
      Next(text, a, p, '"') && scalar(text, p) == Token(Text(m.0), e) && Next(text, e, c - 1, ':');
    SkipTo(text, a, p);
  }

  lemma KeyIsRead(scalar: Reader, text: string, a: nat, c: nat, key: string)
    requires Reads(scalar) && SpellsKey(scalar, text, a, c, key)
    ensures a < c <= |text| && Key(scalar, text, a) == Good(key, c)
  {
    var p: nat, e: nat :| Next(text, a, p, '"') && scalar(text, p) == Token(Text(key), e) && Next(text, e, c - 1, ':');
    LooksAt(text, a, p, '"');
    LooksAt(text, e, c - 1, ':');
  }

  lemma {:induction false} MemberIsRead(scalar: Reader, text: string, a: nat, b: nat, m: (string, Json))
    requires Reads(scalar) && SpellsMember(scalar, text, a, b, m)
    ensures a < b <= |text|
    ensures var key := Key(scalar, text, a);
            key.Good? && key.value == m.0 && Value(scalar, text, key.end) == Good(Latest(m.1), b)
    decreases m, 3
  {
    hide Value, Spells, Key, SpellsKey;
    var c: nat :| SpellsKey(scalar, text, a, c, m.0) && Spells(scalar, text, c, b, m.1);
    KeyIsRead(scalar, text, a, c, m.0);
    SpelledIsRead(scalar, text, c, b, m.1);
  }

  lemma {:induction false} MembersAreRead(scalar: Reader, text: string, a: nat, b: nat, members: seq<(string, Json)>,
                                          before: seq<(string, Json)>)
    requires Reads(scalar) && members != [] && SpellsMembers(scalar, text, a, b, members)
    ensures a < b <= |text|
    ensures Members(scalar, text, a, before) == Good(Object(PutAll(before, LatestMembers(members))), b)
    decreases members, 0
  {
    hide Value, Key, SpellsMember, Latest, Put, Skip, Next, Looking;
    var m0 := LatestMember(members[0]);
    var rest := LatestMembers(members[1..]);
    assert LatestMembers(members)[0] == m0 && LatestMembers(members)[1..] == rest;
    if |members| == 1 {
      var m: nat :| SpellsMember(scalar, text, a, m, members[0]) && Next(text, m, b - 1, '}');
      MemberIsRead(scalar, text, a, m, members[0]);
      MemberGoes(scalar, text, a, before, m, b - 1);
      assert rest == [];
    } else {
      var m: nat, q: nat :| SpellsMember(scalar, text, a, m, members[0]) && Next(text, m, q, ',')
        && SpellsMembers(scalar, text, q + 1, b, members[1..]);
      MemberIsRead(scalar, text, a, m, members[0]);
      MemberGoes(scalar, text, a, before, m, q);
      MembersAreRead(scalar, text, q + 1, b, members[1..], Put(before, m0.0, m0.1));
    }
  }

  lemma MemberGoes(scalar: Reader, text: string, a: nat, before: seq<(string, Json)>, m: nat, q: nat)
    requires Reads(scalar) && a <= |text| && Key(scalar, text, a).Good?
    requires var v := Value(scalar, text, Key(scalar, text, a).end); v.Good? && v.end == m
    ensures var key := Key(scalar, text, a);
            var more := Put(before, key.value, Value(scalar, text, key.end).value);
            && (Next(text, m, q, '}') ==> q < |text| && Members(scalar, text, a, before) == Good(Object(more), q + 1))
            && (Next(text, m, q, ',') ==>
                  q < |text| && Members(scalar, text, a, before) == Members(scalar, text, q + 1, more))
  {
    hide Value, Key, Skip, Put;
    LooksAt(text, m, q, '}');
    LooksAt(text, m, q, ',');
  }

  // ----- what is read is spelled -----

  lemma {:induction false} ReadIsSpelled(scalar: Reader, text: string, a: nat) returns (t: Json)
    requires Proper(scalar) && a <= |text| && Value(scalar, text, a).Good?
    ensures var r := Value(scalar, text, a); Spells(scalar, text, a, r.end, t) && Latest(t) == r.value
    decreases |text| - a, 1
  {
    hide Value, Items, Members, SpellsArray, SpellsObject, Latest, Skip, PutAll, LatestItems, LatestMembers;
    var p := Skip(text, a);
    SkipsBlank(text, a);
    ValueIs(scalar, text, a);
    var b := Value(scalar, text, a).end;
    if Looking(text, p, '[') {
      var items := ArrayIsSpelled(scalar, text, p + 1);
      t := Array(items);
      assert Next(text, a, p, '[') && SpellsArray(scalar, text, p + 1, b, items);
    } else if Looking(text, p, '{') {
      var members := ObjectIsSpelled(scalar, text, p + 1);
      t := Object(members);
      assert Next(text, a, p, '{') && SpellsObject(scalar, text, p + 1, b, members);
    } else {
      t := Scalar(scalar(text, p).a);
      assert IsScalar(scalar, text, a, p, b, t.a);
    }
    LatestParts(t);
  }

  lemma {:induction false} ArrayIsSpelled(scalar: Reader, text: string, a: nat) returns (items: seq<Json>)
    requires Proper(scalar) && a <= |text|
    requires var q := Skip(text, a); !Looking(text, q, ']') ==> Items(scalar, text, q, []).Good?
    ensures var q := Skip(text, a);
            var r := if Looking(text, q, ']') then Good(Array([]), q + 1) else Items(scalar, text, q, []);
            SpellsArray(scalar, text, a, r.end, items) && r.value == Array([] + LatestItems(items))
    decreases |text| - a, 3
  {
    hide Items;
    var q := Skip(text, a);
    LooksAt(text, a, q, ']');
    if Looking(text, q, ']') {
      items := [];
    } else {
      ItemsSkip(scalar, text, a);
      items := ItemsAreSpelled(scalar, text, a, []);
    }
  }

  lemma {:induction false} ItemsAreSpelled(scalar: Reader, text: string, a: nat, before: seq<Json>) returns (items: seq<Json>)
    requires Proper(scalar) && a <= |text| && Items(scalar, text, a, before).Good?
    ensures var r := Items(scalar, text, a, before);
            items != [] && SpellsItems(scalar, text, a, r.end, items) && r.value == Array(before + LatestItems(items))
    decreases |text| - a, 2
  {
    hide Value, Spells, Latest, Skip, Next, Items, LatestItems;
    ItemParts(scalar, text, a, before);
    var t := ReadIsSpelled(scalar, text, a);
    var r := Items(scalar, text, a, before);
    var item := Value(scalar, text, a);
    var q := Skip(text, item.end);
    if Looking(text, q, ']') {
      items := [t];
      LatestCons(t, []);
      assert Spells(scalar, text, a, item.end, items[0]) && Next(text, item.end, r.end - 1, ']');
    } else {
      var rest := ItemsAreSpelled(scalar, text, q + 1, before + [item.value]);
      items := [t] + rest;
      LatestCons(t, rest);
      assert Spells(scalar, text, a, item.end, items[0]) && Next(text, item.end, q, ',') && items[1..] == rest;
      assert before + [item.value] + LatestItems(rest) == before + ([item.value] + LatestItems(rest));
    }
  }

  lemma LatestCons(t: Json, rest: seq<Json>)
    ensures LatestItems([t] + rest) == [Latest(t)] + LatestItems(rest) && LatestItems([t]) == [Latest(t)]
  {
    hide Latest;
    assert ([t] + rest)[1..] == rest && [t][1..] == [];
  }

  lemma ItemParts(scalar: Reader, text: string, a: nat, before: seq<Json>)
    requires Reads(scalar) && a <= |text| && Items(scalar, text, a, before).Good?
    ensures var item := Value(scalar, text, a);
            item.Good? &&
            var q := Skip(text, item.end);
            var more := before + [item.value];
            if Looking(text, q, ']') then
              Next(text, item.end, q, ']') && Items(scalar, text, a, before) == Good(Array(more), q + 1)
            else
              Next(text, item.end, q, ',') && Items(scalar, text, a, before) == Items(scalar, text, q + 1, more)
  {
    hide Value, Skip;
    var item := Value(scalar, text, a);
    LooksAt(text, item.end, Skip(text, item.end), ']');
    LooksAt(text, item.end, Skip(text, item.end), ',');
  }

  lemma {:induction false} ObjectIsSpelled(scalar: Reader, text: string, a: nat) returns (members: seq<(string, Json)>)
    requires Proper(scalar) && a <= |text|
    requires var q := Skip(text, a); !Looking(text, q, '}') ==> Members(scalar, text, q, []).Good?
    ensures var q := Skip(text, a);
            var r := if Looking(text, q, '}') then Good(Object([]), q + 1) else Members(scalar, text, q, []);
            SpellsObject(scalar, text, a, r.end, members) && r.value == Object(PutAll([], LatestMembers(members)))
    decreases |text| - a, 3
  {
    hide Members;
    var q := Skip(text, a);
    LooksAt(text, a, q, '}');
    if Looking(text, q, '}') {
      members := [];
    } else {
      ItemsSkip(scalar, text, a);
      members := MembersAreSpelled(scalar, text, a, []);
    }
  }

  lemma KeyIsSpelled(scalar: Reader, text: string, a: nat)
    requires Reads(scalar) && a <= |text| && Key(scalar, text, a).Good?
    ensures var key := Key(scalar, text, a); SpellsKey(scalar, text, a, key.end, key.value)
  {
    var q := Skip(text, a);
    LooksAt(text, a, q, '"');
    var e := scalar(text, q).end;
    var colon := Skip(text, e);
    LooksAt(text, e, colon, ':');
    var key := Key(scalar, text, a);
    assert Next(text, a, q, '"') && scalar(text, q) == Token(Text(key.value), e) && Next(text, e, key.end - 1, ':');
  }

  lemma {:induction false} MembersAreSpelled(scalar: Reader, text: string, a: nat, before: seq<(string, Json)>)
      returns (members: seq<(string, Json)>)
    requires Proper(scalar) && a <= |text| && Members(scalar, text, a, before).Good?
    ensures var r := Members(scalar, text, a, before);
            && members != [] && SpellsMembers(scalar, text, a, r.end, members)
            && r.value == Object(PutAll(before, LatestMembers(members)))
    decreases |text| - a, 2
  {
    hide Value, Spells, Latest, Key, SpellsKey, Put, Skip, Next, Members;
    MemberParts(scalar, text, a, before);
    var r := Members(scalar, text, a, before);
    var key := Key(scalar, text, a);
    KeyIsSpelled(scalar, text, a);
    var t := ReadIsSpelled(scalar, text, key.end);
    var item := Value(scalar, text, key.end);
    var m := (key.value, t);
    assert SpellsMember(scalar, text, a, item.end, m);
    hide SpellsMember;
    var q := Skip(text, item.end);
    if Looking(text, q, '}') {
      members := [m];
      assert LatestMembers(members)[1..] == [];
    } else {
      var rest := MembersAreSpelled(scalar, text, q + 1, Put(before, key.value, item.value));
      members := [m] + rest;
      assert members[1..] == rest && LatestMembers(members)[1..] == LatestMembers(rest);
    }
  }

  lemma MemberParts(scalar: Reader, text: string, a: nat, before: seq<(string, Json)>)
    requires Reads(scalar) && a <= |text| && Members(scalar, text, a, before).Good?
    ensures var key := Key(scalar, text, a);
            key.Good? &&
            var item := Value(scalar, text, key.end);
            item.Good? &&
            var q := Skip(text, item.end);
            var more := Put(before, key.value, item.value);
            if Looking(text, q, '}') then
              Next(text, item.end, q, '}') && Members(scalar, text, a, before) == Good(Object(more), q + 1)
            else
              Next(text, item.end, q, ',') && Members(scalar, text, a, before) == Members(scalar, text, q + 1, more)
  {
    hide Value, Skip, Key, Put;
    var key := Key(scalar, text, a);
    var item := Value(scalar, text, key.end);
    if item.Good? {
      LooksAt(text, item.end, Skip(text, item.end), '}');
      LooksAt(text, item.end, Skip(text, item.end), ',');
    }
  }

  // ----- the reader and the grammar -----

  /** A text is accepted exactly when the grammar spells it as a tree, and then the value is that
  tree with each key's last value where the key came up first. */
  lemma ReadsGrammar(scalar: Reader, text: string, v: Json)
    requires Proper(scalar)
    ensures Parse(scalar, text) == Good(v, |text|) <==> exists t :: SpellsText(scalar, text, t) && Latest(t) == v
    ensures Parse(scalar, text).Good? ==> Parse(scalar, text).end == |text|
  {
    hide Value, Spells, Latest;
    if Parse(scalar, text) == Good(v, |text|) {
      var t := ReadIsSpelled(scalar, text, 0);
      var b := Value(scalar, text, 0).end;
      SkipsBlank(text, b);
      assert Spells(scalar, text, 0, b, t) && Blank(text, b, |text|);
      assert SpellsText(scalar, text, t) && Latest(t) == v;
    }
    if t :| SpellsText(scalar, text, t) && Latest(t) == v {
      var b: nat :| Spells(scalar, text, 0, b, t) && Blank(text, b, |text|);
      SpelledIsRead(scalar, text, 0, b, t);
      SkipTo(text, b, |text|);
    }
  }

  // ----- what is written is spelled -----

  /** A scalar's text is over where a delimiter, a space or the end follows. */
  predicate Over(text: string, pos: nat) {
    pos >= |text| || text[pos] in ",:]} \t\r\n"
  }

  /** The decoder reads back each scalar the writer shows. */
  ghost predicate Faithful(scalar: Reader, shown: Atom -> string) {
    && Reads(scalar)
    && (forall a :: shown(a) != "" && shown(a)[0] !in " \t\r\n[{]}" && (a.Text? ==> shown(a)[0] == '"'))
    && forall text: string, pos: nat, a: Atom | At(text, pos, shown(a)) && Over(text, pos + |shown(a)|) ::
         scalar(text, pos) == Token(a, pos + |shown(a)|)
  }

  function Show(t: Json, shown: Atom -> string, gap: string): string
    decreases t, 1
  {
    match t
    case Scalar(a) => shown(a)
    case Array(items) => "[" + ShowItems(items, shown, gap) + "]"
    case Object(members) => "{" + ShowMembers(members, shown, gap) + "}"
  }

  function ShowItems(items: seq<Json>, shown: Atom -> string, gap: string): string
    decreases items, 0
  {
    if items == [] then ""
    else Show(items[0], shown, gap) + if |items| == 1 then "" else "," + gap + ShowItems(items[1..], shown, gap)
  }

  function ShowMember(m: (string, Json), shown: Atom -> string, gap: string): string
    decreases m, 2
  {
    shown(Text(m.0)) + ":" + gap + Show(m.1, shown, gap)
  }

  function ShowMembers(members: seq<(string, Json)>, shown: Atom -> string, gap: string): string
    decreases members, 0
  {
    if members == [] then ""
    else ShowMember(members[0], shown, gap) + if |members| ==
      1 then "" else "," + gap + ShowMembers(members[1..], shown, gap)
  }

  predicate Distinct(members: seq<(string, Json)>) {
    forall i, j | 0 <= i < j < |members| :: members[i].0 != members[j].0
  }

  /** Every object's keys are distinct, as a dictionary's are. */
  predicate IsDictionary(t: Json) {
    match t
    case Scalar(_) => true
    case Array(items) => forall i | 0 <= i < |items| :: IsDictionary(items[i])
    case Object(members) => Distinct(members) && forall i | 0 <= i < |members| :: IsDictionary(members[i].1)
  }

  predicate IsGap(gap: string) { forall i | 0 <= i < |gap| :: gap[i] in " \t\r\n" }

  /** The parts of a written container after its opening bracket. */
  lemma Layout(text: string, pos: nat, head: string, gap: string, tail: string, close: char, last: bool)
    requires At(text, pos, head + (if last then "" else "," + gap + tail) + [close])
    ensures var end := pos + |head|;
      && At(text, pos, head)
      && if last then Looking(text, end, close)
         else Looking(text, end, ',') && At(text, end + 1, gap) && At(text, end + 1 + |gap|, tail + [close])
  {
    if last {
      assert head + "" + [close] == head + [close];
      AtParts(text, pos, head, [close]);
      FirstAt(text, pos + |head|, [close]);
    } else {
      var more := gap + (tail + [close]);
      assert head + ("," + gap + tail) + [close] == head + ("," + more);
      AtParts(text, pos, head, "," + more);
      AtParts(text, pos + |head|, ",", more);
      FirstAt(text, pos + |head|, ",");
      AtParts(text, pos + |head| + 1, gap, tail + [close]);
    }
  }

  lemma ItemsLayout(text: string, pos: nat, items: seq<Json>, shown: Atom -> string, gap: string)
    requires items != [] && At(text, pos, ShowItems(items, shown, gap) + "]")
    ensures var head := Show(items[0], shown, gap);
      var end := pos + |head|;
      && At(text, pos, head)
      && if |items| == 1 then Looking(text, end, ']') && |ShowItems(items, shown, gap)| == |head|
         else
           && Looking(text, end, ',') && At(text, end + 1, gap)
              && At(text, end + 1 + |gap|, ShowItems(items[1..], shown, gap) + "]")
           && |ShowItems(items, shown, gap)| == |head| + 1 + |gap| + |ShowItems(items[1..], shown, gap)|
  {
    hide Show, ShowMember, At, Looking;
    Layout(text, pos, Show(items[0], shown, gap), gap, ShowItems(items[1..], shown, gap), ']', |items| == 1);
  }

  lemma MembersLayout(text: string, pos: nat, members: seq<(string, Json)>, shown: Atom -> string, gap: string)
    requires members != [] && At(text, pos, ShowMembers(members, shown, gap) + "}")
    ensures var head := ShowMember(members[0], shown, gap);
      var end := pos + |head|;
      && At(text, pos, head)
      && if |members| == 1 then Looking(text, end, '}') && |ShowMembers(members, shown, gap)| == |head|
         else
           && Looking(text, end, ',') && At(text, end + 1, gap)
              && At(text, end + 1 + |gap|, ShowMembers(members[1..], shown, gap) + "}")
           && |ShowMembers(members, shown, gap)| == |head| + 1 + |gap| + |ShowMembers(members[1..], shown, gap)|
  {
    hide Show, ShowMember, At, Looking;
    Layout(text, pos, ShowMember(members[0], shown, gap), gap, ShowMembers(members[1..], shown, gap), '}',
        |members| == 1);
  }

  lemma GapBlank(text: string, a: nat, gap: string)
    requires IsGap(gap) && At(text, a, gap)
    ensures Blank(text, a, a + |gap|)
  {
    forall i | a <= i < a + |gap| ensures text[i] in " \t\r\n" { assert text[a..a + |gap|][i - a] == gap[i - a]; }
  }

  lemma MoreBlank(text: string, a: nat, b: nat, c: nat)
    requires Blank(text, a, b) && Blank(text, b, c)
    ensures Blank(text, a, c)
  {}

  lemma BlankSpells(scalar: Reader, text: string, a: nat, b: nat, end: nat, t: Json)
    requires Blank(text, a, b) && Spells(scalar, text, b, end, t)
    ensures Spells(scalar, text, a, end, t)
  {
    var p := Start(scalar, text, b, end, t);
    MoreBlank(text, a, b, p);
    hide SpellsArray, SpellsObject, Blank;
    if t.Array? { assert Next(text, a, p, '['); }
    if t.Object? { assert Next(text, a, p, '{'); }
    if t.Scalar? { assert IsScalar(scalar, text, a, p, end, t.a); }
  }

  lemma HereIs(text: string, p: nat, c: char)
    requires Looking(text, p, c)
    ensures Next(text, p, p, c)
  {}

  lemma {:induction false} ShowSpells(scalar: Reader, shown: Atom -> string, gap: string, text: string, t: Json, pos: nat)
    requires Faithful(scalar, shown) && IsGap(gap)
    requires var part := Show(t, shown, gap); At(text, pos, part) && Over(text, pos + |part|)
    ensures Spells(scalar, text, pos, pos + |Show(t, shown, gap)|, t)
    decreases t, 2
  {
    hide At, IsGap, ShowItems, ShowMembers, SpellsItems, SpellsMembers, SpellsArray, SpellsObject;
    var part := Show(t, shown, gap);
    match t
    case Scalar(a) =>
      FirstAt(text, pos, part);
      assert IsScalar(scalar, text, pos, pos, pos + |part|, a);
    case Array(items) =>
      assert part == "[" + (ShowItems(items, shown, gap) + "]");
      Opens(text, pos, "[", ShowItems(items, shown, gap) + "]");
      ArraySpells(scalar, shown, gap, text, items, pos + 1);
    case Object(members) =>
      assert part == "{" + (ShowMembers(members, shown, gap) + "}");
      Opens(text, pos, "{", ShowMembers(members, shown, gap) + "}");
      ObjectSpells(scalar, shown, gap, text, members, pos + 1);
  }

  lemma Opens(text: string, pos: nat, open: string, inner: string)
    requires |open| == 1 && At(text, pos, open + inner)
    ensures Next(text, pos, pos, open[0]) && At(text, pos + 1, inner)
  {
    AtParts(text, pos, open, inner);
    FirstAt(text, pos, open);
  }

  lemma {:induction false} ArraySpells(scalar: Reader, shown: Atom -> string, gap: string, text: string,
                                       items: seq<Json>, pos: nat)
    requires Faithful(scalar, shown) && IsGap(gap) && At(text, pos, ShowItems(items, shown, gap) + "]")
    ensures SpellsArray(scalar, text, pos, pos + |ShowItems(items, shown, gap)| + 1, items)
    decreases items, 1
  {
    hide At, IsGap, Faithful, SpellsItems, Show;
    if items == [] {
      assert ShowItems(items, shown, gap) + "]" == "]";
      FirstAt(text, pos, "]");
    } else {
      ItemsSpell(scalar, shown, gap, text, items, pos);
    }
  }

  lemma {:induction false} ObjectSpells(scalar: Reader, shown: Atom -> string, gap: string, text: string,
                                        members: seq<(string, Json)>, pos: nat)
    requires Faithful(scalar, shown) && IsGap(gap) && At(text, pos, ShowMembers(members, shown, gap) + "}")
    ensures SpellsObject(scalar, text, pos, pos + |ShowMembers(members, shown, gap)| + 1, members)
    decreases members, 1
  {
    hide At, IsGap, Faithful, SpellsMembers, ShowMember;
    if members == [] {
      assert ShowMembers(members, shown, gap) + "}" == "}";
      FirstAt(text, pos, "}");
    } else {
      MembersSpell(scalar, shown, gap, text, members, pos);
    }
  }

  lemma {:induction false} ItemsSpell(scalar: Reader, shown: Atom -> string, gap: string, text: string,
                                      items: seq<Json>, pos: nat)
    requires Faithful(scalar, shown) && IsGap(gap) && items != [] && At(text, pos, ShowItems(items, shown, gap) + "]")
    ensures SpellsItems(scalar, text, pos, pos + |ShowItems(items, shown, gap)| + 1, items)
    decreases items, 0
  {
    hide At, IsGap, Faithful, Show, ShowItems, Spells;
    ItemsLayout(text, pos, items, shown, gap);
    var m := pos + |Show(items[0], shown, gap)|;
    ShowSpells(scalar, shown, gap, text, items[0], pos);
    if |items| == 1 {
      HereIs(text, m, ']');
    } else {
      HereIs(text, m, ',');
      GapBlank(text, m + 1, gap);
      ItemsSpell(scalar, shown, gap, text, items[1..], m + 1 + |gap|);
      var end := pos + |ShowItems(items, shown, gap)| + 1;
      BlankItems(scalar, text, m + 1, m + 1 + |gap|, end, items[1..]);
    }
  }

  lemma BlankItems(scalar: Reader, text: string, a: nat, b: nat, end: nat, items: seq<Json>)
    requires Blank(text, a, b) && items != [] && SpellsItems(scalar, text, b, end, items)
    ensures SpellsItems(scalar, text, a, end, items)
  {
    hide Spells, Blank;
    if |items| == 1 {
      var m: nat :| Spells(scalar, text, b, m, items[0]) && Next(text, m, end - 1, ']');
      BlankSpells(scalar, text, a, b, m, items[0]);
    } else {
      var m: nat, q: nat :| Spells(scalar, text, b, m, items[0]) && Next(text, m, q, ',')
        && SpellsItems(scalar, text, q + 1, end, items[1..]);
      BlankSpells(scalar, text, a, b, m, items[0]);
    }
  }

  lemma {:induction false} MembersSpell(scalar: Reader, shown: Atom -> string, gap: string, text: string,
                                        members: seq<(string, Json)>, pos: nat)
    requires Faithful(scalar, shown) && IsGap(gap) && members != []
    requires At(text, pos, ShowMembers(members, shown, gap) + "}")
    ensures SpellsMembers(scalar, text, pos, pos + |ShowMembers(members, shown, gap)| + 1, members)
    decreases members, 0
  {
    hide At, IsGap, Faithful, ShowMember, ShowMembers, SpellsMember;
    MembersLayout(text, pos, members, shown, gap);
    var m := pos + |ShowMember(members[0], shown, gap)|;
    MemberSpells(scalar, shown, gap, text, members[0], pos);
    if |members| == 1 {
      HereIs(text, m, '}');
    } else {
      HereIs(text, m, ',');
      GapBlank(text, m + 1, gap);
      MembersSpell(scalar, shown, gap, text, members[1..], m + 1 + |gap|);
      var end := pos + |ShowMembers(members, shown, gap)| + 1;
      BlankMembers(scalar, text, m + 1, m + 1 + |gap|, end, members[1..]);
    }
  }

  lemma BlankMembers(scalar: Reader, text: string, a: nat, b: nat, end: nat, members: seq<(string, Json)>)
    requires Blank(text, a, b) && members != [] && SpellsMembers(scalar, text, b, end, members)
    ensures SpellsMembers(scalar, text, a, end, members)
  {
    hide SpellsMember, Blank;
    if |members| == 1 {
      var m: nat :| SpellsMember(scalar, text, b, m, members[0]) && Next(text, m, end - 1, '}');
      BlankMember(scalar, text, a, b, m, members[0]);
    } else {
      var m: nat, q: nat :| SpellsMember(scalar, text, b, m, members[0]) && Next(text, m, q, ',')
        && SpellsMembers(scalar, text, q + 1, end, members[1..]);
      BlankMember(scalar, text, a, b, m, members[0]);
    }
  }

  lemma BlankMember(scalar: Reader, text: string, a: nat, b: nat, end: nat, m: (string, Json))
    requires Blank(text, a, b) && SpellsMember(scalar, text, b, end, m)
    ensures SpellsMember(scalar, text, a, end, m)
  {
    hide Spells, Blank;
    var c: nat :| SpellsKey(scalar, text, b, c, m.0) && Spells(scalar, text, c, end, m.1);
    var p: nat, e: nat :|
      Next(text, b, p, '"') && scalar(text, p) == Token(Text(m.0), e) && Next(text, e, c - 1, ':');
    MoreBlank(text, a, b, p);
    assert Next(text, a, p, '"');
    assert SpellsKey(scalar, text, a, c, m.0);
  }

  lemma {:induction false} MemberSpells(scalar: Reader, shown: Atom -> string, gap: string, text: string,
                                        m: (string, Json), pos: nat)
    requires Faithful(scalar, shown) && IsGap(gap)
    requires At(text, pos, ShowMember(m, shown, gap)) && Over(text, pos + |ShowMember(m, shown, gap)|)
    ensures SpellsMember(scalar, text, pos, pos + |ShowMember(m, shown, gap)|, m)
    decreases m, 2
  {
    hide At, IsGap, Faithful, Show, Spells, SpellsKey;
    var name, value := shown(Text(m.0)), Show(m.1, shown, gap);
    assert ShowMember(m, shown, gap) == name + (":" + (gap + value));
    AtParts(text, pos, name, ":" + (gap + value));
    AtParts(text, pos + |name|, ":", gap + value);
    AtParts(text, pos + |name| + 1, gap, value);
    KeySpells(scalar, shown, text, m.0, pos);
    var c := pos + |name| + 1;
    ShowSpells(scalar, shown, gap, text, m.1, c + |gap|);
    GapBlank(text, c, gap);
    BlankSpells(scalar, text, c, c + |gap|, c + |gap| + |value|, m.1);
  }

  lemma KeySpells(scalar: Reader, shown: Atom -> string, text: string, key: string, pos: nat)
    requires Faithful(scalar, shown)
    requires At(text, pos, shown(Text(key))) && At(text, pos + |shown(Text(key))|, ":")
    ensures SpellsKey(scalar, text, pos, pos + |shown(Text(key))| + 1, key)
  {
    hide At;
    var name := shown(Text(key));
    FirstAt(text, pos, name);
    FirstAt(text, pos + |name|, ":");
    HereIs(text, pos, '"');
    HereIs(text, pos + |name|, ':');
  }

  /** A dictionary without repeated keys, at any depth, is what it stands for. */
  lemma {:induction false} DictionaryLatest(t: Json)
    requires IsDictionary(t)
    ensures Latest(t) == t
    decreases t, 1
  {
    match t
    case Scalar(_) =>
    case Array(items) => ItemsLatest(items);
    case Object(members) =>
      MembersLatest(members);
      MergedDistinct(members);
  }

  lemma {:induction false} ItemsLatest(items: seq<Json>)
    requires forall i | 0 <= i < |items| :: IsDictionary(items[i])
    ensures LatestItems(items) == items
    decreases items, 0
  {
    if items != [] {
      DictionaryLatest(items[0]);
      ItemsLatest(items[1..]);
    }
  }

  lemma {:induction false} MembersLatest(members: seq<(string, Json)>)
    requires forall i | 0 <= i < |members| :: IsDictionary(members[i].1)
    ensures LatestMembers(members) == members
    decreases members, 0
  {
    if members != [] {
      MemberLatest(members[0]);
      MembersLatest(members[1..]);
    }
  }

  lemma {:induction false} MemberLatest(m: (string, Json))
    requires IsDictionary(m.1)
    ensures LatestMember(m) == m
    decreases m, 2
  {
    DictionaryLatest(m.1);
  }

  /** Reading a serialised tree gives the tree, its repeated keys merged. */
  lemma RoundTrip(scalar: Reader, shown: Atom -> string, gap: string, t: Json)
    requires Faithful(scalar, shown) && IsGap(gap)
    ensures Parse(scalar, Show(t, shown, gap)) == Good(Latest(t), |Show(t, shown, gap)|)
    ensures IsDictionary(t) ==> Latest(t) == t
  {
    var text := Show(t, shown, gap);
    assert text[0..|text|] == text;
    ShowSpells(scalar, shown, gap, text, t, 0);
    SpelledIsRead(scalar, text, 0, |text|, t);
    SkipTo(text, |text|, |text|);
    if IsDictionary(t) { DictionaryLatest(t); }
  }
}
