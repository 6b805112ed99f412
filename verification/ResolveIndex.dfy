/** The ledger's index of callable names: counters and maps filled once, and queried instead
of scanning every key. */
module ResolveIndex {
  import opened Core
  import opened Texts

  /** The dotted tails of a key, built from its segments. */
  method DottedTails(k: string) returns (tails: seq<string>)
    ensures tails == Tails(k)
  {
    var parts := SplitDots(k);
    tails := [];
    PartsTails(k);
    for i := 1 to |parts|
      invariant tails + JoinedFrom(parts[i..]) == JoinedFrom(parts[1..])
    {
      assert parts[i..][1..] == parts[i + 1..];
      tails := tails + [JoinDots(parts[i..])];
    }
    assert parts[|parts|..] == [];
  }

  function JoinedFrom(parts: seq<string>): seq<string> {
    if parts == [] then [] else [JoinDots(parts)] + JoinedFrom(parts[1..])
  }

  function Tails(k: string): seq<string> {
    if k == "" then [] else if k[0] == '.' then [k[1..]] + Tails(k[1..]) else Tails(k[1..])
  }

  lemma {:induction false} PartsTails(k: string)
    ensures JoinedFrom(SplitDots(k)[1..]) == Tails(k)
  {
    if k != "" {
      var rest := SplitDots(k[1..]);
      PartsTails(k[1..]);
      if k[0] == '.' {
        assert SplitDots(k)[1..] == rest;
        JoinSplit(k[1..]);
      } else {
        assert SplitDots(k)[1..] == rest[1..];
      }
    }
  }

  predicate EndsWith(k: string, tail: string) { |tail| <= |k| && k[|k| - |tail|..] == tail }

  /** A dotted tail is what stands after a dot, to the end. */
  lemma {:induction false} TailsExact(k: string, t: string)
    ensures t in Tails(k) <==> EndsWith(k, "." + t)
    decreases |k|
  {
    var dotted := "." + t;
    if k != "" {
      TailsExact(k[1..], t);
      assert k == [k[0]] + k[1..];
      if |dotted| <= |k| - 1 {
        assert k[1..][|k[1..]| - |dotted|..] == k[|k| - |dotted|..];
      } else if |dotted| == |k| {
        assert k[0..] == k;
        assert EndsWith(k, dotted) <==> k == dotted;
        assert k == dotted <==> k[0] == '.' && k[1..] == t by {
          if k[0] == '.' && k[1..] == t { assert k == dotted; }
          if k == dotted { assert k[1..] == t; }
        }
        TailsShorter(k[1..], t);
      } else {
        TailsShorter(k[1..], t);
      }
    }
  }

  lemma {:induction false} TailsShorter(k: string, t: string)
    requires |t| >= |k|
    ensures t !in Tails(k)
    decreases |k|
  {
    if k != "" { TailsShorter(k[1..], t); }
  }

  /** A key has each of its tails once. */
  lemma {:induction false} TailsDistinct(k: string)
    ensures forall i, j | 0 <= i < j < |Tails(k)| :: Tails(k)[i] != Tails(k)[j]
    decreases |k|
  {
    if k != "" {
      TailsDistinct(k[1..]);
      if k[0] == '.' { TailsShorter(k[1..], k[1..]); }
    }
  }

  /** The key's class, if it is a method's: all segments but the last, joined again. */
  function DottedOwner(k: string): Option<string> {
    var parts := SplitDots(k);
    if |parts| >= 2 then Some(JoinDots(parts[..|parts| - 1])) else None
  }

  /** The owner is what stands before the last dot. */
  lemma OwnerExact(k: string, o: string, m: string)
    requires '.' !in m && k == o + "." + m
    ensures DottedOwner(k) == Some(o)
  {
    SplitAround(o, m);
    SplitWord(m);
    JoinSplit(o);
    assert (SplitDots(o) + [m])[..|SplitDots(o)|] == SplitDots(o);
  }

  lemma {:induction false} NoOwner(k: string)
    ensures DottedOwner(k).None? <==> '.' !in k
    decreases |k|
  {
    if k != "" { NoOwner(k[1..]); }
  }

  // ----- the direct rule over the key list -----

  /** How many of the keys end in a dot and `t`. */
  function CountTail(keys: seq<string>, t: string): nat {
    if keys == [] then 0
    else CountTail(keys[..|keys| - 1], t) + if EndsWith(keys[|keys| - 1], "." + t) then 1 else 0
  }

  /** The last of them. */
  function LastTail(keys: seq<string>, t: string): Option<string> {
    if keys == [] then None
    else if EndsWith(keys[|keys| - 1], "." + t) then Some(keys[|keys| - 1])
    else LastTail(keys[..|keys| - 1], t)
  }

  predicate IsMethodKey(k: string, declared: set<string>) {
    DottedOwner(k).Some? && DottedOwner(k).value in declared
  }

  function Resolves(keys: seq<string>, declared: set<string>, python: bool, free: set<string>, isMethod: bool,
                    n: string): bool {
    if isMethod then CountTail(keys, n) >= 1
    else
      || n in keys
      || (CountTail(keys, n) == 1
          && !(python && '.' !in n && exists k | k in keys :: EndsWith(k, "." + n) && IsMethodKey(k, declared)))
      || (python && n in free)
  }

  lemma {:induction false} CountedMeansExists(keys: seq<string>, t: string)
    ensures CountTail(keys, t) >= 1 <==> exists k :: k in keys && EndsWith(k, "." + t)
    ensures CountTail(keys, t) >= 1 <==> LastTail(keys, t).Some?
    ensures LastTail(keys, t).Some? ==> LastTail(keys, t).value in keys && EndsWith(LastTail(keys, t).value, "." + t)
    decreases |keys|
  {
    if keys != [] {
      var last := keys[|keys| - 1];
      assert keys == keys[..|keys| - 1] + [last];
      CountedMeansExists(keys[..|keys| - 1], t);
    }
  }

  /** Where one key position has the tail, no other key does. */
  lemma {:induction false} UniqueTail(keys: seq<string>, t: string, k: string)
    requires CountTail(keys, t) == 1 && k in keys && EndsWith(k, "." + t)
    ensures LastTail(keys, t) == Some(k)
    decreases |keys|
  {
    var last := keys[|keys| - 1];
    assert keys == keys[..|keys| - 1] + [last];
    if EndsWith(last, "." + t) {
      CountedMeansExists(keys[..|keys| - 1], t);
    } else {
      UniqueTail(keys[..|keys| - 1], t, k);
    }
  }

  // ----- the rule in words of positions and strings -----

  /** The key at position `i` is `n` below something. */
  ghost predicate Reaches(keys: seq<string>, i: nat, n: string) {
    i < |keys| && exists o: string :: keys[i] == o + "." + n
  }

  /** No other position reaches `n`. */
  ghost predicate OnlyOne(keys: seq<string>, i: nat, n: string) {
    Reaches(keys, i, n) && forall j: nat | Reaches(keys, j, n) :: j == i
  }

  /** The key is a method of one of the classes: what stands before its last dot is declared. */
  ghost predicate MethodOf(k: string, declared: set<string>) {
    exists o: string, m: string :: k == o + "." + m && '.' !in m && o in declared
  }

  lemma ReachesEnds(keys: seq<string>, i: nat, n: string)
    requires i < |keys|
    ensures Reaches(keys, i, n) <==> EndsWith(keys[i], "." + n)
  {
    var k, tail := keys[i], "." + n;
    if Reaches(keys, i, n) {
      var o: string :| k == o + "." + n;
      assert k == o + tail;
    }
    if EndsWith(k, tail) {
      assert k == k[..|k| - |tail|] + tail;
      assert k == k[..|k| - |tail|] + "." + n;
    }
  }

  /** The counter is 1 exactly when one position reaches the name. */
  lemma {:induction false} CountsPositions(keys: seq<string>, n: string)
    ensures CountTail(keys, n) >= 1 <==> exists i: nat :: Reaches(keys, i, n)
    ensures CountTail(keys, n) == 1 <==> exists i: nat :: OnlyOne(keys, i, n)
    decreases |keys|
  {
    if keys != [] {
      var shorter, last := keys[..|keys| - 1], |keys| - 1;
      CountsPositions(shorter, n);
      ReachesEnds(keys, last, n);
      forall i: nat | i < last ensures Reaches(shorter, i, n) <==> Reaches(keys, i, n) { assert shorter[i] == keys[i]; }
      if i: nat :| Reaches(keys, i, n) { assert i == last || Reaches(shorter, i, n); }
      if Reaches(keys, last, n) {
        if CountTail(shorter, n) == 0 {
          assert OnlyOne(keys, last, n);
        } else {
          var i: nat :| Reaches(shorter, i, n);
          assert Reaches(keys, i, n) && i != last;
        }
      } else {
        forall i: nat ensures OnlyOne(keys, i, n) <==> OnlyOne(shorter, i, n) {
          if OnlyOne(keys, i, n) { assert Reaches(shorter, i, n); }
          if OnlyOne(shorter, i, n) { assert Reaches(keys, i, n); }
        }
      }
    }
  }

  lemma MethodsOwn(k: string, declared: set<string>)
    ensures IsMethodKey(k, declared) <==> MethodOf(k, declared)
  {
    if MethodOf(k, declared) {
      var o: string, m: string :| k == o + "." + m && '.' !in m && o in declared;
      OwnerExact(k, o, m);
    }
    if IsMethodKey(k, declared) {
      var o, m := LastDot(k);
      OwnerExact(k, o, m);
    }
  }

  lemma {:induction false} LastDot(k: string) returns (o: string, m: string)
    requires DottedOwner(k).Some?
    ensures k == o + "." + m && '.' !in m
    decreases |k|
  {
    NoOwner(k);
    NoOwner(k[1..]);
    if '.' in k[1..] {
      var rest;
      rest, m := LastDot(k[1..]);
      o := [k[0]] + rest;
      assert k == [k[0]] + k[1..];
    } else {
      o, m := "", k[1..];
      assert k == [k[0]] + k[1..];
    }
  }

  /** A method is known where some key has its name after a dot. */
  ghost predicate KnownMethod(keys: seq<string>, n: string) {
    exists i: nat :: Reaches(keys, i, n)
  }

  /** One key alone reaches the name; in Python a bare name does not reach into a class. */
  ghost predicate KnownByTail(keys: seq<string>, declared: set<string>, python: bool, n: string) {
    exists i: nat :: OnlyOne(keys, i, n) && !(python && '.' !in n && MethodOf(keys[i], declared))
  }

  lemma ResolvesMeans(keys: seq<string>, declared: set<string>, python: bool, free: set<string>, isMethod: bool,
                      n: string)
    ensures Resolves(keys, declared, python, free, isMethod, n) <==>
            if isMethod then KnownMethod(keys, n)
            else n in keys || (python && n in free) || KnownByTail(keys, declared, python, n)
  {
    CountsPositions(keys, n);
    if CountTail(keys, n) == 1 {
      var i: nat :| OnlyOne(keys, i, n);
      MethodsOwn(keys[i], declared);
      ReachesEnds(keys, i, n);
      forall k | k in keys && EndsWith(k, "." + n) ensures k == keys[i] {
        var j :| 0 <= j < |keys| && keys[j] == k;
        ReachesEnds(keys, j, n);
      }
    }
  }

  class Index {
    const python: bool
    const free: set<string>
    var exact: set<string>
    var suffixCount: map<string, nat>
    var suffixKey: map<string, string>
    var methodKeys: set<string>

    /** The fields say of `keys` what a scan would. */
    ghost predicate Indexes(keys: seq<string>, declared: set<string>)
      reads this
    {
      && (forall n :: n in exact <==> n in keys)
      && (forall t :: Count(t) == CountTail(keys, t))
      && (forall t :: if t in suffixKey then LastTail(keys, t) == Some(suffixKey[t]) else LastTail(keys, t) == None)
      && (forall k :: k in methodKeys <==> k in keys && IsMethodKey(k, declared))
    }

    function Count(t: string): nat
      reads this
    {
      if t in suffixCount then suffixCount[t] else 0
    }

    constructor (keys: seq<string>, declared: set<string>, python: bool, free: set<string>)
      ensures Indexes(keys, declared) && this.python == python && this.free == free
    {
      this.python, this.free := python, free;
      exact := set k | k in keys;
      suffixCount, suffixKey, methodKeys := map[], map[], {};
      new;
      for i := 0 to |keys|
        invariant exact == set k | k in keys
        invariant forall t :: Count(t) == CountTail(keys[..i], t)
        invariant forall t :: if t in suffixKey then LastTail(keys[..i], t) ==
                  Some(suffixKey[t]) else LastTail(keys[..i], t) == None
        invariant forall k :: k in methodKeys <==> k in keys[..i] && IsMethodKey(k, declared)
      {
        AddTails(keys[i]);
        assert keys[..i + 1][..i] == keys[..i] && keys[..i + 1] == keys[..i] + [keys[i]];
        forall t ensures t in Tails(keys[i]) <==> EndsWith(keys[i], "." + t) { TailsExact(keys[i], t); }
        if IsMethodKey(keys[i], declared) { methodKeys := methodKeys + {keys[i]}; }
      }
      assert keys[..|keys|] == keys;
    }

    method AddTails(k: string)
      modifies this`suffixCount, this`suffixKey
      ensures forall t :: Count(t) == old(Count(t)) + if t in Tails(k) then 1 else 0
      ensures forall t :: t in suffixKey <==> t in old(suffixKey) || t in Tails(k)
      ensures forall t :: t in suffixKey ==> suffixKey[t] == if t in Tails(k) then k else old(suffixKey)[t]
    {
      var tails := DottedTails(k);
      TailsDistinct(k);
      for j := 0 to |tails|
        invariant forall t :: Count(t) == old(Count(t)) + if t in tails[..j] then 1 else 0
        invariant forall t :: t in suffixKey <==> t in old(suffixKey) || t in tails[..j]
        invariant forall t :: t in suffixKey ==> suffixKey[t] == if t in tails[..j] then k else old(suffixKey)[t]
      {
        var t := tails[j];
        assert tails[..j + 1] == tails[..j] + [t] && t !in tails[..j];
        suffixCount := suffixCount[t := Count(t) + 1];
        suffixKey := suffixKey[t := k];
      }
      assert tails[..|tails|] == tails;
    }

    /** Every query is answered as the direct rule over the key list does: a method query by any
    key below which the name stands; another by the name itself, by a free name of Python's, or
    by the one key that reaches it. */
    method Resolvable(isMethod: bool, n: string, ghost keys: seq<string>, ghost declared: set<string>) returns (r: bool)
      requires Indexes(keys, declared)
      ensures isMethod ==> (r <==> KnownMethod(keys, n))
      ensures !isMethod ==> (r <==> n in keys || (python && n in free) || KnownByTail(keys, declared, python, n))
    {
      ResolvesMeans(keys, declared, python, free, isMethod, n);
      CountedMeansExists(keys, n);
      if isMethod { return Count(n) >= 1; }
      if n in exact { return true; }
      if Count(n) == 1 {
        var key := if n in suffixKey then suffixKey[n] else "";
        forall k | k in keys && EndsWith(k, "." + n) ensures k == key { UniqueTail(keys, n, k); }
        if !(python && '.' !in n && key in methodKeys) { return true; }
      }
      return python && n in free;
    }
  }
}
