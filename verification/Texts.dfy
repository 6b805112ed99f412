/** Parts of texts. */
module Texts {
  predicate At(text: string, pos: nat, part: string) {
    pos + |part| <= |text| && text[pos..pos + |part|] == part
  }

  lemma AtParts(text: string, pos: nat, a: string, b: string)
    requires At(text, pos, a + b)
    ensures At(text, pos, a) && At(text, pos + |a|, b)
  {
    var ab := a + b;
    assert ab[..|a|] == a && ab[|a|..] == b;
    assert text[pos..pos + |a|] == text[pos..pos + |ab|][..|a|];
    assert text[pos + |a|..pos + |ab|] == text[pos..pos + |ab|][|a|..];
  }

  lemma FirstAt(text: string, pos: nat, part: string)
    requires At(text, pos, part) && part != ""
    ensures pos < |text| && text[pos] == part[0]
  {
    assert text[pos..pos + |part|][0] == text[pos];
  }

  // ----- dotted names -----

  function SplitDots(s: string): (parts: seq<string>)
    ensures |parts| > 0
  {
    if s == "" then [""]
    else if s[0] == '.' then [""] + SplitDots(s[1..])
    else var rest := SplitDots(s[1..]); [[s[0]] + rest[0]] + rest[1..]
  }

  function JoinDots(parts: seq<string>): string {
    if parts == [] then "" else if |parts| == 1 then parts[0] else parts[0] + "." + JoinDots(parts[1..])
  }

  lemma {:induction false} JoinSplit(s: string)
    ensures JoinDots(SplitDots(s)) == s
  {
    if s != "" {
      var rest := SplitDots(s[1..]);
      JoinSplit(s[1..]);
      if s[0] == '.' {
        assert ([""] + rest)[1..] == rest;
        assert JoinDots([""] + rest) == "" + "." + s[1..];
      } else {
        assert ([[s[0]] + rest[0]] + rest[1..])[1..] == rest[1..];
        assert JoinDots([[s[0]] + rest[0]] + rest[1..]) == [s[0]] + JoinDots(rest);
      }
    }
  }

  lemma {:induction false} SplitWord(m: string)
    requires '.' !in m
    ensures SplitDots(m) == [m]
    decreases |m|
  {
    if m != "" {
      SplitWord(m[1..]);
      assert [m[0]] + m[1..] == m;
    }
  }

  lemma {:induction false} SplitAround(a: string, b: string)
    ensures SplitDots(a + "." + b) == SplitDots(a) + SplitDots(b)
    decreases |a|
  {
    var s := a + "." + b;
    if a == "" {
      assert s[0] == '.' && s[1..] == b;
    } else {
      SplitAround(a[1..], b);
      SplitStep(a, b);
    }
  }

  lemma SplitStep(a: string, b: string)
    requires a != "" && SplitDots(a[1..] + "." + b) == SplitDots(a[1..]) + SplitDots(b)
    ensures SplitDots(a + "." + b) == SplitDots(a) + SplitDots(b)
  {
    hide SplitDots;
    var s := a + "." + b;
    assert s == a + ("." + b);
    assert s[0] == a[0] && s[1..] == a[1..] + "." + b;
    SplitHead(a);
    SplitHead(s);
    Regroup(a[0], SplitDots(a[1..]), SplitDots(b));
  }

  lemma Regroup(c: char, rest: seq<string>, more: seq<string>)
    requires rest != []
    ensures [""] + (rest + more) == ([""] + rest) + more
    ensures [[c] + (rest + more)[0]] + (rest + more)[1..] == ([[c] + rest[0]] + rest[1..]) + more
  {
    assert (rest + more)[0] == rest[0] && (rest + more)[1..] == rest[1..] + more;
  }

  lemma SplitHead(s: string)
    requires s != ""
    ensures var rest := SplitDots(s[1..]);
            SplitDots(s) == if s[0] == '.' then [""] + rest else [[s[0]] + rest[0]] + rest[1..]
  {}

  /** Segments without dots are what the joined name is split into. */
  lemma {:induction false} SplitJoined(parts: seq<string>)
    requires parts != [] && forall i | 0 <= i < |parts| :: '.' !in parts[i]
    ensures SplitDots(JoinDots(parts)) == parts
    decreases |parts|
  {
    SplitWord(parts[0]);
    if |parts| > 1 {
      SplitJoined(parts[1..]);
      SplitAround(parts[0], JoinDots(parts[1..]));
    }
  }
}
