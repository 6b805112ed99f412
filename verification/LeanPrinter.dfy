/** The printer of Lean terms: a measured document is printed flat or wrapped, and a reader
of the fully parenthesised grammar gets the same term back from either. */
module LeanPrinter {
  import opened Core
  import opened Texts

  const WIDTH: nat := 100
  const INDENT: nat := 2
  const MAX_INDENT: nat := 40

  // ----- string literals -----

  /** A code point; a Python string may hold lone surrogates. */
  predicate IsCode(o: nat) { o <= 0x10FFFF }

  const DIGITS: string := "0123456789abcdef"

  function Hex(n: nat, width: nat): (h: string)
    ensures |h| == width
    decreases width
  {
    if width == 0 then "" else Hex(n / 16, width - 1) + [DIGITS[n % 16]]
  }

  function EscapeCode(o: nat): string
    requires IsCode(o)
  {
    if o == '\\' as int then "\\\\"
    else if o == '"' as int then "\\\""
    else if o == '\n' as int then "\\n"
    else if o == '\t' as int then "\\t"
    else if o == '\r' as int then "\\r"
    else if o < 0x20 || o == 0x7F then "\\x" + Hex(o, 2)
    else if 0x80 <= o <= 0x9F || 0xD800 <= o <= 0xDFFF || o == 0xFEFF || o == 0x2028 || o ==
      0x2029 then "\\u" + Hex(o, 4)
    else [o as char]
  }

  function Escaped(codes: seq<nat>): string
    requires forall i | 0 <= i < |codes| :: IsCode(codes[i])
  {
    if codes == [] then "" else EscapeCode(codes[0]) + Escaped(codes[1..])
  }

  /** Control characters, surrogates, the byte order mark and the line separators: invisible or
  illegal in a source file. */
  predicate Hidden(o: nat) {
    o < 0x20 || 0x7F <= o <= 0x9F || 0xD800 <= o <= 0xDFFF || o == 0xFEFF || o == 0x2028 || o == 0x2029
  }

  lemma {:induction false} HexVisible(n: nat, width: nat)
    ensures forall i | 0 <= i < width :: !Hidden(Hex(n, width)[i] as int)
    decreases width
  {
    if width > 0 {
      HexVisible(n / 16, width - 1);
      assert forall k | 0 <= k < 16 :: !Hidden(DIGITS[k] as int);
    }
  }

  /** No such character is ever written raw. */
  lemma {:induction false} NeverRaw(codes: seq<nat>)
    requires forall i | 0 <= i < |codes| :: IsCode(codes[i])
    ensures forall i | 0 <= i < |Escaped(codes)| :: !Hidden(Escaped(codes)[i] as int)
    decreases |codes|
  {
    if codes != [] {
      NeverRaw(codes[1..]);
      HexVisible(codes[0], 2);
      HexVisible(codes[0], 4);
      assert Escaped(codes) == EscapeCode(codes[0]) + Escaped(codes[1..]);
    }
  }

  /** Every other character, but for quotes and backslashes, is written as it is. */
  lemma {:induction false} PlainStays(codes: seq<nat>)
    requires forall i | 0 <= i < |codes| ::
      IsCode(codes[i]) && !Hidden(codes[i]) && codes[i] != '"' as int && codes[i] != '\\' as int
    ensures |Escaped(codes)| == |codes| && forall i | 0 <= i < |codes| :: Escaped(codes)[i] as int == codes[i]
    decreases |codes|
  {
    if codes != [] { PlainStays(codes[1..]); }
  }

  method LeanStr(codes: seq<nat>) returns (literal: string)
    requires forall i | 0 <= i < |codes| :: IsCode(codes[i])
    ensures literal == "\"" + Escaped(codes) + "\""
  {
    var out := "";
    for i := 0 to |codes|
      invariant out + Escaped(codes[i..]) == Escaped(codes)
    {
      assert codes[i..][0] == codes[i] && codes[i..][1..] == codes[i + 1..];
      out := out + EscapeCode(codes[i]);
    }
    assert codes[|codes|..] == [];
    literal := "\"" + out + "\"";
  }

  // ----- documents -----

  /** A term. What is `solid` was rendered before layout (literals) and is never wrapped. In
  a group the first item is the head token. */
  datatype Doc =
    | Word(w: string)
    | Quoted(codes: seq<nat>)
    | Group(items: seq<Doc>, solid: bool)
    | Listed(items: seq<Doc>, solid: bool)
    | Paired(a: Doc, b: Doc, solid: bool)

  predicate IsDelimiter(c: char) { c in " \n()[],\"" }

  predicate IsWord(w: string) { w != "" && forall i | 0 <= i < |w| :: !IsDelimiter(w[i]) }

  predicate WellFormed(d: Doc) {
    match d
    case Word(w) => IsWord(w)
    case Quoted(codes) => forall i | 0 <= i < |codes| :: IsCode(codes[i])
    case Group(items, _) => items != [] && forall i | 0 <= i < |items| :: WellFormed(items[i])
    case Listed(items, _) => forall i | 0 <= i < |items| :: WellFormed(items[i])
    case Paired(a, b, _) => WellFormed(a) && WellFormed(b)
  }

  /** The measure the printer computes once, bottom up. */
  function Size(d: Doc): nat
    requires WellFormed(d)
    decreases d, 1
  {
    match d
    case Word(w) => |w|
    case Quoted(codes) => |Escaped(codes)| + 2
    case Group(items, _) => |items| - 1 + 2 + SumSizes(items)
    case Listed(items, _) => (if items == [] then 2 else 2 * |items|) + SumSizes(items)
    case Paired(a, b, _) => 4 + Size(a) + Size(b)
  }

  function SumSizes(items: seq<Doc>): nat
    requires forall i | 0 <= i < |items| :: WellFormed(items[i])
    decreases items, 0
  {
    if items == [] then 0 else Size(items[0]) + SumSizes(items[1..])
  }

  // ----- layout -----

  function Spaces(n: nat): (s: string)
    ensures |s| == n && forall i | 0 <= i < n :: s[i] == ' '
  {
    seq(n, _ => ' ')
  }

  predicate Fits(d: Doc, col: Option<nat>)
    requires WellFormed(d)
  {
    col.None? || d.Word? || d.Quoted? || d.solid || col.value + Size(d) <= WIDTH
  }

  function Inner(col: nat): nat { if col + INDENT < MAX_INDENT then col + INDENT else MAX_INDENT }

  /** Flat without a column; otherwise wrapped where the flat form would pass the width. */
  function Print(d: Doc, col: Option<nat>): string
    requires WellFormed(d)
    decreases d, 1
  {
    match d
    case Word(w) => w
    case Quoted(codes) => "\"" + Escaped(codes) + "\""
    case Group(items, _) =>
      if Fits(d, col) then "(" + Joined(items, None, " ") + ")"
      else "(" + Joined(items, Some(Inner(col.value)), "\n" + Spaces(Inner(col.value))) + ")"
    case Listed(items, _) =>
      if items == [] then "[]"
      else if Fits(d, col) then "[" + Joined(items, None, ", ") + "]"
      else "[ " + Joined(items, Some(Inner(col.value)), "\n" + Spaces(col.value) + ", ") + " ]"
    case Paired(a, b, _) =>
      if Fits(d, col) then "(" + Print(a, None) + ", " + Print(b, None) + ")"
      else "(" + Print(a, Some(Inner(col.value))) + ",\n" + Spaces(Inner(col.value)) + Print(b, Some(Inner(col.value))) + ")"
  }

  function Joined(items: seq<Doc>, col: Option<nat>, separator: string): string
    requires forall i | 0 <= i < |items| :: WellFormed(items[i])
    decreases items, 0
  {
    if items == [] then ""
    else Print(items[0], col) + if |items| == 1 then "" else separator + Joined(items[1..], col, separator)
  }

  // ----- when a term is wrapped -----

  predicate Splits(text: string, before: string, next: string, after: string) { text == before + next + after }

  predicate IsContainer(d: Doc) { d.Group? || d.Listed? || d.Paired? }

  /** How the next line of a wrapped term starts. */
  function NextLine(d: Doc, col: nat): string {
    if d.Listed? then "\n" + Spaces(col) + ", " else "\n" + Spaces(if col + 2 < 40 then col + 2 else 40)
  }

  /** What is not rendered before layout is printed flat as long as that ends by column 100, and
  otherwise is broken between its first two parts, with the next line indented: two deeper,
  but not past column 40; a list's next line starts with its comma, at the list's column. */
  lemma WrapsExactly(d: Doc, col: nat)
    requires WellFormed(d) && IsContainer(d) && !d.solid && (d.Paired? || |d.items| >= 2)
    ensures col + |Print(d, None)| <= 100 ==> Print(d, Some(col)) == Print(d, None)
    ensures col + |Print(d, None)| > 100 ==>
      exists before, after :: Splits(Print(d, Some(col)), before, NextLine(d, col), after)
  {
    hide Size, SumSizes, Joined, NextLine, Splits;
    SizeIsFlatLength(d);
    if col + Size(d) > WIDTH {
      if d.Paired? { PairWraps(d, col); } else { ItemsWrap(d, col); }
    }
  }

  lemma PairWraps(d: Doc, col: nat)
    requires WellFormed(d) && d.Paired? && !d.solid && col + Size(d) > WIDTH
    ensures exists before, after :: Splits(Print(d, Some(col)), before, NextLine(d, col), after)
  {
    hide Size, Spaces;
    var inner := Some(Inner(col));
    var before, after := "(" + Print(d.a, inner) + ",", Print(d.b, inner) + ")";
    WrappedPair(Print(d.a, inner), Spaces(Inner(col)), Print(d.b, inner));
    assert Splits(Print(d, Some(col)), before, NextLine(d, col), after);
  }

  lemma ItemsWrap(d: Doc, col: nat)
    requires WellFormed(d) && (d.Group? || d.Listed?) && !d.solid && |d.items| >= 2 && col + Size(d) > WIDTH
    ensures exists before, after :: Splits(Print(d, Some(col)), before, NextLine(d, col), after)
  {
    hide Size, SumSizes, Spaces;
    var inner, next := Some(Inner(col)), NextLine(d, col);
    var open, close := if d.Listed? then "[ " else "(", if d.Listed? then " ]" else ")";
    var first, rest := Print(d.items[0], inner), Joined(d.items[1..], inner, next);
    assert Print(d, Some(col)) == open + Joined(d.items, inner, next) + close;
    hide Print;
    assert Joined(d.items, inner, next) == first + (next + rest);
    hide Joined;
    assert open + (first + (next + rest)) + close == (open + first) + next + (rest + close);
    assert Splits(Print(d, Some(col)), open + first, next, rest + close);
  }

  lemma WrappedPair(first: string, spaces: string, second: string)
    ensures "(" + first + ",\n" + spaces + second + ")" == ("(" + first + ",") + ("\n" + spaces) + (second + ")")
  {
    assert ",\n" == "," + "\n";
  }

  // ----- the measure is the flat length, and wrapping adds little -----

  /** The measured size is exactly the length of the flat text. */
  lemma {:induction false} SizeIsFlatLength(d: Doc)
    requires WellFormed(d)
    ensures |Print(d, None)| == Size(d)
    decreases d, 1
  {
    match d
    case Group(items, _) => SumIsJoinedLength(items, " ");
    case Listed(items, _) => if items != [] { SumIsJoinedLength(items, ", "); }
    case Paired(a, b, _) => SizeIsFlatLength(a); SizeIsFlatLength(b);
    case _ =>
  }

  lemma {:induction false} SumIsJoinedLength(items: seq<Doc>, separator: string)
    requires items != [] && forall i | 0 <= i < |items| :: WellFormed(items[i])
    ensures |Joined(items, None, separator)| == SumSizes(items) + |separator| * (|items| - 1)
    decreases items, 0
  {
    hide Print, Size;
    SizeIsFlatLength(items[0]);
    if |items| > 1 {
      SumIsJoinedLength(items[1..], separator);
      assert |separator| * (|items| - 1) == |separator| + |separator| * (|items[1..]| - 1);
    } else {
      assert items[1..] == [] && |separator| * (|items| - 1) == 0;
    }
  }

  /** Separators that wrapping may lengthen, and two for each list's padding. */
  function Edges(d: Doc): nat
    decreases d, 1
  {
    match d
    case Group(items, _) => |items| + SumEdges(items)
    case Listed(items, _) => |items| + SumEdges(items)
    case Paired(a, b, _) => 1 + Edges(a) + Edges(b)
    case _ => 0
  }

  function SumEdges(items: seq<Doc>): nat
    decreases items, 0
  {
    if items == [] then 0 else Edges(items[0]) + SumEdges(items[1..])
  }

  function Wider(col: Option<nat>): nat { if col.Some? && col.value > MAX_INDENT then col.value else MAX_INDENT }

  /** Indentation is capped, so wrapped output is at most the flat length plus a constant for
  each child: linear in the flat text, however deep the term. */
  lemma {:induction false} WrappingIsLinear(d: Doc, col: Option<nat>)
    requires WellFormed(d)
    ensures |Print(d, col)| <= Size(d) + (Wider(col) + 1) * Edges(d)
    decreases d, 1
  {
    hide Size, Edges, Joined, SumSizes, SumEdges;
    var k := Wider(col) + 1;
    if Fits(d, col) {
      FitsIsFlat(d, col);
      SizeIsFlatLength(d);
      assert k * Edges(d) >= 0;
    } else {
      var inner := Inner(col.value);
      match d
      case Group(items, _) =>
        JoinedIsLinear(items, Some(inner), "\n" + Spaces(inner), 1, k);
        SizeOfItems(d);
        Bound(|items|, 1, inner + 1, k, SumSizes(items), SumEdges(items),
            |Joined(items, Some(inner), "\n" + Spaces(inner))|);
      case Listed(items, _) =>
        if items != [] {
          var separator := "\n" + Spaces(col.value) + ", ";
          JoinedIsLinear(items, Some(inner), separator, 2, k);
          SizeOfItems(d);
          Bound(|items|, 2, col.value + 3, k, SumSizes(items), SumEdges(items),
              |Joined(items, Some(inner), separator)|);
        } else {
          SizeIsFlatLength(d);
          assert k * Edges(d) >= 0;
        }
      case Paired(a, b, _) =>
        WrappingIsLinear(a, Some(inner));
        WrappingIsLinear(b, Some(inner));
        SizeOfPair(d);
        PairBound(k, Wider(Some(inner)) + 1, Edges(a), Edges(b));
    }
  }

  lemma SizeOfItems(d: Doc)
    requires WellFormed(d) && (d.Group? || d.Listed?) && d.items != []
    ensures Edges(d) == |d.items| + SumEdges(d.items)
    ensures Size(d) == (if d.Group? then |d.items| + 1 else 2 * |d.items|) + SumSizes(d.items)
  {}

  lemma SizeOfPair(d: Doc)
    requires WellFormed(d) && d.Paired?
    ensures Edges(d) == 1 + Edges(d.a) + Edges(d.b) && Size(d) == 4 + Size(d.a) + Size(d.b)
  {}

  lemma PairBound(k: nat, j: nat, a: nat, b: nat)
    requires j <= k
    ensures k + j * a + j * b <= k * (1 + a + b)
  {
    Scale(j, k, a);
    Scale(j, k, b);
    assert k * (1 + a + b) == k + k * a + k * b;
  }

  /** `n` children joined by separators of length `wide`, `flat` of which also stand flat. */
  lemma Bound(n: nat, flat: nat, wide: nat, k: nat, sizes: nat, edges: nat, length: nat)
    requires n > 0 && flat <= wide <= flat + k && k > 1
    requires length <= sizes + flat * (n - 1) + (wide - flat) * (n - 1) + k * edges
    ensures length + 2 <= sizes + flat * (n - 1) + k * (n + edges)
  {
    Scale(wide - flat, k, n - 1);
    assert k * (n + edges) == k * n + k * edges;
    assert k * n == k * (n - 1) + k;
  }

  lemma Scale(j: nat, k: nat, n: nat)
    requires j <= k
    ensures j * n <= k * n
  {}

  lemma FitsIsFlat(d: Doc, col: Option<nat>)
    requires WellFormed(d) && Fits(d, col)
    ensures Print(d, col) == Print(d, None)
  {}

  lemma {:induction false} JoinedIsLinear(items: seq<Doc>, col: Option<nat>, separator: string, flat: nat, k: nat)
    requires items != [] && forall i | 0 <= i < |items| :: WellFormed(items[i])
    requires Wider(col) + 1 <= k && flat <= |separator|
    ensures |Joined(items, col, separator)| <= SumSizes(items) + flat * (|items| - 1) + (|separator| - flat) * (|items| - 1) + k * SumEdges(items)
    decreases items, 0
  {
    hide Print, Size, Edges;
    WrappingIsLinear(items[0], col);
    Scale(Wider(col) + 1, k, Edges(items[0]));
    assert k * SumEdges(items) == k * Edges(items[0]) + k * SumEdges(items[1..]);
    if |items| > 1 {
      JoinedIsLinear(items[1..], col, separator, flat, k);
      assert flat * (|items| - 1) == flat + flat * (|items[1..]| - 1);
      assert (|separator| - flat) * (|items| - 1) == |separator| - flat + (|separator| - flat) * (|items[1..]| - 1);
    } else {
      assert items[1..] == [] && SumEdges(items[1..]) == 0;
      assert flat * (|items| - 1) == 0 && (|separator| - flat) * (|items| - 1) == 0;
    }
  }

  // ----- the printer's own stacks -----

  datatype Piece = Fragment(text: string) | Term(d: Doc, col: Option<nat>)

  ghost predicate Ready(pending: seq<Piece>) {
    forall i | 0 <= i < |pending| && pending[i].Term? :: WellFormed(pending[i].d)
  }

  /** What is still to be put out: the stack's top is its last element. */
  ghost function Rest(pending: seq<Piece>): string
    requires Ready(pending)
  {
    if pending == [] then "" else
    var top := pending[|pending| - 1];
    (if top.Fragment? then top.text else Print(top.d, top.col)) + Rest(pending[..|pending| - 1])
  }

  ghost function Weight(d: Doc): nat
    decreases d, 1
  {
    match d
    case Group(items, _) => 2 + Weights(items)
    case Listed(items, _) => 2 + Weights(items)
    case Paired(a, b, _) => 4 + Weight(a) + Weight(b)
    case _ => 1
  }

  ghost function Weights(items: seq<Doc>): nat
    decreases items, 0
  {
    if items == [] then 0 else 1 + Weight(items[0]) + Weights(items[1..])
  }

  ghost function Load(pending: seq<Piece>): nat {
    if pending == [] then 0 else
    var top := pending[|pending| - 1];
    (if top.Fragment? then 1 else Weight(top.d)) + Load(pending[..|pending| - 1])
  }

  /** The items of a container, last first, with a separator before each but the first. */
  function Spread(items: seq<Doc>, col: Option<nat>, separator: string): (pieces: seq<Piece>)
    ensures (forall i | 0 <= i < |items| :: WellFormed(items[i])) ==> Ready(pieces)
  {
    if items == [] then []
    else Spread(items[1..], col, separator)
         + (if |items| == 1 then [] else [Fragment(separator)]) + [Term(items[0], col)]
  }

  lemma {:induction false} SpreadRest(pending: seq<Piece>, items: seq<Doc>, col: Option<nat>, separator: string)
    requires Ready(pending) && forall i | 0 <= i < |items| :: WellFormed(items[i])
    ensures Ready(pending + Spread(items, col, separator))
    ensures Rest(pending + Spread(items, col, separator)) == Joined(items, col, separator) + Rest(pending)
    ensures Load(pending + Spread(items, col, separator)) <= Weights(items) + Load(pending)
  {
    hide Print, WellFormed, Weight, Rest, Load, Ready, Spread, Joined, Weights;
    SpreadStep(items, col, separator);
    if items == [] {
      assert pending + [] == pending;
    } else {
      var below := Spread(items[1..], col, separator);
      var head := Term(items[0], col);
      SpreadRest(pending, items[1..], col, separator);
      ReadyBoth(pending, below);
      if |items| == 1 {
        RestTop(pending + below, head);
        assert pending + below + [head] == pending + Spread(items, col, separator);
      } else {
        RestTop(pending + below, Fragment(separator));
        RestTop(pending + below + [Fragment(separator)], head);
        assert pending + below + [Fragment(separator)] + [head] == pending + Spread(items, col, separator);
      }
    }
  }

  lemma SpreadStep(items: seq<Doc>, col: Option<nat>, separator: string)
    requires forall i | 0 <= i < |items| :: WellFormed(items[i])
    ensures Ready(Spread(items, col, separator))
    ensures items == [] ==> Spread(items, col, separator) == [] && Joined(items, col, separator) == "" && Weights(items) == 0
    ensures items != [] ==>
      && Joined(items, col, separator) ==
         Print(items[0], col) + (if |items| == 1 then "" else separator + Joined(items[1..], col, separator))
      && Weights(items) == 1 + Weight(items[0]) + Weights(items[1..])
      && Spread(items, col, separator) ==
         Spread(items[1..], col, separator) + (if |items| == 1 then [] else [Fragment(separator)]) + [Term(items[0], col)]
      && (|items| == 1 ==> Joined(items[1..], col, separator) == "")
  {
    hide Print, WellFormed, Weight;
  }

  lemma ReadyBoth(p: seq<Piece>, q: seq<Piece>)
    requires Ready(p) && Ready(q)
    ensures Ready(p + q)
  {
    hide WellFormed;
  }

  lemma RestTop(pending: seq<Piece>, top: Piece)
    requires Ready(pending) && (top.Term? ==> WellFormed(top.d))
    ensures Ready(pending + [top])
    ensures Rest(pending + [top]) == (if top.Fragment? then top.text else Print(top.d, top.col)) + Rest(pending)
    ensures Load(pending + [top]) == (if top.Fragment? then 1 else Weight(top.d)) + Load(pending)
  {
    assert (pending + [top])[..|pending|] == pending;
  }

  predicate IsAtom(d: Doc) {
    d.Word? || d.Quoted? || d.solid || (d.Listed? && d.items == [])
  }

  /** Brackets, separator and column for the items of a term that is not an atom. */
  function Enclosure(d: Doc, col: Option<nat>): (f: (string, string, string, Option<nat>))
    requires WellFormed(d) && !IsAtom(d)
  {
    var fits := Fits(d, col);
    var inner := if fits then None else Some(Inner(col.value));
    if d.Group? then ("(", if fits then " " else "\n" + Spaces(inner.value), ")", inner)
    else if d.Listed? then
      if fits then ("[", ", ", "]", inner) else ("[ ", "\n" + Spaces(col.value) + ", ", " ]", inner)
    else ("(", if fits then ", " else ",\n" + Spaces(inner.value), ")", inner)
  }

  function Parts(d: Doc): seq<Doc>
    requires !IsAtom(d)
  {
    if d.Paired? then [d.a, d.b] else d.items
  }

  lemma JoinedPair(d: Doc)
    requires WellFormed(d)
    ensures d.Paired? ==> forall col, separator ::
            Joined([d.a, d.b], col, separator) == Print(d.a, col) + separator + Print(d.b, col)
  {
    if d.Paired? {
      assert [d.a, d.b][1..] == [d.b];
    }
  }

  lemma EnclosurePrints(d: Doc, col: Option<nat>)
    requires WellFormed(d) && !IsAtom(d)
    ensures var (prefix, separator, suffix, inner) := Enclosure(d, col);
            Print(d, col) == prefix + Joined(Parts(d), inner, separator) + suffix
  {
    hide Joined, Spaces, Inner, Fits, Size;
    if d.Paired? { PairPrints(d, col); }
  }

  lemma PairPrints(d: Doc, col: Option<nat>)
    requires WellFormed(d) && d.Paired? && !d.solid
    ensures var (prefix, separator, suffix, inner) := Enclosure(d, col);
            Print(d, col) == prefix + Joined(Parts(d), inner, separator) + suffix
  {
    hide Joined, Spaces, Inner, Fits, Size;
    JoinedPair(d);
    var (prefix, separator, suffix, inner) := Enclosure(d, col);
    assert prefix + (Print(d.a, inner) + separator + Print(d.b, inner)) + suffix == Print(d, col);
  }

  lemma PartsWeight(d: Doc)
    requires !IsAtom(d)
    ensures Weights(Parts(d)) + 1 < Weight(d)
  {
    if d.Paired? {
      assert [d.a, d.b][1..] == [d.b] && [d.b][1..] == [];
      assert Weights([d.b]) == 1 + Weight(d.b);
    }
  }

  /** Opening a term: its prefix goes out, the rest of it goes on the stack. */
  lemma OpenStep(below: seq<Piece>, d: Doc, col: Option<nat>)
    requires Ready(below) && WellFormed(d) && !IsAtom(d)
    ensures var (prefix, separator, suffix, inner) := Enclosure(d, col);
            var next := below + [Fragment(suffix)] + Spread(Parts(d), inner, separator);
            && Ready(next) && Load(next) < Weight(d) + Load(below)
            && prefix + Rest(next) == Print(d, col) + Rest(below)
  {
    hide Print, Joined, Rest, Load, Ready, Weight, Weights, Spread, WellFormed, Enclosure, Parts, IsAtom;
    var (prefix, separator, suffix, inner) := Enclosure(d, col);
    EnclosurePrints(d, col);
    PartsReady(d);
    PartsWeight(d);
    RestTop(below, Fragment(suffix));
    SpreadRest(below + [Fragment(suffix)], Parts(d), inner, separator);
  }

  /** The output loop: fragments go out in order, terms are parts on the stack. */
  method Emit(root: Doc, col: Option<nat>) returns (output: string)
    requires WellFormed(root)
    ensures output == Print(root, col)
  {
    hide Print, Joined, Rest, Load, Ready, Weight, Weights, Spread, WellFormed, Fits, Inner, Spaces, Enclosure, Parts,
         IsAtom;
    output := "";
    var pending := [Term(root, col)];
    RestTop([], Term(root, col));
    EmptyRest();
    assert [] + [Term(root, col)] == pending;
    while pending != []
      invariant Ready(pending) && output + Rest(pending) == Print(root, col)
      decreases Load(pending)
    {
      var top := pending[|pending| - 1];
      var below := pending[..|pending| - 1];
      assert pending == below + [top];
      ReadyPart(below, top);
      RestTop(below, top);
      pending := below;
      if top.Fragment? {
        output := output + top.text;
      } else if IsAtom(top.d) {
        AtomPrints(top.d, top.col);
        output := output + Print(top.d, None);
      } else {
        var (prefix, separator, suffix, inner) := Enclosure(top.d, top.col);
        OpenStep(below, top.d, top.col);
        output := output + prefix;
        pending := pending + [Fragment(suffix)] + Spread(Parts(top.d), inner, separator);
      }
    }
    EmptyRest();
  }

  lemma EmptyRest()
    ensures Ready([]) && Rest([]) == "" && Load([]) == 0
  {}

  lemma ReadyPart(below: seq<Piece>, top: Piece)
    requires Ready(below + [top])
    ensures Ready(below) && (top.Term? ==> WellFormed(top.d))
  {
    hide WellFormed;
    var all := below + [top];
    assert all[|below|] == top && forall i | 0 <= i < |below| :: all[i] == below[i];
  }

  lemma AtomPrints(d: Doc, col: Option<nat>)
    requires WellFormed(d) && IsAtom(d)
    ensures Print(d, col) == Print(d, None)
    ensures Weight(d) > 0
  {}

  lemma PartsReady(d: Doc)
    requires WellFormed(d) && !IsAtom(d)
    ensures forall i | 0 <= i < |Parts(d)| :: WellFormed(Parts(d)[i])
  {}

  // ----- measuring: from nodes to documents -----

  /** Literals are rendered; a node has a head token and fields, and lists and dictionary
  entries occur among fields. */
  datatype Ast =
    | Literal(d: Doc)
    | Node(head: string, fields: seq<Ast>)
    | Entry(a: Ast, b: Ast)
    | Many(items: seq<Ast>)

  predicate Shaped(a: Ast) {
    match a
    case Literal(d) => WellFormed(d) && IsAtom(d)
    case Node(head, fields) => IsWord(head) && forall i | 0 <= i < |fields| :: Shaped(fields[i])
    case Entry(x, y) => Shaped(x) && Shaped(y)
    case Many(items) => forall i | 0 <= i < |items| :: Shaped(items[i])
  }

  function DocOf(a: Ast): Doc
    decreases a, 1
  {
    match a
    case Literal(d) => d
    case Node(head, fields) => if fields == [] then Word(head) else Group([Word(head)] + DocsOf(fields), false)
    case Entry(x, y) => Paired(DocOf(x), DocOf(y), false)
    case Many(items) => Listed(DocsOf(items), false)
  }

  function DocsOf(items: seq<Ast>): (docs: seq<Doc>)
    ensures |docs| == |items|
    decreases items, 0
  {
    if items == [] then [] else [DocOf(items[0])] + DocsOf(items[1..])
  }

  lemma {:induction false} DocIsWellFormed(a: Ast)
    requires Shaped(a)
    ensures WellFormed(DocOf(a))
    decreases a, 1
  {
    match a
    case Node(_, fields) => DocsAreWellFormed(fields);
    case Many(items) => DocsAreWellFormed(items);
    case Entry(x, y) => DocIsWellFormed(x); DocIsWellFormed(y);
    case Literal(_) =>
  }

  lemma {:induction false} DocsAreWellFormed(items: seq<Ast>)
    requires forall i | 0 <= i < |items| :: Shaped(items[i])
    ensures forall i | 0 <= i < |items| :: WellFormed(DocsOf(items)[i])
    decreases items, 0
  {
    hide WellFormed, Shaped, DocOf;
    if items != [] {
      DocIsWellFormed(items[0]);
      DocsAreWellFormed(items[1..]);
    }
  }

  datatype Layout = NodeLayout | ListLayout | PairLayout

  datatype Job = Visit(a: Ast) | Finish(layout: Layout, head: string, count: nat)

  /** Putting measured children together. */
  function Combine(layout: Layout, head: string, docs: seq<Doc>): Doc {
    if layout.NodeLayout? then Group([Word(head)] + docs, false)
    else if layout.ListLayout? || |docs| != 2 then Listed(docs, false)
    else Paired(docs[0], docs[1], false)
  }

  /** A node's children, layout and head, unless it is a leaf. */
  function Opened(a: Ast): Option<(seq<Ast>, Layout, string)> {
    match a
    case Literal(_) => None
    case Node(head, fields) => if fields == [] then None else Some((fields, NodeLayout, head))
    case Entry(x, y) => Some(([x, y], PairLayout, ""))
    case Many(items) => if items == [] then None else Some((items, ListLayout, ""))
  }

  lemma OpenedCombines(a: Ast)
    ensures Opened(a).Some? ==> var (children, layout, head) := Opened(a).value; Combine(layout, head, DocsOf(children)) == DocOf(a)
    ensures Opened(a).Some? ==> Jobs(Opened(a).value.0) + 1 < JobSize(a)
  {
    if a.Entry? {
      assert [a.a, a.b][1..] == [a.b] && [a.b][1..] == [];
      assert DocsOf([a.b]) == [DocOf(a.b)] && Jobs([a.b]) == JobSize(a.b);
    }
  }

  function JobSize(a: Ast): nat
    decreases a, 1
  {
    match a
    case Literal(_) => 1
    case Node(_, fields) => 2 + Jobs(fields)
    case Entry(x, y) => 2 + JobSize(x) + JobSize(y)
    case Many(items) => 2 + Jobs(items)
  }

  function Jobs(items: seq<Ast>): nat
    decreases items, 0
  {
    if items == [] then 0 else JobSize(items[0]) + Jobs(items[1..])
  }

  ghost function Backlog(pending: seq<Job>): nat {
    if pending == [] then 0 else
    var top := pending[|pending| - 1];
    (if top.Visit? then JobSize(top.a) else 1) + Backlog(pending[..|pending| - 1])
  }

  /** What the stacks come to. */
  ghost function Result(pending: seq<Job>, measured: seq<Doc>): seq<Doc>
    decreases |pending|
  {
    if pending == [] then measured else
    var top := pending[|pending| - 1];
    var rest := pending[..|pending| - 1];
    if top.Visit? then Result(rest, measured + [DocOf(top.a)])
    else if top.count > |measured| then []
    else Result(rest, measured[..|measured| - top.count] + [Combine(top.layout, top.head, measured[|measured| - top.count..])])
  }

  function Backwards(items: seq<Ast>): seq<Job> {
    if items == [] then [] else Backwards(items[1..]) + [Visit(items[0])]
  }

  lemma {:induction false} VisitAll(pending: seq<Job>, items: seq<Ast>, measured: seq<Doc>)
    ensures Result(pending + Backwards(items), measured) == Result(pending, measured + DocsOf(items))
    ensures Backlog(pending + Backwards(items)) == Jobs(items) + Backlog(pending)
    decreases |items|
  {
    hide DocOf, JobSize, Combine, Result, Backlog;
    if items == [] {
      assert pending + [] == pending && measured + [] == measured;
    } else {
      assert pending + Backwards(items) == pending + Backwards(items[1..]) + [Visit(items[0])];
      PushVisit(pending + Backwards(items[1..]), items[0], measured);
      VisitAll(pending, items[1..], measured + [DocOf(items[0])]);
      assert measured + [DocOf(items[0])] + DocsOf(items[1..]) == measured + DocsOf(items);
    }
  }

  lemma PushVisit(pending: seq<Job>, a: Ast, measured: seq<Doc>)
    ensures Result(pending + [Visit(a)], measured) == Result(pending, measured + [DocOf(a)])
    ensures Backlog(pending + [Visit(a)]) == JobSize(a) + Backlog(pending)
  {
    hide DocOf, JobSize, Combine;
    assert (pending + [Visit(a)])[..|pending|] == pending;
  }

  /** Replacing a visit by its children's visits and a finish changes nothing. */
  lemma OpenVisit(pending: seq<Job>, a: Ast, measured: seq<Doc>)
    requires Opened(a).Some?
    ensures var (children, layout, head) := Opened(a).value;
            var next := pending + [Finish(layout, head, |children|)] + Backwards(children);
            && Result(next, measured) == Result(pending + [Visit(a)], measured)
            && Backlog(next) < Backlog(pending + [Visit(a)])
  {
    hide DocOf, JobSize, Combine, Jobs, DocsOf, Opened;
    var (children, layout, head) := Opened(a).value;
    var finish := pending + [Finish(layout, head, |children|)];
    OpenedCombines(a);
    VisitAll(finish, children, measured);
    var grown := measured + DocsOf(children);
    assert finish[..|finish| - 1] == pending && (pending + [Visit(a)])[..|pending|] == pending;
    assert grown[..|measured|] == measured && grown[|measured|..] == DocsOf(children);
  }

  method Measure(root: Ast) returns (doc: Doc)
    ensures doc == DocOf(root)
  {
    hide DocOf, JobSize, Jobs, DocsOf, Opened, Combine;
    var pending := [Visit(root)];
    var measured: seq<Doc> := [];
    assert Result(pending, measured) == [DocOf(root)] by {
      assert pending[..0] == [] && [] + [DocOf(root)] == [DocOf(root)];
    }
    while pending != []
      invariant Result(pending, measured) == [DocOf(root)]
      decreases Backlog(pending)
    {
      var top := pending[|pending| - 1];
      var rest := pending[..|pending| - 1];
      assert pending == rest + [top];
      if top.Finish? {
        var n := |measured| - top.count;
        pending, measured := rest, measured[..n] + [Combine(top.layout, top.head, measured[n..])];
      } else {
        var parts := Opened(top.a);
        if parts.None? {
          LeafSize(top.a);
          pending, measured := rest, measured + [DocOf(top.a)];
        } else {
          OpenVisit(rest, top.a, measured);
          var (children, layout, head) := parts.value;
          pending := rest + [Finish(layout, head, |children|)] + Backwards(children);
        }
      }
    }
    doc := measured[0];
  }

  lemma LeafSize(a: Ast)
    ensures JobSize(a) > 0
  {}

  /** The printer: measure, refuse what is larger than the cap, put out. */
  method PrintTerm(root: Ast, col: Option<nat>, cap: Option<nat>) returns (text: Option<string>)
    requires Shaped(root)
    ensures WellFormed(DocOf(root))
    ensures text == if cap.Some? && |Print(DocOf(root), None)| > cap.value then None else Some(Print(DocOf(root), col))
    ensures text.Some? ==> forall heads | Spelled(root, heads) ::
      var r := Read(text.value, 0); r.Got? && r.end == |text.value| && Decode(r.value, heads) == Bare(root)
  {
    DocIsWellFormed(root);
    var doc := Measure(root);
    SizeIsFlatLength(doc);
    if cap.Some? && Size(doc) > cap.value { return None; }
    var output := Emit(doc, col);
    forall heads | Spelled(root, heads)
      ensures var r := Read(output, 0); r.Got? && r.end == |output| && Decode(r.value, heads) == Bare(root)
    {
      TextGivesTree(root, col, heads);
    }
    return Some(output);
  }

  // ----- a reader of the fully parenthesised grammar -----

  datatype Got<T> = Got(value: T, end: nat) | Fail

  function Skip(text: string, pos: nat): (p: nat)
    requires pos <= |text|
    ensures pos <= p <= |text|
    decreases |text| - pos
  {
    if pos < |text| && (text[pos] == ' ' || text[pos] == '\n') then Skip(text, pos + 1) else pos
  }

  predicate Looking(text: string, pos: nat, c: char) { pos < |text| && text[pos] == c }

  function WordEnd(text: string, pos: nat): (p: nat)
    requires pos <= |text|
    ensures pos <= p <= |text|
    decreases |text| - pos
  {
    if pos < |text| && !IsDelimiter(text[pos]) then WordEnd(text, pos + 1) else pos
  }

  function Digit(c: char): Option<nat> {
    if '0' <= c <= '9' then Some(c as int - '0' as int)
    else if 'a' <= c <= 'f' then Some(c as int - 'a' as int + 10)
    else None
  }

  function Unhex(h: string): Option<nat> {
    if h == "" then Some(0) else
    var high, low := Unhex(h[..|h| - 1]), Digit(h[|h| - 1]);
    if high.Some? && low.Some? then Some(16 * high.value + low.value) else None
  }

  /** The inside of a string literal, up to its closing quote. */
  function ReadString(text: string, pos: nat, codes: seq<nat>): (r: Got<seq<nat>>)
    requires pos <= |text|
    ensures r.Got? ==> pos < r.end <= |text|
    decreases |text| - pos
  {
    if pos >= |text| then Fail
    else if text[pos] == '"' then Got(codes, pos + 1)
    else if text[pos] != '\\' then ReadString(text, pos + 1, codes + [text[pos] as int])
    else if pos + 1 >= |text| then Fail
    else
      var c := text[pos + 1];
      if c == '\\' || c == '"' || c == '\'' then ReadString(text, pos + 2, codes + [c as int])
      else if c == 'n' then ReadString(text, pos + 2, codes + ['\n' as int])
      else if c == 't' then ReadString(text, pos + 2, codes + ['\t' as int])
      else if c == 'r' then ReadString(text, pos + 2, codes + ['\r' as int])
      else
        var width := if c == 'x' then 2 else 4;
        if (c != 'x' && c != 'u') || pos + 2 + width > |text| then Fail else
        var code := Unhex(text[pos + 2..pos + 2 + width]);
        if code.None? then Fail else ReadString(text, pos + 2 + width, codes + [code.value])
  }

  /** Nothing that is read is solid: that mark is about layout only. */
  function Read(text: string, pos: nat): (r: Got<Doc>)
    requires pos <= |text|
    ensures r.Got? ==> pos < r.end <= |text|
    decreases |text| - pos, 1
  {
    ReadAt(text, Skip(text, pos))
  }

  function ReadAt(text: string, p: nat): (r: Got<Doc>)
    requires p <= |text|
    ensures r.Got? ==> p < r.end <= |text|
    decreases |text| - p, 0
  {
    if p == |text| then Fail
    else if text[p] == '(' then
      var first := Read(text, p + 1);
      if first.Fail? then Fail else
      var q := Skip(text, first.end);
      if Looking(text, q, ',') then
        var second := Read(text, q + 1);
        if second.Fail? then Fail else
        var close := Skip(text, second.end);
        if Looking(text, close, ')') then Got(Paired(first.value, second.value, false), close + 1) else Fail
      else ReadGroup(text, first.end, [first.value])
    else if text[p] == '[' then
      var q := Skip(text, p + 1);
      if Looking(text, q, ']') then Got(Listed([], false), q + 1) else ReadList(text, p + 1, [])
    else if text[p] == '"' then
      var codes := ReadString(text, p + 1, []);
      if codes.Fail? then Fail else Got(Quoted(codes.value), codes.end)
    else if IsDelimiter(text[p]) then Fail
    else Got(Word(text[p..WordEnd(text, p)]), WordEnd(text, p))
  }

  function ReadGroup(text: string, pos: nat, items: seq<Doc>): (r: Got<Doc>)
    requires pos <= |text|
    ensures r.Got? ==> pos < r.end <= |text|
    decreases |text| - pos, 2
  {
    var q := Skip(text, pos);
    if Looking(text, q, ')') then Got(Group(items, false), q + 1) else
    var item := Read(text, pos);
    if item.Fail? then Fail else ReadGroup(text, item.end, items + [item.value])
  }

  function ReadList(text: string, pos: nat, items: seq<Doc>): (r: Got<Doc>)
    requires pos <= |text|
    ensures r.Got? ==> pos < r.end <= |text|
    decreases |text| - pos, 2
  {
    var item := Read(text, pos);
    if item.Fail? then Fail else
    var q := Skip(text, item.end);
    if Looking(text, q, ',') then ReadList(text, q + 1, items + [item.value])
    else if Looking(text, q, ']') then Got(Listed(items + [item.value], false), q + 1)
    else Fail
  }

  // ----- unescaping -----

  lemma {:induction false} UnhexHex(n: nat, width: nat)
    requires n < Power16(width)
    ensures Unhex(Hex(n, width)) == Some(n)
    decreases width
  {
    if width > 0 {
      UnhexHex(n / 16, width - 1);
      var h := Hex(n, width);
      assert h[..|h| - 1] == Hex(n / 16, width - 1);
      assert Digit(DIGITS[n % 16]) == Some(n % 16);
    }
  }

  function Power16(width: nat): nat { if width == 0 then 1 else 16 * Power16(width - 1) }

  lemma CodeBack(text: string, pos: nat, o: nat, codes: seq<nat>)
    requires IsCode(o) && At(text, pos, EscapeCode(o))
    ensures ReadString(text, pos, codes) == ReadString(text, pos + |EscapeCode(o)|, codes + [o])
  {
    hide At;
    var e := EscapeCode(o);
    FirstAt(text, pos, e);
    if e[0] == '\\' {
      var tail := e[1..];
      assert e == "\\" + tail;
      AtParts(text, pos, "\\", tail);
      FirstAt(text, pos + 1, tail);
      if |e| > 2 { HexBack(text, pos, o, codes); }
    }
  }

  lemma HexBack(text: string, pos: nat, o: nat, codes: seq<nat>)
    requires IsCode(o) && At(text, pos, EscapeCode(o)) && |EscapeCode(o)| > 2
    ensures ReadString(text, pos, codes) == ReadString(text, pos + |EscapeCode(o)|, codes + [o])
  {
    hide Hex, Unhex;
    var e := EscapeCode(o);
    var width := |e| - 2;
    var lead := e[..2];
    assert (lead == "\\x" && width == 2) || (lead == "\\u" && width == 4);
    assert e == lead + Hex(o, width);
    AtParts(text, pos, lead, Hex(o, width));
    assert text[pos] == lead[0] && text[pos + 1] == lead[1] by {
      FirstAt(text, pos, lead);
      assert text[pos..pos + 2][1] == text[pos + 1];
    }
    Power();
    UnhexHex(o, width);
  }

  lemma Power()
    ensures Power16(2) == 0x100 && Power16(4) == 0x10000
  {
    assert Power16(0) == 1;
    assert Power16(1) == 16;
    assert Power16(3) == 0x1000;
  }

  lemma {:induction false} StringBack(text: string, pos: nat, codes: seq<nat>, before: seq<nat>)
    requires forall i | 0 <= i < |codes| :: IsCode(codes[i])
    requires At(text, pos, Escaped(codes) + "\"")
    ensures ReadString(text, pos, before) == Got(before + codes, pos + |Escaped(codes)| + 1)
    decreases |codes|
  {
    hide At, EscapeCode, ReadString;
    if codes == [] {
      assert Escaped(codes) + "\"" == "\"" && before + codes == before;
      QuoteEnds(text, pos, before);
    } else {
      assert Escaped(codes) + "\"" == EscapeCode(codes[0]) + (Escaped(codes[1..]) + "\"");
      AtParts(text, pos, EscapeCode(codes[0]), Escaped(codes[1..]) + "\"");
      CodeBack(text, pos, codes[0], before);
      StringBack(text, pos + |EscapeCode(codes[0])|, codes[1..], before + [codes[0]]);
      assert before + [codes[0]] + codes[1..] == before + codes;
    }
  }

  lemma QuoteEnds(text: string, pos: nat, before: seq<nat>)
    requires At(text, pos, "\"")
    ensures pos < |text| && ReadString(text, pos, before) == Got(before, pos + 1)
  {
    FirstAt(text, pos, "\"");
  }

  // ----- printing loses nothing -----

  /** A term without its layout marks. */
  function Erase(d: Doc): Doc
    decreases d, 1
  {
    match d
    case Group(items, _) => Group(EraseAll(items), false)
    case Listed(items, _) => Listed(EraseAll(items), false)
    case Paired(a, b, _) => Paired(Erase(a), Erase(b), false)
    case _ => d
  }

  function EraseAll(items: seq<Doc>): seq<Doc>
    decreases items, 0
  {
    if items == [] then [] else [Erase(items[0])] + EraseAll(items[1..])
  }

  predicate IsBlank(ws: string) { forall i | 0 <= i < |ws| :: ws[i] == ' ' || ws[i] == '\n' }

  predicate Starts(part: string) { part != "" && part[0] !in " \n)]," }

  predicate Ends(text: string, pos: nat) { pos >= |text| || IsDelimiter(text[pos]) }

  lemma PrintStarts(d: Doc, col: Option<nat>)
    requires WellFormed(d)
    ensures Starts(Print(d, col))
  {
    if d.Word? { assert !IsDelimiter(d.w[0]); }
  }

  lemma {:induction false} SkipBlank(text: string, pos: nat, ws: string, part: string)
    requires IsBlank(ws) && At(text, pos, ws) && At(text, pos + |ws|, part) && part != "" && part[0] !in " \n"
    ensures Skip(text, pos) == pos + |ws| && Skip(text, pos + |ws|) == pos + |ws| && Looking(text, pos + |ws|, part[0])
    decreases |ws|
  {
    FirstAt(text, pos + |ws|, part);
    if ws != "" {
      FirstAt(text, pos, ws);
      assert ws == [ws[0]] + ws[1..];
      AtParts(text, pos, [ws[0]], ws[1..]);
      SkipBlank(text, pos + 1, ws[1..], part);
    }
  }

  lemma ReadSkips(text: string, pos: nat, p: nat)
    requires pos <= p <= |text| && Skip(text, pos) == p && Skip(text, p) == p
    ensures Read(text, pos) == Read(text, p)
    ensures forall items :: ReadList(text, pos, items) == ReadList(text, p, items)
  {
    hide ReadAt;
  }

  lemma {:induction false} WordBack(text: string, pos: nat, w: string)
    requires (forall i | 0 <= i < |w| :: !IsDelimiter(w[i])) && At(text, pos, w) && Ends(text, pos + |w|)
    ensures WordEnd(text, pos) == pos + |w|
    decreases |w|
  {
    if w != "" {
      FirstAt(text, pos, w);
      assert w == [w[0]] + w[1..];
      AtParts(text, pos, [w[0]], w[1..]);
      WordBack(text, pos + 1, w[1..]);
    }
  }

  /** A printed term, flat or wrapped at any column and wherever it stands in a text, is read
  back as the same term. */
  lemma {:induction false} PrintBack(text: string, pos: nat, d: Doc, col: Option<nat>)
    requires WellFormed(d) && At(text, pos, Print(d, col)) && Ends(text, pos + |Print(d, col)|)
    ensures Read(text, pos) == Got(Erase(d), pos + |Print(d, col)|)
    decreases d, 2
  {
    hide WellFormed, Print, Erase, Joined, At, Fits, IsAtom, Ends, Read;
    if d.Word? || d.Quoted? {
      LeafBack(text, pos, d, col);
    } else if d.Group? {
      GroupBack(text, pos, d, col);
    } else if d.Listed? {
      ListBack(text, pos, d, col);
    } else {
      PairBack(text, pos, d, col);
    }
  }

  lemma LeafBack(text: string, pos: nat, d: Doc, col: Option<nat>)
    requires d.Word? || d.Quoted?
    requires WellFormed(d) && At(text, pos, Print(d, col)) && Ends(text, pos + |Print(d, col)|)
    ensures Read(text, pos) == Got(Erase(d), pos + |Print(d, col)|)
  {
    hide ReadGroup, ReadList, ReadString, Escaped;
    var part := Print(d, col);
    PrintStarts(d, col);
    SkipNothing(text, pos, part);
    if d.Word? {
      WordBack(text, pos, d.w);
    } else {
      assert part == "\"" + (Escaped(d.codes) + "\"");
      AtParts(text, pos, "\"", Escaped(d.codes) + "\"");
      StringBack(text, pos + 1, d.codes, []);
      assert [] + d.codes == d.codes;
    }
  }

  lemma SkipNothing(text: string, pos: nat, part: string)
    requires At(text, pos, part) && part != "" && part[0] !in " \n"
    ensures Skip(text, pos) == pos && Looking(text, pos, part[0])
  {
    FirstAt(text, pos, part);
  }

  /** Nonempty blank separators of a group, of a list around its comma, of a pair after it. */
  lemma {:induction false} ItemsBack(text: string, pos: nat, items: seq<Doc>, col: Option<nat>, ws: string,
                                     before: seq<Doc>)
    requires (forall i | 0 <= i < |items| :: WellFormed(items[i])) && ws != "" && IsBlank(ws)
    requires At(text, pos, (if items == [] then "" else ws + Joined(items, col, ws)) + ")")
    ensures pos < |text| && IsDelimiter(text[pos])
    ensures Skip(text, pos) <= |text| && !Looking(text, Skip(text, pos), ',')
    ensures ReadGroup(text, pos, before) ==
      Got(Group(before + EraseAll(items), false), pos + (if items == [] then 0 else |ws| + |Joined(items, col, ws)|) + 1)
    decreases items, 0
  {
    hide WellFormed, Print, Erase, Joined, At, Read, Skip, ReadGroup, IsBlank, Ends;
    if items == [] {
      assert "" + ")" == ")" && before + [] == before;
      SkipNothing(text, pos, ")");
      GroupEnds(text, pos, before);
    } else {
      NextInGroup(text, pos, items, col, ws);
      EraseHead(items);
      var end := pos + |ws| + |Print(items[0], col)|;
      ItemsBack(text, end, items[1..], col, ws, before + [Erase(items[0])]);
      EndsAt(text, end);
      PrintBack(text, pos + |ws|, items[0], col);
      GroupGoes(text, pos, before, Erase(items[0]), end);
      assert before + [Erase(items[0])] + EraseAll(items[1..]) == before + EraseAll(items);
    }
  }

  lemma NextInGroup(text: string, pos: nat, items: seq<Doc>, col: Option<nat>, ws: string)
    requires items != [] && (forall i | 0 <= i < |items| :: WellFormed(items[i])) && ws != "" && IsBlank(ws)
    requires At(text, pos, (ws + Joined(items, col, ws)) + ")")
    ensures var head := Print(items[0], col);
            && At(text, pos + |ws|, head)
            && At(text, pos + |ws| + |head|, (if |items| == 1 then "" else ws + Joined(items[1..], col, ws)) + ")")
            && |Joined(items, col, ws)| == |head| + (if |items| == 1 then 0 else |ws| + |Joined(items[1..], col, ws)|)
    ensures pos < |text| && IsDelimiter(text[pos])
    ensures Skip(text, pos) == pos + |ws| && !Looking(text, pos + |ws|, ',') && !Looking(text, pos + |ws|, ')')
    ensures Read(text, pos) == Read(text, pos + |ws|)
  {
    hide WellFormed, Print, Joined, At, Read, Skip, IsBlank;
    var head := Print(items[0], col);
    var tail := (if |items| == 1 then "" else ws + Joined(items[1..], col, ws)) + ")";
    JoinedSplit(items, col, ws);
    assert (ws + Joined(items, col, ws)) + ")" == ws + (head + tail);
    AtParts(text, pos, ws, head + tail);
    AtParts(text, pos + |ws|, head, tail);
    PrintStarts(items[0], col);
    SkipBlank(text, pos, ws, head);
    FirstAt(text, pos, ws);
    BlankStart(ws);
    ReadSkips(text, pos, pos + |ws|);
  }

  lemma GroupEnds(text: string, pos: nat, before: seq<Doc>)
    requires pos < |text| && Skip(text, pos) == pos && Looking(text, pos, ')')
    ensures ReadGroup(text, pos, before) == Got(Group(before, false), pos + 1)
  {}

  lemma GroupGoes(text: string, pos: nat, before: seq<Doc>, item: Doc, end: nat)
    requires pos <= |text| && Read(text, pos) == Got(item, end) && !Looking(text, Skip(text, pos), ')')
    ensures ReadGroup(text, pos, before) == ReadGroup(text, end, before + [item])
  {
    hide Read;
  }

  lemma BlankStart(ws: string)
    requires IsBlank(ws) && ws != ""
    ensures IsDelimiter(ws[0])
  {}

  lemma EndsAt(text: string, pos: nat)
    requires pos < |text| && IsDelimiter(text[pos])
    ensures Ends(text, pos)
  {}

  lemma JoinedSplit(items: seq<Doc>, col: Option<nat>, separator: string)
    requires items != [] && forall i | 0 <= i < |items| :: WellFormed(items[i])
    ensures Joined(items, col, separator) ==
      Print(items[0], col) + (if |items| == 1 then "" else separator + Joined(items[1..], col, separator))
  {}

  lemma {:induction false} GroupBack(text: string, pos: nat, d: Doc, col: Option<nat>)
    requires d.Group? && WellFormed(d) && At(text, pos, Print(d, col))
    ensures Read(text, pos) == Got(Erase(d), pos + |Print(d, col)|)
    decreases d, 1
  {
    hide WellFormed, Print, Erase, Joined, At, Read, Skip, ReadGroup, IsBlank, Ends, Fits;
    var inner, ws := GroupText(d, col);
    var items := d.items;
    var head := Print(items[0], inner);
    var tail := (if |items| == 1 then "" else ws + Joined(items[1..], inner, ws)) + ")";
    JoinedSplit(items, inner, ws);
    assert Print(d, col) == "(" + (head + tail);
    AtParts(text, pos, "(", head + tail);
    AtParts(text, pos + 1, head, tail);
    SkipNothing(text, pos, "(");
    var end := pos + 1 + |head|;
    ItemsBack(text, end, items[1..], inner, ws, [Erase(items[0])]);
    EndsAt(text, end);
    PrintBack(text, pos + 1, items[0], inner);
    OpensGroup(text, pos, Erase(items[0]), end);
    EraseGroup(d);
  }

  lemma GroupText(d: Doc, col: Option<nat>) returns (inner: Option<nat>, ws: string)
    requires d.Group? && WellFormed(d)
    ensures d.items != [] && (forall i | 0 <= i < |d.items| :: WellFormed(d.items[i]))
    ensures ws != "" && IsBlank(ws) && Print(d, col) == "(" + Joined(d.items, inner, ws) + ")"
  {
    if Fits(d, col) { inner, ws := None, " "; }
    else { inner, ws := Some(Inner(col.value)), "\n" + Spaces(Inner(col.value)); }
  }

  lemma OpensGroup(text: string, pos: nat, first: Doc, end: nat)
    requires pos < |text| && Skip(text, pos) == pos && Looking(text, pos, '(') && Read(text, pos + 1) == Got(first, end)
    requires !Looking(text, Skip(text, end), ',')
    ensures Read(text, pos) == ReadGroup(text, end, [first])
  {
    hide ReadGroup, ReadList, ReadString;
  }

  lemma EraseGroup(d: Doc)
    requires d.Group? && d.items != []
    ensures Erase(d) == Group([Erase(d.items[0])] + EraseAll(d.items[1..]), false)
  {}

  lemma {:induction false} ListBack(text: string, pos: nat, d: Doc, col: Option<nat>)
    requires d.Listed? && WellFormed(d) && At(text, pos, Print(d, col))
    ensures Read(text, pos) == Got(Erase(d), pos + |Print(d, col)|)
    decreases d, 1
  {
    hide WellFormed, Print, Erase, Joined, At, Read, Skip, ReadList, IsBlank, Ends, Fits;
    if d.items == [] {
      EmptyListBack(text, pos, d, col);
    } else {
      var inner, ws, pad := ListText(d, col);
      var joined := Joined(d.items, inner, ws + ", ");
      assert Print(d, col) == "[" + (pad + (joined + (pad + "]")));
      AtParts(text, pos, "[", pad + (joined + (pad + "]")));
      AtParts(text, pos + 1, pad, joined + (pad + "]"));
      SkipNothing(text, pos, "[");
      JoinedStarts(d.items, inner, ws + ", ");
      SkipBlank(text, pos + 1, pad, joined + (pad + "]"));
      var start := pos + 1 + |pad|;
      ReadSkips(text, pos + 1, start);
      CommasBack(text, start, d.items, inner, ws, pad, []);
      OpensList(text, pos);
      EraseList(d);
    }
  }

  lemma JoinedStarts(items: seq<Doc>, col: Option<nat>, separator: string)
    requires items != [] && forall i | 0 <= i < |items| :: WellFormed(items[i])
    ensures Starts(Joined(items, col, separator))
  {
    PrintStarts(items[0], col);
    JoinedSplit(items, col, separator);
  }

  lemma ListText(d: Doc, col: Option<nat>) returns (inner: Option<nat>, ws: string, pad: string)
    requires d.Listed? && d.items != [] && WellFormed(d)
    ensures forall i | 0 <= i < |d.items| :: WellFormed(d.items[i])
    ensures IsBlank(ws) && IsBlank(pad) && Print(d, col) == "[" + pad + Joined(d.items, inner, ws + ", ") + pad + "]"
  {
    hide Size, SumSizes, Joined, Inner;
    if Fits(d, col) {
      inner, ws, pad := None, "", "";
      assert ws + ", " == ", ";
    } else {
      inner, ws, pad := Some(Inner(col.value)), "\n" + Spaces(col.value), " ";
    }
  }

  lemma OpensList(text: string, pos: nat)
    requires pos < |text| && Skip(text, pos) == pos && Looking(text, pos, '[')
    requires !Looking(text, Skip(text, pos + 1), ']')
    ensures Read(text, pos) == ReadList(text, pos + 1, [])
  {
    hide ReadGroup, ReadList, ReadString;
  }

  lemma EmptyListBack(text: string, pos: nat, d: Doc, col: Option<nat>)
    requires d.Listed? && d.items == [] && WellFormed(d) && At(text, pos, Print(d, col))
    ensures Read(text, pos) == Got(Erase(d), pos + |Print(d, col)|)
  {
    hide ReadGroup, ReadList, ReadString;
    assert Print(d, col) == "[" + "]";
    AtParts(text, pos, "[", "]");
    SkipNothing(text, pos, "[");
    SkipNothing(text, pos + 1, "]");
  }

  lemma EraseList(d: Doc)
    requires d.Listed?
    ensures Erase(d) == Listed([] + EraseAll(d.items), false)
  {}

  lemma {:induction false} CommasBack(text: string, pos: nat, items: seq<Doc>, col: Option<nat>, ws: string,
                                      pad: string, before: seq<Doc>)
    requires items != [] && (forall i | 0 <= i < |items| :: WellFormed(items[i])) && IsBlank(ws) && IsBlank(pad)
    requires At(text, pos, Joined(items, col, ws + ", ") + (pad + "]"))
    ensures ReadList(text, pos, before) ==
      Got(Listed(before + EraseAll(items), false), pos + |Joined(items, col, ws + ", ")| + |pad| + 1)
    decreases items, 0
  {
    hide WellFormed, Print, Erase, EraseAll, Joined, At, Read, Skip, ReadList, IsBlank, Ends, Starts;
    EraseHead(items);
    var head := Print(items[0], col);
    var end := pos + |head|;
    if |items| == 1 {
      LastItem(text, pos, items, col, ws, pad);
      PrintBack(text, pos, items[0], col);
      ListEnds(text, pos, before, Erase(items[0]), end);
    } else {
      NextItem(text, pos, items, col, ws, pad);
      ReadSkips(text, end + |ws| + 1, end + |ws| + 2);
      PrintBack(text, pos, items[0], col);
      ListGoes(text, pos, before, Erase(items[0]), end);
      CommasBack(text, end + |ws| + 2, items[1..], col, ws, pad, before + [Erase(items[0])]);
      assert before + [Erase(items[0])] + EraseAll(items[1..]) == before + EraseAll(items);
    }
  }

  lemma EraseHead(items: seq<Doc>)
    requires items != []
    ensures EraseAll(items) == [Erase(items[0])] + EraseAll(items[1..])
            && (|items| == 1 ==> EraseAll(items) == [Erase(items[0])])
  {
    hide Erase;
  }

  lemma LastItem(text: string, pos: nat, items: seq<Doc>, col: Option<nat>, ws: string, pad: string)
    requires |items| == 1 && WellFormed(items[0]) && IsBlank(pad)
    requires At(text, pos, Joined(items, col, ws + ", ") + (pad + "]"))
    ensures var head := Print(items[0], col);
            var end := pos + |head|;
            && At(text, pos, head) && Ends(text, end) && Looking(text, Skip(text, end), ']')
               && Skip(text, end) == end + |pad|
            && Joined(items, col, ws + ", ") == head
  {
    hide Print, At, Skip, IsBlank, Ends;
    var head := Print(items[0], col);
    var end := pos + |head|;
    JoinedSplit(items, col, ws + ", ");
    assert Joined(items, col, ws + ", ") == head;
    AtParts(text, pos, head, pad + "]");
    AtParts(text, end, pad, "]");
    SkipBlank(text, end, pad, "]");
    BlankThen(text, end, pad, "]");
  }

  lemma NextItem(text: string, pos: nat, items: seq<Doc>, col: Option<nat>, ws: string, pad: string)
    requires |items| > 1 && (forall i | 0 <= i < |items| :: WellFormed(items[i])) && IsBlank(ws)
    requires At(text, pos, Joined(items, col, ws + ", ") + (pad + "]"))
    ensures var head := Print(items[0], col);
            var end := pos + |head|;
            && At(text, pos, head) && Ends(text, end) && Looking(text, Skip(text, end), ',')
               && Skip(text, end) == end + |ws|
            && At(text, end + |ws| + 2, Joined(items[1..], col, ws + ", ") + (pad + "]"))
            && |Joined(items, col, ws + ", ")| == |head| + |ws| + 2 + |Joined(items[1..], col, ws + ", ")|
            && Skip(text, end + |ws| + 1) == end + |ws| + 2 && Skip(text, end + |ws| + 2) == end + |ws| + 2
  {
    hide Print, At, Skip, IsBlank, Ends, ReadList, WellFormed, Joined;
    var head := Print(items[0], col);
    var end := pos + |head|;
    var more := Joined(items[1..], col, ws + ", ") + (pad + "]");
    JoinedSplit(items, col, ws + ", ");
    assert Joined(items, col, ws + ", ") + (pad + "]") == head + (ws + ("," + (" " + more)));
    AtParts(text, pos, head, ws + ("," + (" " + more)));
    AtParts(text, end, ws, "," + (" " + more));
    AtParts(text, end + |ws|, ",", " " + more);
    AtParts(text, end + |ws| + 1, " ", more);
    SkipBlank(text, end, ws, ",");
    BlankThen(text, end, ws, ",");
    JoinedStarts(items[1..], col, ws + ", ");
    OneBlank();
    SkipBlank(text, end + |ws| + 1, " ", more);
  }

  lemma OneBlank()
    ensures IsBlank(" ")
  {}

  lemma BlankThen(text: string, pos: nat, ws: string, part: string)
    requires IsBlank(ws) && At(text, pos, ws) && At(text, pos + |ws|, part) && part != "" && IsDelimiter(part[0])
    ensures Ends(text, pos)
  {
    if ws != "" { FirstAt(text, pos, ws); } else { FirstAt(text, pos, part); }
  }

  lemma ListEnds(text: string, pos: nat, before: seq<Doc>, item: Doc, end: nat)
    requires pos <= |text| && Read(text, pos) == Got(item, end) && Looking(text, Skip(text, end), ']')
    ensures ReadList(text, pos, before) == Got(Listed(before + [item], false), Skip(text, end) + 1)
  {
    hide Read;
  }

  lemma ListGoes(text: string, pos: nat, before: seq<Doc>, item: Doc, end: nat)
    requires pos <= |text| && Read(text, pos) == Got(item, end) && Looking(text, Skip(text, end), ',')
    ensures ReadList(text, pos, before) == ReadList(text, Skip(text, end) + 1, before + [item])
  {
    hide Read;
  }

  lemma {:induction false} PairBack(text: string, pos: nat, d: Doc, col: Option<nat>)
    requires d.Paired? && WellFormed(d) && At(text, pos, Print(d, col))
    ensures Read(text, pos) == Got(Erase(d), pos + |Print(d, col)|)
    decreases d, 1
  {
    hide WellFormed, Print, Erase, Joined, At, Read, Skip, ReadGroup, IsBlank, Ends, Fits;
    var inner, ws := PairText(d, col);
    var first, second := Print(d.a, inner), Print(d.b, inner);
    var end := pos + 1 + |first|;
    assert Print(d, col) == "(" + (first + ("," + (ws + (second + ")"))));
    AtParts(text, pos, "(", first + ("," + (ws + (second + ")"))));
    AtParts(text, pos + 1, first, "," + (ws + (second + ")")));
    AtParts(text, end, ",", ws + (second + ")"));
    AtParts(text, end + 1, ws, second + ")");
    AtParts(text, end + 1 + |ws|, second, ")");
    SkipNothing(text, pos, "(");
    SkipNothing(text, end, ",");
    EndsAt(text, end);
    PrintBack(text, pos + 1, d.a, inner);
    PrintStarts(d.b, inner);
    SkipBlank(text, end + 1, ws, second);
    ReadSkips(text, end + 1, end + 1 + |ws|);
    var close := end + 1 + |ws| + |second|;
    SkipNothing(text, close, ")");
    EndsAt(text, close);
    PrintBack(text, end + 1 + |ws|, d.b, inner);
    ClosesPair(text, pos, Erase(d.a), end, Erase(d.b), close);
    ErasePair(d);
  }

  lemma PairText(d: Doc, col: Option<nat>) returns (inner: Option<nat>, ws: string)
    requires d.Paired? && WellFormed(d)
    ensures WellFormed(d.a) && WellFormed(d.b)
    ensures IsBlank(ws) && Print(d, col) == "(" + Print(d.a, inner) + "," + ws + Print(d.b, inner) + ")"
  {
    hide Size, Inner;
    if Fits(d, col) {
      inner, ws := None, " ";
      assert "," + " " == ", ";
    } else {
      inner, ws := Some(Inner(col.value)), "\n" + Spaces(Inner(col.value));
      assert "," + ws == ",\n" + Spaces(Inner(col.value));
    }
  }

  lemma ClosesPair(text: string, pos: nat, a: Doc, end: nat, b: Doc, close: nat)
    requires pos < |text| && Skip(text, pos) == pos && Looking(text, pos, '(') && Read(text, pos + 1) == Got(a, end)
    requires Skip(text, end) == end && Looking(text, end, ',') && Read(text, end + 1) == Got(b, close)
    requires Skip(text, close) == close && Looking(text, close, ')')
    ensures Read(text, pos) == Got(Paired(a, b, false), close + 1)
  {
    hide ReadGroup, ReadList, ReadString;
  }

  lemma ErasePair(d: Doc)
    requires d.Paired?
    ensures Erase(d) == Paired(Erase(d.a), Erase(d.b), false)
  {}

  /** Flat and wrapped output at every column read back as the same term. */
  lemma PrintingLosesNothing(d: Doc, col: Option<nat>)
    requires WellFormed(d)
    ensures Read(Print(d, col), 0) == Got(Erase(d), |Print(d, col)|)
  {
    var text := Print(d, col);
    assert text[0..|text|] == text;
    PrintBack(text, 0, d, col);
  }

  // ----- a document tells its tree -----

  /** Literals are strings, words or groups whose first word is no node's head: what `.lit`
  holds, and the names and flags beside it. */
  ghost predicate Spelled(a: Ast, heads: iset<string>) {
    match a
    case Literal(d) =>
      d.Quoted? || (d.Word? && d.w !in heads) || (d.Group? && d.items != [] && d.items[0].Word?
        && d.items[0].w !in heads)
    case Node(head, fields) => head in heads && forall i | 0 <= i < |fields| :: Spelled(fields[i], heads)
    case Entry(x, y) => Spelled(x, heads) && Spelled(y, heads)
    case Many(items) => forall i | 0 <= i < |items| :: Spelled(items[i], heads)
  }

  /** A tree without layout marks in its literals. */
  function Bare(a: Ast): Ast
    decreases a, 1
  {
    match a
    case Literal(d) => Literal(Erase(d))
    case Node(head, fields) => Node(head, BareAll(fields))
    case Entry(x, y) => Entry(Bare(x), Bare(y))
    case Many(items) => Many(BareAll(items))
  }

  function BareAll(items: seq<Ast>): seq<Ast>
    decreases items, 0
  {
    if items == [] then [] else [Bare(items[0])] + BareAll(items[1..])
  }

  /** The tree a document is of: a pair is an entry, a list a list, and what starts with a head
  token is a node. */
  ghost function Decode(d: Doc, heads: iset<string>): Ast
    decreases d, 1
  {
    match d
    case Word(w) => if w in heads then Node(w, []) else Literal(d)
    case Quoted(_) => Literal(d)
    case Paired(a, b, _) => Entry(Decode(a, heads), Decode(b, heads))
    case Listed(items, _) => Many(DecodeAll(items, 0, heads))
    case Group(items, _) =>
      if items != [] && items[0].Word? && items[0].w in heads then Node(items[0].w, DecodeAll(items, 1, heads))
      else Literal(d)
  }

  ghost function DecodeAll(items: seq<Doc>, from: nat, heads: iset<string>): seq<Ast>
    requires from <= |items|
    decreases items, 0, |items| - from
  {
    if from == |items| then [] else [Decode(items[from], heads)] + DecodeAll(items, from + 1, heads)
  }

  /** The document of a tree decodes to the tree. */
  lemma {:induction false} DecodesBack(a: Ast, heads: iset<string>)
    requires Spelled(a, heads)
    ensures Decode(Erase(DocOf(a)), heads) == Bare(a)
    decreases a, 1
  {
    match a
    case Literal(d) => if d.Group? { EraseHead(d.items); }
    case Node(head, fields) =>
      if fields != [] {
        NodeErases(head, fields);
        AllDecodeBack([Word(head)], fields, heads);
      }
    case Entry(x, y) =>
      DecodesBack(x, heads);
      DecodesBack(y, heads);
    case Many(items) =>
      AllDecodeBack([], items, heads);
      assert [] + EraseAll(DocsOf(items)) == EraseAll(DocsOf(items));
  }

  lemma {:induction false} AllDecodeBack(before: seq<Doc>, items: seq<Ast>, heads: iset<string>)
    requires forall i | 0 <= i < |items| :: Spelled(items[i], heads)
    ensures DecodeAll(before + EraseAll(DocsOf(items)), |before|, heads) == BareAll(items)
    decreases items, 0
  {
    hide Erase, DocOf, Spelled, Decode;
    if items == [] {
      assert EraseAll(DocsOf(items)) == [];
    } else {
      var head := Erase(DocOf(items[0]));
      EraseHead(DocsOf(items));
      assert DocsOf(items)[1..] == DocsOf(items[1..]);
      DecodesBack(items[0], heads);
      AllDecodeBack(before + [head], items[1..], heads);
      assert before + EraseAll(DocsOf(items)) == before + [head] + EraseAll(DocsOf(items[1..]));
    }
  }

  lemma NodeErases(head: string, fields: seq<Ast>)
    requires fields != []
    ensures Erase(DocOf(Node(head, fields))) == Group([Word(head)] + EraseAll(DocsOf(fields)), false)
  {
    var items := [Word(head)] + DocsOf(fields);
    EraseHead(items);
    assert items[1..] == DocsOf(fields);
    assert DocOf(Node(head, fields)) == Group(items, false);
    assert Erase(Word(head)) == Word(head);
  }

  /** What is printed, flat or wrapped at any column, is read back and decoded as the tree it was
  printed from. */
  lemma TextGivesTree(a: Ast, col: Option<nat>, heads: iset<string>)
    requires Shaped(a) && Spelled(a, heads)
    ensures WellFormed(DocOf(a))
    ensures var r := Read(Print(DocOf(a), col), 0);
            r.Got? && r.end == |Print(DocOf(a), col)| && Decode(r.value, heads) == Bare(a)
  {
    hide Print, Read, Erase, DocOf, Shaped, Spelled, WellFormed, Decode;
    DocIsWellFormed(a);
    PrintingLosesNothing(DocOf(a), col);
    DecodesBack(a, heads);
  }

  /** Two trees printed in any two ways give texts that read alike only if they are the same
  term. */
  lemma TextTellsTree(a: Ast, b: Ast, col1: Option<nat>, col2: Option<nat>, heads: iset<string>)
    requires Shaped(a) && Shaped(b) && Spelled(a, heads) && Spelled(b, heads)
    ensures WellFormed(DocOf(a)) && WellFormed(DocOf(b))
    ensures var r1, r2 := Read(Print(DocOf(a), col1), 0), Read(Print(DocOf(b), col2), 0);
            && r1.Got? && r2.Got? && (r1.value == r2.value ==> Bare(a) == Bare(b))
  {
    hide Print, Read, Erase, DocOf, Shaped, Spelled, WellFormed, Decode;
    TextGivesTree(a, col1, heads);
    TextGivesTree(b, col2, heads);
  }
}
