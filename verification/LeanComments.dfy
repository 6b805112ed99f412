/** Blanking of comments and strings in Lean sources, keeping every line and column. */
module LeanComments {
  /** Where the scan is: in code, in a string, in block comments, in a line comment. */
  datatype Mode = Code | InString | Block(depth: nat) | Line

  predicate Starts(src: string, i: nat, a: char, b: char) {
    i + 1 < |src| && src[i] == a && src[i + 1] == b
  }

  function Blank(c: char): char { if c == '\n' then c else ' ' }

  function Blanks(s: string): (r: string)
    ensures |r| == |s| && forall k | 0 <= k < |s| :: r[k] == Blank(s[k])
  {
    seq(|s|, k requires 0 <= k < |s| => Blank(s[k]))
  }

  // ----- the recursive lexer -----

  /** How many characters the next token takes, whether it is code, and the mode after it. */
  function Token(src: string, mode: Mode): (t: (nat, bool, Mode))
    requires src != ""
    ensures 0 < t.0 <= |src| && t.0 <= 2 && (t.1 ==> t.0 == 1 && t.2 == Code)
  {
    match mode
    case Code =>
      if Starts(src, 0, '/', '-') then (2, false, Block(0))
      else if Starts(src, 0, '-', '-') then (1, false, Line)
      else if src[0] == '"' then (1, false, InString)
      else (1, true, Code)
    case InString =>
      if src[0] == '\\' then (if |src| > 1 then 2 else 1, false, InString)
      else if src[0] == '"' then (1, false, Code)
      else (1, false, InString)
    case Block(d) =>
      if Starts(src, 0, '/', '-') then (2, false, Block(d + 1))
      else if Starts(src, 0, '-', '/') then (2, false, if d == 0 then Code else Block(d - 1))
      else (1, false, mode)
    case Line =>
      if src[0] == '\n' then (1, true, Code) else (1, false, Line)
  }

  function Strip(src: string, mode: Mode): (out: string)
    ensures |out| == |src|
  {
    if src == "" then "" else
    var (n, code, next) := Token(src, mode);
    (if code then src[..n] else Blanks(src[..n])) + Strip(src[n..], next)
  }

  /** Which characters the lexer takes for code. */
  function IsCode(src: string, mode: Mode): (flags: seq<bool>)
    ensures |flags| == |src|
  {
    if src == "" then [] else
    var (n, code, next) := Token(src, mode);
    seq(n, _ => code) + IsCode(src[n..], next)
  }

  // ----- the loop -----

  ghost function Here(depth: nat, inString: bool): Mode {
    if inString then InString else if depth > 0 then Block(depth - 1) else Code
  }

  lemma EmptyStrip(mode: Mode)
    ensures Strip("", mode) == ""
  {}

  lemma StripToken(src: string, mode: Mode)
    requires src != ""
    ensures var (n, code, next) := Token(src, mode);
            Strip(src, mode) == (if code then src[..n] else Blanks(src[..n])) + Strip(src[n..], next)
  {}

  lemma TokenHere(src: string, i: nat, depth: nat, inString: bool)
    requires i < |src| && (inString ==> depth == 0)
    ensures var c := src[i];
      Token(src[i..], Here(depth, inString)) ==
        if inString then
          if c == '\\' then (if i + 1 < |src| then 2 else 1, false, InString)
          else (1, false, if c == '"' then Code else InString)
        else if Starts(src, i, '/', '-') then (2, false, Here(depth + 1, false))
        else if depth > 0 then
          if Starts(src, i, '-', '/') then (2, false, Here(depth - 1, false)) else (1, false, Here(depth, false))
        else if Starts(src, i, '-', '-') then (1, false, Line)
        else if c == '"' then (1, false, InString)
        else (1, true, Code)
  {
    var rest := src[i..];
    assert rest[0] == src[i] && (i + 1 < |src| ==> rest[1] == src[i + 1]);
  }

  /** A line comment is blank up to its newline, which is code. */
  lemma {:induction false} StripLine(src: string, k: nat)
    requires k <= |src| && (forall j | 0 <= j < k :: src[j] != '\n') && (k < |src| ==> src[k] == '\n')
    ensures Strip(src, Line) == Blanks(src[..k]) + Strip(src[k..], Code)
    decreases k
  {
    hide Blanks;
    hide Strip;
    if k == 0 {
      assert src[0..] == src && Blanks(src[..0]) == "";
      if src == "" { EmptyStrip(Line); EmptyStrip(Code); } else { StripToken(src, Line); StripToken(src, Code); }
    } else {
      StripToken(src, Line);
      StripLine(src[1..], k - 1);
      assert src[1..][..k - 1] == src[1..k] && src[1..][k - 1..] == src[k..];
      assert src[..k] == src[..1] + src[1..k];
      BlanksJoin(src[..1], src[1..k]);
    }
  }

  lemma BlanksJoin(a: string, b: string)
    ensures Blanks(a + b) == Blanks(a) + Blanks(b)
  {}

  lemma StripComment(src: string, k: nat)
    requires 0 < k <= |src| && Starts(src, 0, '-', '-')
    requires (forall j | 0 <= j < k :: src[j] != '\n') && (k < |src| ==> src[k] == '\n')
    ensures Strip(src, Code) == Blanks(src[..k]) + Strip(src[k..], Code)
  {
    hide Strip, Blanks, Token;
    DashOpens(src);
    StripToken(src, Code);
    var rest := src[1..];
    assert forall j | 0 <= j < |rest| :: rest[j] == src[j + 1];
    StripLine(rest, k - 1);
    assert rest[..k - 1] == src[1..k] && rest[k - 1..] == src[k..];
    assert src[..k] == src[..1] + src[1..k];
    BlanksJoin(src[..1], src[1..k]);
    Associate(Blanks(src[..1]), Blanks(src[1..k]), Strip(src[k..], Code));
  }

  lemma DashOpens(src: string)
    requires Starts(src, 0, '-', '-')
    ensures Token(src, Code) == (1, false, Line)
  {}

  lemma Associate(a: string, b: string, c: string)
    ensures a + (b + c) == (a + b) + c
  {}

  method LineEnd(src: string, i: nat) returns (j: nat)
    requires i <= |src|
    ensures i <= j <= |src| && (forall k | i <= k < j :: src[k] != '\n') && (j < |src| ==> src[j] == '\n')
  {
    j := i;
    while j < |src| && src[j] != '\n'
      invariant i <= j <= |src| && forall k | i <= k < j :: src[k] != '\n'
    {
      j := j + 1;
    }
  }

  method BlankOut(out: array<char>, from: nat, to: nat)
    requires from <= to <= out.Length
    modifies out
    ensures out[..] == old(out[..from]) + Blanks(old(out[from..to])) + old(out[to..])
  {
    for k := from to to
      invariant forall j | 0 <= j < out.Length ::
        out[j] == if from <= j < k then Blank(old(out[j])) else old(out[j])
    {
      if out[k] != '\n' { out[k] := ' '; }
    }
  }

  /** The next token: how many characters it takes, how many are blanked, what follows. */
  method OneToken(src: string, i: nat, depth: nat, inString: bool) returns (size: nat, blank: nat, depth': nat,
                  inString': bool)
    requires i < |src| && (inString ==> depth == 0)
    ensures 0 < size && i + size <= |src| && (blank == size || (blank == 0 && size == 1)) && (inString' ==> depth' == 0)
    ensures Strip(src[i..], Here(depth, inString)) ==
      (if blank == 0 then src[i..i + size] else Blanks(src[i..i + size])) + Strip(src[i + size..], Here(depth', inString'))
  {
    hide Strip, Token, Here, Blanks;
    var c := src[i];
    TokenHere(src, i, depth, inString);
    StripToken(src[i..], Here(depth, inString));
    CodeHere();
    size, blank, depth', inString' := 1, 1, depth, inString;
    if depth == 0 && inString {
      if c == '\\' {
        if i + 1 < |src| { size := 2; }
      } else if c == '"' {
        inString' := false;
      }
    } else if Starts(src, i, '/', '-') {
      depth', size := depth + 1, 2;
    } else if depth > 0 && Starts(src, i, '-', '/') {
      depth', size := depth - 1, 2;
    } else if depth > 0 {
    } else if Starts(src, i, '-', '-') {
      var j := LineEnd(src, i);
      size := j - i;
      StripCommentAt(src, i, j);
    } else if c == '"' {
      inString' := true;
    } else {
      blank := 0;
    }
    if blank != 0 { blank := size; }
    assert src[i..][..size] == src[i..i + size] && src[i..][size..] == src[i + size..];
  }

  lemma StripCommentAt(src: string, i: nat, j: nat)
    requires i < j <= |src| && Starts(src, i, '-', '-')
    requires (forall k | i <= k < j :: src[k] != '\n') && (j < |src| ==> src[j] == '\n')
    ensures Strip(src[i..], Code) == Blanks(src[i..][..j - i]) + Strip(src[i..][j - i..], Code)
  {
    hide Strip, Blanks;
    var rest := src[i..];
    assert forall k | 0 <= k < |rest| :: rest[k] == src[i + k];
    StripComment(rest, j - i);
  }

  /** In place, over index, nesting depth and an in-string flag. */
  method StripLeanComments(src: string) returns (res: string)
    ensures res == Strip(src, Code)
  {
    hide Strip, Here, Blanks;
    var n := |src|;
    var out := new char[n](k requires 0 <= k < n => src[k]);
    var i, depth, inString := 0, 0, false;
    CodeHere();
    assert out[..] == src && out[..0] == "" && src[0..] == src;
    while i < n
      invariant i <= n && out.Length == n && (inString ==> depth == 0)
      invariant Strip(src, Code) == out[..i] + Strip(src[i..], Here(depth, inString))
      invariant out[i..] == src[i..]
    {
      ghost var was := out[..];
      var size, blank, depth', inString' := OneToken(src, i, depth, inString);
      BlankOut(out, i, i + blank);
      OneStep(src, i, blank, size, was, out[..], Strip(src[i + size..], Here(depth', inString')));
      i, depth, inString := i + size, depth', inString';
    }
    assert src[i..] == "" && out[..i] == out[..];
    EmptyStrip(Here(depth, inString));
    res := out[..];
  }

  lemma CodeHere()
    ensures Here(0, false) == Code && Here(0, true) == InString
  {}

  lemma OneStep(src: string, i: nat, blank: nat, size: nat, was: string, out: string, tail: string)
    requires i + size <= |src| == |was| && was[i..] == src[i..] && 0 < size
             && (blank == size || (blank == 0 && size == 1))
    requires out == was[..i] + Blanks(was[i..i + blank]) + was[i + blank..]
    ensures out[i + size..] == src[i + size..]
    ensures was[..i] + ((if blank == 0 then src[i..i + size] else Blanks(src[i..i + size])) + tail) ==
            out[..i + size] + tail
  {
    hide Blanks;
    assert was[i..i + blank] == was[i..][..blank] && src[i..i + blank] == src[i..][..blank];
    assert was[i + blank..] == was[i..][blank..] && src[i + blank..] == src[i..][blank..];
    if blank == 0 { assert src[i..i + blank] == ""; assert Blanks("") == ""; }
  }

  // ----- what stripping keeps -----

  /** Character by character: code and newlines stay where they are, all else is a space. */
  lemma {:induction false} OnlyCodeStays(src: string, mode: Mode, k: nat)
    requires k < |src|
    ensures Strip(src, mode)[k] == if IsCode(src, mode)[k] || src[k] == '\n' then src[k] else ' '
    decreases |src|
  {
    hide Token, Blanks;
    var (n, code, next) := Token(src, mode);
    if k >= n {
      OnlyCodeStays(src[n..], next, k - n);
      assert src[n..][k - n] == src[k];
    }
  }

  /** Nothing left could open a string or a comment. */
  predicate NoMarkers(s: string) {
    forall k | 0 <= k < |s| :: s[k] != '"' && !Starts(s, k, '/', '-') && !Starts(s, k, '-', '-')
  }

  lemma {:induction false} StripLeavesNoMarkers(src: string, mode: Mode)
    ensures NoMarkers(Strip(src, mode))
    ensures src != "" && Strip(src, mode)[0] == '-' ==> src[0] == '-'
    decreases |src|
  {
    if src != "" {
      var (n, code, next) := Token(src, mode);
      var tail := Strip(src[n..], next);
      StripLeavesNoMarkers(src[n..], next);
      HeadAndTail(src, n, code, tail);
    }
  }

  lemma HeadAndTail(src: string, n: nat, code: bool, tail: string)
    requires 0 < n <= |src| && |tail| == |src| - n && NoMarkers(tail)
    requires code ==> n == 1 && (src[0] == '\n' || (src[0] != '"' && !Starts(src, 0, '/', '-') && !Starts(src, 0, '-', '-')))
    requires tail != "" && tail[0] == '-' ==> src[n] == '-'
    ensures NoMarkers((if code then src[..n] else Blanks(src[..n])) + tail)
  {
    hide Blanks;
    var head := if code then src[..n] else Blanks(src[..n]);
    var out := head + tail;
    forall k | 0 <= k < |out| ensures out[k] != '"' && !Starts(out, k, '/', '-') && !Starts(out, k, '-', '-') {
      if k >= n {
        assert out[k] == tail[k - n] && (k + 1 < |out| ==> out[k + 1] == tail[k - n + 1]);
        assert !Starts(tail, k - n, '/', '-') && !Starts(tail, k - n, '-', '-');
      } else {
        assert !code ==> head[k] == Blank(src[k]);
      }
    }
  }

  lemma {:induction false} NoMarkersStays(s: string)
    requires NoMarkers(s)
    ensures Strip(s, Code) == s
    decreases |s|
  {
    if s != "" {
      assert !Starts(s, 0, '/', '-') && !Starts(s, 0, '-', '-') && s[0] != '"';
      forall k | 0 <= k < |s[1..]| ensures s[1..][k] != '"' && !Starts(s[1..], k, '/', '-') && !Starts(s[1..], k, '-', '-') {
        assert !Starts(s, k + 1, '/', '-') && !Starts(s, k + 1, '-', '-');
      }
      NoMarkersStays(s[1..]);
    }
  }

  /** Stripping twice is stripping once. */
  lemma StripIsIdempotent(src: string)
    ensures Strip(Strip(src, Code), Code) == Strip(src, Code)
  {
    StripLeavesNoMarkers(src, Code);
    NoMarkersStays(Strip(src, Code));
  }

  // ----- nested comments as a grammar -----

  /** A block comment is text and block comments. Text holds no bracket and does not end in
  half of one. */
  datatype Part = Text(s: string) | Comment(parts: seq<Part>)

  predicate PlainText(s: string) {
    && (forall k | 0 <= k < |s| :: !Starts(s, k, '/', '-') && !Starts(s, k, '-', '/'))
    && (s != "" ==> s[|s| - 1] != '/' && s[|s| - 1] != '-')
  }

  predicate Nested(p: Part) {
    match p
    case Text(s) => PlainText(s)
    case Comment(parts) => forall i | 0 <= i < |parts| :: Nested(parts[i])
  }

  function Shown(p: Part): string
    decreases p, 1
  {
    match p
    case Text(s) => s
    case Comment(parts) => "/-" + ShownAll(parts) + "-/"
  }

  function ShownAll(parts: seq<Part>): string
    decreases parts, 0
  {
    if parts == [] then "" else Shown(parts[0]) + ShownAll(parts[1..])
  }

  lemma {:induction false} TextInBlock(s: string, rest: string, d: nat)
    requires PlainText(s)
    ensures Strip(s + rest, Block(d)) == Blanks(s) + Strip(rest, Block(d))
    decreases |s|
  {
    hide Strip, Blanks;
    var src := s + rest;
    if s == "" {
      assert src == rest && Blanks(s) == "";
    } else {
      assert !Starts(s, 0, '/', '-') && !Starts(s, 0, '-', '/');
      assert |s| > 1 ==> src[1] == s[1];
      StripToken(src, Block(d));
      assert src[1..] == s[1..] + rest && src[..1] == s[..1];
      forall k | 0 <= k < |s[1..]| ensures !Starts(s[1..], k, '/', '-') && !Starts(s[1..], k, '-', '/') {
        assert !Starts(s, k + 1, '/', '-') && !Starts(s, k + 1, '-', '/');
      }
      TextInBlock(s[1..], rest, d);
      assert s == s[..1] + s[1..];
      BlanksJoin(s[..1], s[1..]);
    }
  }

  /** A nested comment is blanked whole, up to the bracket that closes it, and scanning goes
  on after it as before it. */
  lemma {:induction false} CommentBlanked(p: Part, rest: string, mode: Mode)
    requires p.Comment? && Nested(p) && (mode == Code || mode.Block?)
    ensures Strip(Shown(p) + rest, mode) == Blanks(Shown(p)) + Strip(rest, mode)
    decreases p, 1
  {
    hide Strip, Blanks, Nested, ShownAll;
    var inner := ShownAll(p.parts);
    var src := Shown(p) + rest;
    var d := if mode.Block? then mode.depth + 1 else 0;
    assert src == "/-" + (inner + ("-/" + rest)) && Shown(p) == "/-" + (inner + "-/");
    assert src[..2] == "/-" && src[2..] == inner + ("-/" + rest);
    StripToken(src, mode);
    NestedParts(p);
    PartsBlanked(p.parts, "-/" + rest, d);
    var end := "-/" + rest;
    assert end[..2] == "-/" && end[2..] == rest;
    StripToken(end, Block(d));
    BlanksJoin("/-", inner + "-/");
    BlanksJoin(inner, "-/");
  }

  lemma NestedParts(p: Part)
    requires p.Comment? && Nested(p)
    ensures forall i | 0 <= i < |p.parts| :: Nested(p.parts[i])
  {}

  lemma {:induction false} PartsBlanked(parts: seq<Part>, rest: string, d: nat)
    requires forall i | 0 <= i < |parts| :: Nested(parts[i])
    ensures Strip(ShownAll(parts) + rest, Block(d)) == Blanks(ShownAll(parts)) + Strip(rest, Block(d))
    decreases parts, 0
  {
    hide Strip, Blanks, Nested, Shown;
    if parts == [] {
      assert "" + rest == rest && Blanks("") == "";
    } else {
      var head, tail := Shown(parts[0]), ShownAll(parts[1..]);
      assert ShownAll(parts) + rest == head + (tail + rest);
      BlanksJoin(head, tail);
      PartsBlanked(parts[1..], rest, d);
      if parts[0].Comment? { CommentBlanked(parts[0], tail + rest, Block(d)); } else { TextPart(parts[0], tail + rest, d); }
    }
  }

  lemma TextPart(p: Part, rest: string, d: nat)
    requires p.Text? && Nested(p)
    ensures Strip(Shown(p) + rest, Block(d)) == Blanks(Shown(p)) + Strip(rest, Block(d))
  {
    TextInBlock(p.s, rest, d);
  }

  // ----- string literals as a grammar -----

  /** The inside of a literal: characters, and backslashes that take the next one along. */
  datatype Piece = Raw(c: char) | Escape(c: char)

  function Spelled(pieces: seq<Piece>): string {
    if pieces == [] then ""
    else (if pieces[0].Raw? then [pieces[0].c] else ['\\', pieces[0].c]) + Spelled(pieces[1..])
  }

  lemma {:induction false} PiecesBlanked(pieces: seq<Piece>, rest: string)
    requires forall i | 0 <= i < |pieces| && pieces[i].Raw? :: pieces[i].c != '"' && pieces[i].c != '\\'
    ensures Strip(Spelled(pieces) + "\"" + rest, InString) == Blanks(Spelled(pieces) + "\"") + Strip(rest, Code)
    decreases |pieces|
  {
    hide Strip, Blanks;
    var src := Spelled(pieces) + "\"" + rest;
    StripToken(src, InString);
    if pieces == [] {
      assert src[..1] == "\"" && src[1..] == rest && Spelled(pieces) + "\"" == "\"";
    } else {
      var head := if pieces[0].Raw? then [pieces[0].c] else ['\\', pieces[0].c];
      var tail := Spelled(pieces[1..]) + "\"";
      assert src == head + (tail + rest);
      assert src[..|head|] == head && src[|head|..] == tail + rest;
      PiecesBlanked(pieces[1..], rest);
      BlanksJoin(head, tail);
      assert Spelled(pieces) + "\"" == head + tail;
    }
  }

  /** A string literal is blanked whole, escapes and all, and code goes on after its closing
  quote. */
  lemma StringBlanked(pieces: seq<Piece>, rest: string)
    requires forall i | 0 <= i < |pieces| && pieces[i].Raw? :: pieces[i].c != '"' && pieces[i].c != '\\'
    ensures var literal := "\"" + (Spelled(pieces) + "\"");
            Strip(literal + rest, Code) == Blanks(literal) + Strip(rest, Code)
  {
    hide Strip, Blanks;
    var inner := Spelled(pieces) + "\"";
    var src := "\"" + inner + rest;
    assert src == "\"" + (inner + rest);
    assert src[..1] == "\"" && src[1..] == inner + rest;
    StripToken(src, Code);
    PiecesBlanked(pieces, rest);
    BlanksJoin("\"", inner);
  }
}
