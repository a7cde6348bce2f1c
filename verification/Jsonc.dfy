/** The in-place JSONC stripper (packages/initcheck/jsonc.go:14-104). */
module Jsonc {
  import opened Wrappers

  newtype byte = x: int | 0 <= x < 256

  const SPACE: byte := 32
  const TAB: byte := 9
  const LF: byte := 10
  const CR: byte := 13
  const QUOTE: byte := 34
  const STAR: byte := 42
  const COMMA: byte := 44
  const SLASH: byte := 47
  const CLOSE_BRACKET: byte := 93
  const BACKSLASH: byte := 92
  const CLOSE_BRACE: byte := 125

  predicate IsLineBreak(c: byte) {
    c == LF || c == CR
  }

  // ----- The comment pass, byte by byte

  // Where the next byte is; the Open and Close modes are the second byte of a two-byte mark.
  datatype Mode = Code | InString | Escaped | LineOpen | Line | BlockOpen | Block | BlockClose

  predicate Starts(s: seq<byte>, a: byte, b: byte) {
    |s| >= 2 && s[0] == a && s[1] == b
  }

  function Next(mode: Mode, s: seq<byte>): Mode
    requires s != []
  {
    match mode
    case Code =>
      if s[0] == QUOTE then InString
      else if Starts(s, SLASH, SLASH) then LineOpen
      else if Starts(s, SLASH, STAR) then BlockOpen
      else Code
    case InString => if s[0] == BACKSLASH then Escaped else if s[0] == QUOTE then Code else InString
    case Escaped => InString
    case LineOpen => Line
    case Line => if IsLineBreak(s[0]) then Code else Line
    case BlockOpen => Block
    case Block => if Starts(s, STAR, SLASH) then BlockClose else Block
    case BlockClose => Code
  }

  // The byte after the pass: comment bytes become spaces, line breaks inside them stay.
  function RenderByte(mode: Mode, s: seq<byte>): byte
    requires s != []
  {
    match mode
    case Code => if Starts(s, SLASH, SLASH) || Starts(s, SLASH, STAR) then SPACE else s[0]
    case InString => s[0]
    case Escaped => s[0]
    case LineOpen => SPACE
    case BlockOpen => SPACE
    case BlockClose => SPACE
    case Line => if IsLineBreak(s[0]) then s[0] else SPACE
    case Block => if IsLineBreak(s[0]) then s[0] else SPACE
  }

  function Render(mode: Mode, s: seq<byte>): (r: seq<byte>)
    ensures |r| == |s|
    decreases |s|
  {
    if s == [] then [] else [RenderByte(mode, s)] + Render(Next(mode, s), s[1..])
  }

  function EndMode(mode: Mode, s: seq<byte>): Mode
    decreases |s|
  {
    if s == [] then mode else EndMode(Next(mode, s), s[1..])
  }

  // The mode just before byte `i`.
  function ModeAt(mode: Mode, s: seq<byte>, i: nat): Mode
    requires i <= |s|
    decreases i
  {
    if i == 0 then mode else ModeAt(Next(mode, s), s[1..], i - 1)
  }

  // ----- The same pass, token by token

  // The length of a string literal that starts here with its opening quote; an unterminated one
  // takes the rest.
  function StringSpan(s: seq<byte>, escaped: bool): nat {
    if s == [] then 0
    else if escaped then 1 + StringSpan(s[1..], false)
    else if s[0] == BACKSLASH then 1 + StringSpan(s[1..], true)
    else if s[0] == QUOTE then 1
    else 1 + StringSpan(s[1..], false)
  }

  // The number of bytes up to the next line break or the end.
  function LineSpan(s: seq<byte>): nat {
    if s == [] || IsLineBreak(s[0]) then 0 else 1 + LineSpan(s[1..])
  }

  // The number of bytes up to and including the closing mark of a block comment, if there is one.
  function BlockSpan(s: seq<byte>): Option<nat> {
    if Starts(s, STAR, SLASH) then Some(2)
    else if s == [] then None
    else
      match BlockSpan(s[1..])
      case None => None
      case Some(n) => Some(n + 1)
  }

  function Blank(s: seq<byte>): (r: seq<byte>)
    ensures |r| == |s| && forall i | 0 <= i < |s| :: r[i] == if IsLineBreak(s[i]) then s[i] else SPACE
  {
    seq(|s|, i requires 0 <= i < |s| => if IsLineBreak(s[i]) then s[i] else SPACE)
  }

  lemma {:induction false} SpanBounds(s: seq<byte>, escaped: bool)
    ensures StringSpan(s, escaped) <= |s| && LineSpan(s) <= |s|
    ensures BlockSpan(s).Some? ==> 2 <= BlockSpan(s).value <= |s|
  {
    if s != [] {
      SpanBounds(s[1..], false);
      SpanBounds(s[1..], true);
    }
  }

  // A JSONC text is string literals, line comments, block comments and other bytes; None when a
  // block comment is not closed.
  function Lex(s: seq<byte>): Option<seq<byte>>
    decreases |s|
  {
    SpanBounds(s, false);
    if s == [] then Some([])
    else
      SpanBounds(s[1..], false);
      if s[0] == QUOTE then Then(s[..1 + StringSpan(s[1..], false)], Lex(s[1 + StringSpan(s[1..], false)..]))
      else if Starts(s, SLASH, SLASH) then
        SpanBounds(s[2..], false);
        Then(Blank(s[..2 + LineSpan(s[2..])]), Lex(s[2 + LineSpan(s[2..])..]))
      else if Starts(s, SLASH, STAR) then
        SpanBounds(s[2..], false);
        (match BlockSpan(s[2..])
         case None => None
         case Some(n) => Then(Blank(s[..2 + n]), Lex(s[2 + n..])))
      else Then(s[..1], Lex(s[1..]))
  }

  function Then(head: seq<byte>, rest: Option<seq<byte>>): Option<seq<byte>> {
    match rest
    case None => None
    case Some(r) => Some(head + r)
  }

  // ----- The two passes agree

  // The two describe one text: the same bytes, and unclosed in the same cases.
  ghost predicate Same(mode: Mode, s: seq<byte>, head: seq<byte>, rest: seq<byte>) {
    Render(mode, s) == head + Render(Code, rest) && (EndMode(mode, s) == Block <==> EndMode(Code, rest) == Block)
  }

  lemma {:induction false} SameStep(mode: Mode, s: seq<byte>, head: seq<byte>, rest: seq<byte>)
    requires s != [] && Same(Next(mode, s), s[1..], head, rest)
    ensures Same(mode, s, [RenderByte(mode, s)] + head, rest)
  {
    assert [RenderByte(mode, s)] + (head + Render(Code, rest)) == [RenderByte(mode, s)] + head + Render(Code, rest);
  }

  lemma {:induction false} SameNow(s: seq<byte>)
    ensures Same(Code, s, [], s)
  {
    assert [] + Render(Code, s) == Render(Code, s);
  }

  lemma {:induction false} RenderString(s: seq<byte>, escaped: bool)
    ensures StringSpan(s, escaped) <= |s|
    ensures Same(if escaped then Escaped else InString, s, s[..StringSpan(s, escaped)], s[StringSpan(s, escaped)..])
  {
    var mode := if escaped then Escaped else InString;
    if s != [] {
      var n := StringSpan(s, escaped);
      if !escaped && s[0] == QUOTE {
        SameNow(s[1..]);
        SameStep(mode, s, [], s[1..]);
        assert s[..1] == [s[0]] + [];
      } else {
        var next := !escaped && s[0] == BACKSLASH;
        RenderString(s[1..], next);
        var m := StringSpan(s[1..], next);
        SameStep(mode, s, s[1..][..m], s[1..][m..]);
        assert s[..n] == [s[0]] + s[1..][..m] && s[n..] == s[1..][m..];
      }
    }
  }

  lemma {:induction false} RenderLine(s: seq<byte>)
    ensures LineSpan(s) <= |s|
    ensures Same(Line, s, Blank(s[..LineSpan(s)]), s[LineSpan(s)..])
  {
    if s != [] {
      var n := LineSpan(s);
      if IsLineBreak(s[0]) {
        assert Render(Line, s) == Render(Code, s) && s[0..] == s;
        assert Blank(s[..0]) + Render(Code, s) == Render(Code, s);
      } else {
        RenderLine(s[1..]);
        var m := LineSpan(s[1..]);
        SameStep(Line, s, Blank(s[1..][..m]), s[1..][m..]);
        assert Blank(s[..n]) == [SPACE] + Blank(s[1..][..m]) && s[n..] == s[1..][m..];
      }
    }
  }

  lemma {:induction false} RenderBlock(s: seq<byte>)
    ensures BlockSpan(s).None? ==> EndMode(Block, s) == Block
    ensures BlockSpan(s).Some? ==> BlockSpan(s).value <= |s|
                                   && Same(Block, s, Blank(s[..BlockSpan(s).value]), s[BlockSpan(s).value..])
  {
    if Starts(s, STAR, SLASH) {
      var t := s[1..];
      SameNow(t[1..]);
      SameStep(BlockClose, t, [], t[1..]);
      SameStep(Block, s, [SPACE] + [], t[1..]);
      assert Blank(s[..2]) == [SPACE] + ([SPACE] + []) && s[2..] == t[1..];
    } else if s != [] {
      RenderBlock(s[1..]);
      if BlockSpan(s[1..]).Some? {
        var m := BlockSpan(s[1..]).value;
        SameStep(Block, s, Blank(s[1..][..m]), s[1..][m..]);
        assert Blank(s[..m + 1]) == [RenderByte(Block, s)] + Blank(s[1..][..m]) && s[m + 1..] == s[1..][m..];
      }
    }
  }

  ghost predicate Agrees(s: seq<byte>) {
    Lex(s) == if EndMode(Code, s) == Block then None else Some(Render(Code, s))
  }

  lemma {:induction false} AgreesFrom(s: seq<byte>, n: nat, head: seq<byte>)
    requires 0 < n <= |s| && Agrees(s[n..]) && Same(Code, s, head, s[n..]) && Lex(s) == Then(head, Lex(s[n..]))
    ensures Agrees(s)
  {}

  // After the two bytes of an opening mark.
  lemma {:induction false} SameAfterMark(s: seq<byte>, first: Mode, inside: Mode, head: seq<byte>, rest: seq<byte>)
    requires |s| >= 2 && Next(Code, s) == first && Next(first, s[1..]) == inside
    requires RenderByte(Code, s) == SPACE && RenderByte(first, s[1..]) == SPACE
    requires Same(inside, s[2..], head, rest)
    ensures Same(Code, s, [SPACE, SPACE] + head, rest)
  {
    assert s[1..][1..] == s[2..];
    SameStep(first, s[1..], head, rest);
    SameStep(Code, s, [SPACE] + head, rest);
    assert [SPACE] + ([SPACE] + head) == [SPACE, SPACE] + head;
  }

  lemma {:induction false} BlankMark(s: seq<byte>, n: nat)
    requires 2 + n <= |s| && !IsLineBreak(s[0]) && !IsLineBreak(s[1])
    ensures Blank(s[..2 + n]) == [SPACE, SPACE] + Blank(s[2..][..n]) && s[2 + n..] == s[2..][n..]
  {}

  lemma LexesString(s: seq<byte>, m: nat)
    requires s != [] && s[0] == QUOTE && m == StringSpan(s[1..], false) && 1 + m <= |s| && Agrees(s[1 + m..])
    ensures Agrees(s)
  {
    RenderString(s[1..], false);
    SameStep(Code, s, s[1..][..m], s[1..][m..]);
    assert s[..1 + m] == [s[0]] + s[1..][..m] && s[1 + m..] == s[1..][m..];
    AgreesFrom(s, 1 + m, s[..1 + m]);
  }

  lemma LexesLine(s: seq<byte>, m: nat)
    requires Starts(s, SLASH, SLASH) && m == LineSpan(s[2..]) && 2 + m <= |s| && Agrees(s[2 + m..])
    ensures Agrees(s)
  {
    RenderLine(s[2..]);
    BlankMark(s, m);
    SameAfterMark(s, LineOpen, Line, Blank(s[2..][..m]), s[2..][m..]);
    AgreesFrom(s, 2 + m, Blank(s[..2 + m]));
  }

  lemma LexesBlock(s: seq<byte>, m: nat)
    requires Starts(s, SLASH, STAR) && BlockSpan(s[2..]) == Some(m) && 2 + m <= |s| && Agrees(s[2 + m..])
    ensures Agrees(s)
  {
    RenderBlock(s[2..]);
    BlankMark(s, m);
    SameAfterMark(s, BlockOpen, Block, Blank(s[2..][..m]), s[2..][m..]);
    AgreesFrom(s, 2 + m, Blank(s[..2 + m]));
  }

  lemma LexesOpenBlock(s: seq<byte>)
    requires Starts(s, SLASH, STAR) && BlockSpan(s[2..]).None?
    ensures Agrees(s)
  {
    RenderBlock(s[2..]);
    assert s[1..][1..] == s[2..];
    assert EndMode(Code, s) == EndMode(BlockOpen, s[1..]) == EndMode(Block, s[2..]);
  }

  lemma LexesByte(s: seq<byte>)
    requires s != [] && s[0] != QUOTE && !Starts(s, SLASH, SLASH) && !Starts(s, SLASH, STAR) && Agrees(s[1..])
    ensures Agrees(s)
  {
    SameNow(s[1..]);
    SameStep(Code, s, [], s[1..]);
    assert s[..1] == [s[0]] + [];
    AgreesFrom(s, 1, s[..1]);
  }

  // The byte-by-byte pass is the token-by-token one.
  lemma {:induction false} PassIsLexer(s: seq<byte>)
    ensures Agrees(s)
    decreases |s|
  {
    if s == [] {
    } else if s[0] == QUOTE {
      SpanBounds(s[1..], false);
      var m := StringSpan(s[1..], false);
      PassIsLexer(s[1 + m..]);
      LexesString(s, m);
    } else if Starts(s, SLASH, SLASH) {
      SpanBounds(s[2..], false);
      var m := LineSpan(s[2..]);
      PassIsLexer(s[2 + m..]);
      LexesLine(s, m);
    } else if Starts(s, SLASH, STAR) {
      SpanBounds(s[2..], false);
      if BlockSpan(s[2..]).Some? {
        var m := BlockSpan(s[2..]).value;
        PassIsLexer(s[2 + m..]);
        LexesBlock(s, m);
      } else {
        LexesOpenBlock(s);
      }
    } else {
      PassIsLexer(s[1..]);
      LexesByte(s);
    }
  }

  // ----- What the comment pass guarantees

  // Position by position: kept or blanked, line breaks and string bytes kept.
  lemma {:induction false} RenderFacts(mode: Mode, s: seq<byte>, i: nat)
    requires i < |s| && Reached(mode, s)
    ensures var r := Render(mode, s); var m := ModeAt(mode, s, i);
            && r[i] == RenderByte(m, s[i..])
            && (r[i] == s[i] || r[i] == SPACE)
            && (s[i] == 10 || s[i] == 13 ==> r[i] == s[i])
            && (m == InString || m == Escaped || (s[i] == QUOTE && m == Code) ==> r[i] == s[i])
    decreases i
  {
    if i > 0 {
      RenderFacts(Next(mode, s), s[1..], i - 1);
      assert s[1..][i - 1..] == s[i..];
    } else {
      assert s[0..] == s;
    }
  }

  // What the scan's mode becomes once comments are spaces.
  function Squash(mode: Mode): Mode {
    match mode
    case InString => InString
    case Escaped => Escaped
    case _ => Code
  }

  // A scan position as the pass reaches it: the second byte of a mark is that mark's byte.
  predicate Reached(mode: Mode, s: seq<byte>) {
    match mode
    case LineOpen => s != [] && s[0] == SLASH
    case BlockOpen => s != [] && s[0] == STAR
    case BlockClose => s != [] && s[0] == SLASH
    case _ => true
  }

  // A second pass sees no comment and changes nothing.
  lemma {:induction false} SecondPass(mode: Mode, s: seq<byte>)
    requires Reached(mode, s)
    ensures Render(Squash(mode), Render(mode, s)) == Render(mode, s)
    ensures EndMode(Squash(mode), Render(mode, s)) == Squash(EndMode(mode, s))
    decreases |s|
  {
    if s != [] {
      var r := Render(mode, s);
      SecondPass(Next(mode, s), s[1..]);
      assert r[1..] == Render(Next(mode, s), s[1..]);
      NoMarkLeft(mode, s);
      assert Next(Squash(mode), r) == Squash(Next(mode, s));
    }
  }

  // The rendered bytes hold no comment mark where code is.
  lemma {:induction false} NoMarkLeft(mode: Mode, s: seq<byte>)
    requires s != [] && Reached(mode, s)
    ensures Reached(Next(mode, s), s[1..])
    ensures var r := Render(mode, s);
            Squash(mode) == Code ==> !Starts(r, SLASH, SLASH) && !Starts(r, SLASH, STAR)
  {
    if |s| >= 2 {
      var r := Render(mode, s);
      assert r[1..] == Render(Next(mode, s), s[1..]);
      assert r[0] == RenderByte(mode, s) && r[1] == r[1..][0] == RenderByte(Next(mode, s), s[1..]);
    }
  }

  // The comment pass is idempotent, leaves no comment outside strings, and never fails again.
  lemma {:induction false} CommentPassIdempotent(s: seq<byte>)
    requires Lex(s).Some?
    ensures Lex(Lex(s).value) == Lex(s) && |Lex(s).value| == |s|
    ensures forall i | 0 <= i <= |s| :: ModeAt(Code, Lex(s).value, i) in {Code, InString, Escaped}
  {
    PassIsLexer(s);
    SecondPass(Code, s);
    PassIsLexer(Render(Code, s));
    forall i | 0 <= i <= |s|
      ensures ModeAt(Code, Render(Code, s), i) in {Code, InString, Escaped}
    {
      ModesSquashed(Code, s, i);
    }
  }

  lemma {:induction false} ModesSquashed(mode: Mode, s: seq<byte>, i: nat)
    requires i <= |s| && Reached(mode, s)
    ensures ModeAt(Squash(mode), Render(mode, s), i) == Squash(ModeAt(mode, s, i))
    decreases i
  {
    if i > 0 {
      NoMarkLeft(mode, s);
      assert Render(mode, s)[1..] == Render(Next(mode, s), s[1..]);
      assert Next(Squash(mode), Render(mode, s)) == Squash(Next(mode, s));
      ModesSquashed(Next(mode, s), s[1..], i - 1);
    }
  }

  // The error is reported exactly when the text ends inside a block comment.
  lemma {:induction false} ErrorIffUnclosed(s: seq<byte>)
    ensures Lex(s) == None <==> ModeAt(Code, s, |s|) == Block
  {
    PassIsLexer(s);
    EndIsLastMode(Code, s);
  }

  lemma {:induction false} EndIsLastMode(mode: Mode, s: seq<byte>)
    ensures EndMode(mode, s) == ModeAt(mode, s, |s|)
    decreases |s|
  {
    if s != [] {
      EndIsLastMode(Next(mode, s), s[1..]);
    }
  }

  // ----- Trailing commas

  predicate IsJSONSpace(c: byte) {
    c == SPACE || c == TAB || c == LF || c == CR
  }

  function SkipSpaces(s: seq<byte>): seq<byte> {
    if s != [] && IsJSONSpace(s[0]) then SkipSpaces(s[1..]) else s
  }

  // The next significant byte closes an object or an array.
  predicate Closes(s: seq<byte>) {
    var t := SkipSpaces(s);
    t != [] && (t[0] == CLOSE_BRACE || t[0] == CLOSE_BRACKET)
  }

  // A closing brace or bracket comes after nothing but spaces, tabs and line breaks.
  lemma {:induction false} ClosesIff(s: seq<byte>)
    ensures Closes(s) <==> exists j :: ClosesAt(s, j)
  {
    if s == [] {
    } else if IsJSONSpace(s[0]) {
      ClosesIff(s[1..]);
      if j :| ClosesAt(s[1..], j) {
        assert forall k | 0 <= k < j + 1 :: s[k] == if k == 0 then s[0] else s[1..][k - 1];
        assert ClosesAt(s, j + 1);
      }
      if j :| ClosesAt(s, j) {
        assert forall k | 0 <= k < j - 1 :: s[1..][k] == s[k + 1];
        assert ClosesAt(s[1..], j - 1);
      }
    } else if Closes(s) {
      assert ClosesAt(s, 0);
    }
  }

  ghost predicate ClosesAt(s: seq<byte>, j: int) {
    0 <= j < |s| && (s[j] == 125 || s[j] == 93) && forall k | 0 <= k < j :: s[k] in {32, 9, 10, 13}
  }

  // The scan of the second pass knows strings only.
  function StringNext(mode: Mode, c: byte): Mode {
    match mode
    case InString => if c == BACKSLASH then Escaped else if c == QUOTE then Code else InString
    case Escaped => InString
    case _ => if c == QUOTE then InString else Code
  }

  predicate InCode(mode: Mode) {
    mode != InString && mode != Escaped
  }

  predicate TrailingComma(mode: Mode, s: seq<byte>)
    requires s != []
  {
    InCode(mode) && s[0] == COMMA && Closes(s[1..])
  }

  function StripCommas(mode: Mode, s: seq<byte>): (r: seq<byte>)
    ensures |r| == |s|
    decreases |s|
  {
    if s == [] then []
    else [if TrailingComma(mode, s) then SPACE else s[0]] + StripCommas(StringNext(mode, s[0]), s[1..])
  }

  function StringModeAt(mode: Mode, s: seq<byte>, i: nat): Mode
    requires i <= |s|
    decreases i
  {
    if i == 0 then mode else StringModeAt(StringNext(mode, s[0]), s[1..], i - 1)
  }

  // Exactly the commas outside strings whose next significant byte closes are blanked.
  lemma {:induction false} StripCommasAt(mode: Mode, s: seq<byte>, i: nat)
    requires i < |s|
    ensures StripCommas(mode, s)[i] == if TrailingComma(StringModeAt(mode, s, i), s[i..]) then SPACE else s[i]
    decreases i
  {
    if i > 0 {
      StripCommasAt(StringNext(mode, s[0]), s[1..], i - 1);
      assert s[1..][i - 1..] == s[i..];
    } else {
      assert s[0..] == s;
    }
  }

  // The next significant byte is a comma that is itself trailing.
  predicate BeforeTrailingComma(s: seq<byte>) {
    var t := SkipSpaces(s);
    t != [] && t[0] == COMMA && Closes(t[1..])
  }

  // Some comma outside strings is kept although the comma after it is blanked, as in [1,,].
  predicate Cascades(mode: Mode, s: seq<byte>)
    decreases |s|
  {
    s != [] && ((InCode(mode) && s[0] == COMMA && BeforeTrailingComma(s[1..]))
                || Cascades(StringNext(mode, s[0]), s[1..]))
  }

  lemma {:induction false} ClosesAfterPass(mode: Mode, s: seq<byte>)
    requires InCode(mode)
    ensures Closes(StripCommas(mode, s)) <==> Closes(s) || BeforeTrailingComma(s)
    decreases |s|
  {
    if s != [] {
      var r := StripCommas(mode, s);
      assert r[1..] == StripCommas(StringNext(mode, s[0]), s[1..]);
      if IsJSONSpace(s[0]) {
        ClosesAfterPass(Code, s[1..]);
        assert StringNext(mode, s[0]) == Code;
      } else if TrailingComma(mode, s) {
        ClosesAfterPass(Code, s[1..]);
      }
    }
  }

  lemma {:induction false} NextKept(mode: Mode, s: seq<byte>)
    requires s != []
    ensures StringNext(mode, StripCommas(mode, s)[0]) == StringNext(mode, s[0])
  {}

  // Running the comma pass twice changes nothing more exactly when no commas cascade.
  lemma {:induction false} CommaPassTwice(mode: Mode, s: seq<byte>)
    ensures StripCommas(mode, StripCommas(mode, s)) == StripCommas(mode, s) <==> !Cascades(mode, s)
    decreases |s|
  {
    if s != [] {
      var next := StringNext(mode, s[0]);
      var r := StripCommas(mode, s);
      assert r[1..] == StripCommas(next, s[1..]);
      NextKept(mode, s);
      CommaPassTwice(next, s[1..]);
      var twice := StripCommas(mode, r);
      assert twice[1..] == StripCommas(next, r[1..]);
      if InCode(mode) && s[0] == COMMA {
        ClosesAfterPass(next, s[1..]);
      }
    }
  }

  // ----- Running both passes again

  // No comment begins where code is.
  predicate CommentFree(mode: Mode, s: seq<byte>)
    decreases |s|
  {
    && Squash(mode) == mode
    && (s == [] || (!(mode == Code && (Starts(s, SLASH, SLASH) || Starts(s, SLASH, STAR))) && CommentFree(Next(mode, s), s[1..])))
  }

  lemma {:induction false} RenderedFree(mode: Mode, s: seq<byte>)
    requires Reached(mode, s)
    ensures CommentFree(Squash(mode), Render(mode, s))
    decreases |s|
  {
    if s != [] {
      var r := Render(mode, s);
      assert r[1..] == Render(Next(mode, s), s[1..]);
      NoMarkLeft(mode, s);
      assert Next(Squash(mode), r) == Squash(Next(mode, s));
      RenderedFree(Next(mode, s), s[1..]);
    }
  }

  lemma {:induction false} FreeIsKept(mode: Mode, s: seq<byte>)
    requires CommentFree(mode, s)
    ensures Render(mode, s) == s && EndMode(mode, s) != Block
    decreases |s|
  {
    if s != [] {
      FreeIsKept(Next(mode, s), s[1..]);
      assert s == [s[0]] + s[1..];
    }
  }

  // Blanking commas makes no comment.
  lemma {:induction false} CommasStayFree(mode: Mode, s: seq<byte>)
    requires CommentFree(mode, s)
    ensures CommentFree(mode, StripCommas(mode, s))
    decreases |s|
  {
    if s != [] {
      var r, next := StripCommas(mode, s), Next(mode, s);
      assert StringNext(mode, s[0]) == next;
      assert r[1..] == StripCommas(next, s[1..]);
      CommasStayFree(next, s[1..]);
      SameMarks(mode, s);
      assert Next(mode, r) == next;
    }
  }

  lemma SameMarks(mode: Mode, s: seq<byte>)
    requires s != [] && CommentFree(mode, s)
    ensures Starts(StripCommas(mode, s), SLASH, SLASH) == Starts(s, SLASH, SLASH)
    ensures Starts(StripCommas(mode, s), SLASH, STAR) == Starts(s, SLASH, STAR)
  {
    var r := StripCommas(mode, s);
    if |s| >= 2 {
      assert r[1] == r[1..][0] == StripCommas(StringNext(mode, s[0]), s[1..])[0];
    }
  }

  // Stripping twice is stripping once exactly when no commas cascade in the text without comments.
  lemma StripTwice(input: seq<byte>)
    requires Lex(input).Some?
    ensures var once := StripCommas(Code, Lex(input).value);
            && Lex(once) == Some(once)
            && (StripCommas(Code, Lex(once).value) == once <==> !Cascades(Code, Lex(input).value))
  {
    PassIsLexer(input);
    var lexed := Lex(input).value;
    RenderedFree(Code, input);
    CommasStayFree(Code, lexed);
    var once := StripCommas(Code, lexed);
    FreeIsKept(Code, once);
    PassIsLexer(once);
    CommaPassTwice(Code, lexed);
  }

  lemma {:induction false} CascadeExample()
    ensures var s: seq<byte> := [91, 49, COMMA, COMMA, CLOSE_BRACKET];
            Cascades(Code, s) && StripCommas(Code, StripCommas(Code, s)) != StripCommas(Code, s)
  {
    var s: seq<byte> := [91, 49, COMMA, COMMA, CLOSE_BRACKET];
    var t := s[1..][1..];
    assert t == [COMMA, COMMA, CLOSE_BRACKET] && t[1..] == [COMMA, CLOSE_BRACKET] && t[1..][1..] == [CLOSE_BRACKET];
    assert BeforeTrailingComma(t[1..]);
    assert Cascades(Code, t);
    assert Cascades(Code, s[1..]);
    CommaPassTwice(Code, s);
  }

  // ----- The loops

  function FlagMode(inString: bool, escaped: bool): Mode {
    if !inString then Code else if escaped then Escaped else InString
  }

  // The buffer so far: the finished part, then what is not yet touched.
  ghost predicate At(out: array<byte>, input: seq<byte>, i: nat, done: seq<byte>)
    reads out
  {
    i <= |input| && |done| == i && out[..] == done + input[i..]
  }

  ghost predicate OnCourse(input: seq<byte>, i: nat, done: seq<byte>, mode: Mode)
    requires i <= |input|
  {
    && done + Render(mode, input[i..]) == Render(Code, input)
    && (EndMode(mode, input[i..]) == Block <==> EndMode(Code, input) == Block)
  }

  lemma {:induction false} CourseStep(input: seq<byte>, i: nat, done: seq<byte>, mode: Mode)
    requires i < |input| && OnCourse(input, i, done, mode)
    ensures OnCourse(input, i + 1, done + [RenderByte(mode, input[i..])], Next(mode, input[i..]))
  {
    assert input[i..][1..] == input[i + 1..];
    var b, rest := RenderByte(mode, input[i..]), Render(Next(mode, input[i..]), input[i + 1..]);
    assert done + [b] + rest == done + ([b] + rest);
  }

  // Writes one byte at the frontier.
  method Put(out: array<byte>, i: nat, value: byte, ghost input: seq<byte>, ghost done: seq<byte>)
    requires i < out.Length == |input| && At(out, input, i, done)
    modifies out
    ensures At(out, input, i + 1, done + [value])
  {
    out[i] := value;
    assert out[..] == done + [value] + input[i + 1..];
  }

  lemma {:induction false} KeepByte(out: array<byte>, input: seq<byte>, i: nat, done: seq<byte>)
    requires i < |input| && At(out, input, i, done)
    ensures At(out, input, i + 1, done + [input[i]])
    ensures out.Length == |input| && out[i] == input[i]
    ensures forall k | i <= k < |input| :: out[k] == input[k]
  {
    assert input[i..] == [input[i]] + input[i + 1..];
    assert out[..][i] == (done + input[i..])[i];
    forall k | i <= k < |input|
      ensures out[k] == input[k]
    {
      assert out[..][k] == (done + input[i..])[k];
    }
  }

  // The loop over a line comment, from just after its mark.
  method BlankLine(out: array<byte>, start: nat, ghost input: seq<byte>, ghost before: seq<byte>)
    returns (i: nat, ghost done: seq<byte>)
    requires start <= |input| == out.Length && At(out, input, start, before) && OnCourse(input, start, before, Line)
    modifies out
    ensures start <= i <= |input| && At(out, input, i, done)
    ensures OnCourse(input, i, done, Line) && (i == |input| || IsLineBreak(input[i]))
  {
    i, done := start, before;
    while i < out.Length
      invariant start <= i <= |input| && At(out, input, i, done) && OnCourse(input, i, done, Line)
    {
      KeepByte(out, input, i, done);
      if IsLineBreak(out[i]) { break; }
      CourseStep(input, i, done, Line);
      Put(out, i, SPACE, input, done);
      done := done + [SPACE];
      i := i + 1;
    }
  }

  // Blanks the two bytes of a mark.
  method BlankMarkBytes(out: array<byte>, i: nat, mode: Mode, ghost input: seq<byte>, ghost before: seq<byte>)
    returns (ghost done: seq<byte>)
    requires i + 1 < |input| == out.Length && At(out, input, i, before) && OnCourse(input, i, before, mode)
    requires RenderByte(mode, input[i..]) == SPACE
    requires RenderByte(Next(mode, input[i..]), input[i + 1..]) == SPACE
    modifies out
    ensures At(out, input, i + 2, done)
    ensures OnCourse(input, i + 2, done, Next(Next(mode, input[i..]), input[i + 1..]))
  {
    CourseStep(input, i, before, mode);
    Put(out, i, SPACE, input, before);
    done := before + [SPACE];
    CourseStep(input, i + 1, done, Next(mode, input[i..]));
    Put(out, i + 1, SPACE, input, done);
    done := done + [SPACE];
  }

  // Whether the untouched part starts with a two-byte mark.
  method MarkAt(out: array<byte>, i: nat, a: byte, b: byte, ghost input: seq<byte>, ghost done: seq<byte>) returns (r: bool)
    requires i < |input| == out.Length && At(out, input, i, done)
    ensures r == Starts(input[i..], a, b)
  {
    KeepByte(out, input, i, done);
    r := i + 1 < out.Length && out[i] == a && out[i + 1] == b;
  }

  // The closing mark of a block comment.
  method CloseBlock(out: array<byte>, i: nat, ghost input: seq<byte>, ghost before: seq<byte>) returns (ghost done: seq<byte>)
    requires i < |input| == out.Length && At(out, input, i, before) && OnCourse(input, i, before, Block)
    requires Starts(input[i..], STAR, SLASH)
    modifies out
    ensures i + 2 <= |input| && At(out, input, i + 2, done) && OnCourse(input, i + 2, done, Code)
  {
    done := BlankMarkBytes(out, i, Block, input, before);
  }

  // One byte inside a block comment that does not close it.
  method BlankInside(out: array<byte>, i: nat, ghost input: seq<byte>, ghost before: seq<byte>) returns (ghost done: seq<byte>)
    requires i < |input| == out.Length && At(out, input, i, before) && OnCourse(input, i, before, Block)
    requires !Starts(input[i..], STAR, SLASH)
    modifies out
    ensures At(out, input, i + 1, done) && OnCourse(input, i + 1, done, Block)
  {
    KeepByte(out, input, i, before);
    CourseStep(input, i, before, Block);
    if IsLineBreak(out[i]) {
      done := before + [input[i]];
    } else {
      Put(out, i, SPACE, input, before);
      done := before + [SPACE];
    }
  }

  // The loop over a block comment, from just after its mark.
  method BlankBlock(out: array<byte>, start: nat, ghost input: seq<byte>, ghost before: seq<byte>)
    returns (i: nat, closed: bool, ghost done: seq<byte>)
    requires start <= |input| == out.Length && At(out, input, start, before) && OnCourse(input, start, before, Block)
    modifies out
    ensures start <= i <= |input| && At(out, input, i, done)
    ensures OnCourse(input, i, done, if closed then Code else Block)
    ensures closed ==> i >= start + 2
    ensures !closed ==> i == |input|
  {
    i, done := start, before;
    while i < out.Length
      invariant start <= i <= |input| && At(out, input, i, done) && OnCourse(input, i, done, Block)
    {
      var closes := MarkAt(out, i, STAR, SLASH, input, done);
      if closes {
        done := CloseBlock(out, i, input, done);
        return i + 2, true, done;
      }
      done := BlankInside(out, i, input, done);
      i := i + 1;
    }
    return i, false, done;
  }

  // One step inside a string literal.
  method StringStep(current: byte, escaped: bool) returns (inString': bool, escaped': bool)
    ensures FlagMode(inString', escaped') == StringNext(FlagMode(true, escaped), current)
    ensures escaped' ==> inString'
  {
    if escaped { return true, false; }
    if current == BACKSLASH { return true, true; }
    return current != QUOTE, false;
  }

  // A comment, from the first byte of its mark.
  method BlankComment(out: array<byte>, start: nat, line: bool, ghost input: seq<byte>, ghost before: seq<byte>)
    returns (i: nat, closed: bool, ghost done: seq<byte>)
    requires start + 1 < |input| == out.Length && At(out, input, start, before) && OnCourse(input, start, before, Code)
    requires Starts(input[start..], SLASH, if line then SLASH else STAR)
    modifies out
    ensures start < i <= |input| && At(out, input, i, done)
    ensures closed ==> OnCourse(input, i, done, Code)
    ensures !closed ==> EndMode(Code, input) == Block
  {
    assert input[start..][1..] == input[start + 1..];
    done := BlankMarkBytes(out, start, Code, input, before);
    if line {
      i, done := BlankLine(out, start + 2, input, done);
      LineEnds(input, i, done);
      closed := true;
    } else {
      i, closed, done := BlankBlock(out, start + 2, input, done);
    }
  }

  // A byte of a string or of code that begins no comment stays.
  method KeepStep(out: array<byte>, i: nat, inString: bool, escaped: bool, ghost input: seq<byte>, ghost done: seq<byte>)
    returns (inString': bool, escaped': bool, ghost done': seq<byte>)
    requires i < |input| == out.Length && At(out, input, i, done) && (escaped ==> inString)
    requires OnCourse(input, i, done, FlagMode(inString, escaped))
    requires !inString ==> !Starts(input[i..], SLASH, SLASH) && !Starts(input[i..], SLASH, STAR)
    ensures At(out, input, i + 1, done') && (escaped' ==> inString')
    ensures OnCourse(input, i + 1, done', FlagMode(inString', escaped'))
  {
    KeepByte(out, input, i, done);
    CourseStep(input, i, done, FlagMode(inString, escaped));
    done' := done + [input[i]];
    if inString {
      inString', escaped' := StringStep(out[i], escaped);
    } else {
      inString', escaped' := out[i] == QUOTE, false;
    }
  }

  // The comment pass of StripJSONC: false is the unterminated-comment error.
  method StripComments(out: array<byte>) returns (ok: bool)
    modifies out
    ensures ok <==> EndMode(Code, old(out[..])) != Block
    ensures ok ==> out[..] == Render(Code, old(out[..]))
  {
    ghost var input := out[..];
    var i, inString, escaped := 0, false, false;
    ghost var done: seq<byte> := [];
    assert [] + Render(Code, input) == Render(Code, input) && input[0..] == input && done + input[0..] == input;
    while i < out.Length
      invariant i <= |input| && At(out, input, i, done) && (escaped ==> inString)
      invariant OnCourse(input, i, done, FlagMode(inString, escaped))
      decreases out.Length - i
    {
      KeepByte(out, input, i, done);
      if !inString && out[i] == SLASH && i + 1 < out.Length && (out[i + 1] == SLASH || out[i + 1] == STAR) {
        assert Starts(input[i..], SLASH, if out[i + 1] == SLASH then SLASH else STAR);
        var closed;
        i, closed, done := BlankComment(out, i, out[i + 1] == SLASH, input, done);
        if !closed {
          return false;
        }
      } else {
        inString, escaped, done := KeepStep(out, i, inString, escaped, input, done);
        i := i + 1;
      }
    }
    assert done + [] == done;
    ok := true;
  }

  // At a line break or at the end, a line comment is over.
  lemma {:induction false} LineEnds(input: seq<byte>, i: nat, done: seq<byte>)
    requires i <= |input| && OnCourse(input, i, done, Line) && (i == |input| || IsLineBreak(input[i]))
    ensures OnCourse(input, i, done, Code)
  {}

  ghost predicate CommaCourse(input: seq<byte>, i: nat, done: seq<byte>, mode: Mode)
    requires i <= |input|
  {
    done + StripCommas(mode, input[i..]) == StripCommas(Code, input)
  }

  lemma {:induction false} CommaStep(input: seq<byte>, i: nat, done: seq<byte>, mode: Mode)
    requires i < |input| && CommaCourse(input, i, done, mode)
    ensures var b := if TrailingComma(mode, input[i..]) then SPACE else input[i];
            CommaCourse(input, i + 1, done + [b], StringNext(mode, input[i]))
  {
    assert input[i..][1..] == input[i + 1..];
    var b := if TrailingComma(mode, input[i..]) then SPACE else input[i];
    var rest := StripCommas(StringNext(mode, input[i]), input[i + 1..]);
    assert done + [b] + rest == done + ([b] + rest);
  }

  // The look-ahead loop: the next significant byte closes.
  method LooksClosed(data: array<byte>, start: nat, ghost input: seq<byte>, ghost done: seq<byte>) returns (r: bool)
    requires 0 < start <= |input| == data.Length && At(data, input, start - 1, done)
    ensures r == Closes(input[start..])
  {
    forall k | start <= k < |input|
      ensures data[k] == input[k]
    {
      assert data[..][k] == (done + input[start - 1..])[k];
    }
    var j := start;
    while j < data.Length && IsJSONSpace(data[j])
      invariant start <= j <= |input| && SkipSpaces(input[j..]) == SkipSpaces(input[start..])
    {
      assert input[j..][1..] == input[j + 1..];
      j := j + 1;
    }
    r := j < data.Length && (data[j] == CLOSE_BRACE || data[j] == CLOSE_BRACKET);
  }

  // One byte of the comma pass.
  method CommaByte(data: array<byte>, i: nat, inString: bool, escaped: bool, ghost input: seq<byte>, ghost done: seq<byte>)
    returns (inString': bool, escaped': bool, ghost done': seq<byte>)
    requires i < |input| == data.Length && At(data, input, i, done) && (escaped ==> inString)
    requires CommaCourse(input, i, done, FlagMode(inString, escaped))
    modifies data
    ensures At(data, input, i + 1, done') && (escaped' ==> inString')
    ensures CommaCourse(input, i + 1, done', FlagMode(inString', escaped'))
  {
    KeepByte(data, input, i, done);
    CommaStep(input, i, done, FlagMode(inString, escaped));
    assert input[i..][1..] == input[i + 1..];
    var current := data[i];
    inString', escaped', done' := false, false, done + [input[i]];
    if inString {
      inString', escaped' := StringStep(current, escaped);
    } else if current == COMMA {
      var closes := LooksClosed(data, i + 1, input, done);
      if closes {
        Put(data, i, SPACE, input, done);
        done' := done + [SPACE];
      }
    } else {
      inString' := current == QUOTE;
    }
  }

  // stripTrailingCommas, in place.
  method StripTrailingCommas(data: array<byte>)
    modifies data
    ensures data[..] == StripCommas(Code, old(data[..]))
  {
    ghost var input := data[..];
    var inString, escaped := false, false;
    ghost var done: seq<byte> := [];
    assert [] + StripCommas(Code, input) == StripCommas(Code, input) && input[0..] == input && done + input[0..] == input;
    for i := 0 to data.Length
      invariant At(data, input, i, done) && (escaped ==> inString)
      invariant CommaCourse(input, i, done, FlagMode(inString, escaped))
    {
      inString, escaped, done := CommaByte(data, i, inString, escaped, input, done);
    }
    assert done + [] == done;
  }

  // StripJSONC: the JSONC lexer's comment removal, then the trailing commas; None is the error.
  method StripJSONC(input: seq<byte>) returns (r: Option<seq<byte>>)
    ensures r.None? <==> Lex(input).None?
    ensures r.Some? ==> |r.value| == |input| && r.value == StripCommas(Code, Lex(input).value)
  {
    var out := new byte[|input|](i requires 0 <= i < |input| => input[i]);
    assert out[..] == input;
    PassIsLexer(input);
    var ok := StripComments(out);
    if !ok {
      return None;
    }
    StripTrailingCommas(out);
    return Some(out[..]);
  }

  // The whole result, position by position: every byte is kept or blanked, line breaks and the
  // bytes of string literals are kept.
  lemma {:induction false} StrippedAt(input: seq<byte>, i: nat)
    requires i < |input| && Lex(input).Some?
    ensures var r := StripCommas(Code, Lex(input).value); var m := ModeAt(Code, input, i);
            && |r| == |input|
            && (r[i] == input[i] || r[i] == SPACE)
            && (input[i] == 10 || input[i] == 13 ==> r[i] == input[i])
            && (m == InString || m == Escaped || (m == Code && input[i] == QUOTE) ==> r[i] == input[i])
  {
    PassIsLexer(input);
    RenderFacts(Code, input, i);
    var lexed := Render(Code, input);
    StripCommasAt(Code, lexed, i);
    forall k | 0 <= k <= |input|
      ensures ModeAt(Code, lexed, k) == Squash(ModeAt(Code, input, k))
    {
      ModesSquashed(Code, input, k);
    }
    CommaScanAgrees(Code, lexed, i);
  }

  // Without comments, both passes see the same strings.
  lemma {:induction false} CommaScanAgrees(mode: Mode, s: seq<byte>, i: nat)
    requires i <= |s| && forall k | 0 <= k <= |s| :: ModeAt(mode, s, k) in {Code, InString, Escaped}
    ensures StringModeAt(mode, s, i) == ModeAt(mode, s, i)
    decreases i
  {
    if i > 0 {
      assert ModeAt(mode, s, 0) == mode && ModeAt(mode, s, 1) == ModeAt(Next(mode, s), s[1..], 0) == Next(mode, s);
      forall k | 0 <= k <= |s[1..]|
        ensures ModeAt(Next(mode, s), s[1..], k) in {Code, InString, Escaped}
      {
        assert ModeAt(mode, s, k + 1) == ModeAt(Next(mode, s), s[1..], k);
      }
      CommaScanAgrees(Next(mode, s), s[1..], i - 1);
    }
  }
}
