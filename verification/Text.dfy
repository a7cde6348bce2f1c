/** Splitting and joining on one separator character, as JavaScript's `split` and `join` do. */
module Text {

  // The pieces between separators. A string always has at least one piece.
  function SplitOn(s: string, sep: char): (r: seq<string>)
    ensures |r| >= 1
  {
    if s == [] then [[]]
    else
      var rest := SplitOn(s[1..], sep);
      if s[0] == sep then [[]] + rest else [[s[0]] + rest[0]] + rest[1..]
  }

  function Join(parts: seq<string>, sep: char): string {
    if parts == [] then []
    else if |parts| == 1 then parts[0]
    else parts[0] + [sep] + Join(parts[1..], sep)
  }

  // What concatenation makes of two lists of pieces: the last of the left meets the first of the right.
  function Meet(l: seq<string>, r: seq<string>): (t: seq<string>)
    requires l != [] && r != []
    ensures |t| == |l| + |r| - 1
  {
    l[..|l| - 1] + [l[|l| - 1] + r[0]] + r[1..]
  }

  lemma {:induction false} SplitOnConcat(a: string, b: string, sep: char)
    ensures SplitOn(a + b, sep) == Meet(SplitOn(a, sep), SplitOn(b, sep))
  {
    var r := SplitOn(b, sep);
    if a == [] {
      assert a + b == b;
      MeetNothing(r);
    } else {
      assert (a + b)[1..] == a[1..] + b && (a + b)[0] == a[0];
      SplitOnConcat(a[1..], b, sep);
      var m := SplitOn(a[1..], sep);
      if a[0] == sep {
        JoinedPush([[]], m, r);
      } else if |m| == 1 {
        JoinedOne(a[0], m[0], r);
        assert m == [m[0]] && m[1..] == [];
      } else {
        JoinedMore(a[0], m, r);
      }
    }
  }

  lemma MeetNothing(r: seq<string>)
    requires r != []
    ensures Meet([[]], r) == r
  {
    assert [] + r[0] == r[0];
    assert r == [r[0]] + r[1..];
  }

  // A list met by pieces splits into what it had but its last piece, and what that one meets.
  lemma MeetLast(l: seq<string>, r: seq<string>)
    requires l != [] && r != []
    ensures Meet(l, r) == l[..|l| - 1] + Meet([l[|l| - 1]], r)
  {
    assert [l[|l| - 1]][..0] == [];
  }

  lemma JoinedPush(first: seq<string>, m: seq<string>, r: seq<string>)
    requires m != [] && r != []
    ensures first + Meet(m, r) == Meet(first + m, r)
  {
    assert (first + m)[..|first + m| - 1] == first + m[..|m| - 1];
  }

  lemma JoinedOne(c: char, piece: string, r: seq<string>)
    requires r != []
    ensures [[c] + Meet([piece], r)[0]] + Meet([piece], r)[1..] == Meet([[c] + piece], r)
  {
    assert Meet([piece], r) == [piece + r[0]] + r[1..];
    assert [c] + (piece + r[0]) == [c] + piece + r[0];
  }

  lemma JoinedMore(c: char, m: seq<string>, r: seq<string>)
    requires |m| > 1 && r != []
    ensures [[c] + Meet(m, r)[0]] + Meet(m, r)[1..] == Meet([[c] + m[0]] + m[1..], r)
  {
    assert m == [m[0]] + m[1..];
    JoinedPush([m[0]], m[1..], r);
    JoinedPush([[c] + m[0]], m[1..], r);
    assert Meet(m, r)[0] == m[0] && Meet(m, r)[1..] == Meet(m[1..], r);
  }

  lemma {:induction false} SplitOnFree(a: string, sep: char)
    requires sep !in a
    ensures SplitOn(a, sep) == [a]
  {
    if a != [] {
      assert sep !in a[1..];
      SplitOnFree(a[1..], sep);
      assert [a[0]] + a[1..] == a;
    }
  }

  lemma {:induction false} SplitOnPieces(s: string, sep: char)
    ensures forall p | p in SplitOn(s, sep) :: sep !in p && forall c | c in p :: c in s
  {
    if s != [] {
      SplitOnPieces(s[1..], sep);
      var rest := SplitOn(s[1..], sep);
      assert rest[0] in rest;
      assert forall p | p in rest[1..] :: p in rest;
    }
  }

  lemma {:induction false} JoinSplit(s: string, sep: char)
    ensures Join(SplitOn(s, sep), sep) == s
  {
    if s != [] {
      JoinSplit(s[1..], sep);
      var rest := SplitOn(s[1..], sep);
      if s[0] == sep {
        assert ([[]] + rest)[1..] == rest;
        assert [] + [sep] + s[1..] == s;
      } else if |rest| > 1 {
        var all := [[s[0]] + rest[0]] + rest[1..];
        assert all[1..] == rest[1..];
        assert [s[0]] + rest[0] + [sep] + Join(rest[1..], sep) == [s[0]] + (rest[0] + [sep] + Join(rest[1..], sep));
      }
    }
  }

  lemma {:induction false} SplitJoin(parts: seq<string>, sep: char)
    requires parts != []
    requires forall p | p in parts :: sep !in p
    ensures SplitOn(Join(parts, sep), sep) == parts
  {
    SplitOnFree(parts[0], sep);
    if |parts| > 1 {
      var tail := Join(parts[1..], sep);
      SplitJoin(parts[1..], sep);
      SplitOnConcat(parts[0], [sep] + tail, sep);
      assert ([sep] + tail)[1..] == tail;
      assert SplitOn([sep] + tail, sep) == [[]] + parts[1..];
      assert parts[0] + [sep] + tail == parts[0] + ([sep] + tail);
      assert parts[0] + [] == parts[0];
    }
  }

  predicate StartsWith(s: string, prefix: string) {
    |prefix| <= |s| && s[..|prefix|] == prefix
  }

  // JavaScript's white space and line terminators.
  predicate IsSpace(c: char) {
    var code := c as int;
    9 <= code <= 13 || code in {32, 160, 0x1680, 0x2028, 0x2029, 0x202F, 0x205F, 0x3000, 0xFEFF} || 0x2000 <= code <= 0x200A
  }

  predicate IsBlank(s: string) {
    forall c | c in s :: IsSpace(c)
  }

  // Trimming takes away exactly the space around the text.
  lemma {:induction false} TrimExactly(before: string, text: string, after: string)
    requires IsBlank(before) && IsBlank(after) && text != "" && !IsSpace(text[0]) && !IsSpace(text[|text| - 1])
    ensures Trim(before + text + after) == text
    decreases |before| + |after|
  {
    var s := before + text + after;
    if before != "" {
      assert before[0] in before && s[1..] == before[1..] + text + after;
      assert forall c | c in before[1..] :: c in before;
      TrimExactly(before[1..], text, after);
    } else if after != "" {
      var n := |after| - 1;
      assert after[n] in after && s[..|s| - 1] == before + text + after[..n];
      assert forall c | c in after[..n] :: c in after;
      TrimExactly(before, text, after[..n]);
    } else {
      assert s == text;
    }
  }

  function Trim(s: string): (r: string)
    ensures r == "" <==> IsBlank(s)
    ensures r != "" ==> !IsSpace(r[0]) && !IsSpace(r[|r| - 1])
  {
    if s == "" then ""
    else if IsSpace(s[0]) then Trim(s[1..])
    else if IsSpace(s[|s| - 1]) then Trim(s[..|s| - 1])
    else s
  }
}
