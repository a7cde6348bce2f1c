/** Lexical path canonicalization and overlap (packages/agent/src/path-segments.ts). */
module Paths {
  import opened Wrappers
  import opened Text

  function NormalizePathSlashes(raw: string): (r: string)
    ensures |r| == |raw|
    ensures forall i | 0 <= i < |raw| :: r[i] == if raw[i] == '\\' then '/' else raw[i]
  {
    seq(|raw|, i requires 0 <= i < |raw| => if raw[i] == '\\' then '/' else raw[i])
  }

  function NonEmpty(parts: seq<string>): (r: seq<string>)
    ensures forall p :: p in r <==> p in parts && p != ""
  {
    if parts == [] then []
    else if parts[0] == "" then NonEmpty(parts[1..])
    else [parts[0]] + NonEmpty(parts[1..])
  }

  function PathSegments(normalized: string): seq<string> {
    NonEmpty(SplitOn(normalized, '/'))
  }

  // A root at the top stops a walk either by refusing ".." (POSIX) or by ignoring it (drives).
  datatype RootPolicy = Refuse | Clamp

  // Walks the segments from the directory `stack`, innermost name last.
  function Walk(stack: seq<string>, segments: seq<string>, policy: RootPolicy): Option<seq<string>>
    decreases |segments|
  {
    if segments == [] then Some(stack)
    else if segments[0] == "." then Walk(stack, segments[1..], policy)
    else if segments[0] == ".." then
      if stack != [] then Walk(stack[..|stack| - 1], segments[1..], policy)
      else if policy == Clamp then Walk(stack, segments[1..], policy)
      else None
    else Walk(stack + [segments[0]], segments[1..], policy)
  }

  // The loop of collapsePathSegments: None is its null, a ".." above the root.
  method CollapsePathSegments(segments: seq<string>) returns (r: Option<seq<string>>)
    ensures r == Walk([], segments, Refuse)
  {
    var collapsed: seq<string> := [];
    for i := 0 to |segments|
      invariant Walk(collapsed, segments[i..], Refuse) == Walk([], segments, Refuse)
    {
      if segments[i] == "." { continue; }
      if segments[i] == ".." {
        if |collapsed| == 0 {
          return None;
        }
        collapsed := collapsed[..|collapsed| - 1];
        continue;
      }
      collapsed := collapsed + [segments[i]];
    }
    return Some(collapsed);
  }

  // The loop in the drive branch of canonicalizeLexicalPath: popping an empty array does nothing.
  method CollapseDriveSegments(segments: seq<string>) returns (collapsed: seq<string>)
    ensures Walk([], segments, Clamp) == Some(collapsed)
  {
    collapsed := [];
    for i := 0 to |segments|
      invariant Walk(collapsed, segments[i..], Clamp) == Walk([], segments, Clamp)
    {
      if segments[i] == "." { continue; }
      if segments[i] == ".." {
        if |collapsed| > 0 {
          collapsed := collapsed[..|collapsed| - 1];
        }
        continue;
      }
      collapsed := collapsed + [segments[i]];
    }
  }

  predicate IsLetter(c: char) {
    'A' <= c <= 'Z' || 'a' <= c <= 'z'
  }

  predicate HasDrivePrefix(s: string) {
    |s| >= 2 && IsLetter(s[0]) && s[1] == ':'
  }

  // The characters a regular-expression dot does not match.
  predicate IsLineTerminator(c: char) {
    c == '\n' || c == '\r' || c == '\U{2028}' || c == '\U{2029}'
  }

  function DropSlashes(s: string): string {
    if s != [] && s[0] == '/' then DropSlashes(s[1..]) else s
  }

  // Drive letter, colon, one or more slashes, then a rest without line terminators.
  predicate IsDriveAbsolute(s: string) {
    && HasDrivePrefix(s) && |s| >= 3 && s[2] == '/'
    && forall c | c in DropSlashes(s[2..]) :: !IsLineTerminator(c)
  }

  function CanonicalizeLexicalPath(raw: string): Option<string> {
    var normalized := NormalizePathSlashes(raw);
    if StartsWith(normalized, "//") then None
    else if IsDriveAbsolute(normalized) then
      match Walk([], PathSegments(DropSlashes(normalized[2..])), Clamp)
      case None => None
      case Some(collapsed) => Some(normalized[..2] + "/" + Join(collapsed, '/'))
    else if HasDrivePrefix(normalized) then None
    else
      match Walk([], PathSegments(normalized), Refuse)
      case None => None
      case Some(collapsed) =>
        if StartsWith(normalized, "/") then Some("/" + Join(collapsed, '/')) else Some(Join(collapsed, '/'))
  }

  // Case folding restricted to ASCII letters.
  function LowerChar(c: char): char {
    if 'A' <= c <= 'Z' then c - 'A' + 'a' else c
  }

  function Lower(s: string): (r: string)
    ensures |r| == |s|
    ensures forall i | 0 <= i < |s| :: r[i] == LowerChar(s[i])
  {
    seq(|s|, i requires 0 <= i < |s| => LowerChar(s[i]))
  }

  datatype PathParts = PathParts(drive: Option<string>, rooted: bool, segments: seq<string>)

  function CanonicalPathParts(raw: string): Option<PathParts> {
    match CanonicalizeLexicalPath(raw)
    case None => None
    case Some(canonical) =>
      if IsDriveSlash(canonical) then
        Some(PathParts(Some(Lower(canonical[..2])), true, PathSegments(canonical[3..])))
      else
        Some(PathParts(None, StartsWith(canonical, "/"), PathSegments(canonical)))
  }

  // Drive letter, colon, one slash, then a rest without line terminators.
  predicate IsDriveSlash(s: string) {
    && HasDrivePrefix(s) && |s| >= 3 && s[2] == '/'
    && forall c | c in s[3..] :: !IsLineTerminator(c)
  }

  predicate SegmentsComparable(left: seq<string>, right: seq<string>) {
    forall i | 0 <= i < |left| && i < |right| :: Lower(left[i]) == Lower(right[i])
  }

  predicate PathSegmentsOverlap(left: string, right: string) {
    match (CanonicalPathParts(left), CanonicalPathParts(right))
    case (Some(l), Some(r)) =>
      if l.drive.Some? && r.drive.Some? && l.drive != r.drive then false
      else if (l.drive.Some? && !r.rooted) || (r.drive.Some? && !l.rooted) then true
      else if l.segments == [] || r.segments == [] then true
      else SegmentsComparable(l.segments, r.segments)
    case _ => true
  }

  // ----- What canonicalization guarantees

  // A name that canonicalization keeps: not empty, no separator, not a dot segment.
  ghost predicate CleanName(s: string) {
    s != "" && s != "." && s != ".." && '/' !in s && '\\' !in s
  }

  ghost predicate CleanNames(names: seq<string>) {
    forall n | n in names :: CleanName(n)
  }

  lemma {:induction false} WalkClean(stack: seq<string>, segments: seq<string>, policy: RootPolicy)
    requires CleanNames(stack)
    requires forall s | s in segments :: s != "" && '/' !in s && '\\' !in s
    ensures var r := Walk(stack, segments, policy); r.Some? ==> CleanNames(r.value)
    ensures policy == Clamp ==> Walk(stack, segments, policy).Some?
    decreases |segments|
  {
    if segments != [] {
      var rest := segments[1..];
      assert forall s | s in rest :: s in segments;
      if segments[0] == "." {
        WalkClean(stack, rest, policy);
      } else if segments[0] == ".." {
        if stack != [] {
          var parent := stack[..|stack| - 1];
          assert forall n | n in parent :: n in stack;
          WalkClean(parent, rest, policy);
        } else if policy == Clamp {
          WalkClean(stack, rest, policy);
        }
      } else {
        assert CleanName(segments[0]) by { assert segments[0] in segments; }
        WalkClean(stack + [segments[0]], rest, policy);
      }
    }
  }

  lemma {:induction false} WalkOfClean(stack: seq<string>, names: seq<string>, policy: RootPolicy)
    requires CleanNames(names)
    ensures Walk(stack, names, policy) == Some(stack + names)
    decreases |names|
  {
    if names == [] {
      assert stack + names == stack;
    } else {
      assert CleanName(names[0]);
      assert forall n | n in names[1..] :: n in names;
      WalkOfClean(stack + [names[0]], names[1..], policy);
      assert stack + [names[0]] + names[1..] == stack + names;
    }
  }

  lemma {:induction false} NonEmptyId(parts: seq<string>)
    requires forall p | p in parts :: p != ""
    ensures NonEmpty(parts) == parts
  {
    if parts != [] {
      assert parts[0] in parts && forall p | p in parts[1..] :: p in parts;
      NonEmptyId(parts[1..]);
    }
  }

  lemma {:induction false} JoinChars(parts: seq<string>)
    ensures forall c | c in Join(parts, '/') :: c == '/' || exists p | p in parts :: c in p
    ensures parts != [] && parts[0] != "" ==> Join(parts, '/') != "" && Join(parts, '/')[0] == parts[0][0]
  {
    if |parts| > 1 {
      JoinChars(parts[1..]);
      forall c | c in Join(parts, '/')
        ensures c == '/' || exists p | p in parts :: c in p
      {
        if c !in parts[0] && c != '/' {
          var p :| p in parts[1..] && c in p;
          assert p in parts;
        }
      }
    }
  }

  lemma SegmentsOfJoin(names: seq<string>)
    requires CleanNames(names)
    ensures PathSegments(Join(names, '/')) == names
    ensures PathSegments("/" + Join(names, '/')) == names
  {
    var s := Join(names, '/');
    if names != [] {
      SplitJoin(names, '/');
      NonEmptyId(names);
    }
    assert ("/" + s)[1..] == s;
    assert SplitOn("/" + s, '/') == [""] + SplitOn(s, '/');
    assert ([""] + SplitOn(s, '/'))[1..] == SplitOn(s, '/');
  }

  lemma NormalizeClean(names: seq<string>)
    requires CleanNames(names)
    ensures '\\' !in Join(names, '/')
  {
    JoinChars(names);
  }

  lemma NormalizeId(s: string)
    requires '\\' !in s
    ensures NormalizePathSlashes(s) == s
  {
    assert forall i | 0 <= i < |s| :: s[i] != '\\';
  }

  lemma NormalizedSegments(raw: string)
    ensures forall s | s in PathSegments(NormalizePathSlashes(raw)) :: s != "" && '/' !in s && '\\' !in s
  {
    SplitOnPieces(NormalizePathSlashes(raw), '/');
    assert '\\' !in NormalizePathSlashes(raw);
  }

  lemma {:induction false} DropSlashesFacts(s: string)
    ensures forall c | c in DropSlashes(s) :: c in s
    ensures DropSlashes(s) != [] ==> DropSlashes(s)[0] != '/'
    ensures s != [] && s[0] != '/' ==> DropSlashes(s) == s
    ensures PathSegments(DropSlashes(s)) == PathSegments(s)
  {
    if s != [] && s[0] == '/' {
      DropSlashesFacts(s[1..]);
      var rest := SplitOn(s[1..], '/');
      assert SplitOn(s, '/') == [""] + rest;
      assert ([""] + rest)[1..] == rest;
    }
  }

  // The three shapes a canonical path can have.
  ghost predicate DriveForm(c: string, drive: string, names: seq<string>) {
    && |drive| == 2 && IsLetter(drive[0]) && drive[1] == ':' && CleanNames(names)
    && c == drive + "/" + Join(names, '/') && (forall ch | ch in Join(names, '/') :: !IsLineTerminator(ch))
  }

  ghost predicate RootedForm(c: string, names: seq<string>) {
    CleanNames(names) && c == "/" + Join(names, '/')
  }

  ghost predicate RootlessForm(c: string, names: seq<string>) {
    CleanNames(names) && c == Join(names, '/')
  }

  // Every segment of a drive-absolute path is free of line terminators and stays so through the walk.
  lemma {:induction false} WalkNames(stack: seq<string>, segments: seq<string>, policy: RootPolicy)
    ensures var r := Walk(stack, segments, policy);
            r.Some? ==> forall n | n in r.value :: n in stack || n in segments
    decreases |segments|
  {
    if segments != [] {
      var rest := segments[1..];
      assert forall n | n in rest :: n in segments;
      if segments[0] == "." {
        WalkNames(stack, rest, policy);
      } else if segments[0] == ".." {
        if stack != [] {
          var popped := stack[..|stack| - 1];
          assert forall n | n in popped :: n in stack;
          WalkNames(popped, rest, policy);
        } else if policy == Clamp {
          WalkNames(stack, rest, policy);
        }
      } else {
        WalkNames(stack + [segments[0]], rest, policy);
      }
    }
  }

  lemma DriveCanonical(raw: string)
    requires IsDriveAbsolute(NormalizePathSlashes(raw)) && !StartsWith(NormalizePathSlashes(raw), "//")
    ensures CanonicalizeLexicalPath(raw).Some?
    ensures var n := NormalizePathSlashes(raw);
            exists names :: DriveForm(CanonicalizeLexicalPath(raw).value, n[..2], names)
                            && Walk([], PathSegments(DropSlashes(n[2..])), Clamp) == Some(names)
  {
    var n := NormalizePathSlashes(raw);
    var rest := DropSlashes(n[2..]);
    DropSlashesFacts(n[2..]);
    SplitOnPieces(rest, '/');
    assert forall c | c in rest :: c in n[2..] && c in n;
    assert '\\' !in n;
    WalkClean([], PathSegments(rest), Clamp);
    WalkNames([], PathSegments(rest), Clamp);
    var names := Walk([], PathSegments(rest), Clamp).value;
    JoinChars(names);
    assert DriveForm(CanonicalizeLexicalPath(raw).value, n[..2], names);
  }

  // Which shape a raw path canonicalizes to, if it canonicalizes at all.
  lemma CanonicalForms(raw: string)
    requires CanonicalizeLexicalPath(raw).Some?
    ensures var c := CanonicalizeLexicalPath(raw).value; var n := NormalizePathSlashes(raw);
            if IsDriveAbsolute(n) then exists names :: DriveForm(c, n[..2], names)
            else if StartsWith(n, "/") then exists names :: RootedForm(c, names)
            else exists names :: RootlessForm(c, names)
  {
    var n := NormalizePathSlashes(raw);
    if IsDriveAbsolute(n) {
      DriveCanonical(raw);
    } else {
      NormalizedSegments(raw);
      WalkClean([], PathSegments(n), Refuse);
      var names := Walk([], PathSegments(n), Refuse).value;
      assert StartsWith(n, "/") ==> RootedForm(CanonicalizeLexicalPath(raw).value, names);
      assert !StartsWith(n, "/") ==> RootlessForm(CanonicalizeLexicalPath(raw).value, names);
    }
  }

  lemma DriveFormFixed(c: string, drive: string, names: seq<string>)
    requires DriveForm(c, drive, names)
    ensures CanonicalizeLexicalPath(c) == Some(c)
    ensures IsDriveSlash(c) && PathSegments(c[3..]) == names && c[..2] == drive
  {
    NormalizeClean(names);
    NormalizeId(c);
    DriveFormParts(c, drive, names);
    WalkOfClean([], names, Clamp);
    assert [] + names == names;
  }

  lemma DriveFormParts(c: string, drive: string, names: seq<string>)
    requires DriveForm(c, drive, names)
    ensures c[..2] == drive && IsDriveSlash(c) && IsDriveAbsolute(c)
    ensures PathSegments(c[3..]) == names && PathSegments(DropSlashes(c[2..])) == names
    ensures !StartsWith(c, "//")
  {
    var body := Join(names, '/');
    assert c[..2] == drive && c[2] == '/' && c[3..] == body;
    assert c[2..] == "/" + body;
    DropSlashesFacts(c[2..]);
    SegmentsOfJoin(names);
    assert forall ch | ch in DropSlashes(c[2..]) :: ch == '/' || ch in body;
  }

  lemma RootedFormFixed(c: string, names: seq<string>)
    requires RootedForm(c, names)
    ensures CanonicalizeLexicalPath(c) == Some(c)
    ensures PathSegments(c) == names && !HasDrivePrefix(c) && StartsWith(c, "/")
  {
    NormalizeClean(names);
    NormalizeId(c);
    JoinChars(names);
    SegmentsOfJoin(names);
    WalkOfClean([], names, Refuse);
    assert [] + names == names;
    if names != [] {
      assert CleanName(names[0]) && names[0][0] in names[0];
      assert c[1] == names[0][0] != '/';
    }
    assert |c| >= 2 ==> c[..2][1] != "//"[1];
  }

  lemma RootlessFormFixed(c: string, names: seq<string>)
    requires RootlessForm(c, names)
    requires !HasDrivePrefix(c)
    ensures CanonicalizeLexicalPath(c) == Some(c)
  {
    NormalizeClean(names);
    NormalizeId(c);
    JoinChars(names);
    SegmentsOfJoin(names);
    WalkOfClean([], names, Refuse);
    assert [] + names == names;
    if names != [] {
      assert CleanName(names[0]) && names[0][0] in names[0];
      assert c[0] == names[0][0] != '/';
    }
    assert |c| >= 1 ==> c[..1][0] != "/"[0];
  }

  lemma {:induction false} DriveSegmentJoin(names: seq<string>)
    requires CleanNames(names) && HasDrivePrefix(Join(names, '/')) && |Join(names, '/')| >= 3
    requires Join(names, '/')[2] == '/'
    ensures |names| >= 2 && |names[0]| == 2
    ensures Join(names, '/') == names[0] + "/" + Join(names[1..], '/')
  {
    var c := Join(names, '/');
    assert names != [] && CleanName(names[0]);
    var n := names[0];
    assert |names| == 1 ==> '/' !in c;
    assert c[2] in c;
    assert c[|n|] == '/';
    assert forall i | 0 <= i < |n| :: c[i] == n[i] && n[i] in n;
  }

  // Canonicalizing twice is canonicalizing once, except for a rootless result that reads as a
  // drive path no drive rule accepts (as for the input "./C:x").
  lemma FixedUnlessDriveText(raw: string)
    requires CanonicalizeLexicalPath(raw).Some?
    ensures var c := CanonicalizeLexicalPath(raw).value;
            CanonicalizeLexicalPath(c) == Some(c) <==> (HasDrivePrefix(c) ==> IsDriveAbsolute(c))
  {
    var c := CanonicalizeLexicalPath(raw).value;
    var n := NormalizePathSlashes(raw);
    CanonicalForms(raw);
    if IsDriveAbsolute(n) {
      var names :| DriveForm(c, n[..2], names);
      DriveFormFixed(c, n[..2], names);
      DropSlashesFacts(c[2..]);
      assert c[2..] == "/" + c[3..];
      assert forall ch | ch in DropSlashes(c[2..]) :: ch == '/' || ch in c[3..];
      assert IsDriveAbsolute(c);
    } else if StartsWith(n, "/") {
      var names :| RootedForm(c, names);
      RootedFormFixed(c, names);
    } else {
      var names :| RootlessForm(c, names);
      NormalizeClean(names);
      NormalizeId(c);
      if !HasDrivePrefix(c) {
        RootlessFormFixed(c, names);
      } else if IsDriveAbsolute(c) {
        DriveSegmentJoin(names);
        var tail := names[1..];
        assert c[..2] == names[0] && c[3..] == Join(tail, '/');
        JoinChars(tail);
        assert c[2..] == "/" + c[3..];
        assert tail[0][0] != '/' by { assert tail[0] in names; assert tail[0][0] in tail[0]; }
        assert DropSlashes(c[2..]) == DropSlashes(c[3..]) by { assert c[2..][1..] == c[3..]; }
        assert DropSlashes(c[3..]) == c[3..];
        assert DriveForm(c, names[0], tail);
        DriveFormFixed(c, names[0], tail);
      }
    }
  }

  // Rooted and drive-absolute inputs always canonicalize idempotently.
  lemma CanonicalIdempotentRooted(raw: string)
    requires CanonicalizeLexicalPath(raw).Some?
    requires StartsWith(NormalizePathSlashes(raw), "/") || IsDriveAbsolute(NormalizePathSlashes(raw))
    ensures CanonicalizeLexicalPath(CanonicalizeLexicalPath(raw).value) == CanonicalizeLexicalPath(raw)
    ensures (exists names :: RootedForm(CanonicalizeLexicalPath(raw).value, names))
            || exists drive, names :: DriveForm(CanonicalizeLexicalPath(raw).value, drive, names)
  {
    var c := CanonicalizeLexicalPath(raw).value;
    CanonicalForms(raw);
    if IsDriveAbsolute(NormalizePathSlashes(raw)) {
      var names :| DriveForm(c, NormalizePathSlashes(raw)[..2], names);
      DriveFormFixed(c, NormalizePathSlashes(raw)[..2], names);
    } else {
      var names :| RootedForm(c, names);
      RootedFormFixed(c, names);
    }
  }

  lemma ExampleSegments()
    ensures PathSegments("./C:x") == [".", "C:x"]
  {
    var parts := [".", "C:x"];
    assert parts[1..] == ["C:x"];
    assert Join(["C:x"], '/') == "C:x";
    assert Join(parts, '/') == "./C:x";
    SplitJoin(parts, '/');
    NonEmptyId(parts);
  }

  lemma RootlessDriveExample()
    ensures CanonicalizeLexicalPath("./C:x") == Some("C:x") && CanonicalizeLexicalPath("C:x") == None
  {
    NormalizeId("./C:x");
    NormalizeId("C:x");
    ExampleSegments();
    assert [".", "C:x"][1..] == ["C:x"];
    assert CleanName("C:x");
    WalkOfClean([], ["C:x"], Refuse);
    assert "./C:x"[1] != ':';
  }

  // ----- When a walk is refused

  function Balance(segments: seq<string>): int {
    if segments == [] then 0
    else (if segments[0] == "." then 0 else if segments[0] == ".." then -1 else 1) + Balance(segments[1..])
  }

  lemma {:induction false} WalkRefused(stack: seq<string>, segments: seq<string>)
    ensures Walk(stack, segments, Refuse) == None
            <==> exists k | 0 <= k <= |segments| :: |stack| + Balance(segments[..k]) < 0
    decreases |segments|
  {
    if segments == [] {
      assert forall k | 0 <= k <= |segments| :: segments[..k] == [];
    } else {
      var rest := segments[1..];
      var d := if segments[0] == "." then 0 else if segments[0] == ".." then -1 else 1;
      assert forall k | 1 <= k <= |segments| :: segments[..k][1..] == rest[..k - 1];
      assert forall k | 1 <= k <= |segments| :: Balance(segments[..k]) == d + Balance(rest[..k - 1]);
      assert segments[..0] == [] && rest[..0] == [];
      if segments[0] == ".." && stack == [] {
        assert Balance(segments[..1]) == d + Balance(rest[..0]);
        assert |stack| + Balance(segments[..1]) < 0;
      } else {
        var next := if segments[0] == "." then stack
        else if segments[0] == ".." then stack[..|stack| - 1] else stack + [segments[0]];
        WalkRefused(next, rest);
        if k :| 0 <= k <= |segments| && |stack| + Balance(segments[..k]) < 0 {
          assert k >= 1;
          assert |next| + Balance(rest[..k - 1]) < 0;
        }
        if k :| 0 <= k <= |rest| && |next| + Balance(rest[..k]) < 0 {
          assert Balance(segments[..k + 1]) == d + Balance(rest[..k + 1 - 1]);
          assert |stack| + Balance(segments[..k + 1]) < 0;
        }
      }
    }
  }

  lemma {:induction false} WalkConcat(stack: seq<string>, a: seq<string>, b: seq<string>, policy: RootPolicy)
    ensures Walk(stack, a + b, policy) ==
            match Walk(stack, a, policy)
            case None => None
            case Some(reached) => Walk(reached, b, policy)
    decreases |a|
  {
    if a == [] {
      assert a + b == b;
    } else {
      assert (a + b)[1..] == a[1..] + b && (a + b)[0] == a[0];
      if a[0] == "." {
        WalkConcat(stack, a[1..], b, policy);
      } else if a[0] == ".." {
        if stack != [] {
          WalkConcat(stack[..|stack| - 1], a[1..], b, policy);
        } else if policy == Clamp {
          WalkConcat(stack, a[1..], b, policy);
        }
      } else {
        WalkConcat(stack + [a[0]], a[1..], b, policy);
      }
    }
  }

  // ----- When canonicalizing twice is canonicalizing once

  predicate IsName(segment: string) {
    segment != "." && segment != ".."
  }

  // Of the first n segments the i-th is a name that no later ".." takes back, at its depth.
  ghost predicate SurvivesTo(segments: seq<string>, n: nat, i: nat, depth: nat) {
    && i < n <= |segments| && IsName(segments[i]) && Balance(segments[..i]) == depth
    && forall k | i < k <= n :: Balance(segments[..k]) > depth
  }

  ghost predicate Survives(segments: seq<string>, i: nat, depth: nat) {
    SurvivesTo(segments, |segments|, i, depth)
  }

  lemma {:induction false} BalanceConcat(a: seq<string>, b: seq<string>)
    ensures Balance(a + b) == Balance(a) + Balance(b)
  {
    if a == [] {
      assert a + b == b;
    } else {
      assert (a + b)[1..] == a[1..] + b && (a + b)[0] == a[0];
      BalanceConcat(a[1..], b);
    }
  }

  lemma NextSegment(segments: seq<string>, n: nat)
    requires n < |segments|
    ensures Balance(segments[..n + 1]) == Balance(segments[..n]) + Balance([segments[n]])
    ensures Walk([], segments[..n + 1], Refuse) ==
            match Walk([], segments[..n], Refuse)
            case None => None
            case Some(names) => Walk(names, [segments[n]], Refuse)
  {
    assert segments[..n + 1] == segments[..n] + [segments[n]];
    BalanceConcat(segments[..n], [segments[n]]);
    WalkConcat([], segments[..n], [segments[n]], Refuse);
  }

  // The names a walk keeps are its surviving segments.
  ghost predicate KeepsSurvivors(segments: seq<string>, n: nat, names: seq<string>) {
    && n <= |segments| && |names| == Balance(segments[..n])
    && (forall i: nat, depth: nat | SurvivesTo(segments, n, i, depth) :: depth < |names| && names[depth] == segments[i])
    && forall depth: nat | depth < |names| :: HasSurvivor(segments, n, depth)
  }

  ghost predicate HasSurvivor(segments: seq<string>, n: nat, depth: nat) {
    exists i: nat :: SurvivesTo(segments, n, i, depth)
  }

  lemma {:induction false} WalkKeepsSurvivors(segments: seq<string>, n: nat)
    requires n <= |segments| && Walk([], segments[..n], Refuse).Some?
    ensures KeepsSurvivors(segments, n, Walk([], segments[..n], Refuse).value)
  {
    if n > 0 {
      NextSegment(segments, n - 1);
      WalkKeepsSurvivors(segments, n - 1);
      OneMoreSegment(segments, n - 1, Walk([], segments[..n - 1], Refuse).value, Walk([], segments[..n], Refuse).value);
    }
  }

  lemma OneMoreSegment(segments: seq<string>, n: nat, before: seq<string>, after: seq<string>)
    requires n < |segments| && KeepsSurvivors(segments, n, before) && Walk(before, [segments[n]], Refuse) == Some(after)
    requires Balance(segments[..n + 1]) == Balance(segments[..n]) + Balance([segments[n]])
    ensures KeepsSurvivors(segments, n + 1, after)
  {
    assert after == if segments[n] == "." then before else if segments[n] == ".." then before[..|before| - 1] else before + [segments[n]];
    forall i: nat, depth: nat | SurvivesTo(segments, n + 1, i, depth)
      ensures depth < |after| && after[depth] == segments[i]
    {
      assert Balance(segments[..n + 1]) > depth;
      if i < n {
        assert SurvivesTo(segments, n, i, depth);
      }
    }
    var m := n + 1;
    forall depth: nat | depth < |after|
      ensures HasSurvivor(segments, m, depth)
    {
      if depth < |before| {
        assert HasSurvivor(segments, n, depth);
        var i: nat :| SurvivesTo(segments, n, i, depth);
        assert SurvivesTo(segments, m, i, depth);
      } else {
        assert SurvivesTo(segments, m, n, depth);
      }
    }
  }

  predicate IsOneLine(s: string) {
    forall ch | ch in s :: !IsLineTerminator(ch)
  }

  // The first surviving segment of a rootless path begins like a drive, and is not just the drive of
  // further names on one line.
  ghost predicate ReadsAsDrive(raw: string) {
    var n := NormalizePathSlashes(raw);
    && !StartsWith(n, "/") && !HasDrivePrefix(n)
    && exists i: nat :: DriveSurvivor(PathSegments(n), i)
  }

  ghost predicate DriveSurvivor(segments: seq<string>, i: nat) {
    && Survives(segments, i, 0) && HasDrivePrefix(segments[i])
    && !(|segments[i]| == 2 && HasSurvivor(segments, |segments|, 1)
         && forall j: nat, depth: nat | Survives(segments, j, depth) && depth >= 1 :: IsOneLine(segments[j]))
  }

  lemma DriveTextOfNames(names: seq<string>)
    requires CleanNames(names)
    ensures var c := Join(names, '/');
            && (HasDrivePrefix(c) <==> names != [] && HasDrivePrefix(names[0]))
            && (HasDrivePrefix(c) ==>
                  (IsDriveAbsolute(c) <==> |names[0]| == 2 && |names| >= 2 && forall k | 1 <= k < |names| :: IsOneLine(names[k])))
  {
    var c := Join(names, '/');
    if names != [] {
      var x, rest := names[0], names[1..];
      assert CleanName(x);
      assert c == if rest == [] then x else x + ("/" + Join(rest, '/'));
      assert forall i | 0 <= i < |x| :: c[i] == x[i] && x[i] in x;
      if rest != [] {
        assert c[|x|] == '/';
        if HasDrivePrefix(c) && |x| == 2 {
          assert c[2..] == "/" + Join(rest, '/') && c[2..][1..] == Join(rest, '/');
          JoinedLines(rest);
        }
      }
    }
  }

  lemma {:induction false} JoinedLines(names: seq<string>)
    requires CleanNames(names) && names != []
    ensures DropSlashes(Join(names, '/')) == Join(names, '/')
    ensures IsOneLine(Join(names, '/')) <==> forall k | 0 <= k < |names| :: IsOneLine(names[k])
  {
    var x, rest := names[0], names[1..];
    assert CleanName(x) && x[0] in x;
    var c := Join(names, '/');
    assert c == if rest == [] then x else x + ("/" + Join(rest, '/'));
    assert c[0] == x[0];
    if rest != [] {
      JoinedLines(rest);
      assert forall ch :: ch in c <==> ch in x || ch == '/' || ch in Join(rest, '/');
      assert forall k | 1 <= k < |names| :: names[k] == rest[k - 1];
      assert forall k | 0 <= k < |rest| :: rest[k] == names[k + 1];
    }
  }

  // A rootless result reads as a refused drive path exactly when the input does.
  lemma RootlessReads(raw: string)
    requires CanonicalizeLexicalPath(raw).Some? && !StartsWith(NormalizePathSlashes(raw), "/") && !HasDrivePrefix(NormalizePathSlashes(raw))
    ensures var c := CanonicalizeLexicalPath(raw).value;
            ReadsAsDrive(raw) <==> HasDrivePrefix(c) && !IsDriveAbsolute(c)
  {
    var segments := PathSegments(NormalizePathSlashes(raw));
    var names := Walk([], segments, Refuse).value;
    NormalizedSegments(raw);
    WalkClean([], segments, Refuse);
    assert segments[..|segments|] == segments;
    WalkKeepsSurvivors(segments, |segments|);
    DriveTextOfNames(names);
    SurvivorLines(segments, names);
    if names != [] {
      assert HasSurvivor(segments, |segments|, 0);
      var i: nat :| SurvivesTo(segments, |segments|, i, 0);
      assert HasDrivePrefix(names[0]) ==> (DriveSurvivor(segments, i) <==> !IsDriveAbsolute(Join(names, '/')));
    }
  }

  lemma SurvivorLines(segments: seq<string>, names: seq<string>)
    requires KeepsSurvivors(segments, |segments|, names)
    ensures HasSurvivor(segments, |segments|, 1) <==> |names| >= 2
    ensures (forall k | 1 <= k < |names| :: IsOneLine(names[k])) <==>
            forall j: nat, depth: nat | Survives(segments, j, depth) && depth >= 1 :: IsOneLine(segments[j])
  {
    if forall j: nat, depth: nat | Survives(segments, j, depth) && depth >= 1 :: IsOneLine(segments[j]) {
      forall k | 1 <= k < |names|
        ensures IsOneLine(names[k])
      {
        assert HasSurvivor(segments, |segments|, k);
        var i: nat :| SurvivesTo(segments, |segments|, i, k);
        assert Survives(segments, i, k);
      }
    }
  }

  // Canonicalizing twice is canonicalizing once exactly when the input does not read as a drive path
  // that no drive rule accepts.
  lemma CanonicalIdempotent(raw: string)
    requires CanonicalizeLexicalPath(raw).Some?
    ensures CanonicalizeLexicalPath(CanonicalizeLexicalPath(raw).value) == CanonicalizeLexicalPath(raw) <==> !ReadsAsDrive(raw)
  {
    FixedUnlessDriveText(raw);
    if !StartsWith(NormalizePathSlashes(raw), "/") && !HasDrivePrefix(NormalizePathSlashes(raw)) {
      RootlessReads(raw);
    } else {
      CanonicalIdempotentRooted(raw);
    }
  }

  // A rooted POSIX path is refused exactly when some prefix of it climbs above the root.
  lemma RootedRefused(raw: string)
    requires StartsWith(NormalizePathSlashes(raw), "/") && !StartsWith(NormalizePathSlashes(raw), "//")
    ensures var segments := PathSegments(NormalizePathSlashes(raw));
            CanonicalizeLexicalPath(raw) == None
            <==> exists k | 0 <= k <= |segments| :: Balance(segments[..k]) < 0
  {
    var n := NormalizePathSlashes(raw);
    assert n[0] == n[..1][0] == '/';
    var segments := PathSegments(n);
    WalkRefused([], segments);
    if k :| 0 <= k <= |segments| && Balance(segments[..k]) < 0 {
      var top: seq<string> := [];
      assert |top| + Balance(segments[..k]) < 0;
    }
  }

  // ----- Overlap

  lemma OverlapReflexive(path: string)
    ensures PathSegmentsOverlap(path, path)
  {}

  lemma OverlapSymmetric(left: string, right: string)
    ensures PathSegmentsOverlap(left, right) == PathSegmentsOverlap(right, left)
  {
    match (CanonicalPathParts(left), CanonicalPathParts(right))
    case (Some(l), Some(r)) =>
      assert SegmentsComparable(l.segments, r.segments) == SegmentsComparable(r.segments, l.segments);
    case _ =>
  }

  // Equal characters, or the two cases of an ASCII letter.
  ghost predicate SameLetter(c: char, d: char) {
    || c == d
    || ('A' <= c <= 'Z' && d as int == c as int + 32)
    || ('A' <= d <= 'Z' && c as int == d as int + 32)
  }

  ghost predicate SameName(a: string, b: string) {
    |a| == |b| && forall i | 0 <= i < |a| :: SameLetter(a[i], b[i])
  }

  lemma LowerSame(a: string, b: string)
    ensures Lower(a) == Lower(b) <==> SameName(a, b)
  {
    forall i | 0 <= i < |a| && i < |b|
      ensures Lower(a)[i] == Lower(b)[i] <==> SameLetter(a[i], b[i])
    {
    }
  }

  // The names of the first are those the second begins with, up to case.
  ghost predicate FoldedPrefix(a: seq<string>, b: seq<string>) {
    |a| <= |b| && forall i | 0 <= i < |a| :: SameName(a[i], b[i])
  }

  lemma ComparableIff(a: seq<string>, b: seq<string>)
    ensures SegmentsComparable(a, b) <==> FoldedPrefix(a, b) || FoldedPrefix(b, a)
  {
    forall i | 0 <= i < |a| && i < |b|
      ensures Lower(a[i]) == Lower(b[i]) <==> SameName(a[i], b[i])
      ensures SameName(a[i], b[i]) <==> SameName(b[i], a[i])
    {
      LowerSame(a[i], b[i]);
    }
  }

  // Two rooted POSIX paths overlap exactly when one's canonical names are a case-folded prefix
  // of the other's: one names the other or an ancestor of it.
  lemma RootedOverlap(left: string, right: string, l: seq<string>, r: seq<string>)
    requires exists c :: CanonicalizeLexicalPath(left) == Some(c) && RootedForm(c, l)
    requires exists c :: CanonicalizeLexicalPath(right) == Some(c) && RootedForm(c, r)
    ensures PathSegmentsOverlap(left, right) <==> FoldedPrefix(l, r) || FoldedPrefix(r, l)
  {
    var c := CanonicalizeLexicalPath(left).value;
    var d := CanonicalizeLexicalPath(right).value;
    RootedFormFixed(c, l);
    RootedFormFixed(d, r);
    assert CanonicalPathParts(left) == Some(PathParts(None, true, l));
    assert CanonicalPathParts(right) == Some(PathParts(None, true, r));
    ComparableIff(l, r);
  }

  // ----- Joining

  function DropTrailingSlashes(s: string): string {
    if s != [] && s[|s| - 1] == '/' then DropTrailingSlashes(s[..|s| - 1]) else s
  }

  function JoinPathSegments(cwd: string, relative: string): string {
    var base := DropTrailingSlashes(NormalizePathSlashes(cwd));
    var rel := NormalizePathSlashes(relative);
    if rel == "" then (if base == "" then "/" else base)
    else if rel[0] == '/' || HasDrivePrefix(rel) then rel
    else base + "/" + rel
  }
}
