/** Waves against claims: when calls the waves-v1 scheduler runs together conflict under the claims the
    dag-v2 scheduler works with (packages/agent/src/parallel-tool-batch.ts, builtin-tool-resource-claims.ts). */
module WaveClaims {
  import opened Sequences
  import opened Wrappers
  import opened Text
  import opened Paths
  import opened Claims
  import opened Waves
  import Resolver

  // ----- Walks and segments of joined paths

  // A walk that is not refused never clamps.
  lemma {:induction false} RefuseIsClamp(stack: seq<string>, segments: seq<string>)
    requires Walk(stack, segments, Refuse).Some?
    ensures Walk(stack, segments, Clamp) == Walk(stack, segments, Refuse)
    decreases |segments|
  {
    if segments != [] {
      if segments[0] == "." {
        RefuseIsClamp(stack, segments[1..]);
      } else if segments[0] == ".." {
        RefuseIsClamp(stack[..|stack| - 1], segments[1..]);
      } else {
        RefuseIsClamp(stack + [segments[0]], segments[1..]);
      }
    }
  }

  lemma {:induction false} NonEmptyConcat(a: seq<string>, b: seq<string>)
    ensures NonEmpty(a + b) == NonEmpty(a) + NonEmpty(b)
  {
    if a == [] {
      assert a + b == b;
    } else {
      assert (a + b)[1..] == a[1..] + b && (a + b)[0] == a[0];
      NonEmptyConcat(a[1..], b);
      if a[0] != "" {
        ConcatAssoc([a[0]], NonEmpty(a[1..]), NonEmpty(b));
      }
    }
  }

  lemma SegmentsConcat(a: string, b: string)
    ensures PathSegments(a + ("/" + b)) == PathSegments(a) + PathSegments(b)
  {
    var l, r := SplitOn(a, '/'), SplitOn(b, '/');
    SplitOnConcat(a, "/" + b, '/');
    assert ("/" + b)[1..] == b && ("/" + b)[0] == '/';
    var rest := [[]] + r;
    assert SplitOn("/" + b, '/') == rest;
    assert l[|l| - 1] + rest[0] == l[|l| - 1] && rest[1..] == r;
    assert l == l[..|l| - 1] + [l[|l| - 1]];
    assert Meet(l, rest) == l + r;
    NonEmptyConcat(l, r);
  }

  lemma {:induction false} SegmentsTrimmed(s: string)
    ensures PathSegments(DropTrailingSlashes(s)) == PathSegments(s)
  {
    if s != [] && s[|s| - 1] == '/' {
      var front := s[..|s| - 1];
      SegmentsTrimmed(front);
      assert s == front + ("/" + "");
      SegmentsConcat(front, "");
      assert SplitOn("", '/') == [[]] && NonEmpty([[]]) == [];
      assert PathSegments(front) + [] == PathSegments(front);
    }
  }

  // ----- The path a wave looks at and the key a claim holds

  // The scope path of a path argument that does not begin with a tilde.
  function PlainScope(raw: string, cwd: string): string {
    var n := NormalizePathSlashes(raw);
    if n != "" && n[0] == '/' then n else JoinPathSegments(cwd, n)
  }

  predicate IsAbsolute(cwd: string) {
    StartsWith(NormalizePathSlashes(cwd), "/") || IsDriveAbsolute(NormalizePathSlashes(cwd))
  }

  // Whatever overlaps the key overlaps the scope: it is refused, or names the same place, possibly
  // on no drive in particular.
  ghost predicate AsWide(key: string, scope: string) {
    match (CanonicalPathParts(key), CanonicalPathParts(scope))
    case (Some(k), Some(s)) =>
      k.rooted && s.rooted && k.segments == s.segments && (s.drive == k.drive || s.drive.None?)
    case (None, _) => false
    case (_, None) => true
  }

  lemma WideOverlap(k1: string, s1: string, k2: string, s2: string)
    requires AsWide(k1, s1) && AsWide(k2, s2) && PathSegmentsOverlap(k1, k2)
    ensures PathSegmentsOverlap(s1, s2)
  {
  }

  // Paths with one canonical form are as wide as each other.
  lemma SameCanonicalWide(key: string, scope: string)
    requires CanonicalizeLexicalPath(scope) == Some(key) && CanonicalizeLexicalPath(key) == Some(key) && Resolver.IsAnchored(key)
    requires IsDriveSlash(key) || StartsWith(key, "/")
    ensures AsWide(key, scope)
  {
  }

  lemma RootedCwd(cwd: string) returns (names: seq<string>)
    requires CanonicalizeLexicalPath(cwd).Some? && StartsWith(NormalizePathSlashes(cwd), "/")
    ensures var c := CanonicalizeLexicalPath(cwd).value;
            && Walk([], PathSegments(NormalizePathSlashes(cwd)), Refuse) == Some(names)
            && RootedForm(c, names) && PathSegments(c) == names && NormalizePathSlashes(c) == c
            && !HasDrivePrefix(c) && Resolver.IsAnchored(c) && !StartsWith(c, "//")
  {
    var n := NormalizePathSlashes(cwd);
    var c := CanonicalizeLexicalPath(cwd).value;
    names := Walk([], PathSegments(n), Refuse).value;
    NormalizedSegments(cwd);
    WalkClean([], PathSegments(n), Refuse);
    assert RootedForm(c, names);
    RootedFormFixed(c, names);
    NormalizeClean(names);
    NormalizeId(c);
  }

  // The canonical form of a relative path behind a rooted directory.
  lemma JoinedRooted(dir: string, names: seq<string>, rel: string)
    requires '\\' !in dir && '\\' !in rel && StartsWith(dir, "/") && !StartsWith(dir, "//")
    requires rel != "" && rel[0] != '/' && !HasDrivePrefix(rel) && Walk([], PathSegments(dir), Refuse) == Some(names)
    ensures CanonicalizeLexicalPath(JoinPathSegments(dir, rel)) ==
            match Walk(names, PathSegments(rel), Refuse)
            case None => None
            case Some(all) => Some("/" + Join(all, '/'))
  {
    NormalizeId(dir);
    NormalizeId(rel);
    var base := DropTrailingSlashes(dir);
    Resolver.DropTrailingSlashesFacts(dir);
    var joined := base + "/" + rel;
    assert joined == base + ("/" + rel);
    NormalizeId(joined);
    SegmentsConcat(base, rel);
    SegmentsTrimmed(dir);
    WalkConcat([], PathSegments(dir), PathSegments(rel), Refuse);
    assert joined[0] == '/';
    DoubleSlash(dir);
    DoubleSlash(joined);
    assert |base| >= 2 ==> joined[1] == dir[1];
    assert |base| == 0 ==> joined[1] == rel[0];
  }

  lemma DoubleSlash(s: string)
    ensures StartsWith(s, "//") <==> |s| >= 2 && s[0] == '/' && s[1] == '/'
  {
    assert |s| >= 2 ==> s[..2] == [s[0], s[1]];
  }

  lemma DriveCwd(cwd: string) returns (names: seq<string>)
    requires IsDriveAbsolute(NormalizePathSlashes(cwd))
    ensures CanonicalizeLexicalPath(cwd).Some?
    ensures var c := CanonicalizeLexicalPath(cwd).value; var n := NormalizePathSlashes(cwd);
            && Walk([], PathSegments(n[2..]), Clamp) == Some(names)
            && PathSegments(c[2..]) == names && NormalizePathSlashes(c) == c && IsDriveAbsolute(c) && c[..2] == n[..2]
            && Walk([], names, Clamp) == Some(names)
  {
    var n := NormalizePathSlashes(cwd);
    assert !StartsWith(n, "//") by { DoubleSlash(n); }
    DriveCanonical(cwd);
    var c := CanonicalizeLexicalPath(cwd).value;
    names :| DriveForm(c, n[..2], names) && Walk([], PathSegments(DropSlashes(n[2..])), Clamp) == Some(names);
    DriveFormFixed(c, n[..2], names);
    DriveFormParts(c, n[..2], names);
    DropSlashesFacts(n[2..]);
    DropSlashesFacts(c[2..]);
    NormalizeClean(names);
    NormalizeId(c);
    WalkOfClean([], names, Clamp);
    assert [] + names == names;
  }

  lemma {:induction false} TrimmedBehind(a: string, b: string)
    requires a != "" && a[|a| - 1] != '/'
    ensures DropTrailingSlashes(a + b) == a + DropTrailingSlashes(b)
    decreases |b|
  {
    if b == "" {
      assert a + b == a;
    } else if b[|b| - 1] == '/' {
      assert (a + b)[..|a + b| - 1] == a + b[..|b| - 1];
      TrimmedBehind(a, b[..|b| - 1]);
    }
  }

  lemma {:induction false} OnlySlashesDropped(s: string)
    ensures forall c | c in s :: c == '/' || c in DropSlashes(s)
  {
    if s != [] && s[0] == '/' {
      OnlySlashesDropped(s[1..]);
    }
  }

  lemma SlashJoined(dir: string, rel: string)
    requires '\\' !in dir && '\\' !in rel && IsDriveAbsolute(dir) && rel != "" && rel[0] != '/' && !HasDrivePrefix(rel)
    ensures var joined := JoinPathSegments(dir, rel);
            && NormalizePathSlashes(joined) == joined && HasDrivePrefix(joined) && |joined| >= 3 && joined[2] == '/'
            && joined[..2] == dir[..2] && joined[2..] == DropTrailingSlashes(dir[2..]) + ("/" + rel)
  {
    NormalizeId(dir);
    NormalizeId(rel);
    assert dir == dir[..2] + dir[2..];
    TrimmedBehind(dir[..2], dir[2..]);
    var tail := DropTrailingSlashes(dir[2..]);
    Resolver.DropTrailingSlashesFacts(dir[2..]);
    var joined := JoinPathSegments(dir, rel);
    assert joined == dir[..2] + (tail + ("/" + rel));
    assert joined[..2] == dir[..2] && joined[2..] == tail + ("/" + rel);
    assert forall ch | ch in tail :: ch in dir;
    NormalizeId(joined);
  }

  // The canonical form of a relative path behind a drive directory.
  lemma JoinedDrive(dir: string, names: seq<string>, rel: string)
    requires '\\' !in dir && '\\' !in rel && IsDriveAbsolute(dir) && Walk([], PathSegments(dir[2..]), Clamp) == Some(names)
    requires rel != "" && rel[0] != '/' && !HasDrivePrefix(rel)
    ensures CanonicalizeLexicalPath(JoinPathSegments(dir, rel)) ==
            if exists ch | ch in rel :: IsLineTerminator(ch) then None
            else match Walk(names, PathSegments(rel), Clamp)
                 case None => None
                 case Some(all) => Some(dir[..2] + "/" + Join(all, '/'))
  {
    SlashJoined(dir, rel);
    var joined, tail := JoinPathSegments(dir, rel), DropTrailingSlashes(dir[2..]);
    DoubleSlash(joined);
    Resolver.DropTrailingSlashesFacts(dir[2..]);
    OnlySlashesDropped(dir[2..]);
    OnlySlashesDropped(joined[2..]);
    DropSlashesFacts(joined[2..]);
    SegmentsConcat(tail, rel);
    SegmentsTrimmed(dir[2..]);
    WalkConcat([], PathSegments(dir[2..]), PathSegments(rel), Clamp);
    assert IsDriveAbsolute(joined) <==> forall ch | ch in rel :: !IsLineTerminator(ch);
  }

  // A scope path that begins neither with a tilde nor behind a relative directory is as wide as the key.
  lemma ScopeIsWide(raw: string, cwd: string)
    requires Resolver.ResolveCanonicalPathKey(raw, cwd).Some? && IsAbsolute(cwd)
    ensures AsWide(Resolver.ResolveCanonicalPathKey(raw, cwd).value, PlainScope(raw, cwd))
  {
    var n := NormalizePathSlashes(raw);
    if StartsWith(n, "//") {
      DoubledScope(raw, cwd);
    } else if StartsWith(n, "/") {
      RootedScope(raw, cwd);
    } else if Resolver.StartsOnDrive(n) {
      DriveScope(raw, cwd);
    } else {
      RelativeScope(raw, cwd);
    }
  }

  // A scope that begins with two slashes is refused, so it overlaps everything.
  lemma DoubledScope(raw: string, cwd: string)
    requires Resolver.ResolveCanonicalPathKey(raw, cwd).Some? && StartsWith(NormalizePathSlashes(raw), "//")
    ensures AsWide(Resolver.ResolveCanonicalPathKey(raw, cwd).value, PlainScope(raw, cwd))
  {
    var key, n := Resolver.ResolveCanonicalPathKey(raw, cwd).value, NormalizePathSlashes(raw);
    Resolver.KeyIsFixed(raw, cwd);
    DoubleSlash(n);
    NormalizeId(n);
    assert CanonicalizeLexicalPath(n) == None;
    KeyHasParts(key);
  }

  lemma KeyHasParts(key: string)
    requires CanonicalizeLexicalPath(key) == Some(key) && (IsDriveSlash(key) || StartsWith(key, "/"))
    ensures CanonicalPathParts(key).Some? && CanonicalPathParts(key).value.rooted
  {
  }

  lemma DriveScope(raw: string, cwd: string)
    requires Resolver.ResolveCanonicalPathKey(raw, cwd).Some? && Resolver.StartsOnDrive(NormalizePathSlashes(raw))
    ensures AsWide(Resolver.ResolveCanonicalPathKey(raw, cwd).value, PlainScope(raw, cwd))
  {
    var key, n := Resolver.ResolveCanonicalPathKey(raw, cwd).value, NormalizePathSlashes(raw);
    Resolver.KeyIsFixed(raw, cwd);
    assert !StartsWith(n, "//") by { DoubleSlash(n); }
    Unrepeated(raw);
    NormalizeId(n);
    SameCanonicalWide(key, n);
  }

  // What canonicalization works on, once the path is known not to begin with two slashes.
  lemma Unrepeated(raw: string)
    requires !StartsWith(NormalizePathSlashes(raw), "//")
    ensures Resolver.NormalizeLeadingSlashes(raw) == NormalizePathSlashes(raw)
  {
    var n := NormalizePathSlashes(raw);
    assert |n| >= 3 ==> n[..3][..2] == n[..2];
  }

  lemma RootedScope(raw: string, cwd: string)
    requires Resolver.ResolveCanonicalPathKey(raw, cwd).Some?
    requires StartsWith(NormalizePathSlashes(raw), "/") && !StartsWith(NormalizePathSlashes(raw), "//")
    ensures AsWide(Resolver.ResolveCanonicalPathKey(raw, cwd).value, PlainScope(raw, cwd))
  {
    var key, n := Resolver.ResolveCanonicalPathKey(raw, cwd).value, NormalizePathSlashes(raw);
    RootedIsPlain(raw, cwd);
    Resolver.KeyIsFixed(raw, cwd);
    RootedKey(raw, cwd);
    var c := CanonicalizeLexicalPath(cwd).value;
    if Resolver.StartsOnDrive(c) {
      Resolver.CwdIsNormalized(cwd);
      RootedOnDrive(n, c[..2], key);
    } else {
      SameCanonicalWide(key, n);
    }
  }

  lemma RootedIsPlain(raw: string, cwd: string)
    requires StartsWith(NormalizePathSlashes(raw), "/")
    ensures PlainScope(raw, cwd) == NormalizePathSlashes(raw)
  {
    var n := NormalizePathSlashes(raw);
    assert n[..1] == [n[0]];
  }

  lemma RootedKey(raw: string, cwd: string)
    requires Resolver.ResolveCanonicalPathKey(raw, cwd).Some?
    requires StartsWith(NormalizePathSlashes(raw), "/") && !StartsWith(NormalizePathSlashes(raw), "//")
    ensures var n := NormalizePathSlashes(raw); var c := CanonicalizeLexicalPath(cwd);
            && c.Some? && '\\' !in n
            && CanonicalizeLexicalPath(if Resolver.StartsOnDrive(c.value) then c.value[..2] + n else n) ==
               Resolver.ResolveCanonicalPathKey(raw, cwd)
  {
    var n := NormalizePathSlashes(raw);
    Unrepeated(raw);
    NormalizeId(n);
    assert n[..1] == [n[0]];
  }

  // A rooted path seen from a drive: on that drive for the key, on no drive for the scope.
  lemma RootedOnDrive(n: string, drive: string, key: string)
    requires '\\' !in n && StartsWith(n, "/") && '\\' !in drive && |drive| == 2 && HasDrivePrefix(drive)
    requires CanonicalizeLexicalPath(drive + n) == Some(key)
    ensures AsWide(key, n)
  {
    var r := drive + n;
    NormalizeId(n);
    NormalizeId(r);
    assert r[..2] == drive && r[2..] == n;
    DoubleSlash(r);
    assert IsDriveAbsolute(r);
    var names := DriveCwd(r);
    DriveKey(r, key);
    assert key[2..] == "" + ("/" + key[3..]);
    SegmentsConcat("", key[3..]);
    assert PathSegments("") == [] && [] + PathSegments(key[3..]) == PathSegments(key[3..]);
    if CanonicalizeLexicalPath(n).Some? {
      RefuseIsClamp([], PathSegments(n));
      var rooted := RootedCwd(n);
      var c := CanonicalizeLexicalPath(n).value;
      assert c[..1] == "/" && StartsWith(c, "/");
      assert rooted == names && PathSegments(key[3..]) == names && PathSegments(c) == names;
      assert CanonicalPathParts(n) == Some(PathParts(None, true, names));
      assert CanonicalPathParts(key).Some? && CanonicalPathParts(key).value.segments == names;
    }
  }

  lemma DriveKey(r: string, key: string)
    requires NormalizePathSlashes(r) == r && IsDriveAbsolute(r) && CanonicalizeLexicalPath(r) == Some(key) && !StartsWith(r, "//")
    ensures IsDriveSlash(key) && key[..2] == r[..2] && CanonicalizeLexicalPath(key) == Some(key)
  {
    DriveCanonical(r);
    var names :| DriveForm(key, r[..2], names);
    DriveFormFixed(key, r[..2], names);
  }

  lemma RelativeScope(raw: string, cwd: string)
    requires Resolver.ResolveCanonicalPathKey(raw, cwd).Some? && IsAbsolute(cwd)
    requires !StartsWith(NormalizePathSlashes(raw), "/") && !Resolver.StartsOnDrive(NormalizePathSlashes(raw))
    ensures AsWide(Resolver.ResolveCanonicalPathKey(raw, cwd).value, PlainScope(raw, cwd))
  {
    Resolver.KeyIsFixed(raw, cwd);
    RelativeCanonical(raw, cwd);
    SameCanonicalWide(Resolver.ResolveCanonicalPathKey(raw, cwd).value, PlainScope(raw, cwd));
  }

  // The scope of a relative path canonicalizes to its key.
  lemma RelativeCanonical(raw: string, cwd: string)
    requires Resolver.ResolveCanonicalPathKey(raw, cwd).Some? && IsAbsolute(cwd)
    requires !StartsWith(NormalizePathSlashes(raw), "/") && !Resolver.StartsOnDrive(NormalizePathSlashes(raw))
    ensures CanonicalizeLexicalPath(PlainScope(raw, cwd)) == Resolver.ResolveCanonicalPathKey(raw, cwd)
  {
    var n := NormalizePathSlashes(raw);
    RelativeKey(raw, cwd);
    NormalizeId(n);
    NormalizeId(NormalizePathSlashes(cwd));
    if StartsWith(NormalizePathSlashes(cwd), "/") {
      RelativeToRoot(cwd, n);
    } else {
      RelativeToDrive(cwd, n);
    }
  }

  lemma RelativeKey(raw: string, cwd: string)
    requires Resolver.ResolveCanonicalPathKey(raw, cwd).Some?
    requires !StartsWith(NormalizePathSlashes(raw), "/") && !Resolver.StartsOnDrive(NormalizePathSlashes(raw))
    ensures var n := NormalizePathSlashes(raw); var c := CanonicalizeLexicalPath(cwd);
            && n != "" && n[0] != '/' && !HasDrivePrefix(n) && '\\' !in n && c.Some?
            && CanonicalizeLexicalPath(JoinPathSegments(c.value, n)) == Resolver.ResolveCanonicalPathKey(raw, cwd)
  {
    var n := NormalizePathSlashes(raw);
    Resolver.NonBlankNormalized(raw);
    DoubleSlash(n);
    assert n != "" ==> n[..1] == [n[0]];
    Unrepeated(raw);
  }

  lemma RelativeToRoot(cwd: string, n: string)
    requires CanonicalizeLexicalPath(cwd).Some? && StartsWith(NormalizePathSlashes(cwd), "/")
    requires n != "" && n[0] != '/' && !HasDrivePrefix(n) && '\\' !in n
    ensures CanonicalizeLexicalPath(JoinPathSegments(NormalizePathSlashes(cwd), n)) ==
            CanonicalizeLexicalPath(JoinPathSegments(CanonicalizeLexicalPath(cwd).value, n))
  {
    var c := CanonicalizeLexicalPath(cwd).value;
    var names := RootedCwd(cwd);
    JoinedRooted(NormalizePathSlashes(cwd), names, n);
    WalkOfRooted(names, c);
    JoinedRooted(c, names, n);
  }

  lemma RelativeToDrive(cwd: string, n: string)
    requires IsDriveAbsolute(NormalizePathSlashes(cwd))
    requires n != "" && n[0] != '/' && !HasDrivePrefix(n) && '\\' !in n
    ensures CanonicalizeLexicalPath(cwd).Some?
    ensures CanonicalizeLexicalPath(JoinPathSegments(NormalizePathSlashes(cwd), n)) ==
            CanonicalizeLexicalPath(JoinPathSegments(CanonicalizeLexicalPath(cwd).value, n))
  {
    var names := DriveCwd(cwd);
    var c := CanonicalizeLexicalPath(cwd).value;
    JoinedDrive(NormalizePathSlashes(cwd), names, n);
    JoinedDrive(c, names, n);
  }

  lemma WalkOfRooted(names: seq<string>, c: string)
    requires PathSegments(c) == names && RootedForm(c, names)
    ensures Walk([], PathSegments(c), Refuse) == Some(names)
  {
    WalkOfClean([], names, Refuse);
    assert [] + names == names;
  }

  // ----- When wave-mates conflict

  // Both schedulers look at the same directory and tool policies, and a tool that may run in parallel
  // without being known is one whose policy says so.
  ghost predicate SameSettings(o: Resolver.Options, w: Options) {
    && o.cwd == w.cwd
    && (forall name :: Resolver.ResolveToolPolicy(name, o) == if name in w.policies then Some(w.policies[name]) else None)
    && (forall name | name in w.allowUnknown :: name in w.policies && w.policies[name] == Parallel)
  }

  // A call waves admit but claims resolve to an exclusive one: its path has no key, or it is an
  // extension tool under strict claims.
  predicate FailsClosed(call: ToolCallShape, o: Resolver.Options) {
    if Resolver.IsBuiltinPathClaimTool(call.name) then Resolver.PathKeyOf(call, o).None?
    else !IsParallelSafe(call.name) && o.strictExtensionClaims
  }

  // Both calls have a key and the keys overlap.
  predicate KeysMeet(a: ToolCallShape, b: ToolCallShape, o: Resolver.Options) {
    var ka, kb := Resolver.PathKeyOf(a, o), Resolver.PathKeyOf(b, o);
    ka.Some? && kb.Some? && PathSegmentsOverlap(ka.value, kb.value)
  }

  // A search tool over a path that the other call writes or edits.
  predicate SearchesWhatIsWritten(a: ToolCallShape, b: ToolCallShape, o: Resolver.Options) {
    Resolver.IsSearchPathTool(a.name) && b.name in {"write", "edit"} && KeysMeet(a, b, o)
  }

  // A path argument whose scope waves look for elsewhere than claims do: one that begins with a tilde,
  // or any behind a directory that is not absolute.
  predicate IsRespelled(call: ToolCallShape, o: Resolver.Options) {
    !IsAbsolute(o.cwd) || (call.arguments.Object? && call.arguments.path.Some? && StartsWith(call.arguments.path.value, "~"))
  }

  predicate RespelledTogether(a: ToolCallShape, b: ToolCallShape, o: Resolver.Options) {
    && IsPathScopedTool(a.name) && IsPathScopedTool(b.name) && !(a.name == "read" && b.name == "read")
    && (IsRespelled(a, o) || IsRespelled(b, o)) && KeysMeet(a, b, o)
  }

  lemma TildeStart(s: string)
    ensures StartsWith(s, "~") <==> s != "" && s[0] == '~'
  {
    assert s != "" ==> s[..1] == [s[0]];
  }

  // A path that begins with a tilde names what the rest names under the home directory: with either
  // spelling the call clashes with the same calls.
  lemma TildeIsHome(name: string, rest: string, other: ToolCallShape, w: Options)
    requires !IsBlank(w.home + rest) && !StartsWith(w.home + rest, "~")
    ensures var tilde := ToolCallShape(name, Object(Some("~" + rest)));
            var spelled := ToolCallShape(name, Object(Some(w.home + rest)));
            Clash(Classify(tilde, w), Classify(other, w)) <==> Clash(Classify(spelled, w), Classify(other, w))
  {
    assert ("~" + rest)[1..] == rest;
    TildeStart(w.home + rest);
    TildeNotBlank(rest);
  }

  lemma TildeNotBlank(rest: string)
    ensures !IsBlank("~" + rest)
  {
    assert ('~' in "~" + rest) && !IsSpace('~');
  }

  // Two path-scoped calls that do not clash have disjoint keys, unless one is respelled.
  lemma ScopedApart(a: ToolCallShape, b: ToolCallShape, o: Resolver.Options, w: Options)
    requires SameSettings(o, w) && IsPathScopedTool(a.name) && IsPathScopedTool(b.name)
    requires !Clash(Classify(a, w), Classify(b, w)) && !IsRespelled(a, o) && !IsRespelled(b, o)
    ensures !KeysMeet(a, b, o)
  {
    if KeysMeet(a, b, o) {
      ScopedCall(a, o, w);
      ScopedCall(b, o, w);
      WideOverlap(Resolver.PathKeyOf(a, o).value, Classify(a, w).path, Resolver.PathKeyOf(b, o).value, Classify(b, w).path);
    }
  }

  lemma ScopedCall(call: ToolCallShape, o: Resolver.Options, w: Options)
    requires SameSettings(o, w) && IsPathScopedTool(call.name) && !Classify(call, w).Solo? && !IsRespelled(call, o)
    requires Resolver.PathKeyOf(call, o).Some?
    ensures Classify(call, w).PathScoped? && AsWide(Resolver.PathKeyOf(call, o).value, Classify(call, w).path)
  {
    TildeStart(call.arguments.path.value);
    ScopeIsWide(call.arguments.path.value, o.cwd);
  }

  // What a call that is not solo resolves to.
  lemma ResolvesTo(call: ToolCallShape, o: Resolver.Options, w: Options)
    requires SameSettings(o, w) && !Classify(call, w).Solo?
    ensures Resolver.ResolveToolClaims(call, o) ==
            if FailsClosed(call, o) then ExclusiveCall
            else if Resolver.IsBuiltinPathClaimTool(call.name) then
              Claims([PathClaim(Resolver.PathKeyOf(call, o).value, Resolver.BuiltinPathAccess(call.name), None, None)])
            else Claims([])
  {
    assert Resolver.ResolveToolPolicy(call.name, o) == if call.name in w.policies then Some(w.policies[call.name]) else None;
  }

  lemma OneClaimConflict(ka: string, kb: string, accessA: Access, accessB: Access)
    requires accessA != Exclusive && accessB != Exclusive && !StartsWith(ka, "//") && !StartsWith(kb, "//")
    ensures ResolutionsConflict(Claims([PathClaim(ka, accessA, None, None)]), Claims([PathClaim(kb, accessB, None, None)])) <==>
            PathSegmentsOverlap(ka, kb) && !(accessA == Read && accessB == Read)
  {
    var a, b := PathClaim(ka, accessA, None, None), PathClaim(kb, accessB, None, None);
    assert a in [a] && b in [b];
    assert PathClaimKeys(a) == [ka] && PathClaimKeys(b) == [kb];
    assert ka in [ka] && kb in [kb];
    assert IdentityPathKeysOverlap(ka, kb) == PathSegmentsOverlap(ka, kb);
    assert PathClaimsOverlap(a, b) == PathSegmentsOverlap(ka, kb);
  }

  lemma KeyIsLexical(call: ToolCallShape, o: Resolver.Options)
    requires Resolver.PathKeyOf(call, o).Some?
    ensures !StartsWith(Resolver.PathKeyOf(call, o).value, "//")
  {
    Resolver.KeyIsFixed(Resolver.BuiltinRawPath(call.name, call.arguments.path, o.cwd).value, o.cwd);
  }

  // Of two calls with a path each, the keys and the access decide.
  lemma PathCallsConflict(a: ToolCallShape, b: ToolCallShape, o: Resolver.Options, w: Options)
    requires SameSettings(o, w) && !Classify(a, w).Solo? && !Classify(b, w).Solo?
    requires Resolver.IsBuiltinPathClaimTool(a.name) && Resolver.IsBuiltinPathClaimTool(b.name)
    requires !FailsClosed(a, o) && !FailsClosed(b, o)
    ensures ResolutionsConflict(Resolver.ResolveToolClaims(a, o), Resolver.ResolveToolClaims(b, o)) <==>
            KeysMeet(a, b, o) && !(Resolver.BuiltinPathAccess(a.name) == Read && Resolver.BuiltinPathAccess(b.name) == Read)
  {
    ResolvesTo(a, o, w);
    ResolvesTo(b, o, w);
    KeyIsLexical(a, o);
    KeyIsLexical(b, o);
    OneClaimConflict(Resolver.PathKeyOf(a, o).value, Resolver.PathKeyOf(b, o).value, Resolver.BuiltinPathAccess(a.name), Resolver.BuiltinPathAccess(b.name));
  }

  lemma OtherCallsConflict(a: ToolCallShape, b: ToolCallShape, o: Resolver.Options, w: Options)
    requires SameSettings(o, w) && !Classify(a, w).Solo? && !Classify(b, w).Solo?
    requires !(Resolver.IsBuiltinPathClaimTool(a.name) && Resolver.IsBuiltinPathClaimTool(b.name)) || FailsClosed(a, o) || FailsClosed(b, o)
    ensures ResolutionsConflict(Resolver.ResolveToolClaims(a, o), Resolver.ResolveToolClaims(b, o)) <==>
            FailsClosed(a, o) || FailsClosed(b, o)
  {
    ResolvesTo(a, o, w);
    ResolvesTo(b, o, w);
  }

  lemma MeetSymmetric(a: ToolCallShape, b: ToolCallShape, o: Resolver.Options)
    ensures KeysMeet(a, b, o) == KeysMeet(b, a, o)
  {
    var ka, kb := Resolver.PathKeyOf(a, o), Resolver.PathKeyOf(b, o);
    if ka.Some? && kb.Some? {
      OverlapSymmetric(ka.value, kb.value);
    }
  }

  // A search and a writer, or two of read, write and edit that are not both read.
  predicate OneWrites(x: string, y: string) {
    || (Resolver.IsSearchPathTool(x) && y in {"write", "edit"})
    || (Resolver.IsSearchPathTool(y) && x in {"write", "edit"})
    || (IsPathScopedTool(x) && IsPathScopedTool(y) && !(x == "read" && y == "read"))
  }

  lemma AccessOfName(x: string)
    requires Resolver.IsBuiltinPathClaimTool(x)
    ensures Resolver.BuiltinPathAccess(x) == Write <==> x in {"write", "edit"}
    ensures Resolver.BuiltinPathAccess(x) == Read <==> Resolver.IsSearchPathTool(x) || x == "read"
    ensures IsPathScopedTool(x) <==> x in {"write", "edit"} || x == "read"
    ensures x == "read" ==> !Resolver.IsSearchPathTool(x)
  {
    if x == "read" {
      assert |x| == 4;
    }
  }

  lemma AccessOfNames(x: string, y: string)
    requires Resolver.IsBuiltinPathClaimTool(x) && Resolver.IsBuiltinPathClaimTool(y)
    ensures !(Resolver.BuiltinPathAccess(x) == Read && Resolver.BuiltinPathAccess(y) == Read) <==> OneWrites(x, y)
  {
    AccessOfName(x);
    AccessOfName(y);
  }

  // The pairs that conflict, apart from those that fail closed.
  ghost predicate PathsConflict(a: ToolCallShape, b: ToolCallShape, o: Resolver.Options) {
    SearchesWhatIsWritten(a, b, o) || SearchesWhatIsWritten(b, a, o) || RespelledTogether(a, b, o)
  }

  lemma ConflictNeedsPaths(a: ToolCallShape, b: ToolCallShape, o: Resolver.Options)
    requires PathsConflict(a, b, o)
    ensures Resolver.IsBuiltinPathClaimTool(a.name) && Resolver.IsBuiltinPathClaimTool(b.name)
  {
    assert KeysMeet(a, b, o) || KeysMeet(b, a, o);
  }

  lemma MeetingPaths(a: ToolCallShape, b: ToolCallShape, o: Resolver.Options, w: Options)
    requires SameSettings(o, w) && !Clash(Classify(a, w), Classify(b, w))
    ensures KeysMeet(a, b, o) && OneWrites(a.name, b.name) <==> PathsConflict(a, b, o)
  {
    MeetSymmetric(a, b, o);
    if IsPathScopedTool(a.name) && IsPathScopedTool(b.name) && !IsRespelled(a, o) && !IsRespelled(b, o) {
      ScopedApart(a, b, o, w);
    }
  }

  // Exactly when two calls that waves would run together conflict under their claims.
  lemma WaveMatesConflictIff(a: ToolCallShape, b: ToolCallShape, o: Resolver.Options, w: Options)
    requires SameSettings(o, w) && !Clash(Classify(a, w), Classify(b, w))
    ensures ResolutionsConflict(Resolver.ResolveToolClaims(a, o), Resolver.ResolveToolClaims(b, o)) <==>
            FailsClosed(a, o) || FailsClosed(b, o) || PathsConflict(a, b, o)
  {
    assert !Classify(a, w).Solo? && !Classify(b, w).Solo?;
    if FailsClosed(a, o) || FailsClosed(b, o) {
      OtherCallsConflict(a, b, o, w);
    } else if Resolver.IsBuiltinPathClaimTool(a.name) && Resolver.IsBuiltinPathClaimTool(b.name) {
      PathCallsConflict(a, b, o, w);
      AccessOfNames(a.name, b.name);
      MeetingPaths(a, b, o, w);
    } else {
      OtherCallsConflict(a, b, o, w);
      if PathsConflict(a, b, o) {
        ConflictNeedsPaths(a, b, o);
      }
    }
  }

  // The same for any two calls of one wave.
  lemma OfOneWave(calls: seq<ToolCallShape>, wave: seq<nat>, i: nat, j: nat, o: Resolver.Options, w: Options)
    requires SameSettings(o, w) && Allowed(Kinds(calls, w), wave) && i < j < |wave|
    ensures wave[i] < |calls| && wave[j] < |calls|
    ensures var a, b := calls[wave[i]], calls[wave[j]];
            ResolutionsConflict(Resolver.ResolveToolClaims(a, o), Resolver.ResolveToolClaims(b, o)) <==>
            FailsClosed(a, o) || FailsClosed(b, o) || PathsConflict(a, b, o)
  {
    assert !Clash(Kinds(calls, w)[wave[i]], Kinds(calls, w)[wave[j]]);
    WaveMatesConflictIff(calls[wave[i]], calls[wave[j]], o, w);
  }

  // ----- Inputs at which they do

  // Rooted paths of clean names are their own keys.
  lemma CleanKey(names: seq<string>, cwd: string)
    requires CleanNames(names) && IsAbsolute(cwd) && StartsWith(cwd, "/") && CanonicalizeLexicalPath(cwd) == Some(cwd)
    requires !StartsWith("/" + Join(names, '/'), "///")
    ensures Resolver.ResolveCanonicalPathKey("/" + Join(names, '/'), cwd) == Some("/" + Join(names, '/'))
  {
    var p := "/" + Join(names, '/');
    assert RootedForm(p, names);
    RootedFormFixed(p, names);
    NormalizeClean(names);
    NormalizeId(p);
    assert p[0] == '/' && p[0] in p;
    assert !StartsWith(p, "//") by { assert StartsWith(p, "//") ==> CanonicalizeLexicalPath(p) == None; }
    assert !Resolver.StartsOnDrive(cwd) by { assert cwd[..1] == "/"; }
  }

  lemma RootDirectory()
    ensures IsAbsolute("/") && CanonicalizeLexicalPath("/") == Some("/")
  {
    assert RootedForm("/", []) by { assert Join([], '/') == ""; }
    RootedFormFixed("/", []);
    NormalizeId("/");
  }

  lemma KeyOfExample()
    ensures Resolver.ResolveCanonicalPathKey("/a", "/") == Some("/a")
  {
    RootDirectory();
    assert CleanNames(["a"]) && "/" + Join(["a"], '/') == "/a";
    CleanKey(["a"], "/");
  }

  lemma NotBlank(s: string)
    requires s != "" && !IsSpace(s[0])
    ensures !IsBlank(s)
  {
    assert s[0] in s;
  }

  lemma SearchIsSafe(path: string, w: Options)
    requires w.policies == map[] && w.allowUnknown == {}
    ensures Classify(ToolCallShape("grep", Object(Some(path))), w) == Safe
  {
  }

  lemma WriteIsScoped(path: string, w: Options)
    requires w.policies == map[] && w.allowUnknown == {} && !IsBlank(path)
    ensures Classify(ToolCallShape("write", Object(Some(path))), w).PathScoped?
  {
  }

  // A search over a path that the call beside it writes, as one wave.
  lemma SearchedBeside(a: ToolCallShape, b: ToolCallShape, o: Resolver.Options, w: Options)
    requires SameSettings(o, w) && Classify(a, w).Safe? && Classify(b, w).PathScoped? && SearchesWhatIsWritten(a, b, o)
    ensures Allowed(Kinds([a, b], w), [0, 1])
    ensures ResolutionsConflict(Resolver.ResolveToolClaims(a, o), Resolver.ResolveToolClaims(b, o))
  {
    assert !Clash(Classify(a, w), Classify(b, w));
    WaveMatesConflictIff(a, b, o, w);
  }

  // A search runs beside a write of the very path it reads.
  lemma SearchBesideWriteExample(o: Resolver.Options, w: Options)
    requires SameSettings(o, w) && o.cwd == "/" && w.policies == map[] && w.allowUnknown == {}
    ensures var grep := ToolCallShape("grep", Object(Some("/a"))); var write := ToolCallShape("write", Object(Some("/a")));
            && Allowed(Kinds([grep, write], w), [0, 1])
            && ResolutionsConflict(Resolver.ResolveToolClaims(grep, o), Resolver.ResolveToolClaims(write, o))
  {
    NotBlank("/a");
    KeyOfExample();
    BesideAt("/a", o, w);
  }

  lemma BesideAt(path: string, o: Resolver.Options, w: Options)
    requires SameSettings(o, w) && w.policies == map[] && w.allowUnknown == {}
    requires !IsBlank(path) && Resolver.ResolveCanonicalPathKey(path, o.cwd) == Some(path)
    ensures var grep := ToolCallShape("grep", Object(Some(path))); var write := ToolCallShape("write", Object(Some(path)));
            && Allowed(Kinds([grep, write], w), [0, 1])
            && ResolutionsConflict(Resolver.ResolveToolClaims(grep, o), Resolver.ResolveToolClaims(write, o))
  {
    SearchIsSafe(path, w);
    WriteIsScoped(path, w);
    OverlapReflexive(path);
    ExampleSearches(path, o);
    SearchedBeside(ToolCallShape("grep", Object(Some(path))), ToolCallShape("write", Object(Some(path))), o, w);
  }

  lemma ExampleSearches(path: string, o: Resolver.Options)
    requires !IsBlank(path) && Resolver.ResolveCanonicalPathKey(path, o.cwd) == Some(path) && PathSegmentsOverlap(path, path)
    ensures SearchesWhatIsWritten(ToolCallShape("grep", Object(Some(path))), ToolCallShape("write", Object(Some(path))), o)
  {
    GrepKey(path, o);
    WriteKey(path, o);
    assert KeysMeet(ToolCallShape("grep", Object(Some(path))), ToolCallShape("write", Object(Some(path))), o);
  }

  lemma GrepKey(path: string, o: Resolver.Options)
    requires !IsBlank(path)
    ensures Resolver.PathKeyOf(ToolCallShape("grep", Object(Some(path))), o) == Resolver.ResolveCanonicalPathKey(path, o.cwd)
  {
    assert Resolver.IsSearchPathTool("grep");
  }

  lemma WriteKey(path: string, o: Resolver.Options)
    ensures Resolver.PathKeyOf(ToolCallShape("write", Object(Some(path))), o) == Resolver.ResolveCanonicalPathKey(path, o.cwd)
  {
    assert IsPathScopedTool("write");
  }

  // ----- Hooks

  function Hooked(hook: ToolCallShape -> ToolCallShape, calls: seq<ToolCallShape>): (r: seq<ToolCallShape>)
    ensures |r| == |calls| && forall i | 0 <= i < |calls| :: r[i] == hook(calls[i])
  {
    seq(|calls|, i requires 0 <= i < |calls| => hook(calls[i]))
  }

  // The waves the scheduler makes of a batch.
  ghost predicate WavesOf(calls: seq<ToolCallShape>, waves: seq<seq<nat>>, w: Options) {
    Partition(waves, |calls|) && AllAllowed(Kinds(calls, w), waves) && Greedy(Kinds(calls, w), waves)
  }

  // After the hook no two wave-mates of the batch clash.
  ghost predicate StaysClear(hook: ToolCallShape -> ToolCallShape, calls: seq<ToolCallShape>, waves: seq<seq<nat>>, w: Options) {
    AllAllowed(Kinds(Hooked(hook, calls), w), waves)
  }

  ghost predicate KeepsPairClear(hook: ToolCallShape -> ToolCallShape, a: ToolCallShape, b: ToolCallShape, w: Options) {
    !Clash(Classify(a, w), Classify(b, w)) ==> !Clash(Classify(hook(a), w), Classify(hook(b), w))
  }

  // Every batch stays clear of clashes exactly when the hook keeps every clear pair clear.
  lemma {:induction false} HooksKeepClear(hook: ToolCallShape -> ToolCallShape, w: Options)
    ensures (forall calls, waves | WavesOf(calls, waves, w) :: StaysClear(hook, calls, waves, w)) <==>
            (forall a, b :: KeepsPairClear(hook, a, b, w))
  {
    if forall a, b :: KeepsPairClear(hook, a, b, w) {
      forall calls, waves | WavesOf(calls, waves, w)
        ensures StaysClear(hook, calls, waves, w)
      {
        PairsToBatch(hook, calls, waves, w);
      }
    }
    if forall calls, waves | WavesOf(calls, waves, w) :: StaysClear(hook, calls, waves, w) {
      forall a, b
        ensures KeepsPairClear(hook, a, b, w)
      {
        if !Clash(Classify(a, w), Classify(b, w)) {
          PairIsWave(a, b, w);
          assert StaysClear(hook, [a, b], [[0, 1]], w);
          var kinds := Kinds(Hooked(hook, [a, b]), w);
          assert Allowed(kinds, [[0, 1]][0]);
          assert !Clash(kinds[[0, 1][0]], kinds[[0, 1][1]]);
        }
      }
    }
  }

  lemma {:induction false} PairsToBatch(hook: ToolCallShape -> ToolCallShape, calls: seq<ToolCallShape>, waves: seq<seq<nat>>, w: Options)
    requires WavesOf(calls, waves, w) && forall a, b :: KeepsPairClear(hook, a, b, w)
    ensures StaysClear(hook, calls, waves, w)
  {
    var before, after := Kinds(calls, w), Kinds(Hooked(hook, calls), w);
    forall k | 0 <= k < |waves|
      ensures Allowed(after, waves[k])
    {
      assert Allowed(before, waves[k]);
      forall i, j | 0 <= i < j < |waves[k]|
        ensures !Clash(after[waves[k][i]], after[waves[k][j]])
      {
        assert !Clash(before[waves[k][i]], before[waves[k][j]]);
        assert KeepsPairClear(hook, calls[waves[k][i]], calls[waves[k][j]], w);
      }
    }
  }

  // A clear pair is one wave.
  lemma PairIsWave(a: ToolCallShape, b: ToolCallShape, w: Options)
    requires !Clash(Classify(a, w), Classify(b, w))
    ensures WavesOf([a, b], [[0, 1]], w)
  {
    ConcatOne([], [0, 1]);
    assert [] + [[0, 1]] == [[0, 1]];
    assert Range(0, 2) == [0, 1];
  }
}
