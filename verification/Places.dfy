/** What the identity keys of two path claims say about the places they name
    (packages/agent/src/builtin-tool-resource-claims.ts:203-238, packages/agent/src/path-segments.ts:87-129). */
module Places {
  import opened Wrappers
  import opened Text
  import opened Paths
  import opened Claims
  import DagScheduler
  import DagProperties

  // The place a key names: on a network share, on a drive, under the root, under an unknown directory,
  // or one that canonicalization refuses to name.
  datatype Place =
    | Share(names: seq<string>)
    | OnDrive(drive: string, names: seq<string>)
    | Rooted(names: seq<string>)
    | Rootless(names: seq<string>)
    | Refused

  ghost predicate IsPlace(key: string, p: Place) {
    if StartsWith(key, "//") then p == Share(PathSegments(key[2..]))
    else
      match CanonicalizeLexicalPath(key)
      case None => p == Refused
      case Some(c) => IsCanonicalPlace(c, p)
  }

  // A canonical path spells its place out.
  ghost predicate IsCanonicalPlace(c: string, p: Place) {
    match p
    case OnDrive(drive, names) => DriveForm(c, drive, names)
    case Rooted(names) => RootedForm(c, names)
    case Rootless(names) => RootlessForm(c, names) && !IsDriveSlash(c)
    case _ => false
  }

  // One list of names leads to the place of the other or to an ancestor of it, up to case.
  ghost predicate OnOnePath(a: seq<string>, b: seq<string>) {
    FoldedPrefix(a, b) || FoldedPrefix(b, a)
  }

  // The two places can be the same, or one an ancestor of the other. A share is apart from everything
  // else, two drives are apart, and a place that is not known in full may be anywhere else.
  ghost predicate Near(p: Place, q: Place) {
    match (p, q)
    case (Share(a), Share(b)) => OnOnePath(a, b)
    case (Share(_), _) => false
    case (_, Share(_)) => false
    case (Refused, _) => true
    case (_, Refused) => true
    case (OnDrive(d, a), OnDrive(e, b)) => SameName(d, e) && OnOnePath(a, b)
    case (OnDrive(_, _), Rootless(_)) => true
    case (Rootless(_), OnDrive(_, _)) => true
    case _ => OnOnePath(p.names, q.names)
  }

  // ----- Every key names one place

  lemma {:induction false} DriveSlashForm(c: string, names: seq<string>)
    requires RootlessForm(c, names) && IsDriveSlash(c)
    ensures exists drive, rest :: DriveForm(c, drive, rest)
  {
    DriveSegmentJoin(names);
    var tail := names[1..];
    assert c[..2] == names[0] && c[3..] == Join(tail, '/');
    assert DriveForm(c, names[0], tail);
  }

  lemma PlaceOf(key: string) returns (p: Place)
    ensures IsPlace(key, p)
  {
    if StartsWith(key, "//") {
      return Share(PathSegments(key[2..]));
    }
    if CanonicalizeLexicalPath(key).None? {
      return Refused;
    }
    var c, n := CanonicalizeLexicalPath(key).value, NormalizePathSlashes(key);
    CanonicalForms(key);
    if IsDriveAbsolute(n) {
      var names :| DriveForm(c, n[..2], names);
      return OnDrive(n[..2], names);
    }
    if StartsWith(n, "/") {
      var names :| RootedForm(c, names);
      return Rooted(names);
    }
    var names :| RootlessForm(c, names);
    if IsDriveSlash(c) {
      DriveSlashForm(c, names);
      var drive, rest :| DriveForm(c, drive, rest);
      return OnDrive(drive, rest);
    }
    return Rootless(names);
  }

  // The parts canonicalization takes a path into.
  ghost function PartsOf(p: Place): Option<PathParts>
    requires !p.Share?
  {
    match p
    case OnDrive(drive, names) => Some(PathParts(Some(Lower(drive)), true, names))
    case Rooted(names) => Some(PathParts(None, true, names))
    case Rootless(names) => Some(PathParts(None, false, names))
    case Refused => None
  }

  lemma RootlessParts(c: string, names: seq<string>)
    requires RootlessForm(c, names)
    ensures PathSegments(c) == names && !StartsWith(c, "/")
  {
    SegmentsOfJoin(names);
    JoinChars(names);
    if names != [] {
      assert CleanName(names[0]) && names[0][0] in names[0];
    }
  }

  lemma PlaceParts(key: string, p: Place)
    requires IsPlace(key, p) && !StartsWith(key, "//")
    ensures !p.Share? && CanonicalPathParts(key) == PartsOf(p)
  {
    match p
    case OnDrive(drive, names) => DriveFormFixed(CanonicalizeLexicalPath(key).value, drive, names);
    case Rooted(names) => RootedFormFixed(CanonicalizeLexicalPath(key).value, names);
    case Rootless(names) => RootlessParts(CanonicalizeLexicalPath(key).value, names);
    case _ =>
  }

  lemma SharesComparable(a: seq<string>, b: seq<string>)
    ensures (forall i | 0 <= i < |a| && i < |b| :: LowerAll(a)[i] == LowerAll(b)[i]) <==> OnOnePath(a, b)
  {
    var l, r := LowerAll(a), LowerAll(b);
    ComparableIff(a, b);
    assert (forall i | 0 <= i < |a| && i < |b| :: l[i] == r[i]) ==> SegmentsComparable(a, b);
  }

  // Two keys overlap exactly when their places are near.
  lemma KeysOverlapIff(left: string, right: string, p: Place, q: Place)
    requires IsPlace(left, p) && IsPlace(right, q)
    ensures IdentityPathKeysOverlap(left, right) <==> Near(p, q)
  {
    if StartsWith(left, "//") && StartsWith(right, "//") {
      SharesComparable(p.names, q.names);
    } else if !StartsWith(left, "//") && !StartsWith(right, "//") {
      PathsOverlapIff(left, right, p, q);
    } else if StartsWith(left, "//") {
      PlaceParts(right, q);
    } else {
      PlaceParts(left, p);
    }
  }

  lemma PathsOverlapIff(left: string, right: string, p: Place, q: Place)
    requires IsPlace(left, p) && IsPlace(right, q) && !StartsWith(left, "//") && !StartsWith(right, "//")
    ensures PathSegmentsOverlap(left, right) <==> Near(p, q)
  {
    PlaceParts(left, p);
    PlaceParts(right, q);
    if !p.Refused? && !q.Refused? {
      ComparableIff(p.names, q.names);
    }
    if p.OnDrive? && q.OnDrive? {
      LowerSame(p.drive, q.drive);
    }
  }

  // ----- When two claims conflict

  // A key the claim is known by: the one it was made with, or the real path behind it.
  ghost predicate KnownBy(claim: Claim, key: string)
    requires claim.PathClaim?
  {
    key == claim.key || claim.realKey == Some(key)
  }

  // The two claims are known by keys of near places.
  ghost predicate MeetAt(left: Claim, right: Claim, l: string, r: string)
    requires left.PathClaim? && right.PathClaim?
  {
    KnownBy(left, l) && KnownBy(right, r) && exists p, q :: IsPlace(l, p) && IsPlace(r, q) && Near(p, q)
  }

  // They are one file by its inode, or may lie on one path.
  ghost predicate Meet(left: Claim, right: Claim)
    requires left.PathClaim? && right.PathClaim?
  {
    || (left.inodeKey.Some? && right.inodeKey.Some? && left.inodeKey.value == right.inodeKey.value)
    || exists l, r :: MeetAt(left, right, l, r)
  }

  lemma KeysMeet(left: Claim, right: Claim, l: string, r: string)
    requires left.PathClaim? && right.PathClaim? && KnownBy(left, l) && KnownBy(right, r)
    ensures l in PathClaimKeys(left) && r in PathClaimKeys(right)
    ensures IdentityPathKeysOverlap(l, r) <==> MeetAt(left, right, l, r)
  {
    var p := PlaceOf(l);
    var q := PlaceOf(r);
    KeysOverlapIff(l, r, p, q);
    forall p', q' | IsPlace(l, p') && IsPlace(r, q')
      ensures Near(p', q') <==> IdentityPathKeysOverlap(l, r)
    {
      KeysOverlapIff(l, r, p', q');
    }
  }

  lemma MeetIff(left: Claim, right: Claim)
    requires left.PathClaim? && right.PathClaim?
    ensures PathClaimsOverlap(left, right) <==> Meet(left, right)
  {
    forall l, r | KnownBy(left, l) && KnownBy(right, r)
      ensures l in PathClaimKeys(left) && r in PathClaimKeys(right)
      ensures IdentityPathKeysOverlap(l, r) <==> MeetAt(left, right, l, r)
    {
      KeysMeet(left, right, l, r);
    }
    forall l | l in PathClaimKeys(left)
      ensures KnownBy(left, l)
    {
    }
    forall r | r in PathClaimKeys(right)
      ensures KnownBy(right, r)
    {
    }
  }

  // Two claims conflict exactly when one is exclusive, or one writes and they are of one named
  // resource or their paths meet.
  lemma ClaimsConflictIff(left: Claim, right: Claim)
    ensures ClaimsConflict(left, right) <==>
              || left.access == Exclusive || right.access == Exclusive
              || ((left.access == Write || right.access == Write)
                  && ((left.PathClaim? && right.PathClaim? && Meet(left, right))
                      || (left.NamedClaim? && right.NamedClaim? && left.kind == right.kind && left.key == right.key)))
  {
    if left.PathClaim? && right.PathClaim? {
      MeetIff(left, right);
    }
  }

  // The claims share the file behind them: a real path or an inode.
  ghost predicate ShareFile(left: Claim, right: Claim) {
    && left.PathClaim? && right.PathClaim?
    && ((left.inodeKey.Some? && left.inodeKey == right.inodeKey) || (left.realKey.Some? && left.realKey == right.realKey)
        || left.realKey == Some(right.key) || right.realKey == Some(left.key))
  }

  lemma FileConflicts(left: Claim, right: Claim)
    requires ShareFile(left, right) && (left.access == Write || right.access == Write)
    ensures ClaimsConflict(left, right)
  {
    if !(left.inodeKey.Some? && left.inodeKey == right.inodeKey) {
      var key := if left.realKey == Some(right.key) then right.key
                 else if right.realKey == Some(left.key) then left.key else left.realKey.value;
      OverlapReflexive(key);
      KeysMeet(left, right, key, key);
      assert IdentityPathKeysOverlap(key, key);
    }
  }

  // Calls that name one file through different links run in source order as soon as one writes.
  lemma LinksAreOrdered(rs: seq<Resolution>, i: nat, j: nat, a: Claim, b: Claim)
    requires i < j < |rs| && rs[i].Claims? && rs[j].Claims? && a in rs[i].claims && b in rs[j].claims
    requires ShareFile(a, b) && (a.access == Write || b.access == Write)
    ensures DagScheduler.Level(rs, i) < DagScheduler.Level(rs, j)
  {
    FileConflicts(a, b);
    DagProperties.LevelsRespectConflicts(rs, i, j);
  }
}
