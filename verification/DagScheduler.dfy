/** The dag-v2 scheduler: levels, dependency graph and width cap
    (packages/agent/src/tool-dag-scheduler.ts). */
module DagScheduler {
  import opened Wrappers
  import opened Claims

  datatype ResolvedClaimEntry = Entry(sourceIndex: nat, resolution: Resolution, canonicalClaims: seq<Claim>)

  // Entries as resolveBatchClaims builds them: canonical claims of the resolution, or none.
  ghost predicate WellFormed(entries: seq<ResolvedClaimEntry>) {
    forall e | e in entries ::
      e.canonicalClaims == if e.resolution.Claims? then CanonicalizeClaims(e.resolution.claims) else []
  }

  function Resolutions(entries: seq<ResolvedClaimEntry>): (r: seq<Resolution>)
    ensures |r| == |entries|
    ensures forall i | 0 <= i < |entries| :: r[i] == entries[i].resolution
  {
    seq(|entries|, i requires 0 <= i < |entries| => entries[i].resolution)
  }

  method ResolveBatchClaims(resolutions: seq<Resolution>) returns (entries: seq<ResolvedClaimEntry>)
    ensures WellFormed(entries) && Resolutions(entries) == resolutions
    ensures forall i | 0 <= i < |entries| :: entries[i].sourceIndex == i
  {
    entries := [];
    for index := 0 to |resolutions|
      invariant |entries| == index && WellFormed(entries)
      invariant forall i | 0 <= i < index :: entries[i].resolution == resolutions[i] && entries[i].sourceIndex == i
    {
      var resolution := resolutions[index];
      var canonicalClaims := if resolution.Claims? then CanonicalizeClaims(resolution.claims) else [];
      entries := entries + [Entry(index, resolution, canonicalClaims)];
    }
  }

  // ----- The specification: one level after the latest earlier conflict

  // A resolution the scheduler never places beside another call.
  predicate RunsAlone(r: Resolution) {
    r.ExclusiveCall? || exists c | c in r.claims :: c.access == Exclusive
  }

  // The conflict relation the levels are built from.
  predicate LevelConflict(left: Resolution, right: Resolution) {
    RunsAlone(left) || RunsAlone(right) || ResolutionsConflict(left, right)
  }

  function Level(rs: seq<Resolution>, i: nat): nat
    requires i < |rs|
    decreases i, i + 1
  {
    LatestConflict(rs, i, i)
  }

  // One more than the highest level among the calls before `j` that conflict with call `i`.
  function LatestConflict(rs: seq<Resolution>, i: nat, j: nat): nat
    requires j <= i < |rs|
    decreases i, j
  {
    if j == 0 then 0
    else
      var m := LatestConflict(rs, i, j - 1);
      if LevelConflict(rs[j - 1], rs[i]) && Level(rs, j - 1) >= m then Level(rs, j - 1) + 1 else m
  }

  // The positions before `n` on level `l`, ascending.
  function Members(rs: seq<Resolution>, n: nat, l: nat): (r: seq<nat>)
    requires n <= |rs|
    ensures forall i | i in r :: i < n
  {
    if n == 0 then []
    else if Level(rs, n - 1) == l then Members(rs, n - 1, l) + [n - 1]
    else Members(rs, n - 1, l)
  }

  function LevelCount(rs: seq<Resolution>, n: nat): nat
    requires n <= |rs|
  {
    if n == 0 then 0
    else if Level(rs, n - 1) >= LevelCount(rs, n - 1) then Level(rs, n - 1) + 1
    else LevelCount(rs, n - 1)
  }

  // The levels of a batch, each an ascending list of positions.
  function Levels(rs: seq<Resolution>): (r: seq<seq<nat>>)
    ensures |r| == LevelCount(rs, |rs|)
    ensures forall l | 0 <= l < |r| :: r[l] == Members(rs, |rs|, l)
  {
    seq(LevelCount(rs, |rs|), l requires 0 <= l => Members(rs, |rs|, l))
  }

  ghost predicate Ascending(s: seq<nat>) {
    forall a, b | 0 <= a < b < |s| :: s[a] < s[b]
  }

  lemma {:induction false} MembersExactly(rs: seq<Resolution>, n: nat, l: nat)
    requires n <= |rs|
    ensures forall i :: i in Members(rs, n, l) <==> 0 <= i < n && Level(rs, i) == l
    ensures Ascending(Members(rs, n, l))
  {
    if n > 0 {
      MembersExactly(rs, n - 1, l);
      var r := Members(rs, n - 1, l);
      assert forall b | 0 <= b < |r| :: r[b] in r;
      assert forall i :: i in r + [n - 1] <==> i in r || i == n - 1;
    }
  }

  lemma {:induction false} LatestConflictBound(rs: seq<Resolution>, i: nat, j: nat)
    requires j <= i < |rs|
    ensures forall k | 0 <= k < j && LevelConflict(rs[k], rs[i]) :: Level(rs, k) < LatestConflict(rs, i, j)
    ensures LatestConflict(rs, i, j) > 0 ==>
              exists k | 0 <= k < j :: LevelConflict(rs[k], rs[i]) && Level(rs, k) + 1 == LatestConflict(rs, i, j)
  {
    if j > 0 {
      LatestConflictBound(rs, i, j - 1);
      if LevelConflict(rs[j - 1], rs[i]) && Level(rs, j - 1) >= LatestConflict(rs, i, j - 1) {
        assert Level(rs, j - 1) + 1 == LatestConflict(rs, i, j);
      } else if LatestConflict(rs, i, j - 1) > 0 {
        var k :| 0 <= k < j - 1 && LevelConflict(rs[k], rs[i])
                 && Level(rs, k) + 1 == LatestConflict(rs, i, j - 1);
        assert 0 <= k < j && Level(rs, k) + 1 == LatestConflict(rs, i, j);
      }
    }
  }

  lemma {:induction false} LevelCountBound(rs: seq<Resolution>, n: nat)
    requires n <= |rs|
    ensures forall i | 0 <= i < n :: Level(rs, i) < LevelCount(rs, n)
    ensures LevelCount(rs, n) > 0 ==> exists i | 0 <= i < n :: Level(rs, i) + 1 == LevelCount(rs, n)
  {
    if n > 0 {
      LevelCountBound(rs, n - 1);
      if Level(rs, n - 1) >= LevelCount(rs, n - 1) {
        assert Level(rs, n - 1) + 1 == LevelCount(rs, n);
      } else {
        var i :| 0 <= i < n - 1 && Level(rs, i) + 1 == LevelCount(rs, n - 1);
        assert 0 <= i < n && Level(rs, i) + 1 == LevelCount(rs, n);
      }
    }
  }

  // ----- The level-assignment loop

  function ClaimsOf(claims: seq<Claim>, write: bool): seq<Claim> {
    if claims == [] then []
    else if (claims[0].access == Write) == write then [claims[0]] + ClaimsOf(claims[1..], write)
    else ClaimsOf(claims[1..], write)
  }

  class DagLevel {
    var indices: seq<nat>
    var writeClaims: seq<Claim>
    var readClaims: seq<Claim>
    var hasExclusive: bool

    constructor ()
      ensures indices == [] && writeClaims == [] && readClaims == [] && !hasExclusive
    {
      indices, writeClaims, readClaims, hasExclusive := [], [], [], false;
    }

    // resolutionConflictsLevel with its split read/write scan.
    predicate Rejects(resolution: Resolution)
      reads this
    {
      || hasExclusive
      || resolution.ExclusiveCall?
      || exists c | c in resolution.claims :: RejectsClaim(c)
    }

    predicate RejectsClaim(c: Claim)
      reads this
    {
      if c.access == Exclusive then true
      else if c.access == Write then ConflictsAny(c, writeClaims) || ConflictsAny(c, readClaims)
      else ConflictsAny(c, writeClaims)
    }

    // What the level records about one more call placed on it.
    method Place(entry: ResolvedClaimEntry)
      modifies this
      ensures indices == old(indices) + [entry.sourceIndex]
      ensures var alone := entry.resolution.ExclusiveCall? || exists c | c in entry.canonicalClaims :: c.access == Exclusive;
              && hasExclusive == (old(hasExclusive) || alone)
              && writeClaims == old(writeClaims) + (if alone then [] else ClaimsOf(entry.canonicalClaims, true))
              && readClaims == old(readClaims) + (if alone then [] else ClaimsOf(entry.canonicalClaims, false))
    {
      indices := indices + [entry.sourceIndex];
      if entry.resolution.ExclusiveCall? || exists c | c in entry.canonicalClaims :: c.access == Exclusive {
        hasExclusive := true;
      } else {
        var claims := entry.canonicalClaims;
        for k := 0 to |claims|
          invariant indices == old(indices) + [entry.sourceIndex] && hasExclusive == old(hasExclusive)
          invariant writeClaims + ClaimsOf(claims[k..], true) == old(writeClaims) + ClaimsOf(claims, true)
          invariant readClaims + ClaimsOf(claims[k..], false) == old(readClaims) + ClaimsOf(claims, false)
        {
          assert claims[k..][1..] == claims[k + 1..];
          assert claims[k..] == [claims[k]] + claims[k + 1..];
          if claims[k].access == Write {
            writeClaims := writeClaims + [claims[k]];
          } else {
            readClaims := readClaims + [claims[k]];
          }
        }
      }
    }
  }

  predicate ConflictsAny(claim: Claim, candidates: seq<Claim>) {
    exists c | c in candidates :: ClaimsConflict(claim, c)
  }

  ghost predicate SomeAlone(rs: seq<Resolution>, members: seq<nat>)
    requires forall m | m in members :: m < |rs|
  {
    exists m | m in members :: RunsAlone(rs[m])
  }

  ghost predicate SomeClaims(rs: seq<Resolution>, members: seq<nat>, c: Claim)
    requires forall m | m in members :: m < |rs|
  {
    exists m | m in members :: rs[m].Claims? && c in rs[m].claims
  }

  // The level's records are about exactly the calls `members`.
  ghost predicate Records(hasExclusive: bool, writers: seq<Claim>, readers: seq<Claim>, rs: seq<Resolution>, members: seq<nat>)
    requires forall m | m in members :: m < |rs|
  {
    && (hasExclusive <==> SomeAlone(rs, members))
    && (!hasExclusive ==>
          && (forall c :: c in writers <==> c.access == Write && SomeClaims(rs, members, c))
          && (forall c :: c in readers <==> c.access == Read && SomeClaims(rs, members, c)))
  }

  // The split scan decides exactly whether some member conflicts.
  lemma RejectsExactly(level: DagLevel, r: Resolution, rs: seq<Resolution>, members: seq<nat>)
    requires forall m | m in members :: m < |rs|
    requires members != []
    requires Records(level.hasExclusive, level.writeClaims, level.readClaims, rs, members)
    ensures level.Rejects(r) <==> exists m | m in members :: LevelConflict(rs[m], r)
  {
    assert members[0] in members;
    if level.hasExclusive || RunsAlone(r) {
      if RunsAlone(r) && r.Claims? {
        var c :| c in r.claims && c.access == Exclusive;
        assert level.RejectsClaim(c);
      }
    } else {
      if level.Rejects(r) {
        RejectedByMember(level, r, rs, members);
      }
      if m :| m in members && LevelConflict(rs[m], r) {
        MemberRejects(level, r, rs, members, m);
      }
    }
  }

  lemma RejectedByMember(level: DagLevel, r: Resolution, rs: seq<Resolution>, members: seq<nat>)
    requires forall m | m in members :: m < |rs|
    requires Records(level.hasExclusive, level.writeClaims, level.readClaims, rs, members)
    requires !level.hasExclusive && !RunsAlone(r) && level.Rejects(r)
    ensures exists m | m in members :: LevelConflict(rs[m], r)
  {
    var c :| c in r.claims && level.RejectsClaim(c);
    var d :| (d in level.writeClaims || d in level.readClaims) && ClaimsConflict(c, d);
    var m :| m in members && rs[m].Claims? && d in rs[m].claims;
    ClaimsConflictSymmetric(c, d);
    assert ResolutionsConflict(rs[m], r);
    assert LevelConflict(rs[m], r);
  }

  lemma MemberRejects(level: DagLevel, r: Resolution, rs: seq<Resolution>, members: seq<nat>, m: nat)
    requires forall m | m in members :: m < |rs|
    requires Records(level.hasExclusive, level.writeClaims, level.readClaims, rs, members)
    requires !level.hasExclusive && !RunsAlone(r) && m in members && LevelConflict(rs[m], r)
    ensures level.Rejects(r)
  {
    var a, b :| a in rs[m].claims && b in r.claims && ClaimsConflict(a, b);
    ClaimsConflictSymmetric(a, b);
    ReadersNeverConflict(a, b);
    assert a.access != Exclusive && b.access != Exclusive;
    assert SomeClaims(rs, members, a);
    if a.access == Write {
      assert ConflictsAny(b, level.writeClaims);
    } else {
      assert ConflictsAny(b, level.readClaims);
    }
    assert level.RejectsClaim(b);
  }

  lemma ReadersNeverConflict(a: Claim, b: Claim)
    ensures a.access == Read && b.access == Read ==> !ClaimsConflict(a, b)
  {}

  lemma {:induction false} ClaimsOfMembers(claims: seq<Claim>, write: bool)
    ensures forall c :: c in ClaimsOf(claims, write) <==> c in claims && (c.access == Write) == write
  {
    if claims != [] {
      ClaimsOfMembers(claims[1..], write);
      assert claims == [claims[0]] + claims[1..];
    }
  }

  // What a level's records become once call `n` is placed on it.
  lemma RecordsPlace(e: ResolvedClaimEntry, rs: seq<Resolution>, n: nat, members: seq<nat>,
                     had: bool, writers: seq<Claim>, readers: seq<Claim>)
    requires forall m | m in members :: m < |rs|
    requires n < |rs| && e.resolution == rs[n]
    requires e.canonicalClaims == if rs[n].Claims? then CanonicalizeClaims(rs[n].claims) else []
    requires Records(had, writers, readers, rs, members)
    ensures var alone := e.resolution.ExclusiveCall? || exists c | c in e.canonicalClaims :: c.access == Exclusive;
            Records(had || alone, writers + (if alone then [] else ClaimsOf(e.canonicalClaims, true)),
                    readers + (if alone then [] else ClaimsOf(e.canonicalClaims, false)), rs, members + [n])
  {
    CanonicalMembers(e, rs[n]);
    MembersGrow(rs, members, n);
    if !had && !RunsAlone(rs[n]) {
      RecordsGrow(e, rs, n, members, writers, readers);
    }
  }

  lemma RecordsGrow(e: ResolvedClaimEntry, rs: seq<Resolution>, n: nat, members: seq<nat>,
                    writers: seq<Claim>, readers: seq<Claim>)
    requires forall m | m in members :: m < |rs|
    requires n < |rs| && rs[n].Claims? && forall c :: c in e.canonicalClaims <==> c in rs[n].claims
    requires !RunsAlone(rs[n]) && Records(false, writers, readers, rs, members)
    ensures Records(false, writers + ClaimsOf(e.canonicalClaims, true), readers + ClaimsOf(e.canonicalClaims, false),
                    rs, members + [n])
  {
    MembersGrow(rs, members, n);
    ClaimsOfMembers(e.canonicalClaims, true);
    ClaimsOfMembers(e.canonicalClaims, false);
    var w, r := ClaimsOf(e.canonicalClaims, true), ClaimsOf(e.canonicalClaims, false);
    assert forall c :: c in writers + w <==> c in writers || c in w;
    assert forall c :: c in readers + r <==> c in readers || c in r;
  }

  lemma CanonicalMembers(e: ResolvedClaimEntry, r: Resolution)
    requires e.canonicalClaims == if r.Claims? then CanonicalizeClaims(r.claims) else []
    ensures r.Claims? ==> forall c :: c in e.canonicalClaims <==> c in r.claims
    ensures RunsAlone(r) <==> r.ExclusiveCall? || exists c | c in e.canonicalClaims :: c.access == Exclusive
  {
    if r.Claims? {
      CanonicalSorted(r.claims);
      assert forall c :: c in e.canonicalClaims <==> c in multiset(e.canonicalClaims);
      assert forall c :: c in r.claims <==> c in multiset(r.claims);
    }
  }

  lemma MembersGrow(rs: seq<Resolution>, members: seq<nat>, n: nat)
    requires n < |rs| && forall m | m in members :: m < |rs|
    ensures SomeAlone(rs, members + [n]) <==> SomeAlone(rs, members) || RunsAlone(rs[n])
    ensures forall c :: SomeClaims(rs, members + [n], c) <==>
                        SomeClaims(rs, members, c) || (rs[n].Claims? && c in rs[n].claims)
  {
    var grown := members + [n];
    assert forall m :: m in grown <==> m in members || m == n;
    assert n in grown;
  }

  // The indices a level reports are its members' source indices.
  function SourceIndices(entries: seq<ResolvedClaimEntry>, positions: seq<nat>): (r: seq<nat>)
    requires forall p | p in positions :: p < |entries|
    ensures |r| == |positions|
    ensures forall k | 0 <= k < |positions| :: positions[k] in positions && r[k] == entries[positions[k]].sourceIndex
  {
    if positions == [] then []
    else
      var last := positions[|positions| - 1];
      var init := positions[..|positions| - 1];
      assert last in positions && forall p | p in init :: p in positions;
      SourceIndices(entries, init) + [entries[last].sourceIndex]
  }

  ghost predicate LevelIs(level: DagLevel, entries: seq<ResolvedClaimEntry>, n: nat, l: nat)
    requires n <= |entries|
    reads level
  {
    var rs := Resolutions(entries);
    && level.indices == SourceIndices(entries, Members(rs, n, l))
    && Records(level.hasExclusive, level.writeClaims, level.readClaims, rs, Members(rs, n, l))
  }

  // The inner loop: the level one past the last one that rejects the call.
  method TargetLevel(levels: seq<DagLevel>, entries: seq<ResolvedClaimEntry>, n: nat) returns (target: nat)
    requires n < |entries| && |levels| == LevelCount(Resolutions(entries), n)
    requires forall l | 0 <= l < |levels| :: LevelIs(levels[l], entries, n, l)
    ensures target == Level(Resolutions(entries), n)
  {
    ghost var rs := Resolutions(entries);
    target := 0;
    for levelIndex := 0 to |levels|
      invariant target <= levelIndex
      invariant target > 0 ==> exists k | 0 <= k < n :: LevelConflict(rs[k], rs[n]) && Level(rs, k) + 1 == target
      invariant forall k | 0 <= k < n && LevelConflict(rs[k], rs[n]) && Level(rs, k) < levelIndex :: Level(rs, k) < target
    {
      LevelNotEmpty(rs, n, levelIndex);
      MembersExactly(rs, n, levelIndex);
      RejectsExactly(levels[levelIndex], rs[n], rs, Members(rs, n, levelIndex));
      assert forall k | 0 <= k < n && Level(rs, k) == levelIndex :: k in Members(rs, n, levelIndex);
      if levels[levelIndex].Rejects(entries[n].resolution) {
        ghost var m :| m in Members(rs, n, levelIndex) && LevelConflict(rs[m], rs[n]);
        assert 0 <= m < n && LevelConflict(rs[m], rs[n]) && Level(rs, m) + 1 == levelIndex + 1;
        target := levelIndex + 1;
      }
    }
    LevelCountBound(rs, n);
    LatestConflictBound(rs, n, n);
  }

  // Below the level count every level has a member.
  lemma {:induction false} LevelNotEmpty(rs: seq<Resolution>, n: nat, l: nat)
    requires n <= |rs| && l < LevelCount(rs, n)
    ensures Members(rs, n, l) != []
    ensures exists i | 0 <= i < n :: Level(rs, i) == l
  {
    LevelCountBound(rs, n);
    var i :| 0 <= i < n && Level(rs, i) + 1 == LevelCount(rs, n);
    LevelBelow(rs, i, l);
    MembersExactly(rs, n, l);
    var k :| 0 <= k <= i && Level(rs, k) == l;
    assert k in Members(rs, n, l);
  }

  lemma {:induction false} LevelBelow(rs: seq<Resolution>, i: nat, l: nat)
    requires i < |rs| && l <= Level(rs, i)
    ensures exists k | 0 <= k <= i :: Level(rs, k) == l
  {
    if l < Level(rs, i) {
      LatestConflictBound(rs, i, i);
      var k :| 0 <= k < i && LevelConflict(rs[k], rs[i]) && Level(rs, k) + 1 == Level(rs, i);
      LevelBelow(rs, k, l);
    }
  }

  // The level records after the first n calls: one per specified level, in order, no two shared.
  ghost predicate Represents(levels: seq<DagLevel>, entries: seq<ResolvedClaimEntry>, n: nat)
    requires n <= |entries|
    reads levels
  {
    && |levels| == LevelCount(Resolutions(entries), n)
    && (forall l, m | 0 <= l < m < |levels| :: levels[l] != levels[m])
    && forall l | 0 <= l < |levels| :: LevelIs(levels[l], entries, n, l)
  }

  // assignDagLevels: every level holds exactly the calls whose specified level it is, ascending.
  method AssignDagLevels(entries: seq<ResolvedClaimEntry>) returns (result: seq<seq<nat>>)
    requires WellFormed(entries)
    ensures |result| == LevelCount(Resolutions(entries), |entries|)
    ensures forall l | 0 <= l < |result| ::
              result[l] == SourceIndices(entries, Members(Resolutions(entries), |entries|, l))
  {
    var levels: seq<DagLevel> := [];
    for n := 0 to |entries|
      invariant forall l | 0 <= l < |levels| :: fresh(levels[l])
      invariant Represents(levels, entries, n)
    {
      levels := PlaceNext(levels, entries, n);
    }
    result := LevelIndices(levels);
  }

  method LevelIndices(levels: seq<DagLevel>) returns (result: seq<seq<nat>>)
    ensures |result| == |levels| && forall k | 0 <= k < |levels| :: result[k] == levels[k].indices
  {
    result := [];
    for l := 0 to |levels|
      invariant |result| == l
      invariant forall k | 0 <= k < l :: result[k] == levels[k].indices
    {
      result := result + [levels[l].indices];
    }
  }

  // The body of the outer loop: the call joins the level after its last conflict.
  method PlaceNext(levels: seq<DagLevel>, entries: seq<ResolvedClaimEntry>, n: nat) returns (r: seq<DagLevel>)
    requires WellFormed(entries) && n < |entries| && Represents(levels, entries, n)
    modifies levels
    ensures Represents(r, entries, n + 1)
    ensures forall l | 0 <= l < |r| :: fresh(r[l]) || (l < |levels| && r[l] == levels[l])
  {
    var targetIndex := TargetLevel(levels, entries, n);
    assert forall l | 0 <= l < |levels| :: levels[l] in levels;
    r := WithRoom(levels, entries, n, targetIndex);
    PlaceCall(r, entries, n, targetIndex);
  }

  // A new empty level at the end when the target is one past the last level.
  method WithRoom(levels: seq<DagLevel>, entries: seq<ResolvedClaimEntry>, n: nat, targetIndex: nat) returns (r: seq<DagLevel>)
    requires n < |entries| && |levels| == LevelCount(Resolutions(entries), n)
    requires targetIndex == Level(Resolutions(entries), n)
    requires Represents(levels, entries, n)
    ensures |r| == LevelCount(Resolutions(entries), n + 1) && targetIndex < |r|
    ensures forall l | 0 <= l < |r| :: fresh(r[l]) || (l < |levels| && r[l] == levels[l])
    ensures forall l, m | 0 <= l < m < |r| :: r[l] != r[m]
    ensures forall l | 0 <= l < |r| :: LevelIs(r[l], entries, n, l)
  {
    r := levels;
    LevelAtMostCount(Resolutions(entries), n);
    if targetIndex == |levels| {
      var empty := new DagLevel();
      EmptyLevel(empty, entries, n, targetIndex);
      assert Represents(levels, entries, n);
      r := levels + [empty];
      forall l | 0 <= l < |r|
        ensures LevelIs(r[l], entries, n, l) && (l < |levels| ==> r[l] == levels[l] && levels[l] != empty)
      {
        if l < |levels| {
          assert LevelIs(levels[l], entries, n, l);
        }
      }
    }
  }

  lemma EmptyLevel(level: DagLevel, entries: seq<ResolvedClaimEntry>, n: nat, l: nat)
    requires n <= |entries| && l >= LevelCount(Resolutions(entries), n)
    requires level.indices == [] && level.writeClaims == [] && level.readClaims == [] && !level.hasExclusive
    ensures LevelIs(level, entries, n, l)
  {
    NoMembers(Resolutions(entries), n, l);
  }

  // One call joins its level; the records of every other level stay as they are.
  method PlaceCall(levels: seq<DagLevel>, entries: seq<ResolvedClaimEntry>, n: nat, targetIndex: nat)
    requires WellFormed(entries) && n < |entries|
    requires targetIndex == Level(Resolutions(entries), n) && targetIndex < |levels|
    requires forall l, m | 0 <= l < m < |levels| :: levels[l] != levels[m]
    requires forall l | 0 <= l < |levels| :: LevelIs(levels[l], entries, n, l)
    modifies levels[targetIndex]
    ensures forall l | 0 <= l < |levels| :: LevelIs(levels[l], entries, n + 1, l)
  {
    ghost var rs := Resolutions(entries);
    var target := levels[targetIndex];
    RecordsPlace(entries[n], rs, n, Members(rs, n, targetIndex), target.hasExclusive, target.writeClaims, target.readClaims);
    SourceIndicesGrow(entries, Members(rs, n, targetIndex), n);
    target.Place(entries[n]);
    forall l | 0 <= l < |levels|
      ensures LevelIs(levels[l], entries, n + 1, l)
    {
      if l != targetIndex {
        assert Members(rs, n + 1, l) == Members(rs, n, l);
      }
    }
  }

  lemma NoMembers(rs: seq<Resolution>, n: nat, l: nat)
    requires n <= |rs| && l >= LevelCount(rs, n)
    ensures Members(rs, n, l) == []
  {
    var members := Members(rs, n, l);
    if members != [] {
      var i := members[0];
      assert i in members;
      MembersExactly(rs, n, l);
      LevelCountBound(rs, n);
    }
  }

  lemma SourceIndicesGrow(entries: seq<ResolvedClaimEntry>, positions: seq<nat>, n: nat)
    requires n < |entries| && forall p | p in positions :: p < |entries|
    ensures SourceIndices(entries, positions + [n]) == SourceIndices(entries, positions) + [entries[n].sourceIndex]
  {
    var grown := positions + [n];
    assert grown[..|grown| - 1] == positions;
  }

  lemma LevelAtMostCount(rs: seq<Resolution>, n: nat)
    requires n < |rs|
    ensures Level(rs, n) <= LevelCount(rs, n)
  {
    LevelCountBound(rs, n);
    LatestConflictBound(rs, n, n);
  }

  // With entries numbered by position, the method returns the specified levels.
  lemma SourceIndicesId(entries: seq<ResolvedClaimEntry>, positions: seq<nat>)
    requires forall p | p in positions :: p < |entries|
    requires forall i | 0 <= i < |entries| :: entries[i].sourceIndex == i
    ensures SourceIndices(entries, positions) == positions
  {
    assert forall k | 0 <= k < |positions| :: positions[k] in positions;
  }
}
