/** What the dag-v2 plan guarantees: longest conflict paths, minimality, the dependency graph,
    the width cap and serializable execution (packages/agent/src/tool-dag-scheduler.ts). */
module DagProperties {
  import opened Sequences
  import opened Wrappers
  import opened Claims
  import opened DagScheduler
  import opened Traces

  // No claim list holds an exclusive access: such a call is resolved to an exclusive one instead.
  ghost predicate Normal(rs: seq<Resolution>) {
    forall r | r in rs :: RunsAlone(r) ==> r.ExclusiveCall?
  }

  // ----- The level relation against the pairwise relation

  // The level check and the pairwise check differ exactly on a claim list holding an exclusive
  // access beside a call without claims.
  lemma LevelCheckExact(a: Resolution, b: Resolution)
    ensures LevelConflict(a, b) == ResolutionsConflict(a, b) <==>
            !(a.Claims? && RunsAlone(a) && b == Claims([])) && !(b.Claims? && RunsAlone(b) && a == Claims([]))
  {
    if a.Claims? && b.Claims? {
      if a.claims != [] && RunsAlone(b) {
        var y :| y in b.claims && y.access == Exclusive;
        assert a.claims[0] in a.claims && ClaimsConflict(a.claims[0], y);
      }
      if b.claims != [] && RunsAlone(a) {
        var x :| x in a.claims && x.access == Exclusive;
        assert b.claims[0] in b.claims && ClaimsConflict(x, b.claims[0]);
      }
    }
  }

  lemma NormalLevelCheck(a: Resolution, b: Resolution)
    requires RunsAlone(a) ==> a.ExclusiveCall?
    requires RunsAlone(b) ==> b.ExclusiveCall?
    ensures LevelConflict(a, b) == ResolutionsConflict(a, b)
  {}

  // ----- Safety and the longest conflict path, for any input

  // A later call that conflicts with an earlier one is on a later level.
  lemma LevelsRespectConflicts(rs: seq<Resolution>, i: nat, j: nat)
    requires i < j < |rs| && LevelConflict(rs[i], rs[j])
    ensures Level(rs, i) < Level(rs, j)
  {
    LatestConflictBound(rs, j, j);
  }

  // Two calls of one level never conflict.
  lemma LevelMatesIndependent(rs: seq<Resolution>, l: nat, i: nat, j: nat)
    requires i in Members(rs, |rs|, l) && j in Members(rs, |rs|, l) && i != j
    ensures !ResolutionsConflict(rs[i], rs[j])
  {
    MembersExactly(rs, |rs|, l);
    ResolutionsConflictSymmetric(rs[i], rs[j]);
    if i < j {
      LatestConflictBound(rs, j, j);
    } else {
      LatestConflictBound(rs, i, i);
    }
  }

  ghost predicate ConflictPath(rs: seq<Resolution>, p: seq<nat>) {
    && p != [] && (forall k | 0 <= k < |p| :: p[k] < |rs|)
    && forall k | 0 <= k < |p| - 1 :: p[k] < p[k + 1] && LevelConflict(rs[p[k]], rs[p[k + 1]])
  }

  lemma {:induction false} PathBound(rs: seq<Resolution>, p: seq<nat>)
    requires ConflictPath(rs, p)
    ensures |p| <= Level(rs, p[|p| - 1]) + 1
  {
    if |p| > 1 {
      var q := p[..|p| - 1];
      assert forall k | 0 <= k < |q| :: q[k] == p[k];
      PathBound(rs, q);
      var k := |p| - 2;
      assert p[k] < p[k + 1];
      LevelsRespectConflicts(rs, p[k], p[k + 1]);
    }
  }

  lemma {:induction false} PathExists(rs: seq<Resolution>, i: nat) returns (p: seq<nat>)
    requires i < |rs|
    ensures ConflictPath(rs, p) && p[|p| - 1] == i && |p| == Level(rs, i) + 1
    decreases i
  {
    if Level(rs, i) == 0 {
      p := [i];
    } else {
      LatestConflictBound(rs, i, i);
      var k :| 0 <= k < i && LevelConflict(rs[k], rs[i]) && Level(rs, k) + 1 == Level(rs, i);
      var q := PathExists(rs, k);
      p := q + [i];
    }
  }

  // ----- The dependency graph

  function Blockers(rs: seq<Resolution>, i: nat, n: nat): seq<nat>
    requires n <= i < |rs|
  {
    if n == 0 then []
    else
      var earlier := Blockers(rs, i, n - 1);
      if ResolutionsConflict(rs[n - 1], rs[i]) then earlier + [n - 1] else earlier
  }

  lemma {:induction false} BlockersExactly(rs: seq<Resolution>, i: nat, n: nat)
    requires n <= i < |rs|
    ensures forall j :: j in Blockers(rs, i, n) <==> 0 <= j < n && ResolutionsConflict(rs[j], rs[i])
    ensures Ascending(Blockers(rs, i, n))
  {
    if n > 0 {
      BlockersExactly(rs, i, n - 1);
      var b := Blockers(rs, i, n - 1);
      assert forall k | 0 <= k < |b| :: b[k] in b;
      assert forall j :: j in b + [n - 1] <==> j in b || j == n - 1;
    }
  }

  method AssignDagDependencies(entries: seq<ResolvedClaimEntry>) returns (dependencies: seq<seq<nat>>)
    ensures |dependencies| == |entries|
    ensures forall i, j | 0 <= i < |entries| :: j in dependencies[i] <==>
              0 <= j < i && ResolutionsConflict(entries[j].resolution, entries[i].resolution)
    ensures forall i | 0 <= i < |entries| :: Ascending(dependencies[i])
  {
    dependencies := [];
    ghost var rs := Resolutions(entries);
    for index := 0 to |entries|
      invariant |dependencies| == index
      invariant forall i | 0 <= i < index :: dependencies[i] == Blockers(rs, i, i)
    {
      var blockers: seq<nat> := [];
      for earlier := 0 to index
        invariant blockers == Blockers(rs, index, earlier)
      {
        if ResolutionsConflict(entries[earlier].resolution, entries[index].resolution) {
          blockers := blockers + [earlier];
        }
      }
      dependencies := dependencies + [blockers];
    }
    forall i | 0 <= i < |entries|
      ensures Ascending(dependencies[i])
      ensures forall j :: j in dependencies[i] <==>
                0 <= j < i && ResolutionsConflict(entries[j].resolution, entries[i].resolution)
    {
      BlockersExactly(rs, i, i);
    }
  }

  // What assignDagDependencies returns, as the graph of earlier conflicting calls.
  ghost predicate IsDependencyGraph(rs: seq<Resolution>, deps: seq<seq<nat>>) {
    && |deps| == |rs|
    && forall i, j | 0 <= i < |deps| :: j in deps[i] <==> 0 <= j < i && ResolutionsConflict(rs[j], rs[i])
  }

  ghost predicate GraphPath(deps: seq<seq<nat>>, p: seq<nat>) {
    && p != [] && (forall k | 0 <= k < |p| :: p[k] < |deps|)
    && forall k | 0 <= k < |p| - 1 :: p[k] in deps[p[k + 1]]
  }

  // The graph is never deeper than the levels.
  lemma GraphNoDeeper(rs: seq<Resolution>, deps: seq<seq<nat>>, p: seq<nat>)
    requires IsDependencyGraph(rs, deps) && GraphPath(deps, p)
    ensures |p| <= Level(rs, p[|p| - 1]) + 1
  {
    forall k | 0 <= k < |p| - 1
      ensures p[k] < p[k + 1] && LevelConflict(rs[p[k]], rs[p[k + 1]])
    {
      EdgeConflicts(rs, deps, p[k], p[k + 1]);
    }
    PathBound(rs, p);
  }

  lemma EdgeConflicts(rs: seq<Resolution>, deps: seq<seq<nat>>, from: nat, to: nat)
    requires IsDependencyGraph(rs, deps) && to < |deps| && from in deps[to]
    ensures from < to && LevelConflict(rs[from], rs[to])
  {
    assert ResolutionsConflict(rs[from], rs[to]);
  }

  // For normal-form claims a call's level is the length of a longest path of the graph ending at it.
  lemma LevelIsLongestPath(rs: seq<Resolution>, deps: seq<seq<nat>>, i: nat)
    requires Normal(rs) && IsDependencyGraph(rs, deps) && i < |rs|
    ensures exists p :: GraphPath(deps, p) && p[|p| - 1] == i && |p| == Level(rs, i) + 1
    ensures forall p | GraphPath(deps, p) && p[|p| - 1] == i :: |p| <= Level(rs, i) + 1
  {
    var p := PathExists(rs, i);
    forall k | 0 <= k < |p| - 1
      ensures p[k] in deps[p[k + 1]]
    {
      assert p[k] < p[k + 1];
      NormalLevelCheck(rs[p[k]], rs[p[k + 1]]);
    }
    assert GraphPath(deps, p);
    forall q | GraphPath(deps, q) && q[|q| - 1] == i
      ensures |q| <= Level(rs, i) + 1
    {
      GraphNoDeeper(rs, deps, q);
    }
  }

  // Without normal form the levels can be deeper than the graph.
  lemma NotNormalExample()
    ensures var rs := [Claims([NamedClaim(Global, "k", Exclusive)]), Claims([])];
            Level(rs, 1) == 1 && !ResolutionsConflict(rs[0], rs[1])
  {
    var rs := [Claims([NamedClaim(Global, "k", Exclusive)]), Claims([])];
    assert NamedClaim(Global, "k", Exclusive) in rs[0].claims;
    assert RunsAlone(rs[0]);
    LatestConflictBound(rs, 1, 1);
    assert LatestConflict(rs, 1, 1) > 0;
    LatestConflictBound(rs, 0, 0);
  }

  // ----- Minimality

  // Gives every call a slot after the slots of the earlier calls it conflicts with.
  ghost predicate RespectsOrder(rs: seq<Resolution>, slot: seq<nat>) {
    && |slot| == |rs|
    && forall i, j | 0 <= i < j < |rs| :: ResolutionsConflict(rs[i], rs[j]) ==> slot[i] < slot[j]
  }

  lemma {:induction false} LevelMinimal(rs: seq<Resolution>, slot: seq<nat>, i: nat)
    requires Normal(rs) && RespectsOrder(rs, slot) && i < |rs|
    ensures Level(rs, i) <= slot[i]
    decreases i
  {
    LatestConflictBound(rs, i, i);
    if Level(rs, i) > 0 {
      var k :| 0 <= k < i && LevelConflict(rs[k], rs[i]) && Level(rs, k) + 1 == Level(rs, i);
      NormalLevelCheck(rs[k], rs[i]);
      LevelMinimal(rs, slot, k);
    }
  }

  // No order-respecting assignment uses fewer slots than there are levels.
  lemma LevelCountMinimal(rs: seq<Resolution>, slot: seq<nat>, slots: nat)
    requires Normal(rs) && RespectsOrder(rs, slot)
    requires forall i | 0 <= i < |slot| :: slot[i] < slots
    ensures LevelCount(rs, |rs|) <= slots
  {
    LevelCountBound(rs, |rs|);
    if LevelCount(rs, |rs|) > 0 {
      var i :| 0 <= i < |rs| && Level(rs, i) + 1 == LevelCount(rs, |rs|);
      LevelMinimal(rs, slot, i);
    }
  }

  // The levels themselves respect the order, so the bounds above are attained.
  lemma LevelsAttainMinimum(rs: seq<Resolution>)
    ensures RespectsOrder(rs, seq(|rs|, (i: nat) requires i < |rs| => Level(rs, i)))
  {
    forall i, j | 0 <= i < j < |rs| && ResolutionsConflict(rs[i], rs[j])
      ensures Level(rs, i) < Level(rs, j)
    {
      LevelsRespectConflicts(rs, i, j);
    }
  }

  // ----- Levels depend only on which calls conflict

  ghost predicate SameConflicts(rs: seq<Resolution>, qs: seq<Resolution>) {
    |rs| == |qs| && forall a, b | 0 <= a < b < |rs| :: LevelConflict(rs[a], rs[b]) == LevelConflict(qs[a], qs[b])
  }

  lemma {:induction false} LevelDependsOnConflicts(rs: seq<Resolution>, qs: seq<Resolution>, i: nat, j: nat)
    requires SameConflicts(rs, qs) && j <= i < |rs|
    ensures LatestConflict(rs, i, j) == LatestConflict(qs, i, j)
    decreases i, j
  {
    if j > 0 {
      LevelDependsOnConflicts(rs, qs, i, j - 1);
      LevelDependsOnConflicts(rs, qs, j - 1, j - 1);
      assert Level(rs, j - 1) == Level(qs, j - 1);
      assert LevelConflict(rs[j - 1], rs[i]) == LevelConflict(qs[j - 1], qs[i]);
    }
  }

  ghost predicate SameClaims(a: Resolution, b: Resolution) {
    match (a, b)
    case (ExclusiveCall, ExclusiveCall) => true
    case (Claims(x), Claims(y)) => multiset(x) == multiset(y)
    case _ => false
  }

  // Permuting the claims inside calls leaves every level as it is.
  lemma LevelsIgnoreClaimOrder(rs: seq<Resolution>, qs: seq<Resolution>, i: nat)
    requires |rs| == |qs| && i < |rs|
    requires forall k | 0 <= k < |rs| :: SameClaims(rs[k], qs[k])
    ensures Level(rs, i) == Level(qs, i)
  {
    forall a, b | 0 <= a < b < |rs|
      ensures LevelConflict(rs[a], rs[b]) == LevelConflict(qs[a], qs[b])
    {
      assert SameClaims(rs[a], qs[a]) && SameClaims(rs[b], qs[b]);
      ConflictIgnoresClaimOrder(rs[a], qs[a], rs[b], qs[b]);
    }
    LevelDependsOnConflicts(rs, qs, i, i);
  }

  lemma ConflictIgnoresClaimOrder(a: Resolution, a': Resolution, b: Resolution, b': Resolution)
    requires SameClaims(a, a') && SameClaims(b, b')
    ensures LevelConflict(a, b) == LevelConflict(a', b')
  {
    assert a.Claims? ==> forall c :: c in a.claims <==> c in multiset(a.claims);
    assert a'.Claims? ==> forall c :: c in a'.claims <==> c in multiset(a'.claims);
    assert b.Claims? ==> forall c :: c in b.claims <==> c in multiset(b.claims);
    assert b'.Claims? ==> forall c :: c in b'.claims <==> c in multiset(b'.claims);
  }

  // ----- The width cap

  datatype Cap = Absent | NonFinite | Width(width: real)

  function IntegerCap(cap: Cap): Option<nat> {
    if !cap.Width? || cap.width <= 0.0 then None
    else Some(if cap.width.Floor < 1 then 1 else cap.width.Floor)
  }

  // Contiguous pieces of at most `w` elements, all full but the last.
  function Chunks(level: seq<nat>, w: nat): seq<seq<nat>>
    requires w >= 1
    decreases |level|
  {
    if |level| <= w then [level] else [level[..w]] + Chunks(level[w..], w)
  }

  function CapLevels(levels: seq<seq<nat>>, cap: Cap): seq<seq<nat>> {
    match IntegerCap(cap)
    case None => levels
    case Some(w) =>
      if levels == [] then [] else Chunks(levels[0], w) + CapLevels(levels[1..], cap)
  }

  method ApplyConcurrencyCap(levels: seq<seq<nat>>, cap: Cap) returns (chunked: seq<seq<nat>>)
    ensures chunked == CapLevels(levels, cap)
  {
    if !cap.Width? || cap.width <= 0.0 {
      return levels;
    }
    var integerCap := if cap.width.Floor < 1 then 1 else cap.width.Floor;
    chunked := [];
    for l := 0 to |levels|
      invariant chunked + CapLevels(levels[l..], cap) == CapLevels(levels, cap)
    {
      var level := levels[l];
      assert levels[l..][1..] == levels[l + 1..];
      ConcatAssoc(chunked, Chunks(level, integerCap), CapLevels(levels[l + 1..], cap));
      if |level| <= integerCap {
        chunked := chunked + [level];
      } else {
        chunked := AppendChunks(chunked, level, integerCap);
      }
    }
  }

  // The inner loop: a wide level is cut into slices of the cap's width.
  method AppendChunks(before: seq<seq<nat>>, level: seq<nat>, integerCap: nat) returns (chunked: seq<seq<nat>>)
    requires 1 <= integerCap < |level|
    ensures chunked == before + Chunks(level, integerCap)
  {
    chunked := before;
    var start := 0;
    while start < |level|
      invariant 0 <= start
      invariant start < |level| ==> chunked + Chunks(level[start..], integerCap) == before + Chunks(level, integerCap)
      invariant start >= |level| ==> chunked == before + Chunks(level, integerCap)
    {
      var end := if start + integerCap < |level| then start + integerCap else |level|;
      if end < |level| {
        assert level[start..][..integerCap] == level[start..end];
        assert level[start..][integerCap..] == level[end..];
        ConcatAssoc(chunked, [level[start..end]], Chunks(level[end..], integerCap));
      } else {
        assert level[start..end] == level[start..];
      }
      chunked := chunked + [level[start..end]];
      start := start + integerCap;
    }
  }

  function Concat(levels: seq<seq<nat>>): seq<nat> {
    if levels == [] then [] else levels[0] + Concat(levels[1..])
  }

  lemma {:induction false} ConcatAppend(a: seq<seq<nat>>, b: seq<seq<nat>>)
    ensures Concat(a + b) == Concat(a) + Concat(b)
  {
    if a == [] {
      assert a + b == b;
    } else {
      assert (a + b)[1..] == a[1..] + b;
      ConcatAppend(a[1..], b);
    }
  }

  lemma {:induction false} ChunksFacts(level: seq<nat>, w: nat)
    requires w >= 1
    ensures Concat(Chunks(level, w)) == level
    ensures forall c | c in Chunks(level, w) :: |c| <= w && (level != [] ==> c != []) && forall x | x in c :: x in level
    decreases |level|
  {
    if |level| > w {
      var first, rest := level[..w], level[w..];
      ChunksFacts(rest, w);
      assert level == first + rest;
      assert ([first] + Chunks(rest, w))[1..] == Chunks(rest, w);
      forall c | c in Chunks(level, w)
        ensures |c| <= w && c != [] && forall x | x in c :: x in level
      {
        if c != first {
          assert c in Chunks(rest, w);
        }
      }
    } else {
      assert [level][1..] == [];
    }
  }

  // The cap keeps every call in its order, bounds the width, and makes no empty level.
  lemma {:induction false} CapFacts(levels: seq<seq<nat>>, cap: Cap)
    ensures Concat(CapLevels(levels, cap)) == Concat(levels)
    ensures IntegerCap(cap).Some? ==> forall c | c in CapLevels(levels, cap) :: |c| <= IntegerCap(cap).value
    ensures (forall l | l in levels :: l != []) ==> forall c | c in CapLevels(levels, cap) :: c != []
    decreases |levels|
  {
    if IntegerCap(cap).Some? && levels != [] {
      ChunksFacts(levels[0], IntegerCap(cap).value);
      CapFacts(levels[1..], cap);
      ConcatAppend(Chunks(levels[0], IntegerCap(cap).value), CapLevels(levels[1..], cap));
      assert levels[0] in levels && forall l | l in levels[1..] :: l in levels;
    }
  }

  // Each chunk comes from one level, and chunks come in the order of their levels.
  ghost predicate Origins(levels: seq<seq<nat>>, chunked: seq<seq<nat>>, origin: seq<nat>) {
    && |origin| == |chunked|
    && (forall a | 0 <= a < |chunked| :: origin[a] < |levels| && forall x | x in chunked[a] :: x in levels[origin[a]])
    && forall a, b | 0 <= a <= b < |origin| :: origin[a] <= origin[b]
  }

  lemma {:induction false} CapOrigins(levels: seq<seq<nat>>, cap: Cap) returns (origin: seq<nat>)
    ensures Origins(levels, CapLevels(levels, cap), origin)
    decreases |levels|
  {
    if IntegerCap(cap).None? {
      origin := seq(|levels|, i => i);
    } else if levels == [] {
      origin := [];
    } else {
      var rest := CapOrigins(levels[1..], cap);
      var head := Chunks(levels[0], IntegerCap(cap).value);
      ChunksFacts(levels[0], IntegerCap(cap).value);
      OriginsAfter(levels, head, CapLevels(levels[1..], cap), rest);
      origin := OriginsFrom(|head|, rest);
    }
  }

  function OriginsFrom(n: nat, rest: seq<nat>): (r: seq<nat>)
    ensures |r| == n + |rest|
    ensures forall a | 0 <= a < n :: r[a] == 0
    ensures forall a | n <= a < |r| :: r[a] == rest[a - n] + 1
  {
    seq(n, i => 0) + seq(|rest|, i requires 0 <= i < |rest| => rest[i] + 1)
  }

  lemma OriginsAfter(levels: seq<seq<nat>>, head: seq<seq<nat>>, tail: seq<seq<nat>>, rest: seq<nat>)
    requires levels != [] && Origins(levels[1..], tail, rest)
    requires forall c | c in head :: forall x | x in c :: x in levels[0]
    ensures Origins(levels, head + tail, OriginsFrom(|head|, rest))
  {
    var origin, chunked := OriginsFrom(|head|, rest), head + tail;
    forall a | 0 <= a < |chunked|
      ensures origin[a] < |levels| && forall x | x in chunked[a] :: x in levels[origin[a]]
    {
      if a < |head| {
        assert chunked[a] in head;
      } else {
        assert chunked[a] == tail[a - |head|];
        assert levels[1..][rest[a - |head|]] == levels[origin[a]];
      }
    }
  }

  lemma {:induction false} ChunksFull(level: seq<nat>, w: nat)
    requires w >= 1
    ensures Chunks(level, w) != [] && forall a | 0 <= a < |Chunks(level, w)| - 1 :: |Chunks(level, w)[a]| == w
    decreases |level|
  {
    if |level| > w {
      ChunksFull(level[w..], w);
    }
  }

  // Slices of one level are full, but the last.
  lemma {:induction false} FullSlices(levels: seq<seq<nat>>, cap: Cap) returns (origin: seq<nat>)
    requires IntegerCap(cap).Some?
    ensures Origins(levels, CapLevels(levels, cap), origin)
    ensures forall a | 0 <= a < |origin| - 1 && origin[a] == origin[a + 1] :: |CapLevels(levels, cap)[a]| == IntegerCap(cap).value
    decreases |levels|
  {
    origin := [];
    if levels != [] {
      var rest := FullSlices(levels[1..], cap);
      var head := Chunks(levels[0], IntegerCap(cap).value);
      ChunksFacts(levels[0], IntegerCap(cap).value);
      ChunksFull(levels[0], IntegerCap(cap).value);
      OriginsAfter(levels, head, CapLevels(levels[1..], cap), rest);
      origin := OriginsFrom(|head|, rest);
      forall a | 0 <= a < |origin| - 1 && origin[a] == origin[a + 1]
        ensures |CapLevels(levels, cap)[a]| == IntegerCap(cap).value
      {
        if a >= |head| {
          assert rest[a - |head|] == rest[a + 1 - |head|];
        }
      }
    }
  }

  // The cap itself: without a positive finite width nothing is cut; with one, a slice holds a single
  // call or no more calls than the width, and one that another slice of its level follows has no room.
  lemma CapWidth(levels: seq<seq<nat>>, cap: Cap) returns (origin: seq<nat>)
    ensures Origins(levels, CapLevels(levels, cap), origin)
    ensures !cap.Width? || cap.width <= 0.0 ==> CapLevels(levels, cap) == levels
    ensures cap.Width? && cap.width > 0.0 ==>
              && (forall c | c in CapLevels(levels, cap) :: |c| <= 1 || |c| as real <= cap.width)
              && forall a | 0 <= a < |origin| - 1 && origin[a] == origin[a + 1] ::
                   |CapLevels(levels, cap)[a]| >= 1 && (|CapLevels(levels, cap)[a]| + 1) as real > cap.width
  {
    if IntegerCap(cap).None? {
      origin := CapOrigins(levels, cap);
    } else {
      origin := FullSlices(levels, cap);
      CapFacts(levels, cap);
      var w := IntegerCap(cap).value;
      assert (w == 1 || w as real <= cap.width) && (w + 1) as real > cap.width;
    }
  }

  // ----- Running the plan

  // One atomic step of one call.
  datatype Event = Event(call: nat, step: nat)

  // Every step of every call happens once, and each call's steps in their own order.
  ghost predicate CompleteRun(steps: seq<nat>, trace: seq<Event>) {
    && NoDuplicates(trace)
    && (forall e :: e in trace <==> e.call < |steps| && e.step < steps[e.call])
    && forall p, q | 0 <= p < q < |trace| && trace[p].call == trace[q].call :: trace[p].step < trace[q].step
  }

  // No step of an earlier level of the plan happens after a step of a later one.
  ghost predicate LevelByLevel(plan: seq<seq<nat>>, trace: seq<Event>) {
    forall p, q, a, b | 0 <= p < q < |trace| && 0 <= a < |plan| && 0 <= b < |plan| ::
      trace[p].call in plan[a] && trace[q].call in plan[b] ==> a <= b
  }

  function CallTrace(call: nat, steps: nat): seq<Event> {
    seq(steps, k requires 0 <= k => Event(call, k))
  }

  // The calls one after the other in source order.
  function SourceTrace(steps: seq<nat>): seq<Event> {
    if steps == [] then []
    else SourceTrace(steps[..|steps| - 1]) + CallTrace(|steps| - 1, steps[|steps| - 1])
  }

  lemma {:induction false} SourceTraceComplete(steps: seq<nat>)
    ensures CompleteRun(steps, SourceTrace(steps))
    ensures forall p, q | 0 <= p < q < |SourceTrace(steps)| :: SourceTrace(steps)[p].call <= SourceTrace(steps)[q].call
  {
    if steps != [] {
      var n := |steps| - 1;
      var t, u := SourceTrace(steps[..n]), CallTrace(n, steps[n]);
      SourceTraceComplete(steps[..n]);
      assert forall p | 0 <= p < |t| :: t[p] in t && t[p].call < n;
      assert forall e :: e in u <==> e.call == n && e.step < steps[n] by {
        forall e: Event | e.call == n && e.step < steps[n]
          ensures e in u
        {
          assert u[e.step] == e;
        }
      }
      assert forall e :: e in t + u <==> e in t || e in u;
    }
  }

  // Steps of one call, or of two calls whose resolutions conflict, keep their order.
  ghost predicate Dependent(rs: seq<Resolution>, e: Event, f: Event) {
    || e.call == f.call
    || (e.call < |rs| && f.call < |rs| && ResolutionsConflict(rs[e.call], rs[f.call]))
  }

  // Any interleaving that finishes each call before a later conflicting one starts ends where
  // running the batch in source order ends, if non-conflicting calls' steps commute.
  lemma ConflictOrderSerializable<S(!new)>(rs: seq<Resolution>, steps: seq<nat>, step: (Event, S) -> S, trace: seq<Event>, s: S)
    requires |steps| == |rs| && CompleteRun(steps, trace)
    requires Commutes(step, (e, f) => Dependent(rs, e, f))
    requires forall p, q | 0 <= p < |trace| && 0 <= q < |trace| && trace[p].call < trace[q].call
               && ResolutionsConflict(rs[trace[p].call], rs[trace[q].call]) :: p < q
    ensures Run(step, trace, s) == Run(step, SourceTrace(steps), s)
  {
    var source := SourceTrace(steps);
    var dep := (e, f) => Dependent(rs, e, f);
    SourceTraceComplete(steps);
    forall i, j, k, l | 0 <= i < j < |source| && 0 <= k < |trace| && 0 <= l < |trace|
                        && trace[k] == source[i] && trace[l] == source[j] && dep(source[i], source[j])
      ensures k < l
    {
      assert source[i].call <= source[j].call;
      assert source[i] in source && source[j] in source;
      if source[i].call == source[j].call {
        assert source[i].step < source[j].step;
        assert k != l;
      }
    }
    SameResult(step, dep, source, trace, s);
  }

  // Running the capped levels in order, with the calls of a level interleaved in any way, ends
  // where running the batch in source order ends.
  lemma PlanSerializable<S(!new)>(rs: seq<Resolution>, cap: Cap, steps: seq<nat>, step: (Event, S) -> S, trace: seq<Event>, s: S)
    requires |steps| == |rs| && CompleteRun(steps, trace)
    requires Commutes(step, (e, f) => Dependent(rs, e, f))
    requires LevelByLevel(CapLevels(Levels(rs), cap), trace)
    ensures Run(step, trace, s) == Run(step, SourceTrace(steps), s)
  {
    var levels, plan := Levels(rs), CapLevels(Levels(rs), cap);
    var origin := CapOrigins(levels, cap);
    forall p, q | 0 <= p < |trace| && 0 <= q < |trace| && trace[p].call < trace[q].call
                  && ResolutionsConflict(rs[trace[p].call], rs[trace[q].call])
      ensures p < q
    {
      assert trace[p] in trace && trace[q] in trace;
      var i, j := trace[p].call, trace[q].call;
      LevelsRespectConflicts(rs, i, j);
      var a := PlanHolds(rs, cap, i);
      var b := PlanHolds(rs, cap, j);
      OriginIsLevel(rs, cap, origin, a, i);
      OriginIsLevel(rs, cap, origin, b, j);
      assert origin[a] < origin[b];
      assert p != q;
    }
    ConflictOrderSerializable(rs, steps, step, trace, s);
  }

  lemma OriginIsLevel(rs: seq<Resolution>, cap: Cap, origin: seq<nat>, a: nat, i: nat)
    requires Origins(Levels(rs), CapLevels(Levels(rs), cap), origin)
    requires a < |CapLevels(Levels(rs), cap)| && i in CapLevels(Levels(rs), cap)[a] && i < |rs|
    ensures origin[a] == Level(rs, i)
  {
    assert i in Levels(rs)[origin[a]];
    MembersExactly(rs, |rs|, origin[a]);
  }

  // Every call is in some chunk of the plan.
  lemma PlanHolds(rs: seq<Resolution>, cap: Cap, i: nat) returns (a: nat)
    requires i < |rs|
    ensures a < |CapLevels(Levels(rs), cap)| && i in CapLevels(Levels(rs), cap)[a]
  {
    var levels := Levels(rs);
    LevelCountBound(rs, |rs|);
    MembersExactly(rs, |rs|, Level(rs, i));
    assert i in levels[Level(rs, i)];
    ConcatMember(levels, Level(rs, i), i);
    CapFacts(levels, cap);
    a := MemberOfConcat(CapLevels(levels, cap), i);
  }

  lemma {:induction false} ConcatMember(levels: seq<seq<nat>>, l: nat, x: nat)
    requires l < |levels| && x in levels[l]
    ensures x in Concat(levels)
  {
    if l > 0 {
      ConcatMember(levels[1..], l - 1, x);
    }
  }

  lemma {:induction false} MemberOfConcat(levels: seq<seq<nat>>, x: nat) returns (l: nat)
    requires x in Concat(levels)
    ensures l < |levels| && x in levels[l]
  {
    if x in levels[0] {
      l := 0;
    } else {
      l := MemberOfConcat(levels[1..], x);
      l := l + 1;
    }
  }

  // A consumer of the dependency graph that starts each call once its own predecessors are done
  // also ends where source order ends.
  lemma DependencyRunSerializable<S(!new)>(rs: seq<Resolution>, deps: seq<seq<nat>>, steps: seq<nat>,
                                           step: (Event, S) -> S, trace: seq<Event>, s: S)
    requires |steps| == |rs| && CompleteRun(steps, trace) && IsDependencyGraph(rs, deps)
    requires Commutes(step, (e, f) => Dependent(rs, e, f))
    requires forall p, q | 0 <= p < |trace| && 0 <= q < |trace| && trace[q].call < |deps|
               && trace[p].call in deps[trace[q].call] :: p < q
    ensures Run(step, trace, s) == Run(step, SourceTrace(steps), s)
  {
    forall p, q | 0 <= p < |trace| && 0 <= q < |trace| && trace[p].call < trace[q].call
                  && ResolutionsConflict(rs[trace[p].call], rs[trace[q].call])
      ensures p < q
    {
      assert trace[q] in trace;
      assert trace[p].call in deps[trace[q].call];
    }
    ConflictOrderSerializable(rs, steps, step, trace, s);
  }
}
