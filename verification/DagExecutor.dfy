/** The dag-v2 batch executor: candidate levels, authorization, re-planning from final arguments,
    and buffered results in source order (packages/agent/src/agent-loop.ts:957-1216). */
module DagExecutor {
  import opened Sequences
  import opened Wrappers
  import opened Claims
  import opened DagScheduler
  import opened DagProperties
  import opened PlanKey
  import opened Waves
  import opened Transcript
  import opened Repair
  import opened Executor
  import Traces

  const AFTER_UNSETTLED_DAG_TOOL := "Skipped because a preceding DAG tool timed out before its execution promise settled"
  const AFTER_LAST_DAG_LEVEL := "Skipped because the preceding DAG level requested termination"

  datatype DagOutcome = DagOutcome(sourceIndex: nat, finalized: Finalized)

  ghost predicate Covers(outcomes: seq<DagOutcome>, x: nat) {
    exists o | o in outcomes :: o.sourceIndex == x
  }

  // Every outcome is about one of the indices and is how that call was finalized.
  ghost predicate OutcomesOf(items: seq<Item>, indices: seq<nat>, outcomes: seq<DagOutcome>) {
    forall o | o in outcomes :: o.sourceIndex in indices && o.sourceIndex < |items| && o.finalized == Finalize(items[o.sourceIndex])
  }

  // ----- Levels of source indices

  // Ascending, pairwise disjoint levels that together hold exactly the indices below n.
  ghost predicate Schedules(levels: seq<seq<nat>>, n: nat) {
    && (forall a | 0 <= a < |levels| :: Ascending(levels[a]))
    && (forall a, b, x | 0 <= a < b < |levels| && x in levels[a] :: x !in levels[b])
    && (forall a, x | 0 <= a < |levels| && x in levels[a] :: x < n)
    && (forall x | 0 <= x < n :: InSome(levels, x))
  }

  ghost predicate InSome(levels: seq<seq<nat>>, x: nat) {
    exists a | 0 <= a < |levels| :: x in levels[a]
  }

  lemma {:induction false} ConcatPosition(levels: seq<seq<nat>>, a: nat, i: nat)
    requires a < |levels| && i < |levels[a]|
    ensures End(levels, a) + |levels[a]| <= |Concat(levels)|
    ensures Concat(levels)[End(levels, a) + i] == levels[a][i]
    ensures End(levels, a + 1) == End(levels, a) + |levels[a]|
  {
    var before, after := levels[..a], levels[a + 1..];
    assert levels == before + [levels[a]] + after && levels[..a + 1] == before + [levels[a]];
    ConcatOne(before, levels[a]);
    ConcatAppend(before + [levels[a]], after);
  }

  lemma {:induction false} EndMonotone(levels: seq<seq<nat>>, a: nat, b: nat)
    requires a <= b <= |levels|
    ensures End(levels, a) <= End(levels, b)
  {
    assert levels[..b] == levels[..a] + levels[a..b];
    ConcatAppend(levels[..a], levels[a..b]);
  }

  lemma {:induction false} ConcatDisjoint(levels: seq<seq<nat>>, a: nat, b: nat, x: nat)
    requires Traces.NoDuplicates(Concat(levels)) && a < b < |levels| && x in levels[a]
    ensures x !in levels[b]
  {
    if x in levels[b] {
      var i :| 0 <= i < |levels[a]| && levels[a][i] == x;
      var j :| 0 <= j < |levels[b]| && levels[b][j] == x;
      ConcatPosition(levels, a, i);
      ConcatPosition(levels, b, j);
      EndMonotone(levels, a + 1, b);
    }
  }

  lemma {:induction false} PlanSchedules(rs: seq<Resolution>, cap: Cap)
    ensures Schedules(CapLevels(Levels(rs), cap), |rs|)
  {
    var plan := CapLevels(Levels(rs), cap);
    PlanCovers(rs, cap);
    forall a | 0 <= a < |plan|
      ensures Ascending(plan[a])
    {
      PlanAscending(rs, cap, a);
    }
    forall a, b, x | 0 <= a < b < |plan| && x in plan[a]
      ensures x !in plan[b]
    {
      ConcatDisjoint(plan, a, b, x);
    }
    forall a, x | 0 <= a < |plan| && x in plan[a]
      ensures x < |rs|
    {
      ConcatMember(plan, a, x);
    }
    forall x: nat | x < |rs|
      ensures InSome(plan, x)
    {
      var a := MemberOfConcat(plan, x);
    }
  }

  // ----- Translating positions of a sub-batch back to source indices

  function MapGroup(indices: seq<nat>, group: seq<nat>): (r: seq<nat>)
    requires forall p | p in group :: p < |indices|
    ensures |r| == |group| && forall k | 0 <= k < |group| :: group[k] < |indices| && r[k] == indices[group[k]]
  {
    assert forall k | 0 <= k < |group| :: group[k] in group;
    seq(|group|, (k: nat) requires k < |group| => indices[group[k]])
  }

  ghost predicate InRange(plan: seq<seq<nat>>, n: nat) {
    forall a, p | 0 <= a < |plan| && p in plan[a] :: p < n
  }

  function MapGroups(indices: seq<nat>, plan: seq<seq<nat>>): (r: seq<seq<nat>>)
    requires InRange(plan, |indices|)
    ensures |r| == |plan| && forall a | 0 <= a < |plan| :: r[a] == MapGroup(indices, plan[a])
  {
    seq(|plan|, a requires 0 <= a < |plan| => MapGroup(indices, plan[a]))
  }

  lemma {:induction false} MapGroupMembers(indices: seq<nat>, group: seq<nat>)
    requires forall p | p in group :: p < |indices|
    ensures forall x :: x in MapGroup(indices, group) <==> exists p | p in group :: indices[p] == x
  {
    var mapped := MapGroup(indices, group);
    forall x
      ensures x in mapped <==> exists p | p in group :: indices[p] == x
    {
      if x in mapped {
        var k :| 0 <= k < |mapped| && mapped[k] == x;
        assert group[k] in group && indices[group[k]] == x;
      }
      if p :| p in group && indices[p] == x {
        var k :| 0 <= k < |group| && group[k] == p;
        assert mapped[k] == x;
      }
    }
  }

  // A schedule of positions becomes a schedule of the indices at those positions.
  ghost predicate SchedulesExactly(levels: seq<seq<nat>>, indices: seq<nat>) {
    && (forall a | 0 <= a < |levels| :: Ascending(levels[a]))
    && (forall a, b, x | 0 <= a < b < |levels| && x in levels[a] :: x !in levels[b])
    && forall x :: InSome(levels, x) <==> x in indices
  }

  lemma {:induction false} MapSchedules(indices: seq<nat>, plan: seq<seq<nat>>)
    requires Ascending(indices) && Schedules(plan, |indices|)
    ensures InRange(plan, |indices|) && SchedulesExactly(MapGroups(indices, plan), indices)
  {
    var mapped := MapGroups(indices, plan);
    forall a | 0 <= a < |mapped|
      ensures Ascending(mapped[a])
    {}
    forall a, b, x | 0 <= a < b < |mapped| && x in mapped[a]
      ensures x !in mapped[b]
    {
      MapGroupMembers(indices, plan[a]);
      MapGroupMembers(indices, plan[b]);
      var p :| p in plan[a] && indices[p] == x;
      assert forall q | q in plan[b] :: q != p && indices[q] != indices[p];
    }
    forall x: nat
      ensures InSome(mapped, x) <==> x in indices
    {
      if InSome(mapped, x) {
        var a :| 0 <= a < |mapped| && x in mapped[a];
        MapGroupMembers(indices, plan[a]);
      }
      if x in indices {
        var p :| 0 <= p < |indices| && indices[p] == x;
        assert InSome(plan, p);
        var a :| 0 <= a < |plan| && p in plan[a];
        MapGroupMembers(indices, plan[a]);
        assert x in mapped[a];
      }
    }
  }

  // ----- Candidate levels

  function InsertIndex(x: nat, s: seq<nat>): seq<nat> {
    if s == [] || x <= s[0] then [x] + s else [s[0]] + InsertIndex(x, s[1..])
  }

  // The ascending numeric sort.
  function SortIndices(s: seq<nat>): seq<nat> {
    if s == [] then [] else InsertIndex(s[0], SortIndices(s[1..]))
  }

  lemma {:induction false} InsertIndexFacts(x: nat, s: seq<nat>)
    ensures forall y :: y in InsertIndex(x, s) <==> y == x || y in s
    ensures Ascending(s) && x !in s ==> Ascending(InsertIndex(x, s))
  {
    InsertIndexMembers(x, s);
    if Ascending(s) && x !in s {
      InsertIndexAscending(x, s);
    }
  }

  lemma {:induction false} InsertIndexMembers(x: nat, s: seq<nat>)
    ensures forall y :: y in InsertIndex(x, s) <==> y == x || y in s
  {
    if s != [] && x > s[0] {
      InsertIndexMembers(x, s[1..]);
      assert s == [s[0]] + s[1..];
    }
  }

  lemma {:induction false} InsertIndexAscending(x: nat, s: seq<nat>)
    requires Ascending(s) && x !in s
    ensures Ascending(InsertIndex(x, s))
  {
    if s != [] {
      assert s[0] in s;
      HeadIsLeast(s);
      if x > s[0] {
        InsertIndexAscending(x, s[1..]);
        InsertIndexMembers(x, s[1..]);
        ConsAscending(s[0], InsertIndex(x, s[1..]));
      } else {
        ConsAscending(x, s);
      }
    }
  }

  lemma HeadIsLeast(s: seq<nat>)
    requires Ascending(s) && s != []
    ensures forall y | y in s :: y >= s[0]
    ensures Ascending(s[1..]) && forall y | y in s[1..] :: y > s[0] && y in s
  {
    var rest := s[1..];
    assert forall k | 0 <= k < |rest| :: rest[k] == s[k + 1] && rest[k] in s;
  }

  lemma ConsAscending(x: nat, rest: seq<nat>)
    requires Ascending(rest) && forall y | y in rest :: y > x
    ensures Ascending([x] + rest)
  {
    assert forall k | 0 <= k < |rest| :: rest[k] in rest;
  }

  lemma {:induction false} SortIndicesFacts(s: seq<nat>)
    ensures forall y :: y in SortIndices(s) <==> y in s
    ensures Traces.NoDuplicates(s) ==> Ascending(SortIndices(s))
  {
    if s != [] {
      SortIndicesFacts(s[1..]);
      InsertIndexFacts(s[0], SortIndices(s[1..]));
      assert s == [s[0]] + s[1..];
      if Traces.NoDuplicates(s) {
        assert forall k | 0 <= k < |s[1..]| :: s[1..][k] == s[k + 1];
      }
    }
  }

  // scheduleDagLevelsMemo under abort: no plan when the run is aborted first.
  method ScheduleUnlessAborted(claims: seq<Resolution>, cap: Cap, signal: AbortSignal) returns (plan: Option<seq<seq<nat>>>)
    modifies signal
    ensures plan.None? ==> signal.Fired()
    ensures plan.Some? ==> plan.value == CapLevels(Levels(claims), cap)
    ensures old(signal.clock) <= signal.clock
  {
    var aborted := signal.Aborted();
    if aborted {
      return None;
    }
    var levels, _ := ScheduleDagLevels(claims, cap);
    return Some(levels);
  }

  ghost predicate SplitOf(items: seq<Item>, schedulable: seq<nat>, claims: seq<Resolution>, immediate: seq<nat>) {
    && Ascending(schedulable) && Ascending(immediate) && |claims| == |schedulable|
    && (forall x :: x in schedulable <==> 0 <= x < |items| && items[x].plan.Planned?)
    && (forall x :: x in immediate <==> 0 <= x < |items| && items[x].plan.ImmediateFailure?)
    && forall k | 0 <= k < |schedulable| :: schedulable[k] < |items| && items[schedulable[k]].plan == Planned(claims[k])
  }

  // The planned and the immediate calls, each in source order.
  method SplitPlans(items: seq<Item>) returns (schedulable: seq<nat>, claims: seq<Resolution>, immediate: seq<nat>)
    ensures SplitOf(items, schedulable, claims, immediate)
  {
    schedulable, claims, immediate := [], [], [];
    for i := 0 to |items|
      invariant |claims| == |schedulable|
      invariant forall k | 0 <= k < |schedulable| :: schedulable[k] < i && items[schedulable[k]].plan == Planned(claims[k])
      invariant forall k | 0 <= k < |immediate| :: immediate[k] < i
      invariant Ascending(schedulable) && Ascending(immediate)
      invariant forall x :: x in schedulable <==> 0 <= x < i && items[x].plan.Planned?
      invariant forall x :: x in immediate <==> 0 <= x < i && items[x].plan.ImmediateFailure?
    {
      match items[i].plan {
        case Planned(c) =>
          schedulable, claims := schedulable + [i], claims + [c];
        case ImmediateFailure(_) =>
          immediate := immediate + [i];
      }
    }
  }

  // Folding the immediate calls into the first level keeps a schedule of all calls.
  lemma {:induction false} FoldImmediate(levels: seq<seq<nat>>, schedulable: seq<nat>, immediate: seq<nat>, n: nat)
    requires SchedulesExactly(levels, schedulable) && levels != [] && Ascending(immediate)
    requires forall x :: 0 <= x < n <==> x in schedulable || x in immediate
    requires forall x | x in immediate :: x !in schedulable
    ensures Schedules(levels[0 := SortIndices(levels[0] + immediate)], n)
  {
    var first := levels[0] + immediate;
    var folded := levels[0 := SortIndices(first)];
    forall a, x | 0 <= a < |levels| && x in levels[a]
      ensures x in schedulable
    {
      assert InSome(levels, x);
    }
    ApartNoDuplicates(levels[0], immediate);
    SortIndicesFacts(first);
    assert forall x :: x in folded[0] <==> x in levels[0] || x in immediate;
    FoldedApart(levels, folded, immediate);
    forall x: nat | x < n
      ensures InSome(folded, x)
    {
      if x in immediate {
        assert x in folded[0];
      } else {
        assert InSome(levels, x);
        var a :| 0 <= a < |levels| && x in levels[a];
        assert x in folded[a];
      }
    }
  }

  lemma ApartNoDuplicates(a: seq<nat>, b: seq<nat>)
    requires Ascending(a) && Ascending(b) && forall x | x in a :: x !in b
    ensures forall i, j | 0 <= i < j < |a + b| :: (a + b)[i] != (a + b)[j]
  {
    forall i, j | 0 <= i < j < |a + b|
      ensures (a + b)[i] != (a + b)[j]
    {
      if i < |a| <= j {
        assert a[i] in a && b[j - |a|] in b;
      }
    }
  }

  lemma FoldedApart(levels: seq<seq<nat>>, folded: seq<seq<nat>>, immediate: seq<nat>)
    requires levels != [] && |folded| == |levels| && forall a | 0 < a < |levels| :: folded[a] == levels[a]
    requires forall x :: x in folded[0] <==> x in levels[0] || x in immediate
    requires forall a, x | 0 <= a < |levels| && x in levels[a] :: x !in immediate
    requires forall a, b, x | 0 <= a < b < |levels| && x in levels[a] :: x !in levels[b]
    ensures forall a, b, x | 0 <= a < b < |folded| && x in folded[a] :: x !in folded[b]
  {
  }

  lemma {:induction false} AllSchedulable(levels: seq<seq<nat>>, schedulable: seq<nat>, n: nat)
    requires SchedulesExactly(levels, schedulable)
    requires forall x :: 0 <= x < n <==> x in schedulable
    ensures Schedules(levels, n)
  {
    forall a, x | 0 <= a < |levels| && x in levels[a]
      ensures x < n
    {
      assert InSome(levels, x);
    }
  }

  lemma {:induction false} OnlyImmediate(schedulable: seq<nat>, immediate: seq<nat>, n: nat)
    requires schedulable == [] && Ascending(immediate)
    requires forall x :: 0 <= x < n <==> x in schedulable || x in immediate
    ensures Schedules([immediate], n)
  {
    forall x: nat | x < n
      ensures InSome([immediate], x)
    {
      assert x in [immediate][0];
    }
  }

  lemma {:induction false} NoLevelsNothing(levels: seq<seq<nat>>, schedulable: seq<nat>)
    requires SchedulesExactly(levels, schedulable) && levels == []
    ensures schedulable == []
  {
    if schedulable != [] {
      var x := schedulable[0];
      NotInNone(x);
    }
  }

  lemma NotInNone(x: nat)
    ensures !InSome([], x)
  {}

  // Where a capped plan over some of the calls puts them, planned conflicts are in source order.
  lemma {:induction false} MappedOrder(items: seq<Item>, schedulable: seq<nat>, claims: seq<Resolution>, cap: Cap)
    requires Ascending(schedulable) && |claims| == |schedulable|
    requires forall k | 0 <= k < |schedulable| :: schedulable[k] < |items| && items[schedulable[k]].plan == Planned(claims[k])
    requires InRange(CapLevels(Levels(claims), cap), |schedulable|)
    ensures PlannedOrder(items, MapGroups(schedulable, CapLevels(Levels(claims), cap)))
  {
    var plan := CapLevels(Levels(claims), cap);
    var levels := MapGroups(schedulable, plan);
    forall a, b, x, y | 0 <= a < |levels| && 0 <= b < |levels| && x in levels[a] && y in levels[b]
                        && x < y && PlannedConflict(items, x, y)
      ensures a < b
    {
      MapGroupMembers(schedulable, plan[a]);
      MapGroupMembers(schedulable, plan[b]);
      var p :| p in plan[a] && schedulable[p] == x;
      var q :| q in plan[b] && schedulable[q] == y;
      assert p < q;
      PlanOrdersConflicts(claims, cap, a, b, p, q);
    }
  }

  // Folding in calls that failed at once changes nothing for the planned ones.
  lemma {:induction false} FoldedOrder(items: seq<Item>, levels: seq<seq<nat>>, immediate: seq<nat>)
    requires PlannedOrder(items, levels) && levels != []
    requires forall x | x in immediate :: x < |items| && !items[x].plan.Planned?
    ensures PlannedOrder(items, levels[0 := SortIndices(levels[0] + immediate)])
  {
    SortIndicesFacts(levels[0] + immediate);
    var folded := levels[0 := SortIndices(levels[0] + immediate)];
    forall a, x | 0 <= a < |folded| && x in folded[a]
      ensures x in levels[a] || x in immediate
    {
    }
  }

  // The calls that failed at once join the first level.
  function Folded(levels: seq<seq<nat>>, immediate: seq<nat>): seq<seq<nat>> {
    if immediate == [] then levels
    else if levels == [] then [immediate]
    else levels[0 := SortIndices(levels[0] + immediate)]
  }

  ghost predicate FoldedPlan(items: seq<Item>, cap: Cap, levels: seq<seq<nat>>, schedulable: seq<nat>, claims: seq<Resolution>,
                             immediate: seq<nat>) {
    var plan := CapLevels(Levels(claims), cap);
    && SplitOf(items, schedulable, claims, immediate) && InRange(plan, |schedulable|)
    && levels == Folded(MapGroups(schedulable, plan), immediate)
  }

  // The candidate levels of a batch: the capped plan of its planned calls' claims, by source index,
  // with the other calls folded in.
  ghost function Candidates(items: seq<Item>, cap: Cap): iset<seq<seq<nat>>> {
    iset levels: seq<seq<nat>> | IsCandidate(items, cap, levels)
  }

  ghost predicate IsCandidate(items: seq<Item>, cap: Cap, levels: seq<seq<nat>>) {
    exists schedulable, claims, immediate :: FoldedPlan(items, cap, levels, schedulable, claims, immediate)
  }

  lemma {:induction false} FoldedSchedules(items: seq<Item>, levels: seq<seq<nat>>, schedulable: seq<nat>, claims: seq<Resolution>,
                                           immediate: seq<nat>)
    requires SplitOf(items, schedulable, claims, immediate) && SchedulesExactly(levels, schedulable)
    ensures Schedules(Folded(levels, immediate), |items|)
  {
    if immediate == [] {
      AllSchedulable(levels, schedulable, |items|);
    } else if levels == [] {
      NoLevelsNothing(levels, schedulable);
      OnlyImmediate(schedulable, immediate, |items|);
    } else {
      FoldImmediate(levels, schedulable, immediate, |items|);
    }
  }

  lemma {:induction false} FoldedKeepsOrder(items: seq<Item>, levels: seq<seq<nat>>, schedulable: seq<nat>, claims: seq<Resolution>,
                                            immediate: seq<nat>)
    requires SplitOf(items, schedulable, claims, immediate) && PlannedOrder(items, levels)
    ensures PlannedOrder(items, Folded(levels, immediate))
  {
    if immediate != [] && levels != [] {
      FoldedOrder(items, levels, immediate);
    }
  }

  lemma {:induction false} CandidateFacts(items: seq<Item>, schedulable: seq<nat>, claims: seq<Resolution>, immediate: seq<nat>, cap: Cap)
    requires SplitOf(items, schedulable, claims, immediate)
    ensures InRange(CapLevels(Levels(claims), cap), |schedulable|)
    ensures var levels := Folded(MapGroups(schedulable, CapLevels(Levels(claims), cap)), immediate);
            Schedules(levels, |items|) && levels in Candidates(items, cap) && PlannedOrder(items, levels)
  {
    var plan := CapLevels(Levels(claims), cap);
    PlanSchedules(claims, cap);
    MapSchedules(schedulable, plan);
    MappedOrder(items, schedulable, claims, cap);
    var mapped := MapGroups(schedulable, plan);
    FoldedSchedules(items, mapped, schedulable, claims, immediate);
    FoldedKeepsOrder(items, mapped, schedulable, claims, immediate);
    assert FoldedPlan(items, cap, Folded(mapped, immediate), schedulable, claims, immediate);
  }

  // schedulePlannedDagLevels: every call on one level, planned conflicts on levels in source order.
  method SchedulePlannedDagLevels(items: seq<Item>, cap: Cap, signal: AbortSignal) returns (levels: seq<seq<nat>>)
    modifies signal
    ensures (Schedules(levels, |items|) && levels in Candidates(items, cap)) || (levels == [] && signal.Fired())
    ensures PlannedOrder(items, levels)
    ensures old(signal.clock) <= signal.clock
  {
    var schedulable, claims, immediate := SplitPlans(items);
    var plan := ScheduleUnlessAborted(claims, cap, signal);
    if plan.None? {
      return [];
    }
    CandidateFacts(items, schedulable, claims, immediate, cap);
    levels := MapGroups(schedulable, plan.value);
    if |immediate| == 0 {
      return;
    }
    if |levels| == 0 {
      return [immediate];
    }
    levels := levels[0 := SortIndices(levels[0] + immediate)];
  }

  // ----- One candidate level

  ghost predicate Runnable(items: seq<Item>, runnable: seq<nat>) {
    Ascending(runnable) && forall k | 0 <= k < |runnable| :: runnable[k] < |items| && Starts(items[runnable[k]])
  }

  function FinalClaims(items: seq<Item>, runnable: seq<nat>): (r: seq<Resolution>)
    requires Runnable(items, runnable)
    ensures |r| == |runnable|
    ensures forall k | 0 <= k < |runnable| :: r[k] == items[runnable[k]].authorization.claims
  {
    seq(|runnable|, k requires 0 <= k < |runnable| => items[runnable[k]].authorization.claims)
  }

  // The outcomes of calls that start are those of logged executions.
  ghost predicate StartsLogged(items: seq<Item>, outcomes: seq<DagOutcome>, groups: seq<seq<nat>>) {
    forall o | o in outcomes :: o.sourceIndex < |items| && (Starts(items[o.sourceIndex]) ==> InSome(groups, o.sourceIndex))
  }

  // The authorization loop: a failed call is finalized at once, the others are runnable.
  method AuthorizeLevel(items: seq<Item>, level: seq<nat>, signal: AbortSignal)
    returns (outcomes: seq<DagOutcome>, runnable: seq<nat>, aborted: bool)
    requires Ascending(level) && forall k | 0 <= k < |level| :: level[k] < |items|
    modifies signal
    ensures Runnable(items, runnable) && OutcomesOf(items, level, outcomes) && StartsLogged(items, outcomes, [])
    ensures forall x | x in runnable :: x in level
    ensures aborted ==> signal.Fired()
    ensures !aborted ==> forall x | x in level :: x in runnable || Covers(outcomes, x)
    ensures old(signal.clock) <= signal.clock
  {
    outcomes, runnable, aborted := [], [], false;
    var k := 0;
    while k < |level| && !aborted
      invariant k <= |level| && Runnable(items, runnable) && OutcomesOf(items, level, outcomes)
      invariant StartsLogged(items, outcomes, [])
      invariant forall j | 0 <= j < |runnable| :: runnable[j] in level[..k]
      invariant forall j | 0 <= j < k :: level[j] in runnable || Covers(outcomes, level[j])
      invariant old(signal.clock) <= signal.clock && (aborted ==> signal.Fired())
      decreases |level| - k
    {
      var x := level[k];
      var before := outcomes;
      assert level[..k + 1] == level[..k] + [x];
      if items[x].plan.Planned? && items[x].authorization.Granted? {
        assert forall j | 0 <= j < |runnable| :: runnable[j] in level[..k] && runnable[j] < x;
        runnable := runnable + [x];
      } else {
        outcomes := outcomes + [DagOutcome(x, Finalize(items[x]))];
        CoversGrow(before, DagOutcome(x, Finalize(items[x])));
      }
      k := k + 1;
      aborted := signal.Aborted();
    }
    assert level[..|level|] == level;
  }

  lemma {:induction false} CoversGrow(outcomes: seq<DagOutcome>, o: DagOutcome)
    ensures Covers(outcomes + [o], o.sourceIndex)
    ensures forall x | Covers(outcomes, x) :: Covers(outcomes + [o], x)
  {
    var all := outcomes + [o];
    assert all[|outcomes|] in all;
    forall x | Covers(outcomes, x)
      ensures Covers(all, x)
    {
      var p :| p in outcomes && p.sourceIndex == x;
      assert p in all;
    }
  }

  function GroupOutcomes(items: seq<Item>, group: seq<nat>): (r: seq<DagOutcome>)
    requires forall k | 0 <= k < |group| :: group[k] < |items|
    ensures |r| == |group|
    ensures forall k | 0 <= k < |group| :: r[k] == DagOutcome(group[k], Finalize(items[group[k]]))
  {
    seq(|group|, k requires 0 <= k < |group| => DagOutcome(group[k], Finalize(items[group[k]])))
  }

  // Each start follows a reading of the abort signal of its own, which found no abort.
  ghost predicate Timely(abortAt: Option<nat>, times: seq<nat>, from: nat, upto: nat) {
    && (forall i | 0 <= i < |times| :: from < times[i] <= upto && !FiredAt(abortAt, times[i]))
    && forall i, j | 0 <= i < j < |times| :: times[i] < times[j]
  }

  lemma TimelyConcat(abortAt: Option<nat>, a: seq<nat>, b: seq<nat>, from: nat, mid: nat, upto: nat)
    requires Timely(abortAt, a, from, mid) && Timely(abortAt, b, mid, upto) && from <= mid <= upto
    ensures Timely(abortAt, a + b, from, upto)
  {
  }

  lemma TimelyLater(abortAt: Option<nat>, times: seq<nat>, from: nat, upto: nat, later: nat)
    requires Timely(abortAt, times, from, upto) && upto <= later
    ensures Timely(abortAt, times, from, later)
  {
  }

  // Promise.all over one group: its calls start together, which the run logs, and all settle.
  method RunGroup(run: Run, items: seq<Item>, group: seq<nat>, signal: AbortSignal) returns (outcomes: seq<DagOutcome>)
    requires forall k | 0 <= k < |group| :: group[k] < |items| && Starts(items[group[k]])
    modifies run`started, run`startedAt
    ensures run.started == old(run.started) + [group] && run.startedAt == old(run.startedAt) + [signal.clock]
    ensures outcomes == GroupOutcomes(items, group)
  {
    var settled := run.StartTogether(items, 0, group, signal);
    outcomes := seq(|group|, k requires 0 <= k < |group| => DagOutcome(group[k], settled[k]));
  }

  lemma {:induction false} GroupCovered(items: seq<Item>, group: seq<nat>, outcomes: seq<DagOutcome>)
    requires forall k | 0 <= k < |group| :: group[k] < |items|
    ensures forall x | x in group || Covers(outcomes, x) :: Covers(outcomes + GroupOutcomes(items, group), x)
  {
    var more := GroupOutcomes(items, group);
    forall x | x in group || Covers(outcomes, x)
      ensures Covers(outcomes + more, x)
    {
      if x in group {
        var k :| 0 <= k < |group| && group[k] == x;
        assert more[k] in outcomes + more;
      } else {
        var o :| o in outcomes && o.sourceIndex == x;
        assert o in outcomes + more;
      }
    }
  }

  function Finalizeds(outcomes: seq<DagOutcome>): (r: seq<Finalized>)
    ensures |r| == |outcomes| && forall k | 0 <= k < |outcomes| :: r[k] == outcomes[k].finalized
  {
    seq(|outcomes|, k requires 0 <= k < |outcomes| => outcomes[k].finalized)
  }

  ghost predicate RunInto(items: seq<Item>, groups: seq<seq<nat>>, done: nat, outcomes: seq<DagOutcome>) {
    && done <= |groups|
    && forall a, x | 0 <= a < done && x in groups[a] :: Covers(outcomes, x)
  }

  lemma OneMoreGroup(items: seq<Item>, level: seq<nat>, groups: seq<seq<nat>>, e: nat, outcomes: seq<DagOutcome>)
    requires e < |groups| && OutcomesOf(items, level, outcomes) && RunInto(items, groups, e, outcomes)
    requires StartsLogged(items, outcomes, groups[..e])
    requires forall k | 0 <= k < |groups[e]| :: groups[e][k] in level && groups[e][k] < |items| && Starts(items[groups[e][k]])
    ensures var all := outcomes + GroupOutcomes(items, groups[e]);
            && OutcomesOf(items, level, all) && RunInto(items, groups, e + 1, all) && StartsLogged(items, all, groups[..e + 1])
            && forall x | Covers(outcomes, x) :: Covers(all, x)
  {
    var group, more := groups[e], GroupOutcomes(items, groups[e]);
    GroupCovered(items, group, outcomes);
    assert groups[..e + 1] == groups[..e] + [group];
    forall o | o in outcomes && Starts(items[o.sourceIndex])
      ensures InSome(groups[..e + 1], o.sourceIndex)
    {
      var a :| 0 <= a < e && o.sourceIndex in groups[..e][a];
      assert o.sourceIndex in groups[..e + 1][a];
    }
    forall o | o in more
      ensures o.sourceIndex in level && o.sourceIndex < |items| && o.finalized == Finalize(items[o.sourceIndex])
      ensures InSome(groups[..e + 1], o.sourceIndex)
    {
      var k :| 0 <= k < |more| && more[k] == o;
      assert group[k] in groups[..e + 1][e];
    }
  }

  // hasUnsettledTimeout over the outcomes of a group.
  method AnyStillRunning(items: seq<Item>, group: seq<nat>, outcomes: seq<DagOutcome>) returns (b: bool)
    requires (forall k | 0 <= k < |group| :: group[k] < |items|) && outcomes == GroupOutcomes(items, group)
    ensures b <==> GroupUnsettled(items, group)
  {
    var finalized := Finalizeds(outcomes);
    b := HasUnsettledTimeout(finalized);
    if GroupUnsettled(items, group) {
      var k :| 0 <= k < |group| && LeftRunning(items[group[k]]);
      assert finalized[k] in finalized;
    }
  }

  // What stops a level: an unsettled timeout in the last group started, unless the abort is seen first.
  ghost predicate LevelStops(items: seq<Item>, groups: seq<seq<nat>>, stopped: bool, aborted: bool) {
    UnsettledLast(items, groups) && (stopped <==> !aborted && LogUnsettled(items, groups))
  }

  lemma StopsNext(items: seq<Item>, groups: seq<seq<nat>>, more: seq<seq<nat>>, group: seq<nat>, stopped: bool, aborted: bool)
    requires !LogUnsettled(items, groups) && more == groups + [group]
    requires stopped <==> !aborted && GroupUnsettled(items, group)
    ensures LevelStops(items, more, stopped, aborted)
  {
    assert more[|groups|] == group;
    forall a | 0 <= a < |groups|
      ensures more[a] == groups[a] && !GroupUnsettled(items, groups[a])
    {
    }
  }

  // One pass of the sublevel loop: the group runs unless the abort has been seen.
  method RunNextGroup(run: Run, items: seq<Item>, level: seq<nat>, groups: seq<seq<nat>>, e: nat, signal: AbortSignal, before: seq<DagOutcome>)
    returns (outcomes: seq<DagOutcome>, stopped: bool, aborted: bool, ghost time: nat)
    requires e < |groups| && OutcomesOf(items, level, before) && RunInto(items, groups, e, before) && StartsLogged(items, before, groups[..e])
    requires forall x | x in groups[e] :: x in level && x < |items| && Starts(items[x])
    requires !signal.Fired() && !LogUnsettled(items, groups[..e])
    modifies run`started, run`startedAt, signal
    ensures OutcomesOf(items, level, outcomes) && RunInto(items, groups, e + 1, outcomes) && StartsLogged(items, outcomes, groups[..e + 1])
    ensures forall x | Covers(before, x) :: Covers(outcomes, x)
    ensures run.started == old(run.started) + [groups[e]] && run.startedAt == old(run.startedAt) + [old(signal.clock)]
    ensures LevelStops(items, groups[..e + 1], stopped, aborted) && aborted == signal.Fired()
    ensures time == old(signal.clock) < signal.clock
  {
    forall k | 0 <= k < |groups[e]|
      ensures groups[e][k] in level && groups[e][k] < |items| && Starts(items[groups[e][k]])
    {
      assert groups[e][k] in groups[e];
    }
    OneMoreGroup(items, level, groups, e, before);
    var finalizedLevel := RunGroup(run, items, groups[e], signal);
    outcomes := before + finalizedLevel;
    aborted := signal.Aborted();
    var unsettled := AnyStillRunning(items, groups[e], finalizedLevel);
    stopped := !aborted && unsettled;
    time := old(signal.clock);
    StopsNext(items, groups[..e], groups[..e + 1], groups[e], stopped, aborted);
  }

  // The sublevel loop: each group starts together once the group before it has settled.
  method RunSublevels(run: Run, items: seq<Item>, level: seq<nat>, groups: seq<seq<nat>>, signal: AbortSignal, already: seq<DagOutcome>)
    returns (outcomes: seq<DagOutcome>, stopped: bool, ghost done: nat, ghost times: seq<nat>)
    requires OutcomesOf(items, level, already) && StartsLogged(items, already, [])
    requires forall a, x | 0 <= a < |groups| && x in groups[a] :: x in level && x < |items| && Starts(items[x])
    modifies run`started, run`startedAt, signal
    ensures OutcomesOf(items, level, outcomes) && RunInto(items, groups, done, outcomes)
    ensures run.started == old(run.started) + groups[..done] && StartsLogged(items, outcomes, groups[..done])
    ensures run.startedAt == old(run.startedAt) + times && |times| == done
    ensures Timely(signal.abortAt, times, old(signal.clock), signal.clock)
    ensures LevelStops(items, groups[..done], stopped, signal.Fired())
    ensures forall x | Covers(already, x) :: Covers(outcomes, x)
    ensures done == |groups| || stopped || signal.Fired()
    ensures old(signal.clock) <= signal.clock
  {
    outcomes, stopped, done, times := already, false, 0, [];
    var e := 0;
    var aborted := false;
    while e < |groups| && !stopped && !aborted
      invariant e <= |groups| && done == e == |times|
      invariant OutcomesOf(items, level, outcomes) && RunInto(items, groups, done, outcomes)
      invariant run.started == old(run.started) + groups[..done] && StartsLogged(items, outcomes, groups[..done])
      invariant run.startedAt == old(run.startedAt) + times && Timely(signal.abortAt, times, old(signal.clock), signal.clock)
      invariant LevelStops(items, groups[..done], stopped, aborted) && (done > 0 || aborted ==> aborted == signal.Fired())
      invariant forall x | Covers(already, x) :: Covers(outcomes, x)
      invariant old(signal.clock) <= signal.clock
      decreases |groups| - e, !aborted
    {
      aborted := signal.Aborted();
      if !aborted {
        ghost var time;
        outcomes, stopped, aborted, time := RunNextGroup(run, items, level, groups, e, signal, outcomes);
        ConcatAssoc(old(run.started), groups[..e], [groups[e]]);
        assert groups[..e + 1] == groups[..e] + [groups[e]];
        times := times + [time];
        e, done := e + 1, done + 1;
      }
    }
  }

  // ----- Why a level's groups are safe

  lemma MapGroupConcat(indices: seq<nat>, a: seq<nat>, b: seq<nat>)
    requires forall p | p in a :: p < |indices|
    requires forall p | p in b :: p < |indices|
    ensures forall p | p in a + b :: p < |indices|
    ensures MapGroup(indices, a + b) == MapGroup(indices, a) + MapGroup(indices, b)
  {
  }

  lemma {:induction false} MapConcat(indices: seq<nat>, plan: seq<seq<nat>>)
    requires InRange(plan, |indices|)
    ensures forall p | p in Concat(plan) :: p < |indices|
    ensures Concat(MapGroups(indices, plan)) == MapGroup(indices, Concat(plan))
  {
    if plan != [] {
      var rest := plan[1..];
      MapConcat(indices, rest);
      assert forall p | p in plan[0] :: p < |indices|;
      MapGroupConcat(indices, plan[0], Concat(rest));
      var mapped := MapGroups(indices, plan);
      assert mapped[1..] == MapGroups(indices, rest) && mapped[0] == MapGroup(indices, plan[0]);
    }
  }

  lemma {:induction false} PrefixNoDuplicates(plan: seq<seq<nat>>, m: nat)
    requires m <= |plan| && Traces.NoDuplicates(Concat(plan))
    ensures Traces.NoDuplicates(Concat(plan[..m]))
  {
    assert plan == plan[..m] + plan[m..];
    ConcatAppend(plan[..m], plan[m..]);
    var a, whole := Concat(plan[..m]), Concat(plan);
    assert forall i | 0 <= i < |a| :: a[i] == whole[i];
  }

  lemma {:induction false} GroupIndependent(items: seq<Item>, runnable: seq<nat>, cap: Cap, a: nat)
    requires Runnable(items, runnable)
    requires var plan := CapLevels(Levels(FinalClaims(items, runnable)), cap); a < |plan| && InRange(plan, |runnable|)
    ensures Independent(items, MapGroup(runnable, CapLevels(Levels(FinalClaims(items, runnable)), cap)[a]))
  {
    var claims := FinalClaims(items, runnable);
    var plan := CapLevels(Levels(claims), cap);
    var group := MapGroup(runnable, plan[a]);
    PlanAscending(claims, cap, a);
    forall i, j | 0 <= i < j < |group|
      ensures group[i] != group[j]
      ensures !ResolutionsConflict(items[group[i]].authorization.claims, items[group[j]].authorization.claims)
    {
      var p, q := plan[a][i], plan[a][j];
      assert p in plan[a] && q in plan[a] && p < q;
      if LevelConflict(claims[p], claims[q]) {
        PlanOrdersConflicts(claims, cap, a, a, p, q);
      }
    }
  }

  lemma {:induction false} GroupsOrderConflicts(items: seq<Item>, runnable: seq<nat>, cap: Cap)
    requires Runnable(items, runnable)
    requires InRange(CapLevels(Levels(FinalClaims(items, runnable)), cap), |runnable|)
    ensures ConflictOrder(items, MapGroups(runnable, CapLevels(Levels(FinalClaims(items, runnable)), cap)))
  {
    var claims := FinalClaims(items, runnable);
    var plan := CapLevels(Levels(claims), cap);
    var groups := MapGroups(runnable, plan);
    forall a, b, x, y | 0 <= a < |groups| && 0 <= b < |groups| && x in groups[a] && y in groups[b]
                        && x < y && x < |items| && y < |items| && Starts(items[x]) && Starts(items[y])
                        && ResolutionsConflict(items[x].authorization.claims, items[y].authorization.claims)
      ensures a < b
    {
      MapGroupMembers(runnable, plan[a]);
      MapGroupMembers(runnable, plan[b]);
      var p :| p in plan[a] && runnable[p] == x;
      var q :| q in plan[b] && runnable[q] == y;
      assert p < q;
      PlanOrdersConflicts(claims, cap, a, b, p, q);
    }
  }

  // Every prefix of the sublevels starts only independent groups, each call once, and conflicting
  // calls in source order.
  lemma {:induction false} LevelGroupsSafe(items: seq<Item>, runnable: seq<nat>, cap: Cap, m: nat)
    requires Runnable(items, runnable)
    ensures InRange(CapLevels(Levels(FinalClaims(items, runnable)), cap), |runnable|)
    ensures var groups := MapGroups(runnable, CapLevels(Levels(FinalClaims(items, runnable)), cap));
            m <= |groups| ==> SafeGroups(items, groups[..m]) && ConflictOrder(items, groups[..m])
  {
    var claims := FinalClaims(items, runnable);
    var plan := CapLevels(Levels(claims), cap);
    PlanSchedules(claims, cap);
    assert InRange(plan, |runnable|);
    var groups := MapGroups(runnable, plan);
    if m <= |groups| {
      forall g | g in groups[..m]
        ensures Independent(items, g)
      {
        var a :| 0 <= a < m && groups[..m][a] == g;
        GroupIndependent(items, runnable, cap, a);
      }
      GroupsOrderConflicts(items, runnable, cap);
      assert forall a | 0 <= a < m :: groups[..m][a] == groups[a];
      StartedOnce(items, runnable, cap, m);
    }
  }

  lemma {:induction false} StartedOnce(items: seq<Item>, runnable: seq<nat>, cap: Cap, m: nat)
    requires Runnable(items, runnable)
    requires InRange(CapLevels(Levels(FinalClaims(items, runnable)), cap), |runnable|)
    requires m <= |CapLevels(Levels(FinalClaims(items, runnable)), cap)|
    ensures Traces.NoDuplicates(Concat(MapGroups(runnable, CapLevels(Levels(FinalClaims(items, runnable)), cap))[..m]))
  {
    var plan := CapLevels(Levels(FinalClaims(items, runnable)), cap);
    PlanCovers(FinalClaims(items, runnable), cap);
    PrefixNoDuplicates(plan, m);
    assert InRange(plan[..m], |runnable|);
    MapConcat(runnable, plan[..m]);
    assert MapGroups(runnable, plan)[..m] == MapGroups(runnable, plan[..m]);
    var c := Concat(plan[..m]);
    assert forall k | 0 <= k < |c| :: c[k] in c;
  }

  // How running a level ends: its outcomes, one for every call unless an unsettled timeout or the abort
  // cut it short, and its groups, which start safely and hold the calls that start and have an outcome.
  ghost predicate LevelRan(items: seq<Item>, level: seq<nat>, outcomes: seq<DagOutcome>, groups: seq<seq<nat>>, stopped: bool, aborted: bool) {
    && OutcomesOf(items, level, outcomes) && (!stopped && !aborted ==> forall x | x in level :: Covers(outcomes, x))
    && SafeGroups(items, groups) && ConflictOrder(items, groups) && LevelStops(items, groups, stopped, aborted)
    && StartsLogged(items, outcomes, groups) && forall x | x in Concat(groups) :: x in level && Covers(outcomes, x)
  }

  // runDagLevelCalls: what a level starts is logged, in groups of calls that do not conflict under
  // their final claims, conflicting calls of the level in source order.
  method RunDagLevelCalls(run: Run, items: seq<Item>, level: seq<nat>, cap: Cap, signal: AbortSignal)
    returns (outcomes: seq<DagOutcome>, stopped: bool, ghost groups: seq<seq<nat>>, ghost times: seq<nat>)
    requires Ascending(level) && forall k | 0 <= k < |level| :: level[k] < |items|
    modifies run`started, run`startedAt, signal
    ensures run.started == old(run.started) + groups && LevelRan(items, level, outcomes, groups, stopped, signal.Fired())
    ensures run.startedAt == old(run.startedAt) + times && |times| == |groups|
    ensures Timely(signal.abortAt, times, old(signal.clock), signal.clock)
    ensures old(signal.clock) <= signal.clock
  {
    groups, times, stopped := [], [], false;
    var authorized, runnable, aborted := AuthorizeLevel(items, level, signal);
    if aborted {
      return authorized, false, [], [];
    }
    var claims := FinalClaims(items, runnable);
    var plan := ScheduleUnlessAborted(claims, cap, signal);
    if plan.None? {
      return authorized, false, [], [];
    }
    PlanSchedules(claims, cap);
    MapSchedules(runnable, plan.value);
    var mapped := MapGroups(runnable, plan.value);
    forall a, x | 0 <= a < |mapped| && x in mapped[a]
      ensures x in level && x < |items| && Starts(items[x])
    {
      assert InSome(mapped, x);
    }
    ghost var done;
    outcomes, stopped, done, times := RunSublevels(run, items, level, mapped, signal, authorized);
    groups := mapped[..done];
    LevelGroupsSafe(items, runnable, cap, done);
    forall x | x in Concat(groups)
      ensures x in level && Covers(outcomes, x)
    {
      var a := MemberOfConcat(groups, x);
    }
    forall x | x in level && done == |mapped|
      ensures Covers(outcomes, x)
    {
      if x in runnable {
        assert InSome(mapped, x);
      }
    }
  }

  // ----- The whole batch

  ghost predicate Finals(items: seq<Item>, finalizedByIndex: seq<Option<Finalized>>) {
    && |finalizedByIndex| == |items|
    && forall i | 0 <= i < |items| :: finalizedByIndex[i].Some? ==> finalizedByIndex[i].value == Finalize(items[i])
  }

  method Record(items: seq<Item>, level: seq<nat>, before: seq<Option<Finalized>>, outcomes: seq<DagOutcome>)
    returns (finalizedByIndex: seq<Option<Finalized>>)
    requires Finals(items, before) && OutcomesOf(items, level, outcomes)
    ensures Finals(items, finalizedByIndex)
    ensures forall i | 0 <= i < |items| :: finalizedByIndex[i].Some? <==> before[i].Some? || Covers(outcomes, i)
  {
    finalizedByIndex := before;
    for k := 0 to |outcomes|
      invariant Finals(items, finalizedByIndex)
      invariant forall i | 0 <= i < |items| && before[i].Some? :: finalizedByIndex[i].Some?
      invariant forall i | 0 <= i < |items| && finalizedByIndex[i].Some? :: before[i].Some? || Covers(outcomes, i)
      invariant forall j | 0 <= j < k :: outcomes[j].sourceIndex < |items| && finalizedByIndex[outcomes[j].sourceIndex].Some?
    {
      assert outcomes[k] in outcomes;
      finalizedByIndex := finalizedByIndex[outcomes[k].sourceIndex := Some(outcomes[k].finalized)];
    }
  }

  // The calls with an outcome of their own.
  ghost function Finished(finalizedByIndex: seq<Option<Finalized>>): set<nat> {
    set x: nat | x < |finalizedByIndex| && finalizedByIndex[x].Some?
  }

  ghost function OwnResults(items: seq<Item>, messages: seq<Message>): set<nat> {
    set x: nat | x < |items| && x < |messages| && OwnResult(messages[x], items[x])
  }

  // Some call has run, and every one that has asks for termination.
  ghost predicate AllTerminate(items: seq<Item>, ran: set<nat>) {
    ran != {} && forall x | x in ran :: x < |items| && AsksToEnd(items[x])
  }

  // The same of a level's calls.
  ghost predicate LevelTerminates(items: seq<Item>, level: seq<nat>, ran: set<nat>) {
    && (exists k | 0 <= k < |level| :: level[k] in ran)
    && forall k | 0 <= k < |level| && level[k] in ran :: level[k] < |items| && AsksToEnd(items[level[k]])
  }

  // The outcomes there are, in source order.
  function SomeOf(finalizedByIndex: seq<Option<Finalized>>): seq<Finalized>
    decreases |finalizedByIndex|
  {
    if finalizedByIndex == [] then []
    else
      var n := |finalizedByIndex| - 1;
      SomeOf(finalizedByIndex[..n]) + if finalizedByIndex[n].Some? then [finalizedByIndex[n].value] else []
  }

  lemma SomeOfNext(finalizedByIndex: seq<Option<Finalized>>, n: nat)
    requires n < |finalizedByIndex|
    ensures SomeOf(finalizedByIndex[..n + 1])
         == SomeOf(finalizedByIndex[..n]) + if finalizedByIndex[n].Some? then [finalizedByIndex[n].value] else []
  {
    assert finalizedByIndex[..n + 1][..n] == finalizedByIndex[..n];
  }

  lemma {:induction false} SomeOfMembers(finalizedByIndex: seq<Option<Finalized>>)
    ensures forall f :: f in SomeOf(finalizedByIndex) <==> exists j | 0 <= j < |finalizedByIndex| :: finalizedByIndex[j] == Some(f)
    decreases |finalizedByIndex|
  {
    if finalizedByIndex != [] {
      var front := finalizedByIndex[..|finalizedByIndex| - 1];
      SomeOfMembers(front);
      assert forall j | 0 <= j < |front| :: front[j] == finalizedByIndex[j];
    }
  }

  lemma {:induction false} AllTerminateExactly(items: seq<Item>, finalizedByIndex: seq<Option<Finalized>>)
    requires Finals(items, finalizedByIndex)
    ensures ShouldTerminate(SomeOf(finalizedByIndex)) <==> AllTerminate(items, Finished(finalizedByIndex))
  {
    var calls, ran := SomeOf(finalizedByIndex), Finished(finalizedByIndex);
    SomeOfMembers(finalizedByIndex);
    forall x | x in ran
      ensures Finalize(items[x]) in calls
    {
      assert finalizedByIndex[x] == Some(Finalize(items[x]));
    }
    assert calls != [] ==> calls[0] in calls;
    forall f | f in calls
      ensures ran != {} && (AllTerminate(items, ran) ==> f.terminate)
    {
      var j :| 0 <= j < |finalizedByIndex| && finalizedByIndex[j] == Some(f);
      assert j in ran;
    }
    assert ran != {} ==> exists x :: x in ran && Finalize(items[x]) in calls;
  }

  // Calls with an outcome are answered by their own result, the others by a closing one.
  ghost predicate MessagesFor(items: seq<Item>, finalizedByIndex: seq<Option<Finalized>>, messages: seq<Message>,
                              skippedReason: Option<string>, aborted: bool) {
    |messages| <= |items| == |finalizedByIndex| && forall i | 0 <= i < |messages| ::
      if finalizedByIndex[i].Some? then OwnResult(messages[i], items[i])
      else ClosesFor(messages[i], items[i].call, skippedReason, aborted)
  }

  // A call without an outcome is closed as aborted once the abort has happened, else as skipped.
  ghost predicate ClosesFor(m: Message, call: Call, skippedReason: Option<string>, aborted: bool) {
    || (aborted && Closes(m, call, OPERATION_ABORTED, Aborted))
    || (skippedReason.Some? && Closes(m, call, skippedReason.value, Skipped))
  }

  lemma MessagesAnswer(items: seq<Item>, finalizedByIndex: seq<Option<Finalized>>, messages: seq<Message>,
                       skippedReason: Option<string>, aborted: bool)
    requires MessagesFor(items, finalizedByIndex, messages, skippedReason, aborted)
    ensures Answers(messages, ItemCalls(items))
  {
    forall i | 0 <= i < |messages|
      ensures messages[i].ToolResult? && messages[i].toolCallId == items[i].call.id
    {
      if finalizedByIndex[i].None? {
        assert ClosesFor(messages[i], items[i].call, skippedReason, aborted);
      }
    }
  }

  // The message that closes a call without an outcome.
  method CloseCall(call: Call, skippedReason: Option<string>, signal: AbortSignal) returns (message: Message)
    requires skippedReason.Some? || signal.Fired()
    modifies signal
    ensures ClosesFor(message, call, skippedReason, signal.Fired()) && old(signal.clock) <= signal.clock
  {
    var aborted := signal.Aborted();
    if aborted {
      message := SyntheticResult(call, OPERATION_ABORTED, Aborted);
    } else if skippedReason.Some? {
      message := SyntheticResult(call, skippedReason.value, Skipped);
    } else {
      assert false;
    }
  }

  // One message per call in source order: its own result, or a synthetic aborted or skipped one.
  method BuildMessages(items: seq<Item>, finalizedByIndex: seq<Option<Finalized>>, skippedReason: Option<string>, signal: AbortSignal)
    returns (messages: seq<Message>, finalizedCalls: seq<Finalized>)
    requires Finals(items, finalizedByIndex)
    requires skippedReason.Some? || signal.Fired() || forall i | 0 <= i < |items| :: finalizedByIndex[i].Some?
    modifies signal
    ensures Answers(messages, ItemCalls(items)) && |messages| == |items|
    ensures MessagesFor(items, finalizedByIndex, messages, skippedReason, signal.Fired())
    ensures ShouldTerminate(finalizedCalls) <==> AllTerminate(items, Finished(finalizedByIndex))
    ensures old(signal.clock) <= signal.clock
  {
    messages, finalizedCalls := [], [];
    for i := 0 to |items|
      invariant |messages| == i && MessagesFor(items, finalizedByIndex, messages, skippedReason, signal.Fired())
      invariant finalizedCalls == SomeOf(finalizedByIndex[..i])
      invariant old(signal.clock) <= signal.clock
    {
      SomeOfNext(finalizedByIndex, i);
      if finalizedByIndex[i].Some? {
        OwnIsResult(ResultMessage(finalizedByIndex[i].value), items[i]);
        messages := messages + [ResultMessage(finalizedByIndex[i].value)];
        finalizedCalls := finalizedCalls + [finalizedByIndex[i].value];
      } else {
        var message := CloseCall(items[i].call, skippedReason, signal);
        messages := messages + [message];
      }
    }
    assert finalizedByIndex[..|items|] == finalizedByIndex;
    AllTerminateExactly(items, finalizedByIndex);
    MessagesAnswer(items, finalizedByIndex, messages, skippedReason, signal.Fired());
  }

  lemma {:induction false} SafeGroupsConcat(items: seq<Item>, a: seq<seq<nat>>, b: seq<seq<nat>>)
    requires SafeGroups(items, a) && SafeGroups(items, b)
    requires forall x | x in Concat(a) :: x !in Concat(b)
    ensures SafeGroups(items, a + b) && Concat(a + b) == Concat(a) + Concat(b)
  {
    ConcatAppend(a, b);
    var ca, cb := Concat(a), Concat(b);
    forall i, j | 0 <= i < j < |ca + cb|
      ensures (ca + cb)[i] != (ca + cb)[j]
    {
      if i < |ca| <= j {
        assert ca[i] in ca && cb[j - |ca|] in cb;
      }
    }
  }

  // What holds of the log between candidate levels: the groups are safe, each belongs to one level
  // below `l`, levels in order and conflicts of one level in source order, and they hold exactly the
  // calls that start and have been finalized.
  ghost predicate LogSoFar(items: seq<Item>, levels: seq<seq<nat>>, l: nat, finalizedByIndex: seq<Option<Finalized>>,
                           groups: seq<seq<nat>>, stage: seq<nat>) {
    && Finals(items, finalizedByIndex) && SafeGroups(items, groups)
    && Origins(levels, groups, stage) && StageOrder(items, groups, stage) && (forall a | 0 <= a < |stage| :: stage[a] < l)
    && forall x :: x in Concat(groups) <==> 0 <= x < |items| && Starts(items[x]) && finalizedByIndex[x].Some?
  }

  function Repeat(l: nat, n: nat): (r: seq<nat>)
    ensures |r| == n && forall k | 0 <= k < n :: r[k] == l
  {
    seq(n, k => l)
  }

  // The calls of a level are in no earlier group.
  lemma {:induction false} LevelIsNew(levels: seq<seq<nat>>, n: nat, l: nat, groups: seq<seq<nat>>, stage: seq<nat>, x: nat)
    requires Schedules(levels, n) && l < |levels| && x in levels[l]
    requires Origins(levels, groups, stage) && forall a | 0 <= a < |stage| :: stage[a] < l
    ensures x !in Concat(groups)
  {
    forall a, y | 0 <= a < |groups| && y in groups[a]
      ensures y != x
    {
      assert y in levels[stage[a]] && stage[a] < l;
    }
    if x in Concat(groups) {
      var a := MemberOfConcat(groups, x);
    }
  }

  lemma {:induction false} StageNext(items: seq<Item>, levels: seq<seq<nat>>, l: nat, groups: seq<seq<nat>>, stage: seq<nat>,
                                     started: seq<seq<nat>>)
    requires l < |levels| && Origins(levels, groups, stage) && StageOrder(items, groups, stage)
    requires forall a | 0 <= a < |stage| :: stage[a] < l
    requires ConflictOrder(items, started) && forall b, x | 0 <= b < |started| && x in started[b] :: x in levels[l]
    ensures var stage' := stage + Repeat(l, |started|);
            && Origins(levels, groups + started, stage') && StageOrder(items, groups + started, stage')
            && forall a | 0 <= a < |stage'| :: stage'[a] < l + 1
  {
  }

  lemma {:induction false} LogNext(items: seq<Item>, levels: seq<seq<nat>>, l: nat, before: seq<Option<Finalized>>,
                                   after: seq<Option<Finalized>>, groups: seq<seq<nat>>, stage: seq<nat>,
                                   started: seq<seq<nat>>, outcomes: seq<DagOutcome>)
    requires Schedules(levels, |items|) && l < |levels| && LogSoFar(items, levels, l, before, groups, stage)
    requires Finals(items, after) && forall i | 0 <= i < |items| :: after[i].Some? <==> before[i].Some? || Covers(outcomes, i)
    requires SafeGroups(items, started) && ConflictOrder(items, started) && StartsLogged(items, outcomes, started)
    requires forall x | x in Concat(started) :: x in levels[l] && Covers(outcomes, x)
    ensures LogSoFar(items, levels, l + 1, after, groups + started, stage + Repeat(l, |started|))
  {
    forall x | x in Concat(groups)
      ensures x !in Concat(started)
    {
      if x in Concat(started) {
        LevelIsNew(levels, |items|, l, groups, stage, x);
      }
    }
    SafeGroupsConcat(items, groups, started);
    forall b, x | 0 <= b < |started| && x in started[b]
      ensures x in levels[l]
    {
      ConcatMember(started, b, x);
    }
    StageNext(items, levels, l, groups, stage, started);
    forall x
      ensures x in Concat(groups + started) <==> 0 <= x < |items| && Starts(items[x]) && after[x].Some?
    {
      if x in Concat(started) {
        var b := MemberOfConcat(started, x);
        assert Independent(items, started[b]);
      }
      if 0 <= x < |items| && Starts(items[x]) && Covers(outcomes, x) {
        var o :| o in outcomes && o.sourceIndex == x;
        var b :| 0 <= b < |started| && x in started[b];
        ConcatMember(started, b, x);
      }
    }
  }

  // No call of the levels from the l-th on has an outcome.
  ghost predicate Untouched(levels: seq<seq<nat>>, l: nat, finalizedByIndex: seq<Option<Finalized>>) {
    forall k, i | l <= k < |levels| && 0 <= i < |levels[k]| :: levels[k][i] !in Finished(finalizedByIndex)
  }

  // What holds of the levels run so far: nothing started after an unsettled timeout, no level but the
  // last one asked for termination, and the flags say why the last one stops the batch.
  ghost predicate LevelsRun(items: seq<Item>, levels: seq<seq<nat>>, reached: nat, finalizedByIndex: seq<Option<Finalized>>,
                            groups: seq<seq<nat>>, skipped: bool, stopRun: bool, aborted: bool) {
    var ran := Finished(finalizedByIndex);
    && reached <= |levels| && Untouched(levels, reached, finalizedByIndex)
    && (forall k | 0 <= k < reached - 1 :: !LevelTerminates(items, levels[k], ran))
    && LevelStops(items, groups, stopRun, aborted)
    && (skipped <==> stopRun || (!aborted && reached > 0 && LevelTerminates(items, levels[reached - 1], ran)))
  }

  // The outcomes of a level that no call of it had before decide whether it asks for termination.
  lemma {:induction false} TerminatesExactly(items: seq<Item>, level: seq<nat>, before: seq<Option<Finalized>>,
                                             after: seq<Option<Finalized>>, outcomes: seq<DagOutcome>)
    requires OutcomesOf(items, level, outcomes) && |before| == |after| == |items|
    requires forall i | 0 <= i < |items| :: after[i].Some? <==> before[i].Some? || Covers(outcomes, i)
    requires forall i | 0 <= i < |level| :: level[i] !in Finished(before)
    ensures ShouldTerminate(Finalizeds(outcomes)) <==> LevelTerminates(items, level, Finished(after))
  {
    var finalized, ran := Finalizeds(outcomes), Finished(after);
    forall k | 0 <= k < |outcomes|
      ensures outcomes[k].sourceIndex in ran && outcomes[k].sourceIndex in level
      ensures finalized[k] == Finalize(items[outcomes[k].sourceIndex])
    {
      assert outcomes[k] in outcomes;
    }
    forall i | 0 <= i < |level| && level[i] in ran
      ensures exists k | 0 <= k < |outcomes| :: outcomes[k].sourceIndex == level[i]
    {
      assert Covers(outcomes, level[i]);
    }
    if ShouldTerminate(finalized) {
      TerminatesForward(items, level, ran, outcomes);
    }
    if LevelTerminates(items, level, ran) {
      forall f | f in finalized
        ensures f.terminate
      {
        var k :| 0 <= k < |finalized| && finalized[k] == f;
        var i :| 0 <= i < |level| && level[i] == outcomes[k].sourceIndex;
      }
    }
  }

  lemma TerminatesForward(items: seq<Item>, level: seq<nat>, ran: set<nat>, outcomes: seq<DagOutcome>)
    requires OutcomesOf(items, level, outcomes) && ShouldTerminate(Finalizeds(outcomes))
    requires forall k | 0 <= k < |outcomes| :: outcomes[k].sourceIndex in ran
    requires forall i | 0 <= i < |level| && level[i] in ran :: exists k | 0 <= k < |outcomes| :: outcomes[k].sourceIndex == level[i]
    ensures LevelTerminates(items, level, ran)
  {
    var finalized := Finalizeds(outcomes);
    assert outcomes[0] in outcomes;
    var first :| 0 <= first < |level| && level[first] == outcomes[0].sourceIndex;
    forall i | 0 <= i < |level| && level[i] in ran
      ensures level[i] < |items| && AsksToEnd(items[level[i]])
    {
      var k :| 0 <= k < |outcomes| && outcomes[k].sourceIndex == level[i];
      assert outcomes[k] in outcomes && finalized[k] in finalized;
    }
  }

  // A level's outcomes leave those of every other level alone.
  lemma {:induction false} LevelsRunNext(items: seq<Item>, levels: seq<seq<nat>>, l: nat, before: seq<Option<Finalized>>,
                                         after: seq<Option<Finalized>>, outcomes: seq<DagOutcome>, logged: seq<seq<nat>>,
                                         started: seq<seq<nat>>, groups: seq<seq<nat>>, stopped: bool, terminating: bool, aborted: bool)
    requires Schedules(levels, |items|) && l < |levels| && |before| == |after| == |items|
    requires LevelsRun(items, levels, l, before, logged, false, false, false)
    requires OutcomesOf(items, levels[l], outcomes)
    requires forall i | 0 <= i < |items| :: after[i].Some? <==> before[i].Some? || Covers(outcomes, i)
    requires groups == logged + started && LevelStops(items, started, stopped, aborted)
    requires terminating <==> ShouldTerminate(Finalizeds(outcomes))
    ensures LevelsRun(items, levels, l + 1, after, groups, !aborted && (stopped || terminating), !aborted && stopped, aborted)
  {
    TerminatesExactly(items, levels[l], before, after, outcomes);
    LogsJoin(items, logged, started, groups);
    OthersAlone(items, levels, l, before, after, outcomes);
    assert l > 0 ==> !LevelTerminates(items, levels[l - 1], Finished(before));
  }

  // A log without unsettled timeouts, continued.
  lemma LogsJoin(items: seq<Item>, logged: seq<seq<nat>>, started: seq<seq<nat>>, groups: seq<seq<nat>>)
    requires !LogUnsettled(items, logged) && UnsettledLast(items, started) && groups == logged + started
    ensures UnsettledLast(items, groups) && (LogUnsettled(items, groups) <==> LogUnsettled(items, started))
  {
    forall a | 0 <= a < |groups|
      ensures groups[a] == if a < |logged| then logged[a] else started[a - |logged|]
    {
    }
    if a :| 0 <= a < |started| && GroupUnsettled(items, started[a]) {
      assert GroupUnsettled(items, groups[|logged| + a]);
    }
  }

  lemma {:induction false} OthersAlone(items: seq<Item>, levels: seq<seq<nat>>, l: nat, before: seq<Option<Finalized>>,
                                       after: seq<Option<Finalized>>, outcomes: seq<DagOutcome>)
    requires Schedules(levels, |items|) && l < |levels| && |before| == |after| == |items| && OutcomesOf(items, levels[l], outcomes)
    requires forall i | 0 <= i < |items| :: after[i].Some? <==> before[i].Some? || Covers(outcomes, i)
    ensures forall k, i | 0 <= k < |levels| && k != l && 0 <= i < |levels[k]| ::
              levels[k][i] in Finished(after) <==> levels[k][i] in Finished(before)
  {
    forall k, i | 0 <= k < |levels| && k != l && 0 <= i < |levels[k]|
      ensures levels[k][i] in Finished(after) <==> levels[k][i] in Finished(before)
    {
      var x := levels[k][i];
      assert x in levels[k] && x !in levels[l];
      assert forall o | o in outcomes :: o.sourceIndex != x;
    }
  }

  // Every call of the level has been finalized.
  ghost predicate LevelDone(level: seq<nat>, finalizedByIndex: seq<Option<Finalized>>) {
    forall k | 0 <= k < |level| :: level[k] < |finalizedByIndex| && finalizedByIndex[level[k]].Some?
  }

  ghost predicate LevelsDone(levels: seq<seq<nat>>, l: nat, finalizedByIndex: seq<Option<Finalized>>) {
    l <= |levels| && forall a | 0 <= a < l :: LevelDone(levels[a], finalizedByIndex)
  }

  lemma {:induction false} AllDone(levels: seq<seq<nat>>, finalizedByIndex: seq<Option<Finalized>>)
    requires Schedules(levels, |finalizedByIndex|) && LevelsDone(levels, |levels|, finalizedByIndex)
    ensures forall i | 0 <= i < |finalizedByIndex| :: finalizedByIndex[i].Some?
  {
    forall i | 0 <= i < |finalizedByIndex|
      ensures finalizedByIndex[i].Some?
    {
      assert InSome(levels, i);
      var a :| 0 <= a < |levels| && i in levels[a];
      assert LevelDone(levels[a], finalizedByIndex);
    }
  }

  lemma {:induction false} StillDone(levels: seq<seq<nat>>, l: nat, before: seq<Option<Finalized>>, after: seq<Option<Finalized>>)
    requires LevelsDone(levels, l, before) && |before| == |after|
    requires forall i | 0 <= i < |before| && before[i].Some? :: after[i].Some?
    ensures LevelsDone(levels, l, after)
  {
    forall a | 0 <= a < l
      ensures LevelDone(levels[a], after)
    {
      assert LevelDone(levels[a], before);
    }
  }

  lemma {:induction false} OneMoreDone(levels: seq<seq<nat>>, l: nat, before: seq<Option<Finalized>>, after: seq<Option<Finalized>>)
    requires LevelsDone(levels, l, before) && l < |levels| && |before| == |after|
    requires forall i | 0 <= i < |before| && before[i].Some? :: after[i].Some?
    requires LevelDone(levels[l], after)
    ensures LevelsDone(levels, l + 1, after)
  {
    StillDone(levels, l, before, after);
  }

  // The levels run so far and what the batch does after them.
  datatype Progress = Progress(reached: nat, finalizedByIndex: seq<Option<Finalized>>, groups: seq<seq<nat>>, stage: seq<nat>,
                               skipped: bool, stopRun: bool, aborted: bool)

  // How many of them ran in full: an unsettled timeout may have cut the last one short.
  ghost function InFull(s: Progress): nat {
    if s.stopRun && s.reached > 0 then s.reached - 1 else s.reached
  }

  ghost predicate InProgress(items: seq<Item>, levels: seq<seq<nat>>, s: Progress) {
    && LogSoFar(items, levels, s.reached, s.finalizedByIndex, s.groups, s.stage)
    && LevelsRun(items, levels, s.reached, s.finalizedByIndex, s.groups, s.skipped, s.stopRun, s.aborted)
    && (s.aborted || LevelsDone(levels, InFull(s), s.finalizedByIndex))
  }

  ghost function Progresses(items: seq<Item>, levels: seq<seq<nat>>): iset<Progress> {
    iset s: Progress | InProgress(items, levels, s)
  }

  lemma ProgressFinals(items: seq<Item>, levels: seq<seq<nat>>, s: Progress)
    requires s in Progresses(items, levels)
    ensures Finals(items, s.finalizedByIndex)
  {
  }

  // What holds after a level, with the abort seen by now and without.
  ghost predicate LevelReport(items: seq<Item>, levels: seq<seq<nat>>, l: nat, finalizedByIndex: seq<Option<Finalized>>,
                              groups: seq<seq<nat>>, stage: seq<nat>, stopped: bool, terminating: bool, aborted: bool) {
    && Progress(l, finalizedByIndex, groups, stage, false, false, true) in Progresses(items, levels)
    && (!aborted ==> Progress(l, finalizedByIndex, groups, stage, stopped || terminating, stopped, false) in Progresses(items, levels))
  }

  lemma {:induction false} LevelReported(items: seq<Item>, levels: seq<seq<nat>>, l: nat, before: seq<Option<Finalized>>,
                                         after: seq<Option<Finalized>>, outcomes: seq<DagOutcome>, logged: seq<seq<nat>>,
                                         started: seq<seq<nat>>, groups: seq<seq<nat>>, stage: seq<nat>, stage': seq<nat>,
                                         stopped: bool, terminating: bool, aborted: bool)
    requires Schedules(levels, |items|) && l < |levels| && Finals(items, before) && Finals(items, after)
    requires Progress(l, before, logged, stage, false, false, false) in Progresses(items, levels)
    requires LevelRan(items, levels[l], outcomes, started, stopped, aborted)
    requires forall i | 0 <= i < |items| :: after[i].Some? <==> before[i].Some? || Covers(outcomes, i)
    requires groups == logged + started && stage' == stage + Repeat(l, |started|)
    requires terminating <==> ShouldTerminate(Finalizeds(outcomes))
    ensures LevelReport(items, levels, l + 1, after, groups, stage', stopped, terminating, aborted)
  {
    assert InProgress(items, levels, Progress(l, before, logged, stage, false, false, false));
    LogNext(items, levels, l, before, after, logged, stage, started, outcomes);
    LevelProgress(items, levels, l, before, after, outcomes, logged, started, groups, stage', false, terminating, true);
    if !aborted {
      LevelCovered(items, levels, l, before, after, outcomes, stopped);
      LevelProgress(items, levels, l, before, after, outcomes, logged, started, groups, stage', stopped, terminating, false);
    }
  }

  lemma LevelProgress(items: seq<Item>, levels: seq<seq<nat>>, l: nat, before: seq<Option<Finalized>>, after: seq<Option<Finalized>>,
                      outcomes: seq<DagOutcome>, logged: seq<seq<nat>>, started: seq<seq<nat>>, groups: seq<seq<nat>>, stage: seq<nat>,
                      stopped: bool, terminating: bool, aborted: bool)
    requires Schedules(levels, |items|) && l < |levels| && |before| == |after| == |items| && OutcomesOf(items, levels[l], outcomes)
    requires LevelsRun(items, levels, l, before, logged, false, false, false)
    requires forall i | 0 <= i < |items| :: after[i].Some? <==> before[i].Some? || Covers(outcomes, i)
    requires groups == logged + started && LevelStops(items, started, stopped, aborted)
    requires terminating <==> ShouldTerminate(Finalizeds(outcomes))
    requires LogSoFar(items, levels, l + 1, after, groups, stage)
    requires aborted || LevelsDone(levels, if stopped then l else l + 1, after)
    ensures Progress(l + 1, after, groups, stage, !aborted && (stopped || terminating), !aborted && stopped, aborted)
            in Progresses(items, levels)
  {
    LevelsRunNext(items, levels, l, before, after, outcomes, logged, started, groups, stopped, terminating, aborted);
  }

  lemma {:induction false} LevelCovered(items: seq<Item>, levels: seq<seq<nat>>, l: nat, before: seq<Option<Finalized>>,
                                        after: seq<Option<Finalized>>, outcomes: seq<DagOutcome>, stopped: bool)
    requires Schedules(levels, |items|) && l < |levels| && |before| == |after| == |items| && LevelsDone(levels, l, before)
    requires forall i | 0 <= i < |items| :: after[i].Some? <==> before[i].Some? || Covers(outcomes, i)
    requires stopped || forall x | x in levels[l] :: Covers(outcomes, x)
    ensures LevelsDone(levels, if stopped then l else l + 1, after)
  {
    StillDone(levels, l, before, after);
    if !stopped {
      assert forall k | 0 <= k < |levels[l]| :: levels[l][k] in levels[l];
      OneMoreDone(levels, l, before, after);
    }
  }

  // Why the calls of later levels are skipped after a level.
  method SkipReason(aborted: bool, stopped: bool, terminating: bool) returns (reason: Option<string>)
    ensures (reason.Some? <==> !aborted && (stopped || terminating)) && ReasonFor(reason, !aborted && stopped)
  {
    reason := None;
    if !aborted {
      if stopped {
        reason := Some(AFTER_UNSETTLED_DAG_TOOL);
      } else if terminating {
        reason := Some(AFTER_LAST_DAG_LEVEL);
      }
    }
  }

  lemma ReportRead(items: seq<Item>, levels: seq<seq<nat>>, l: nat, finalizedByIndex: seq<Option<Finalized>>, groups: seq<seq<nat>>,
                   stage: seq<nat>, stopped: bool, terminating: bool, aborted: bool, later: bool)
    requires LevelReport(items, levels, l, finalizedByIndex, groups, stage, stopped, terminating, aborted) && (aborted ==> later)
    ensures Progress(l, finalizedByIndex, groups, stage, !later && (stopped || terminating), !later && stopped, later)
            in Progresses(items, levels)
  {
  }

  // Runs one candidate level and records its outcomes.
  method RunNextLevel(run: Run, items: seq<Item>, levels: seq<seq<nat>>, l: nat, cap: Cap, signal: AbortSignal,
                      before: seq<Option<Finalized>>, ghost log: seq<seq<nat>>, ghost logged: seq<seq<nat>>, ghost stage: seq<nat>)
    returns (finalizedByIndex: seq<Option<Finalized>>, stopped: bool, terminating: bool,
             ghost groups: seq<seq<nat>>, ghost stage': seq<nat>, ghost times: seq<nat>)
    requires Schedules(levels, |items|) && l < |levels| && run.started == log + logged
    requires Progress(l, before, logged, stage, false, false, false) in Progresses(items, levels)
    modifies run`started, run`startedAt, signal
    ensures run.started == log + groups && LevelReport(items, levels, l + 1, finalizedByIndex, groups, stage', stopped, terminating, signal.Fired())
    ensures run.startedAt == old(run.startedAt) + times && |groups| == |logged| + |times|
    ensures Timely(signal.abortAt, times, old(signal.clock), signal.clock)
    ensures old(signal.clock) <= signal.clock
  {
    ProgressFinals(items, levels, Progress(l, before, logged, stage, false, false, false));
    assert forall k | 0 <= k < |levels[l]| :: levels[l][k] in levels[l];
    var outcomes;
    ghost var started;
    outcomes, stopped, started, times := RunDagLevelCalls(run, items, levels[l], cap, signal);
    finalizedByIndex := Record(items, levels[l], before, outcomes);
    ConcatAssoc(log, logged, started);
    groups, stage' := logged + started, stage + Repeat(l, |started|);
    terminating := ShouldTerminate(Finalizeds(outcomes));
    LevelReported(items, levels, l, before, finalizedByIndex, outcomes, logged, started, groups, stage, stage',
                  stopped, terminating, signal.Fired());
  }

  // One pass of the level loop: runs the level and reads off it whether the batch goes on.
  method RunLevelAndCheck(run: Run, items: seq<Item>, levels: seq<seq<nat>>, l: nat, cap: Cap, signal: AbortSignal,
                          before: seq<Option<Finalized>>, ghost log: seq<seq<nat>>, ghost logged: seq<seq<nat>>, ghost stage: seq<nat>)
    returns (finalizedByIndex: seq<Option<Finalized>>, skippedReason: Option<string>, stopRun: bool, aborted: bool,
             ghost groups: seq<seq<nat>>, ghost stage': seq<nat>, ghost times: seq<nat>)
    requires Schedules(levels, |items|) && l < |levels| && run.started == log + logged
    requires Progress(l, before, logged, stage, false, false, false) in Progresses(items, levels)
    modifies run`started, run`startedAt, signal
    ensures Progress(l + 1, finalizedByIndex, groups, stage', skippedReason.Some?, stopRun, aborted) in Progresses(items, levels)
    ensures run.started == log + groups && run.startedAt == old(run.startedAt) + times && |groups| == |logged| + |times|
    ensures Timely(signal.abortAt, times, old(signal.clock), signal.clock)
    ensures aborted == signal.Fired() && old(signal.clock) < signal.clock && ReasonFor(skippedReason, stopRun)
  {
    var stopped, terminating;
    finalizedByIndex, stopped, terminating, groups, stage', times :=
      RunNextLevel(run, items, levels, l, cap, signal, before, log, logged, stage);
    ghost var seen := signal.Fired();
    aborted := signal.Aborted();
    stopRun := !aborted && stopped;
    skippedReason := SkipReason(aborted, stopped, terminating);
    ReportRead(items, levels, l + 1, finalizedByIndex, groups, stage', stopped, terminating, seen, aborted);
  }

  lemma NothingRun(items: seq<Item>, levels: seq<seq<nat>>, finalizedByIndex: seq<Option<Finalized>>)
    requires finalizedByIndex == seq(|items|, i => None)
    ensures Progress(0, finalizedByIndex, [], [], false, false, false) in Progresses(items, levels)
  {
  }

  // The level loop: runs candidate levels until one aborts, stops or requests termination.
  method RunLevels(run: Run, items: seq<Item>, levels: seq<seq<nat>>, cap: Cap, signal: AbortSignal)
    returns (finalizedByIndex: seq<Option<Finalized>>, skippedReason: Option<string>, stopRun: bool,
             ghost groups: seq<seq<nat>>, ghost stage: seq<nat>, ghost reached: nat, ghost aborted: bool, ghost times: seq<nat>)
    requires Schedules(levels, |items|) || (levels == [] && signal.Fired())
    modifies run`started, run`startedAt, signal
    ensures Progress(reached, finalizedByIndex, groups, stage, skippedReason.Some?, stopRun, aborted) in Progresses(items, levels)
    ensures (aborted ==> signal.Fired()) && (reached == |levels| || skippedReason.Some? || aborted) && ReasonFor(skippedReason, stopRun)
    ensures run.started == old(run.started) + groups && run.startedAt == old(run.startedAt) + times && |times| == |groups|
    ensures Timely(signal.abortAt, times, old(signal.clock), signal.clock)
    ensures old(signal.clock) <= signal.clock
  {
    finalizedByIndex := seq(|items|, i => None);
    skippedReason, stopRun, groups, stage, reached, aborted, times := None, false, [], [], 0, false, [];
    NothingRun(items, levels, finalizedByIndex);
    var l := 0;
    var seen := false;
    while l < |levels| && !seen && skippedReason.None?
      invariant l <= |levels| && l == reached && seen == aborted && (aborted ==> signal.Fired())
      invariant Progress(l, finalizedByIndex, groups, stage, skippedReason.Some?, stopRun, aborted) in Progresses(items, levels)
      invariant (skippedReason.None? ==> !stopRun) && ReasonFor(skippedReason, stopRun)
      invariant run.started == old(run.started) + groups && |times| == |groups|
      invariant run.startedAt == old(run.startedAt) + times && Timely(signal.abortAt, times, old(signal.clock), signal.clock)
      invariant old(signal.clock) <= signal.clock
      decreases |levels| - l, !seen
    {
      seen := signal.Aborted();
      aborted := seen;
      if seen {
        SeenBefore(items, levels, Progress(l, finalizedByIndex, groups, stage, false, false, false));
      } else {
        ghost var more;
        ghost var mid := signal.clock;
        finalizedByIndex, skippedReason, stopRun, seen, groups, stage, more :=
          RunLevelAndCheck(run, items, levels, l, cap, signal, finalizedByIndex, old(run.started), groups, stage);
        aborted := seen;
        TimelyConcat(signal.abortAt, times, more, old(signal.clock), mid, signal.clock);
        ConcatAssoc(old(run.startedAt), times, more);
        times := times + more;
        l, reached := l + 1, l + 1;
      }
    }
  }

  // The abort seen before a level leaves what has run as it is.
  lemma SeenBefore(items: seq<Item>, levels: seq<seq<nat>>, s: Progress)
    requires s in Progresses(items, levels) && !s.skipped && !s.stopRun
    ensures s.(aborted := true) in Progresses(items, levels)
  {
    assert InProgress(items, levels, s);
  }

  // What a batch starts on the dag-v2 path. Calls started together do not conflict under their final
  // claims and no call starts twice; conflicts are in source order within a candidate level by final
  // claims and across levels by planned claims; and the calls started are exactly those that can start
  // and whose own result is reported.
  ghost predicate DagLog(items: seq<Item>, messages: seq<Message>, levels: seq<seq<nat>>, stage: seq<nat>, groups: seq<seq<nat>>) {
    && SafeGroups(items, groups) && Origins(levels, groups, stage) && StageOrder(items, groups, stage) && PlannedOrder(items, groups)
    && |messages| == |items|
    && forall x :: x in Concat(groups) <==> 0 <= x < |items| && Starts(items[x]) && OwnResult(messages[x], items[x])
  }

  lemma {:induction false} PlannedAcrossLevels(items: seq<Item>, levels: seq<seq<nat>>, groups: seq<seq<nat>>, stage: seq<nat>)
    requires PlannedOrder(items, levels) && Origins(levels, groups, stage)
    ensures PlannedOrder(items, groups)
  {
    forall a, b, x, y | 0 <= a < |groups| && 0 <= b < |groups| && x in groups[a] && y in groups[b]
                        && x < y && PlannedConflict(items, x, y)
      ensures a < b
    {
      assert x in levels[stage[a]] && y in levels[stage[b]];
      assert stage[a] < stage[b];
    }
  }

  // Exactly the calls with an outcome have a result of their own.
  ghost predicate OwnExactly(items: seq<Item>, finalizedByIndex: seq<Option<Finalized>>, messages: seq<Message>) {
    && |messages| == |items| == |finalizedByIndex|
    && forall i | 0 <= i < |items| :: OwnResult(messages[i], items[i]) <==> finalizedByIndex[i].Some?
  }

  // A result that closes a call is never its own: it is marked as a closing one.
  lemma ClosingIsNotOwn(items: seq<Item>, finalizedByIndex: seq<Option<Finalized>>, messages: seq<Message>,
                        skippedReason: Option<string>, aborted: bool)
    requires MessagesFor(items, finalizedByIndex, messages, skippedReason, aborted) && |messages| == |items|
    ensures OwnExactly(items, finalizedByIndex, messages)
  {
    forall i | 0 <= i < |items|
      ensures OwnResult(messages[i], items[i]) <==> finalizedByIndex[i].Some?
    {
      if finalizedByIndex[i].None? {
        assert ClosesFor(messages[i], items[i].call, skippedReason, aborted);
      }
    }
  }

  lemma {:induction false} LogOfMessages(items: seq<Item>, levels: seq<seq<nat>>, reached: nat, finalizedByIndex: seq<Option<Finalized>>,
                                         groups: seq<seq<nat>>, stage: seq<nat>, messages: seq<Message>)
    requires LogSoFar(items, levels, reached, finalizedByIndex, groups, stage) && PlannedOrder(items, levels)
    requires OwnExactly(items, finalizedByIndex, messages)
    ensures DagLog(items, messages, levels, stage, groups)
  {
    PlannedAcrossLevels(items, levels, groups, stage);
  }

  // The reason the later calls are skipped for, if they are.
  ghost predicate ReasonFor(skippedReason: Option<string>, stopRun: bool) {
    skippedReason.Some? ==> skippedReason.value == if stopRun then AFTER_UNSETTLED_DAG_TOOL else AFTER_LAST_DAG_LEVEL
  }

  // A call without a result of its own is closed as aborted, which takes an abort, or as skipped, which
  // takes the end of the turns, for the reason the flags tell.
  ghost predicate DagCloses(m: Message, call: Call, terminate: bool, stopRun: bool, aborted: bool) {
    || (aborted && Closes(m, call, OPERATION_ABORTED, Aborted))
    || (terminate && Closes(m, call, if stopRun then AFTER_UNSETTLED_DAG_TOOL else AFTER_LAST_DAG_LEVEL, Skipped))
  }

  ghost predicate OwnOrDagClosed(items: seq<Item>, messages: seq<Message>, terminate: bool, stopRun: bool, aborted: bool) {
    && |messages| == |items|
    && forall i | 0 <= i < |items| ::
         OwnResult(messages[i], items[i]) || DagCloses(messages[i], items[i].call, terminate, stopRun, aborted)
  }

  lemma MessagesClose(items: seq<Item>, finalizedByIndex: seq<Option<Finalized>>, messages: seq<Message>,
                      skippedReason: Option<string>, terminate: bool, stopRun: bool, aborted: bool)
    requires MessagesFor(items, finalizedByIndex, messages, skippedReason, aborted) && |messages| == |items|
    requires ReasonFor(skippedReason, stopRun) && (skippedReason.Some? ==> terminate)
    ensures OwnOrDagClosed(items, messages, terminate, stopRun, aborted)
  {
    forall i | 0 <= i < |items|
      ensures OwnResult(messages[i], items[i]) || DagCloses(messages[i], items[i].call, terminate, stopRun, aborted)
    {
      if finalizedByIndex[i].None? {
        assert ClosesFor(messages[i], items[i].call, skippedReason, aborted);
      }
    }
  }

  // Why a batch on the dag-v2 path stopped where it did, `ran` being the calls with a result of their
  // own: nothing started after an unsettled timeout, no level ran after one whose outcomes all ask for
  // termination, and unless an abort has been seen the batch ran all its levels or one of the two
  // stopped it, which the flags report, and every call of the levels run has its own result unless an
  // unsettled timeout cut the last one short.
  ghost predicate DagStops(items: seq<Item>, ran: set<nat>, levels: seq<seq<nat>>, groups: seq<seq<nat>>, reached: nat,
                           terminate: bool, stopRun: bool, aborted: bool) {
    && reached <= |levels| && UnsettledLast(items, groups)
    && (forall k, i | reached <= k < |levels| && 0 <= i < |levels[k]| :: levels[k][i] !in ran)
    && (forall k | 0 <= k < reached - 1 :: !LevelTerminates(items, levels[k], ran))
    && (stopRun ==> LogUnsettled(items, groups) && terminate)
    && (!aborted && LogUnsettled(items, groups) ==> stopRun)
    && (terminate ==> stopRun || LastTerminates(items, levels, reached, ran) || AllTerminate(items, ran))
    && (AllTerminate(items, ran) || (!aborted && LastTerminates(items, levels, reached, ran)) ==> terminate)
    && (reached == |levels| || terminate || aborted)
    && (aborted || forall k, i | 0 <= k < reached && (stopRun ==> k < reached - 1) && 0 <= i < |levels[k]| :: levels[k][i] in ran)
  }

  // Every outcome of the last level reached asks for termination.
  ghost predicate LastTerminates(items: seq<Item>, levels: seq<seq<nat>>, reached: nat, ran: set<nat>)
    requires reached <= |levels|
  {
    reached > 0 && LevelTerminates(items, levels[reached - 1], ran)
  }

  lemma {:induction false} OwnAreFinished(items: seq<Item>, messages: seq<Message>, finalizedByIndex: seq<Option<Finalized>>)
    requires OwnExactly(items, finalizedByIndex, messages)
    ensures OwnResults(items, messages) == Finished(finalizedByIndex)
  {
  }

  lemma BatchStops(items: seq<Item>, levels: seq<seq<nat>>, s: Progress, ran: set<nat>, terminate: bool, later: bool)
    requires s in Progresses(items, levels) && ran == Finished(s.finalizedByIndex)
    requires (s.reached == |levels| || s.skipped || s.aborted) && (s.aborted ==> later)
    requires terminate <==> s.skipped || AllTerminate(items, ran)
    ensures DagStops(items, ran, levels, s.groups, s.reached, terminate, s.stopRun, later)
  {
    assert InProgress(items, levels, s);
  }

  // A batch that is neither skipped nor aborted has an outcome for every call.
  lemma {:induction false} AllFinished(items: seq<Item>, levels: seq<seq<nat>>, s: Progress)
    requires s in Progresses(items, levels) && !s.skipped && !s.aborted && s.reached == |levels| && Schedules(levels, |items|)
    ensures |s.finalizedByIndex| == |items| && forall i | 0 <= i < |items| :: s.finalizedByIndex[i].Some?
  {
    assert InProgress(items, levels, s);
    AllDone(levels, s.finalizedByIndex);
  }

  // What the messages, the log and the flags of a batch come to.
  lemma {:induction false} BatchReported(items: seq<Item>, levels: seq<seq<nat>>, s: Progress, messages: seq<Message>, terminate: bool, later: bool)
    requires s in Progresses(items, levels) && PlannedOrder(items, levels)
    requires OwnExactly(items, s.finalizedByIndex, messages)
    requires (s.reached == |levels| || s.skipped || s.aborted) && (s.aborted ==> later)
    requires terminate <==> s.skipped || AllTerminate(items, Finished(s.finalizedByIndex))
    ensures DagLog(items, messages, levels, s.stage, s.groups) && (levels == [] ==> s.groups == [])
    ensures DagStops(items, OwnResults(items, messages), levels, s.groups, s.reached, terminate, s.stopRun, later)
  {
    assert InProgress(items, levels, s);
    LogOfMessages(items, levels, s.reached, s.finalizedByIndex, s.groups, s.stage, messages);
    OwnAreFinished(items, messages, s.finalizedByIndex);
    BatchStops(items, levels, s, OwnResults(items, messages), terminate, later);
  }

  // Closes the batch: the messages, in source order, and whether it asks for the end of the turns.
  method CommitBatch(run: Run, items: seq<Item>, finalizedByIndex: seq<Option<Finalized>>, skippedReason: Option<string>,
                     signal: AbortSignal, ghost levels: seq<seq<nat>>, ghost s: Progress)
    returns (messages: seq<Message>, terminate: bool)
    requires s in Progresses(items, levels) && s.finalizedByIndex == finalizedByIndex && s.skipped == skippedReason.Some?
    requires (s.reached == |levels| || s.skipped || s.aborted) && (s.aborted ==> signal.Fired())
    requires PlannedOrder(items, levels) && (Schedules(levels, |items|) || signal.Fired()) && ReasonFor(skippedReason, s.stopRun)
    modifies run`context, run`ended, signal
    ensures run.context == old(run.context) + messages && run.ended == old(run.ended) + messages
    ensures Answers(messages, ItemCalls(items)) && |messages| == |items|
    ensures OwnOrDagClosed(items, messages, terminate, s.stopRun, signal.Fired())
    ensures DagLog(items, messages, levels, s.stage, s.groups) && (levels == [] ==> s.groups == [])
    ensures DagStops(items, OwnResults(items, messages), levels, s.groups, s.reached, terminate, s.stopRun, signal.Fired())
    ensures old(signal.clock) <= signal.clock
  {
    ProgressFinals(items, levels, s);
    if skippedReason.None? && !signal.Fired() {
      AllFinished(items, levels, s);
    }
    var finalizedCalls;
    messages, finalizedCalls := BuildMessages(items, finalizedByIndex, skippedReason, signal);
    run.PushAll(messages);
    terminate := skippedReason.Some? || ShouldTerminate(finalizedCalls);
    ClosingIsNotOwn(items, finalizedByIndex, messages, skippedReason, signal.Fired());
    MessagesClose(items, finalizedByIndex, messages, skippedReason, terminate, s.stopRun, signal.Fired());
    BatchReported(items, levels, s, messages, terminate, signal.Fired());
  }

  // Plans the batch and runs its candidate levels.
  method RunCandidates(run: Run, items: seq<Item>, cap: Cap, signal: AbortSignal)
    returns (finalizedByIndex: seq<Option<Finalized>>, skippedReason: Option<string>, stopRun: bool,
             ghost levels: seq<seq<nat>>, ghost s: Progress, ghost times: seq<nat>)
    modifies run`started, run`startedAt, signal
    ensures s in Progresses(items, levels) && s.finalizedByIndex == finalizedByIndex
    ensures s.skipped == skippedReason.Some? && s.stopRun == stopRun && (s.aborted ==> signal.Fired())
    ensures ReasonFor(skippedReason, stopRun)
    ensures s.reached == |levels| || s.skipped || s.aborted
    ensures (Schedules(levels, |items|) && levels in Candidates(items, cap)) || (levels == [] && signal.Fired())
    ensures PlannedOrder(items, levels)
    ensures run.started == old(run.started) + s.groups && run.startedAt == old(run.startedAt) + times && |times| == |s.groups|
    ensures Timely(signal.abortAt, times, old(signal.clock), signal.clock)
    ensures old(signal.clock) <= signal.clock
  {
    var candidates := SchedulePlannedDagLevels(items, cap, signal);
    levels := candidates;
    ghost var planned, groups, stage, reached, aborted := signal.clock, [], [], 0, false;
    finalizedByIndex, skippedReason, stopRun, groups, stage, reached, aborted, times := RunLevels(run, items, candidates, cap, signal);
    s := Progress(reached, finalizedByIndex, groups, stage, skippedReason.Some?, stopRun, aborted);
    TimelyConcat(signal.abortAt, [], times, old(signal.clock), planned, signal.clock);
    assert [] + times == times;
  }

  // executeToolCallsDagLevels: exactly one result per call, in source order, on every schedule, the
  // log of what was started and when, and why the batch stopped.
  method ExecuteToolCallsDagLevels(run: Run, items: seq<Item>, cap: Cap, signal: AbortSignal)
    returns (messages: seq<Message>, terminate: bool, stopRun: bool,
             ghost levels: seq<seq<nat>>, ghost stage: seq<nat>, ghost groups: seq<seq<nat>>, ghost reached: nat, ghost times: seq<nat>)
    modifies run`context, run`ended, run`started, run`startedAt, signal
    ensures run.context == old(run.context) + messages && run.ended == old(run.ended) + messages
    ensures Answers(messages, ItemCalls(items)) && |messages| == |items|
    ensures OwnOrDagClosed(items, messages, terminate, stopRun, signal.Fired())
    ensures run.started == old(run.started) + groups && DagLog(items, messages, levels, stage, groups)
    ensures run.startedAt == old(run.startedAt) + times && |times| == |groups|
    ensures Timely(signal.abortAt, times, old(signal.clock), signal.clock)
    ensures DagStops(items, OwnResults(items, messages), levels, groups, reached, terminate, stopRun, signal.Fired())
    ensures levels in Candidates(items, cap) || (groups == [] && signal.Fired())
    ensures old(signal.clock) <= signal.clock
  {
    var finalizedByIndex, skippedReason;
    ghost var s, more;
    finalizedByIndex, skippedReason, stopRun, levels, s, more := RunCandidates(run, items, cap, signal);
    groups, stage, reached, times := s.groups, s.stage, s.reached, more;
    ghost var ran := signal.clock;
    messages, terminate := CommitBatch(run, items, finalizedByIndex, skippedReason, signal, levels, s);
    TimelyLater(signal.abortAt, times, old(signal.clock), ran, signal.clock);
  }
}
