/** The tool-batch executors of the agent loop: dag-v2 levels, and the waves-v1, parallel and
    sequential paths (packages/agent/src/agent-loop.ts:421-450, 812-886, 963-1349, 1567-1595).

    The environment is a script: for every call, how planning and authorization answer and how its
    execution settles. Abort is a clock that may have run out at any reading and stays run out. */
module Executor {
  import opened Sequences
  import opened Wrappers
  import opened Claims
  import opened DagScheduler
  import opened DagProperties
  import opened PlanKey
  import opened Waves
  import opened Transcript
  import opened Inspector
  import opened Repair
  import Traces

  // ----- The environment

  // An abort at that time has happened by the given reading of the clock.
  predicate FiredAt(abortAt: Option<nat>, clock: nat) {
    abortAt.Some? && abortAt.value <= clock
  }

  class AbortSignal {
    var clock: nat
    const abortAt: Option<nat>

    constructor (abortAt: Option<nat>)
      ensures this.abortAt == abortAt
    {
      this.abortAt := abortAt;
      clock := 0;
    }

    // The parent run has been aborted.
    predicate Fired()
      reads this
    {
      FiredAt(abortAt, clock)
    }

    // Reading the signal: time passes first, and an abort is never taken back.
    method Aborted() returns (b: bool)
      modifies this
      ensures clock == old(clock) + 1 && b == Fired() && (old(Fired()) ==> b)
    {
      clock := clock + 1;
      b := Fired();
    }
  }

  // What planning finds: a call that fails before any tool runs, or the claims of its arguments.
  datatype Plan = ImmediateFailure(text: string) | Planned(claims: Resolution)

  // What authorization answers: a blocked, failed or aborted call, or the claims of the final
  // arguments after the hook.
  datatype Authorization = Denied(text: string, disposition: Disposition) | Granted(claims: Resolution)

  // How an execution settles; `unsettled` marks a timeout whose real promise is still running.
  datatype Settlement = Settlement(text: string, disposition: Disposition, terminate: bool, unsettled: bool)

  datatype Item = Item(call: Call, shape: ToolCallShape, plan: Plan, authorization: Authorization, settlement: Settlement)

  datatype Finalized = Finalized(call: Call, text: string, disposition: Disposition, terminate: bool, unsettled: bool)

  // The transcript, the run's new messages, the messages message_end was emitted for, and the log of
  // executions: one group per moment at which calls of a batch were started together, and how often
  // the abort signal had been read by then.
  class Run {
    var context: seq<Message>
    var newMessages: seq<Message>
    var ended: seq<Message>
    var started: seq<seq<nat>>
    var startedAt: seq<nat>

    constructor (context: seq<Message>, newMessages: seq<Message>, ended: seq<Message>)
      ensures this.context == context && this.newMessages == newMessages && this.ended == ended && started == [] && startedAt == []
    {
      this.context, this.newMessages, this.ended, started, startedAt := context, newMessages, ended, [], [];
    }

    // The one step that executes calls of a batch whose first call has position `base`: the group is
    // logged and every call of it settles.
    method StartTogether(items: seq<Item>, base: nat, group: seq<nat>, signal: AbortSignal) returns (settled: seq<Finalized>)
      requires forall k | 0 <= k < |group| :: base <= group[k] < base + |items| && Starts(items[group[k] - base])
      modifies this`started, this`startedAt
      ensures started == old(started) + [group] && startedAt == old(startedAt) + [signal.clock] && |settled| == |group|
      ensures forall k | 0 <= k < |group| :: settled[k] == Finalize(items[group[k] - base])
    {
      started, startedAt := started + [group], startedAt + [signal.clock];
      settled := seq(|group|, k requires 0 <= k < |group| => Executed(items[group[k] - base]));
    }

    // Commits one message to the transcript and emits its lifecycle.
    method Push(m: Message)
      modifies this`context, this`ended
      ensures context == old(context) + [m] && ended == old(ended) + [m]
    {
      context := context + [m];
      ended := ended + [m];
    }

    method PushAll(ms: seq<Message>)
      modifies this`context, this`ended
      ensures context == old(context) + ms && ended == old(ended) + ms
    {
      for k := 0 to |ms|
        invariant context == old(context) + ms[..k] && ended == old(ended) + ms[..k]
      {
        assert ms[..k + 1] == ms[..k] + [ms[k]];
        Push(ms[k]);
      }
      assert ms[..|ms|] == ms;
    }
  }

  function ItemCalls(items: seq<Item>): (r: seq<Call>)
    ensures |r| == |items| && forall i | 0 <= i < |items| :: r[i] == items[i].call
  {
    seq(|items|, i requires 0 <= i < |items| => items[i].call)
  }

  // Every message answers the call at its own position.
  ghost predicate Answers(messages: seq<Message>, calls: seq<Call>) {
    && |messages| <= |calls|
    && forall i | 0 <= i < |messages| :: messages[i].ToolResult? && messages[i].toolCallId == calls[i].id
  }

  function ResultMessage(f: Finalized): Message {
    ToolResult(f.call.id, f.call.name, f.text, false, f.disposition)
  }

  function Failed(item: Item, text: string, disposition: Disposition): Finalized {
    Finalized(item.call, text, disposition, false, false)
  }

  function Executed(item: Item): Finalized {
    var s := item.settlement;
    Finalized(item.call, s.text, s.disposition, s.terminate, s.unsettled)
  }

  // prepareToolCall and, unless it fails, the execution: the finalized call.
  function Finalize(item: Item): Finalized {
    if item.plan.ImmediateFailure? then Failed(item, item.plan.text, Transcript.Failed)
    else if item.authorization.Denied? then Failed(item, item.authorization.text, item.authorization.disposition)
    else Executed(item)
  }

  // The call is executed.
  ghost predicate Starts(item: Item) {
    item.plan.Planned? && item.authorization.Granted?
  }

  predicate ShouldTerminate(finalized: seq<Finalized>) {
    finalized != [] && forall f | f in finalized :: f.terminate
  }

  predicate Unsettled(f: Finalized) {
    f.disposition == TimedOut && f.unsettled
  }

  predicate HasUnsettledTimeout(finalized: seq<Finalized>) {
    exists f | f in finalized :: Unsettled(f)
  }

  function FinalizeAll(items: seq<Item>): (r: seq<Finalized>)
    ensures |r| == |items| && forall i | 0 <= i < |items| :: r[i] == Finalize(items[i])
  {
    seq(|items|, i requires 0 <= i < |items| => Finalize(items[i]))
  }

  // ----- What a call comes to, field by field

  const OPERATION_ABORTED := "Operation aborted"
  const AFTER_UNSETTLED_TOOL := "Skipped because a preceding tool timed out before settling"
  const AFTER_UNSETTLED_WAVE := "Skipped because the preceding tool wave timed out before settling"
  const AFTER_LAST_WAVE := "Skipped because the preceding tool wave requested termination"

  // The result of the call's own path: of planning or authorization when that fails, and of its
  // execution otherwise.
  ghost predicate OwnResult(m: Message, item: Item) {
    && m.ToolResult? && !m.closing && m.toolCallId == item.call.id && m.toolName == item.call.name
    && match item.plan
       case ImmediateFailure(text) => m.text == text && m.disposition == Transcript.Failed
       case Planned(_) =>
         match item.authorization
         case Denied(text, disposition) => m.text == text && m.disposition == disposition
         case Granted(_) => m.text == item.settlement.text && m.disposition == item.settlement.disposition
  }

  // The call runs, times out, and its tool goes on running.
  ghost predicate LeftRunning(item: Item) {
    && item.plan.Planned? && item.authorization.Granted?
    && item.settlement.disposition == TimedOut && item.settlement.unsettled
  }

  // The call runs and asks for the end of the turns.
  ghost predicate AsksToEnd(item: Item) {
    item.plan.Planned? && item.authorization.Granted? && item.settlement.terminate
  }

  ghost predicate AnyLeftRunning(items: seq<Item>) {
    exists k | 0 <= k < |items| :: LeftRunning(items[k])
  }

  ghost predicate AllAskToEnd(items: seq<Item>) {
    items != [] && forall k | 0 <= k < |items| :: AsksToEnd(items[k])
  }

  lemma OwnIsResult(m: Message, item: Item)
    ensures OwnResult(m, item) <==> m == ResultMessage(Finalize(item))
  {
  }

  lemma FlagsOfOne(item: Item)
    ensures LeftRunning(item) <==> Unsettled(Finalize(item))
    ensures AsksToEnd(item) <==> Finalize(item).terminate
  {
  }

  lemma FlagsOf(items: seq<Item>)
    ensures AnyLeftRunning(items) <==> HasUnsettledTimeout(FinalizeAll(items))
    ensures AllAskToEnd(items) <==> ShouldTerminate(FinalizeAll(items))
  {
    var finalized := FinalizeAll(items);
    forall k | 0 <= k < |items|
      ensures finalized[k] in finalized
      ensures LeftRunning(items[k]) <==> Unsettled(finalized[k])
      ensures AsksToEnd(items[k]) <==> finalized[k].terminate
    {
    }
  }

  // A call of the group is left running.
  ghost predicate GroupUnsettled(items: seq<Item>, group: seq<nat>) {
    exists k | 0 <= k < |group| :: group[k] < |items| && LeftRunning(items[group[k]])
  }

  // So does a call of some logged group.
  ghost predicate LogUnsettled(items: seq<Item>, groups: seq<seq<nat>>) {
    exists a | 0 <= a < |groups| :: GroupUnsettled(items, groups[a])
  }

  // Nothing is started once a call that timed out is still running.
  ghost predicate UnsettledLast(items: seq<Item>, groups: seq<seq<nat>>) {
    forall a | 0 <= a < |groups| - 1 :: !GroupUnsettled(items, groups[a])
  }

  // The first `ran` messages are the calls' own results; the others skip calls for the given reason.
  ghost predicate RanThenSkipped(messages: seq<Message>, items: seq<Item>, ran: nat, reason: string) {
    && ran <= |messages| <= |items|
    && (forall i | 0 <= i < ran :: OwnResult(messages[i], items[i]))
    && (forall i | ran <= i < |messages| :: Closes(messages[i], items[i].call, reason, Skipped))
  }

  // A call without a result of its own is closed as skipped, or as aborted.
  ghost predicate IsClosing(m: Message, call: Call) {
    m.ToolResult? && (m.disposition == Skipped || (m.disposition == Aborted && m.text == OPERATION_ABORTED))
    && Closes(m, call, m.text, m.disposition)
  }

  // All of the messages are the calls' own results.
  ghost predicate AllOwn(messages: seq<Message>, items: seq<Item>) {
    |messages| <= |items| && forall i | 0 <= i < |messages| :: OwnResult(messages[i], items[i])
  }

  lemma RanAnswers(messages: seq<Message>, items: seq<Item>, ran: nat, reason: string)
    requires RanThenSkipped(messages, items, ran, reason)
    ensures Answers(messages, ItemCalls(items))
  {
    forall i | 0 <= i < |messages|
      ensures messages[i].ToolResult? && messages[i].toolCallId == ItemCalls(items)[i].id
    {
      if i < ran {
        assert OwnResult(messages[i], items[i]);
      }
    }
  }

  lemma OwnAnswers(messages: seq<Message>, items: seq<Item>)
    requires AllOwn(messages, items)
    ensures Answers(messages, ItemCalls(items))
  {
  }

  lemma OneMoreOwn(messages: seq<Message>, items: seq<Item>, longer: seq<Message>)
    requires AllOwn(messages, items) && |messages| < |items|
    requires longer == messages + [ResultMessage(Finalize(items[|messages|]))]
    ensures AllOwn(longer, items) && |longer| == |messages| + 1
  {
    OwnIsResult(longer[|messages|], items[|messages|]);
  }

  lemma RanThenSkip(messages: seq<Message>, items: seq<Item>, all: seq<Message>, reason: string)
    requires AllOwn(messages, items)
    requires messages <= all && all[|messages|..] == Synthesize(ItemCalls(items)[|messages|..], reason, Skipped)
    ensures RanThenSkipped(all, items, |messages|, reason)
  {
    forall i | |messages| <= i < |all|
      ensures Closes(all[i], items[i].call, reason, Skipped)
    {
      assert all[i] == all[|messages|..][i - |messages|];
      assert all[i] == SyntheticResult(items[i].call, reason, Skipped);
    }
  }

  lemma UnsettledAfter(items: seq<Item>, lo: nat, hi: nat)
    requires lo <= hi <= |items|
    ensures AnyLeftRunning(items[..hi]) <==> AnyLeftRunning(items[..lo]) || AnyLeftRunning(items[lo..hi])
  {
    var all, early, late := items[..hi], items[..lo], items[lo..hi];
    forall k | 0 <= k < hi
      ensures all[k] == if k < lo then early[k] else late[k - lo]
    {
    }
    if k :| 0 <= k < |late| && LeftRunning(late[k]) {
      assert LeftRunning(all[lo + k]);
    }
  }

  lemma FinalizeNext(items: seq<Item>, k: nat)
    requires k < |items|
    ensures FinalizeAll(items[..k + 1]) == FinalizeAll(items[..k]) + [Finalize(items[k])]
  {
  }

  lemma UnsettledOne(items: seq<Item>, k: nat)
    requires k < |items|
    ensures AnyLeftRunning(items[..k + 1]) <==> AnyLeftRunning(items[..k]) || LeftRunning(items[k])
  {
    UnsettledAfter(items, k, k + 1);
    assert items[k..k + 1] == [items[k]];
  }

  // ----- Calls that run at the same time

  // No two calls of the group conflict under the claims of their final arguments.
  ghost predicate Independent(items: seq<Item>, group: seq<nat>) {
    && (forall i | 0 <= i < |group| :: group[i] < |items| && Starts(items[group[i]]))
    && forall i, j | 0 <= i < j < |group| ::
         group[i] != group[j]
         && !ResolutionsConflict(items[group[i]].authorization.claims, items[group[j]].authorization.claims)
  }

  // Groups run one after another; every call starts at most once.
  ghost predicate SafeGroups(items: seq<Item>, groups: seq<seq<nat>>) {
    && (forall g | g in groups :: Independent(items, g))
    && Traces.NoDuplicates(Concat(groups))
  }

  // Two calls that both start and conflict under the claims of their final arguments.
  ghost predicate FinalConflict(items: seq<Item>, x: nat, y: nat) {
    && x < |items| && y < |items| && Starts(items[x]) && Starts(items[y])
    && ResolutionsConflict(items[x].authorization.claims, items[y].authorization.claims)
  }

  // Conflicting calls start in source order.
  ghost predicate ConflictOrder(items: seq<Item>, groups: seq<seq<nat>>) {
    forall a, b, x, y | 0 <= a < |groups| && 0 <= b < |groups| && x in groups[a] && y in groups[b] ::
      x < y && FinalConflict(items, x, y) ==> a < b
  }

  // The same among the groups of one stage.
  ghost predicate StageOrder(items: seq<Item>, groups: seq<seq<nat>>, stage: seq<nat>) {
    |stage| == |groups|
    && forall a, b, x, y | 0 <= a < |groups| && 0 <= b < |groups| && x in groups[a] && y in groups[b] ::
         stage[a] == stage[b] && x < y && FinalConflict(items, x, y) ==> a < b
  }

  // Two planned calls that conflict under the claims of their planned arguments.
  ghost predicate PlannedConflict(items: seq<Item>, x: nat, y: nat) {
    && x < |items| && y < |items| && items[x].plan.Planned? && items[y].plan.Planned?
    && LevelConflict(items[x].plan.claims, items[y].plan.claims)
  }

  // Calls whose planned claims conflict come in source order.
  ghost predicate PlannedOrder(items: seq<Item>, groups: seq<seq<nat>>) {
    forall a, b, x, y | 0 <= a < |groups| && 0 <= b < |groups| && x in groups[a] && y in groups[b] ::
      x < y && PlannedConflict(items, x, y) ==> a < b
  }

  // The positions of the first `n` calls that start, the first call of the batch having position `base`.
  ghost function StartedIn(items: seq<Item>, base: nat, n: nat): seq<nat>
    requires n <= |items|
  {
    if n == 0 then []
    else if Starts(items[n - 1]) then StartedIn(items, base, n - 1) + [base + n - 1]
    else StartedIn(items, base, n - 1)
  }

  lemma {:induction false} StartedInFacts(items: seq<Item>, base: nat, n: nat)
    requires n <= |items|
    ensures forall x :: x in StartedIn(items, base, n) <==> base <= x < base + n && Starts(items[x - base])
    ensures forall k | 0 <= k < |StartedIn(items, base, n)| ::
              var x := StartedIn(items, base, n)[k]; base <= x < base + n && Starts(items[x - base])
    ensures Ascending(StartedIn(items, base, n))
  {
    if n > 0 {
      StartedInFacts(items, base, n - 1);
      var rest := StartedIn(items, base, n - 1);
      assert forall x :: x in rest + [base + n - 1] <==> x in rest || x == base + n - 1;
    }
  }

  lemma {:induction false} StartedInSlice(items: seq<Item>, lo: nat, hi: nat, n: nat)
    requires lo <= hi <= |items| && n <= hi - lo
    ensures StartedIn(items, 0, lo + n) == StartedIn(items, 0, lo) + StartedIn(items[lo..hi], lo, n)
    decreases n
  {
    if n == 0 {
      assert StartedIn(items, 0, lo) + [] == StartedIn(items, 0, lo);
    } else {
      StartedInSlice(items, lo, hi, n - 1);
      assert items[lo..hi][n - 1] == items[lo + n - 1];
      ConcatAssoc(StartedIn(items, 0, lo), StartedIn(items[lo..hi], lo, n - 1), [lo + n - 1]);
    }
  }

  // The groups hold exactly the first `n` calls as far as they start, in source order.
  ghost predicate LogsExactly(groups: seq<seq<nat>>, items: seq<Item>, base: nat, n: nat) {
    n <= |items| && Concat(groups) == StartedIn(items, base, n)
  }

  lemma LogsSlice(groups: seq<seq<nat>>, more: seq<seq<nat>>, items: seq<Item>, lo: nat, hi: nat, n: nat)
    requires lo <= hi <= |items| && LogsExactly(groups, items, 0, lo) && LogsExactly(more, items[lo..hi], lo, n)
    ensures LogsExactly(groups + more, items, 0, lo + n)
  {
    ConcatAppend(groups, more);
    StartedInSlice(items, lo, hi, n);
  }

  lemma LogsOne(groups: seq<seq<nat>>, items: seq<Item>, base: nat, n: nat)
    requires n < |items| && LogsExactly(groups, items, base, n)
    ensures LogsExactly(if Starts(items[n]) then groups + [[base + n]] else groups, items, base, n + 1)
  {
    ConcatOne(groups, [base + n]);
  }

  // A log of exactly the first `n` calls holds an unsettled timeout when one of them is one.
  lemma LogsUnsettled(groups: seq<seq<nat>>, items: seq<Item>, n: nat)
    requires LogsExactly(groups, items, 0, n)
    ensures LogUnsettled(items, groups) <==> AnyLeftRunning(items[..n])
  {
    StartedInFacts(items, 0, n);
    if LogUnsettled(items, groups) {
      LoggedIsUnsettled(groups, items, n);
    }
    if AnyLeftRunning(items[..n]) {
      UnsettledIsLogged(groups, items, n);
    }
  }

  lemma LoggedIsUnsettled(groups: seq<seq<nat>>, items: seq<Item>, n: nat)
    requires n <= |items| && LogUnsettled(items, groups) && forall x | x in Concat(groups) :: x < n
    ensures AnyLeftRunning(items[..n])
  {
    var a :| 0 <= a < |groups| && GroupUnsettled(items, groups[a]);
    var k :| 0 <= k < |groups[a]| && groups[a][k] < |items| && LeftRunning(items[groups[a][k]]);
    var x := groups[a][k];
    ConcatMember(groups, a, x);
    assert LeftRunning(items[..n][x]);
  }

  lemma UnsettledIsLogged(groups: seq<seq<nat>>, items: seq<Item>, n: nat)
    requires n <= |items| && AnyLeftRunning(items[..n])
    requires forall x | 0 <= x < n && Starts(items[x]) :: x in Concat(groups)
    ensures LogUnsettled(items, groups)
  {
    var x: nat :| x < n && LeftRunning(items[..n][x]);
    assert Starts(items[x]);
    var a := MemberOfConcat(groups, x);
    var k :| 0 <= k < |groups[a]| && groups[a][k] == x;
    assert GroupUnsettled(items, groups[a]);
  }

  // Starting alone, only the last call can be the unsettled one.
  lemma {:induction false} AloneUnsettledLast(groups: seq<seq<nat>>, items: seq<Item>, n: nat)
    requires LogsExactly(groups, items, 0, n) && forall g | g in groups :: |g| == 1
    requires n > 0 ==> !AnyLeftRunning(items[..n - 1])
    ensures UnsettledLast(items, groups)
  {
    forall a | 0 <= a < |groups| - 1
      ensures !GroupUnsettled(items, groups[a])
    {
      assert forall k | 0 <= k < |groups| :: groups[k] in groups;
      var x := groups[a][0];
      AloneBefore(groups, items, n, a);
      assert items[..n - 1][x] == items[x];
    }
  }

  lemma {:induction false} AloneAt(groups: seq<seq<nat>>, a: nat)
    requires (forall k | 0 <= k < |groups| :: |groups[k]| == 1) && a < |groups|
    ensures |Concat(groups)| == |groups| && Concat(groups)[a] == groups[a][0]
  {
    var rest := groups[1..];
    if rest != [] {
      assert forall k | 0 <= k < |rest| :: rest[k] == groups[k + 1];
      AloneAt(rest, if a == 0 then 0 else a - 1);
    }
  }

  lemma AloneBefore(groups: seq<seq<nat>>, items: seq<Item>, n: nat, a: nat)
    requires LogsExactly(groups, items, 0, n) && (forall k | 0 <= k < |groups| :: |groups[k]| == 1) && a + 1 < |groups|
    ensures groups[a][0] + 1 < n
  {
    StartedInFacts(items, 0, n);
    AloneAt(groups, a);
    AloneAt(groups, a + 1);
  }

  // One more group after a log without unsettled timeouts.
  lemma SettledThenOne(groups: seq<seq<nat>>, more: seq<seq<nat>>, items: seq<Item>, n: nat)
    requires LogsExactly(groups, items, 0, n) && !AnyLeftRunning(items[..n]) && |more| <= 1
    ensures UnsettledLast(items, groups + more)
  {
    LogsUnsettled(groups, items, n);
  }

  // Every group lies inside one wave.
  ghost predicate InWaves(groups: seq<seq<nat>>, waves: seq<seq<nat>>) {
    forall g | g in groups :: exists w | 0 <= w < |waves| :: forall x | x in g :: x in waves[w]
  }

  // ----- Closing a batch

  // One result per call whose id no result has answered yet, never two for one id.
  function Unresolved(calls: seq<Call>, resolved: set<string>): seq<Call>
    decreases |calls|
  {
    if calls == [] then []
    else if calls[0].id in resolved then Unresolved(calls[1..], resolved)
    else [calls[0]] + Unresolved(calls[1..], resolved + {calls[0].id})
  }

  function AnsweredIds(messages: seq<Message>): set<string> {
    set m | m in messages && m.ToolResult? :: m.toolCallId
  }

  method CloseUnresolvedToolBatch(run: Run, calls: seq<Call>, existing: seq<Message>, reason: string, disposition: Disposition)
    returns (synthesized: seq<Message>)
    modifies run`context, run`ended
    ensures synthesized == Synthesize(Unresolved(calls, AnsweredIds(existing)), reason, disposition)
    ensures ClosesAll(synthesized, Unresolved(calls, AnsweredIds(existing)), reason, disposition)
    ensures run.context == old(run.context) + synthesized && run.ended == old(run.ended) + synthesized
  {
    var resolved := AnsweredIds(existing);
    synthesized := [];
    for k := 0 to |calls|
      invariant synthesized + Synthesize(Unresolved(calls[k..], resolved), reason, disposition)
             == Synthesize(Unresolved(calls, AnsweredIds(existing)), reason, disposition)
      invariant run.context == old(run.context) + synthesized && run.ended == old(run.ended) + synthesized
    {
      assert calls[k..][1..] == calls[k + 1..];
      if calls[k].id in resolved { continue; }
      ghost var rest := Unresolved(calls[k + 1..], resolved + {calls[k].id});
      assert Synthesize([calls[k]] + rest, reason, disposition)
          == [SyntheticResult(calls[k], reason, disposition)] + Synthesize(rest, reason, disposition);
      var result := SyntheticResult(calls[k], reason, disposition);
      run.Push(result);
      synthesized := synthesized + [result];
      resolved := resolved + {calls[k].id};
    }
  }

  lemma {:induction false} UnresolvedDistinct(calls: seq<Call>, resolved: set<string>)
    requires Distinct(Ids(calls)) && forall id | id in Ids(calls) :: id !in resolved
    ensures Unresolved(calls, resolved) == calls
    decreases |calls|
  {
    if calls != [] {
      IdsHead(calls);
      assert Ids(calls)[0] in Ids(calls);
      assert forall id | id in Ids(calls[1..]) :: id in Ids(calls);
      UnresolvedDistinct(calls[1..], resolved + {calls[0].id});
    }
  }

  lemma {:induction false} UnresolvedSkips(a: seq<Call>, b: seq<Call>, resolved: set<string>)
    requires forall id | id in Ids(a) :: id in resolved
    ensures Unresolved(a + b, resolved) == Unresolved(b, resolved)
    decreases |a|
  {
    if a == [] {
      assert a + b == b;
    } else {
      IdsHead(a);
      assert Ids(a)[0] in Ids(a);
      assert forall id | id in Ids(a[1..]) :: id in Ids(a);
      assert (a + b)[1..] == a[1..] + b;
      UnresolvedSkips(a[1..], b, resolved);
    }
  }

  // With distinct ids, what is left to close after answering a prefix is the rest, in order.
  lemma {:induction false} UnresolvedRest(calls: seq<Call>, messages: seq<Message>)
    requires Distinct(Ids(calls)) && Answers(messages, calls)
    ensures Unresolved(calls, AnsweredIds(messages)) == calls[|messages|..]
  {
    var a, b := calls[..|messages|], calls[|messages|..];
    assert calls == a + b;
    IdsConcat(a, b);
    DistinctConcat(Ids(a), Ids(b));
    var resolved := AnsweredIds(messages);
    forall id
      ensures id in Ids(a) <==> id in resolved
    {
      if id in Ids(a) {
        var i :| 0 <= i < |a| && Ids(a)[i] == id;
        assert messages[i] in messages && messages[i].toolCallId == id;
      }
      if id in resolved {
        var m :| m in messages && m.ToolResult? && m.toolCallId == id;
        var i :| 0 <= i < |messages| && messages[i] == m;
        assert Ids(a)[i] == id;
      }
    }
    UnresolvedSkips(a, b, resolved);
    UnresolvedDistinct(b, resolved);
  }

  lemma {:induction false} AnswersExtend(messages: seq<Message>, calls: seq<Call>, reason: string, disposition: Disposition)
    requires Answers(messages, calls)
    ensures Answers(messages + Synthesize(calls[|messages|..], reason, disposition), calls)
    ensures |messages + Synthesize(calls[|messages|..], reason, disposition)| == |calls|
  {}

  lemma ExtendAll<T>(base: seq<T>, messages: seq<T>, all: seq<T>)
    requires messages <= all
    ensures base + messages + all[|messages|..] == base + all
  {
    assert all == messages + all[|messages|..];
  }

  // Closes what is left of the batch and returns all of its results.
  method SkipRest(run: Run, calls: seq<Call>, messages: seq<Message>, reason: string) returns (all: seq<Message>)
    requires Distinct(Ids(calls)) && Answers(messages, calls)
    modifies run`context, run`ended
    ensures messages <= all && Answers(all, calls) && |all| == |calls|
    ensures all[|messages|..] == Synthesize(calls[|messages|..], reason, Skipped)
    ensures run.context == old(run.context) + all[|messages|..] && run.ended == old(run.ended) + all[|messages|..]
  {
    UnresolvedRest(calls, messages);
    var skipped := CloseUnresolvedToolBatch(run, calls, messages, reason, Skipped);
    AnswersExtend(messages, calls, reason, Skipped);
    all := messages + skipped;
    assert all[|messages|..] == skipped;
  }

  // What one run's transcript and events have grown by.
  ghost predicate Grown(run: Run, context: seq<Message>, ended: seq<Message>, messages: seq<Message>)
    reads run
  {
    run.context == context + messages && run.ended == ended + messages
  }

  // SkipRest after the calls' own results.
  method SkipAfter(run: Run, items: seq<Item>, messages: seq<Message>, reason: string,
                   ghost context: seq<Message>, ghost ended: seq<Message>) returns (all: seq<Message>)
    requires Distinct(Ids(ItemCalls(items))) && AllOwn(messages, items) && Grown(run, context, ended, messages)
    modifies run`context, run`ended
    ensures RanThenSkipped(all, items, |messages|, reason) && |all| == |items| && Grown(run, context, ended, all)
  {
    OwnAnswers(messages, items);
    all := SkipRest(run, ItemCalls(items), messages, reason);
    RanThenSkip(messages, items, all, reason);
    ExtendAll(context, messages, all);
    ExtendAll(ended, messages, all);
  }

  // ----- The sequential path

  // Groups of one call each that log the first `n` calls.
  ghost predicate LogsAlone(groups: seq<seq<nat>>, items: seq<Item>, base: nat, n: nat) {
    LogsExactly(groups, items, base, n) && forall g | g in groups :: |g| == 1
  }

  lemma LogsAloneNext(groups: seq<seq<nat>>, items: seq<Item>, base: nat, n: nat)
    requires n < |items| && LogsAlone(groups, items, base, n)
    ensures LogsAlone(if Starts(items[n]) then groups + [[base + n]] else groups, items, base, n + 1)
  {
    LogsOne(groups, items, base, n);
  }

  // Prepares one call and, unless it fails at once, executes it alone.
  method PrepareAndExecute(run: Run, items: seq<Item>, base: nat, k: nat, signal: AbortSignal, ghost log: seq<seq<nat>>, ghost before: seq<seq<nat>>)
    returns (finalized: Finalized, ghost groups: seq<seq<nat>>)
    requires k < |items| && run.started == log + before && LogsAlone(before, items, base, k)
    modifies run`started, run`startedAt
    ensures finalized == Finalize(items[k])
    ensures run.started == log + groups && LogsAlone(groups, items, base, k + 1)
  {
    LogsAloneNext(before, items, base, k);
    if items[k].plan.Planned? && items[k].authorization.Granted? {
      var settled := run.StartTogether(items, base, [base + k], signal);
      finalized := settled[0];
      groups := before + [[base + k]];
      ConcatAssoc(log, before, [[base + k]]);
    } else {
      finalized, groups := Finalize(items[k]), before;
    }
  }

  // Commits one result.
  method CommitResult(run: Run, items: seq<Item>, messages: seq<Message>, finalized: Finalized,
                      ghost context: seq<Message>, ghost ended: seq<Message>) returns (messages': seq<Message>)
    requires AllOwn(messages, items) && |messages| < |items| && Grown(run, context, ended, messages)
    requires finalized == Finalize(items[|messages|])
    modifies run`context, run`ended
    ensures |messages'| == |messages| + 1 && AllOwn(messages', items)
    ensures Grown(run, context, ended, messages')
  {
    run.Push(ResultMessage(finalized));
    messages' := messages + [ResultMessage(finalized)];
    OneMoreOwn(messages, items, messages');
    ConcatAssoc(context, messages, [ResultMessage(finalized)]);
    ConcatAssoc(ended, messages, [ResultMessage(finalized)]);
  }

  // What the first `ran` calls, run one after another, come to: solo starts, and an unsettled timeout
  // of at most the last one, which stops the run.
  ghost predicate StartedAlone(items: seq<Item>, base: nat, ran: nat, stopRun: bool, groups: seq<seq<nat>>) {
    && LogsAlone(groups, items, base, ran)
    && (stopRun <==> AnyLeftRunning(items[..ran]))
    && (ran > 0 ==> !AnyLeftRunning(items[..ran - 1]))
  }

  // The whole batch: own results, and after an unsettled timeout one skip per call that is left.
  ghost predicate RanAlone(items: seq<Item>, base: nat, messages: seq<Message>, ran: nat, stopRun: bool, groups: seq<seq<nat>>) {
    && StartedAlone(items, base, ran, stopRun, groups) && (!stopRun ==> ran == |messages|)
    && RanThenSkipped(messages, items, ran, AFTER_UNSETTLED_TOOL)
  }

  lemma OneMoreAlone(items: seq<Item>, base: nat, k: nat, logged: seq<seq<nat>>, groups: seq<seq<nat>>)
    requires k < |items| && StartedAlone(items, base, k, false, logged) && LogsAlone(groups, items, base, k + 1)
    ensures StartedAlone(items, base, k + 1, LeftRunning(items[k]), groups)
  {
    UnsettledOne(items, k);
  }

  // One call of the loop: prepared, executed alone and committed.
  method RunOneCall(run: Run, items: seq<Item>, base: nat, messages: seq<Message>, signal: AbortSignal,
                    ghost context: seq<Message>, ghost ended: seq<Message>, ghost log: seq<seq<nat>>, ghost logged: seq<seq<nat>>)
    returns (finalized: Finalized, messages': seq<Message>, ghost groups: seq<seq<nat>>)
    requires |messages| < |items| && AllOwn(messages, items) && StartedAlone(items, base, |messages|, false, logged)
    requires Grown(run, context, ended, messages) && run.started == log + logged
    modifies run`context, run`ended, run`started, run`startedAt
    ensures finalized == Finalize(items[|messages|]) && |messages'| == |messages| + 1
    ensures AllOwn(messages', items) && StartedAlone(items, base, |messages'|, Unsettled(finalized), groups)
    ensures Grown(run, context, ended, messages') && run.started == log + groups
  {
    finalized, groups := PrepareAndExecute(run, items, base, |messages|, signal, log, logged);
    messages' := CommitResult(run, items, messages, finalized, context, ended);
    OneMoreAlone(items, base, |messages|, logged, groups);
    FlagsOfOne(items[|messages|]);
  }

  // The loop of the sequential path, up to the call that ends it.
  method RunUntilUnsettled(run: Run, items: seq<Item>, base: nat, signal: AbortSignal)
    returns (messages: seq<Message>, stopRun: bool, finalizedCalls: seq<Finalized>, ghost groups: seq<seq<nat>>)
    modifies run`context, run`ended, run`started, run`startedAt, signal
    ensures Grown(run, old(run.context), old(run.ended), messages) && run.started == old(run.started) + groups
    ensures AllOwn(messages, items) && StartedAlone(items, base, |messages|, stopRun, groups) && (items != [] ==> messages != [])
    ensures finalizedCalls == FinalizeAll(items[..|messages|])
    ensures |messages| == |items| || stopRun || signal.Fired()
    ensures old(signal.clock) <= signal.clock
  {
    messages, stopRun, finalizedCalls, groups := [], false, [], [];
    var aborted := false;
    while |messages| < |items| && !stopRun && !aborted
      invariant AllOwn(messages, items) && StartedAlone(items, base, |messages|, stopRun, groups)
      invariant messages == [] ==> !stopRun && !aborted
      invariant finalizedCalls == FinalizeAll(items[..|messages|])
      invariant Grown(run, old(run.context), old(run.ended), messages) && run.started == old(run.started) + groups
      invariant old(signal.clock) <= signal.clock && (aborted ==> signal.Fired())
      decreases |items| - |messages|
    {
      FinalizeNext(items, |messages|);
      var finalized;
      finalized, messages, groups :=
        RunOneCall(run, items, base, messages, signal, old(run.context), old(run.ended), old(run.started), groups);
      finalizedCalls := finalizedCalls + [finalized];
      stopRun := Unsettled(finalized);
      if !stopRun {
        aborted := signal.Aborted();
      }
    }
  }

  // Calls run one after another until one leaves an unsettled timeout behind, which skips the rest,
  // or the abort is seen. Each call is started alone.
  method ExecuteToolCallsSequential(run: Run, items: seq<Item>, base: nat, signal: AbortSignal)
    returns (messages: seq<Message>, terminate: bool, stopRun: bool, ghost ran: nat, ghost groups: seq<seq<nat>>)
    requires Distinct(Ids(ItemCalls(items)))
    modifies run`context, run`ended, run`started, run`startedAt, signal
    ensures Grown(run, old(run.context), old(run.ended), messages) && run.started == old(run.started) + groups
    ensures RanAlone(items, base, messages, ran, stopRun, groups) && (items != [] ==> ran > 0)
    ensures terminate <==> stopRun || AllAskToEnd(items[..ran])
    ensures |messages| == |items| || signal.Fired()
    ensures stopRun ==> |messages| == |items|
    ensures old(signal.clock) <= signal.clock
  {
    var finalizedCalls;
    messages, stopRun, finalizedCalls, groups := RunUntilUnsettled(run, items, base, signal);
    ran := |messages|;
    terminate := stopRun || ShouldTerminate(finalizedCalls);
    FlagsOf(items[..ran]);
    if stopRun {
      messages := SkipAfter(run, items, messages, AFTER_UNSETTLED_TOOL, old(run.context), old(run.ended));
    }
  }

  // ----- The parallel path

  // Preparation stops after the call during which the abort is seen.
  method Prepare(items: seq<Item>, base: nat, signal: AbortSignal) returns (prepared: nat, group: seq<nat>)
    modifies signal
    ensures prepared <= |items| && group == StartedIn(items, base, prepared)
    ensures items != [] ==> prepared > 0
    ensures prepared == |items| || signal.Fired()
    ensures old(signal.clock) <= signal.clock
  {
    prepared, group := 0, [];
    var aborted := false;
    while prepared < |items| && !aborted
      invariant prepared <= |items| && group == StartedIn(items, base, prepared) && (prepared == 0 ==> !aborted)
      invariant old(signal.clock) <= signal.clock && (aborted ==> signal.Fired())
      decreases |items| - prepared
    {
      if items[prepared].plan.Planned? && items[prepared].authorization.Granted? {
        group := group + [base + prepared];
      }
      prepared := prepared + 1;
      aborted := signal.Aborted();
    }
  }

  // The calls at the given positions settled as their script says.
  ghost predicate SettledAs(items: seq<Item>, base: nat, group: seq<nat>, settled: seq<Finalized>) {
    |settled| == |group|
    && forall k | 0 <= k < |group| :: base <= group[k] < base + |items| && settled[k] == Finalize(items[group[k] - base])
  }

  // Promise.all over the prepared calls: what failed at once keeps its outcome, the others settle.
  method SettleInOrder(items: seq<Item>, base: nat, prepared: nat, settled: seq<Finalized>) returns (finalizedCalls: seq<Finalized>)
    requires prepared <= |items| && SettledAs(items, base, StartedIn(items, base, prepared), settled)
    ensures finalizedCalls == FinalizeAll(items[..prepared])
  {
    finalizedCalls := [];
    var j := 0;
    for k := 0 to prepared
      invariant finalizedCalls == FinalizeAll(items[..k])
      invariant j == |StartedIn(items, base, k)| && StartedIn(items, base, k) <= StartedIn(items, base, prepared)
    {
      FinalizeNext(items, k);
      StartedInPrefix(items, base, k + 1, prepared);
      if items[k].plan.Planned? && items[k].authorization.Granted? {
        assert StartedIn(items, base, k + 1)[j] == base + k;
        finalizedCalls, j := finalizedCalls + [settled[j]], j + 1;
      } else {
        finalizedCalls := finalizedCalls + [Finalize(items[k])];
      }
    }
  }

  lemma {:induction false} StartedInPrefix(items: seq<Item>, base: nat, n: nat, m: nat)
    requires n <= m <= |items|
    ensures StartedIn(items, base, n) <= StartedIn(items, base, m)
    decreases m
  {
    if n < m {
      StartedInPrefix(items, base, n, m - 1);
    }
  }

  // The calls run at the same time; their results are committed in source order.
  method ExecuteToolCallsParallel(run: Run, items: seq<Item>, base: nat, signal: AbortSignal)
    returns (messages: seq<Message>, terminate: bool, stopRun: bool, ghost groups: seq<seq<nat>>)
    modifies run`context, run`ended, run`started, run`startedAt, signal
    ensures Grown(run, old(run.context), old(run.ended), messages)
    ensures run.started == old(run.started) + groups && |groups| == 1 && LogsExactly(groups, items, base, |messages|)
    ensures AllOwn(messages, items) && (items != [] ==> messages != [])
    ensures stopRun <==> AnyLeftRunning(items[..|messages|])
    ensures terminate <==> stopRun || AllAskToEnd(items[..|messages|])
    ensures |messages| == |items| || signal.Fired()
    ensures old(signal.clock) <= signal.clock
  {
    var prepared, group := Prepare(items, base, signal);
    StartedInFacts(items, base, prepared);
    var settled := run.StartTogether(items, base, group, signal);
    groups := [group];
    ConcatOne([], group);
    var finalizedCalls := SettleInOrder(items, base, prepared, settled);
    messages := [];
    for i := 0 to |finalizedCalls|
      invariant |messages| == i && AllOwn(messages, items)
      invariant Grown(run, old(run.context), old(run.ended), messages)
      invariant run.started == old(run.started) + groups
      invariant old(signal.clock) <= signal.clock && (|finalizedCalls| < |items| ==> signal.Fired())
    {
      var message := ResultMessage(finalizedCalls[i]);
      OneMoreOwn(messages, items, messages + [message]);
      run.Push(message);
      messages := messages + [message];
    }
    stopRun := HasUnsettledTimeout(finalizedCalls);
    terminate := stopRun || ShouldTerminate(finalizedCalls);
    FlagsOf(items[..prepared]);
  }

  // ----- The waves path

  lemma {:induction false} DistinctSuffix(items: seq<Item>, lo: nat)
    requires Distinct(Ids(ItemCalls(items))) && lo <= |items|
    ensures Distinct(Ids(ItemCalls(items[lo..]))) && Distinct(Ids(ItemCalls(items[..lo])))
  {
    var a, b := ItemCalls(items[..lo]), ItemCalls(items[lo..]);
    assert ItemCalls(items) == a + b;
    IdsConcat(a, b);
    DistinctConcat(Ids(a), Ids(b));
  }

  lemma {:induction false} DistinctSlice(items: seq<Item>, lo: nat, hi: nat)
    requires Distinct(Ids(ItemCalls(items))) && lo <= hi <= |items|
    ensures Distinct(Ids(ItemCalls(items[lo..hi])))
  {
    DistinctSuffix(items, hi);
    DistinctSuffix(items[..hi], lo);
    assert items[..hi][lo..] == items[lo..hi];
  }

  // A wave's results after those of the waves before it.
  lemma OwnConcat(a: seq<Message>, b: seq<Message>, items: seq<Item>, hi: nat)
    requires |a| <= hi <= |items| && AllOwn(a, items) && AllOwn(b, items[|a|..hi])
    ensures AllOwn(a + b, items)
  {
    forall i | |a| <= i < |a| + |b|
      ensures (a + b)[i] == b[i - |a|] && items[|a|..hi][i - |a|] == items[i]
    {
    }
  }

  // What the calls of a batch that ran say about the batch.
  ghost predicate Flags(ran: seq<Item>, terminate: bool, stopRun: bool) {
    && (stopRun <==> AnyLeftRunning(ran))
    && (terminate <==> stopRun || AllAskToEnd(ran))
  }

  lemma {:induction false} StartedAtMost(items: seq<Item>, base: nat, n: nat)
    requires n <= |items|
    ensures |StartedIn(items, base, n)| <= n
  {
    if n > 0 {
      StartedAtMost(items, base, n - 1);
    }
  }

  lemma OneStart(groups: seq<seq<nat>>, items: seq<Item>, base: nat, n: nat)
    requires LogsAlone(groups, items, base, n) && |items| == 1
    ensures |groups| <= 1
  {
    assert forall k | 0 <= k < |groups| :: groups[k] in groups;
    StartedAtMost(items, base, n);
    if groups != [] {
      AloneAt(groups, 0);
    }
  }

  // One wave: its calls in order, alone or at the same time.
  method RunWave(run: Run, items: seq<Item>, base: nat, signal: AbortSignal)
    returns (messages: seq<Message>, terminate: bool, stopRun: bool, ghost groups: seq<seq<nat>>)
    requires Distinct(Ids(ItemCalls(items)))
    modifies run`context, run`ended, run`started, run`startedAt, signal
    ensures Grown(run, old(run.context), old(run.ended), messages)
    ensures run.started == old(run.started) + groups && LogsExactly(groups, items, base, |messages|)
    ensures AllOwn(messages, items) && (items != [] ==> messages != [])
    ensures Flags(items[..|messages|], terminate, stopRun) && |groups| <= 1
    ensures |messages| == |items| || signal.Fired()
    ensures old(signal.clock) <= signal.clock
  {
    if |items| == 1 {
      ghost var ran;
      messages, terminate, stopRun, ran, groups := ExecuteToolCallsSequential(run, items, base, signal);
      OneStart(groups, items, base, ran);
    } else {
      messages, terminate, stopRun, groups := ExecuteToolCallsParallel(run, items, base, signal);
    }
  }

  // Runs the calls from the first unanswered one up to `hi` as one wave.
  method RunNextWave(run: Run, items: seq<Item>, hi: nat, signal: AbortSignal, messages: seq<Message>,
                     ghost context: seq<Message>, ghost ended: seq<Message>, ghost before: seq<seq<nat>>)
    returns (all: seq<Message>, terminate: bool, stopRun: bool, ghost groups: seq<seq<nat>>)
    requires |messages| <= hi <= |items| && Distinct(Ids(ItemCalls(items)))
    requires AllOwn(messages, items) && Grown(run, context, ended, messages)
    requires LogsExactly(before, items, 0, |messages|)
    modifies run`context, run`ended, run`started, run`startedAt, signal
    ensures NextWave(items, messages, hi, all, before, groups, terminate, stopRun)
    ensures Grown(run, context, ended, all) && run.started == old(run.started) + groups
    ensures |all| == hi || signal.Fired()
    ensures old(signal.clock) <= signal.clock
  {
    DistinctSlice(items, |messages|, hi);
    var wave := items[|messages|..hi];
    var waveMessages;
    waveMessages, terminate, stopRun, groups := RunWave(run, wave, |messages|, signal);
    all := messages + waveMessages;
    NextWaveFacts(items, messages, hi, wave, waveMessages, before, groups, terminate, stopRun, all);
    ConcatAssoc(context, messages, waveMessages);
    ConcatAssoc(ended, messages, waveMessages);
  }

  // What holds after the next wave, the calls from |messages| up to hi.
  ghost predicate NextWave(items: seq<Item>, messages: seq<Message>, hi: nat, all: seq<Message>,
                           before: seq<seq<nat>>, groups: seq<seq<nat>>, terminate: bool, stopRun: bool)
    requires |messages| <= hi <= |items|
  {
    && |messages| <= |all| <= hi && (|messages| < hi ==> |messages| < |all|)
    && AllOwn(all, items) && Flags(items[|messages|..|all|], terminate, stopRun)
    && LogsExactly(before + groups, items, 0, |all|) && GroupsBetween(groups, |messages|, hi) && |groups| <= 1
  }

  ghost predicate GroupsBetween(groups: seq<seq<nat>>, lo: nat, hi: nat) {
    forall g | g in groups :: forall x | x in g :: lo <= x < hi
  }

  lemma NextWaveFacts(items: seq<Item>, messages: seq<Message>, hi: nat, wave: seq<Item>, waveMessages: seq<Message>,
                      before: seq<seq<nat>>, groups: seq<seq<nat>>, terminate: bool, stopRun: bool, all: seq<Message>)
    requires all == messages + waveMessages && |messages| <= hi <= |items| && AllOwn(messages, items) && wave == items[|messages|..hi]
    requires AllOwn(waveMessages, wave) && Flags(wave[..|waveMessages|], terminate, stopRun)
    requires LogsExactly(before, items, 0, |messages|) && LogsExactly(groups, wave, |messages|, |waveMessages|)
    requires (wave != [] ==> waveMessages != []) && |groups| <= 1
    ensures NextWave(items, messages, hi, all, before, groups, terminate, stopRun)
  {
    assert wave[..|waveMessages|] == items[|messages|..|all|];
    OwnConcat(messages, waveMessages, items, hi);
    LogsSlice(before, groups, items, |messages|, hi, |waveMessages|);
    GroupsWithin(groups, wave, |messages|, |waveMessages|);
  }

  lemma GroupsWithin(groups: seq<seq<nat>>, items: seq<Item>, base: nat, n: nat)
    requires LogsExactly(groups, items, base, n)
    ensures GroupsBetween(groups, base, base + n)
  {
    StartedInFacts(items, base, n);
    forall g, x | g in groups && x in g
      ensures base <= x < base + n
    {
      var a :| 0 <= a < |groups| && groups[a] == g;
      ConcatMember(groups, a, x);
    }
  }

  lemma WavesLogged(groups: seq<seq<nat>>, more: seq<seq<nat>>, waves: seq<seq<nat>>, n: nat, w: nat)
    requires InWaves(groups, waves) && Partition(waves, n) && w < |waves|
    requires GroupsBetween(more, End(waves, w), End(waves, w + 1))
    ensures InWaves(groups + more, waves)
  {
    EndStep(waves, n, w);
    forall g | g in more
      ensures forall x | x in g :: x in waves[w]
    {
      forall x | x in g
        ensures x in waves[w]
      {
        assert waves[w][x - End(waves, w)] == x;
      }
    }
  }

  // What waves start: exactly the first `ran` calls as far as they start, each group inside one wave,
  // and nothing after an unsettled timeout.
  ghost predicate WaveLog(groups: seq<seq<nat>>, items: seq<Item>, waves: seq<seq<nat>>, ran: nat) {
    LogsExactly(groups, items, 0, ran) && InWaves(groups, waves) && UnsettledLast(items, groups)
  }

  // The wave that ran last, up to and not beyond position `ran`.
  ghost predicate LastWave(waves: seq<seq<nat>>, last: nat, ran: nat) {
    last < |waves| && End(waves, last) < ran <= End(waves, last + 1)
  }

  // All calls of a wave, as far as they ran, requested termination.
  ghost predicate WaveTerminates(items: seq<Item>, waves: seq<seq<nat>>, w: nat, hi: nat) {
    w <= |waves| && End(waves, w) <= hi <= |items| && AllAskToEnd(items[End(waves, w)..hi])
  }

  // A whole wave requested termination.
  ghost predicate WholeWaveTerminates(items: seq<Item>, waves: seq<seq<nat>>, w: nat) {
    w < |waves| && WaveTerminates(items, waves, w, End(waves, w + 1))
  }

  // What holds after the first `w` waves, of which `ran` calls ran.
  ghost predicate WavesReached(items: seq<Item>, waves: seq<seq<nat>>, w: nat, ran: nat, terminate: bool, stopRun: bool) {
    && w <= |waves| && ran <= |items| && (stopRun <==> AnyLeftRunning(items[..ran]))
    && (w == 0 ==> !terminate && ran == 0)
    && (w > 0 ==> LastWave(waves, w - 1, ran) && forall v | 0 <= v < w - 1 :: !WholeWaveTerminates(items, waves, v))
    && (w > 0 ==> (terminate <==> stopRun || WaveTerminates(items, waves, w - 1, ran)))
  }

  // The whole batch: own results, and after the wave that ended it one skip per call that is left.
  ghost predicate WavesRun(items: seq<Item>, waves: seq<seq<nat>>, w: nat, messages: seq<Message>, ran: nat,
                           terminate: bool, stopRun: bool) {
    && WavesReached(items, waves, w, ran, terminate, stopRun) && (!terminate ==> ran == |messages|)
    && RanThenSkipped(messages, items, ran, if stopRun then AFTER_UNSETTLED_WAVE else AFTER_LAST_WAVE)
  }

  lemma {:induction false} OneMoreWave(items: seq<Item>, waves: seq<seq<nat>>, w: nat, before: nat, ran: nat, terminate: bool, stopRun: bool)
    requires Partition(waves, |items|) && w < |waves| && before == End(waves, w)
    requires WavesReached(items, waves, w, before, false, false)
    requires before < ran <= End(waves, w + 1) && ran <= |items|
    requires Flags(items[before..ran], terminate, stopRun)
    ensures WavesReached(items, waves, w + 1, ran, terminate, stopRun)
  {
    UnsettledAfter(items, before, ran);
    assert w > 0 ==> before == End(waves, w - 1 + 1);
  }

  // Waves run in order; the first wave that terminates or leaves an unsettled timeout skips the rest.
  // What is started together lies in one wave.
  method ExecuteToolCallsInWaves(run: Run, items: seq<Item>, waves: seq<seq<nat>>, signal: AbortSignal)
    returns (messages: seq<Message>, terminate: bool, stopRun: bool, ghost ran: nat, ghost w: nat, ghost groups: seq<seq<nat>>)
    requires Partition(waves, |items|) && Distinct(Ids(ItemCalls(items)))
    modifies run`context, run`ended, run`started, run`startedAt, signal
    ensures Grown(run, old(run.context), old(run.ended), messages)
    ensures run.started == old(run.started) + groups && WaveLog(groups, items, waves, ran)
    ensures WavesRun(items, waves, w, messages, ran, terminate, stopRun) && (waves != [] ==> w > 0)
    ensures |messages| == |items| || signal.Fired()
    ensures old(signal.clock) <= signal.clock
  {
    messages, terminate, stopRun, w, groups := RunWaves(run, items, waves, signal);
    ran := |messages|;
    if terminate {
      var reason := WaveSkipReason(stopRun);
      messages := SkipAfter(run, items, messages, reason, old(run.context), old(run.ended));
    }
  }

  method WaveSkipReason(stopRun: bool) returns (reason: string)
    ensures reason == if stopRun then AFTER_UNSETTLED_WAVE else AFTER_LAST_WAVE
  {
    reason := if stopRun then AFTER_UNSETTLED_WAVE else AFTER_LAST_WAVE;
  }

  // The wave loop: waves run until one terminates or the abort is seen.
  method RunWaves(run: Run, items: seq<Item>, waves: seq<seq<nat>>, signal: AbortSignal)
    returns (messages: seq<Message>, terminate: bool, stopRun: bool, ghost w: nat, ghost groups: seq<seq<nat>>)
    requires Partition(waves, |items|) && Distinct(Ids(ItemCalls(items)))
    modifies run`context, run`ended, run`started, run`startedAt, signal
    ensures Grown(run, old(run.context), old(run.ended), messages)
    ensures run.started == old(run.started) + groups && WaveLog(groups, items, waves, |messages|)
    ensures AllOwn(messages, items) && WavesReached(items, waves, w, |messages|, terminate, stopRun) && (waves != [] ==> w > 0)
    ensures terminate || |messages| == |items| || signal.Fired()
    ensures old(signal.clock) <= signal.clock
  {
    messages, terminate, stopRun, groups := [], false, false, [];
    assert waves[..0] == [] && waves[..|waves|] == waves;
    var n := 0;
    var aborted := false;
    while n < |waves| && !terminate && !aborted
      invariant n <= |waves| && AllOwn(messages, items) && WavesReached(items, waves, n, |messages|, terminate, stopRun)
      invariant n == 0 ==> !aborted
      invariant !terminate && !aborted ==> |messages| == End(waves, n)
      invariant aborted ==> signal.Fired()
      invariant Grown(run, old(run.context), old(run.ended), messages)
      invariant run.started == old(run.started) + groups && WaveLog(groups, items, waves, |messages|)
      invariant old(signal.clock) <= signal.clock
      decreases |waves| - n
    {
      messages, terminate, stopRun, groups :=
        RunWaveNumber(run, items, waves, n, messages, signal, old(run.context), old(run.ended), old(run.started), groups);
      aborted := signal.Aborted();
      n := n + 1;
    }
    w := n;
  }

  // The body of the wave loop.
  method RunWaveNumber(run: Run, items: seq<Item>, waves: seq<seq<nat>>, n: nat, before: seq<Message>, signal: AbortSignal,
                       ghost context: seq<Message>, ghost ended: seq<Message>, ghost log: seq<seq<nat>>, ghost logged: seq<seq<nat>>)
    returns (messages: seq<Message>, terminate: bool, stopRun: bool, ghost groups: seq<seq<nat>>)
    requires Partition(waves, |items|) && Distinct(Ids(ItemCalls(items))) && n < |waves| && |before| == End(waves, n)
    requires AllOwn(before, items) && WavesReached(items, waves, n, |before|, false, false) && Grown(run, context, ended, before)
    requires run.started == log + logged && WaveLog(logged, items, waves, |before|)
    modifies run`context, run`ended, run`started, run`startedAt, signal
    ensures AllOwn(messages, items) && WavesReached(items, waves, n + 1, |messages|, terminate, stopRun) && Grown(run, context, ended, messages)
    ensures run.started == log + groups && WaveLog(groups, items, waves, |messages|)
    ensures |messages| == End(waves, n + 1) || signal.Fired()
    ensures old(signal.clock) <= signal.clock
  {
    EndStep(waves, |items|, n);
    ghost var more;
    messages, terminate, stopRun, more :=
      RunNextWave(run, items, |before| + |waves[n]|, signal, before, context, ended, logged);
    OneMoreWave(items, waves, n, |before|, |messages|, terminate, stopRun);
    WavesLogged(logged, more, waves, |items|, n);
    SettledThenOne(logged, more, items, |before|);
    ConcatAssoc(log, logged, more);
    groups := logged + more;
  }

  // ----- What the scheduled plan covers

  lemma {:induction false} DisjointConcat(levels: seq<seq<nat>>)
    requires forall a | 0 <= a < |levels| :: Traces.NoDuplicates(levels[a])
    requires forall a, b, x | 0 <= a < b < |levels| && x in levels[a] :: x !in levels[b]
    ensures Traces.NoDuplicates(Concat(levels))
  {
    if levels != [] {
      var head, rest := levels[0], levels[1..];
      assert forall a | 0 <= a < |rest| :: rest[a] == levels[a + 1];
      DisjointConcat(rest);
      forall x | x in head
        ensures x !in Concat(rest)
      {
        if x in Concat(rest) {
          var l := MemberOfConcat(rest, x);
        }
      }
      forall i, j | 0 <= i < j < |Concat(levels)|
        ensures Concat(levels)[i] != Concat(levels)[j]
      {
        var h := |head|;
        if i < h <= j {
          assert Concat(levels)[j] == Concat(rest)[j - h] && Concat(rest)[j - h] in Concat(rest);
          assert head[i] in head;
        } else if h <= i {
          assert Concat(levels)[i] == Concat(rest)[i - h] && Concat(levels)[j] == Concat(rest)[j - h];
        }
      }
    }
  }

  // The plan holds every position exactly once.
  lemma {:induction false} PlanCovers(rs: seq<Resolution>, cap: Cap)
    ensures Traces.NoDuplicates(Concat(CapLevels(Levels(rs), cap)))
    ensures forall x :: x in Concat(CapLevels(Levels(rs), cap)) <==> 0 <= x < |rs|
  {
    var levels := Levels(rs);
    CapFacts(levels, cap);
    forall l | 0 <= l < |levels|
      ensures Traces.NoDuplicates(levels[l]) && forall x :: x in levels[l] <==> 0 <= x < |rs| && Level(rs, x) == l
    {
      MembersExactly(rs, |rs|, l);
    }
    DisjointConcat(levels);
    LevelCountBound(rs, |rs|);
    forall x
      ensures x in Concat(levels) <==> 0 <= x < |rs|
    {
      if 0 <= x < |rs| {
        assert x in levels[Level(rs, x)];
        ConcatMember(levels, Level(rs, x), x);
      }
      if x in Concat(levels) {
        var l := MemberOfConcat(levels, x);
      }
    }
  }

  // Conflicting positions are on different chunks, in source order.
  lemma {:induction false} PlanOrdersConflicts(rs: seq<Resolution>, cap: Cap, a: nat, b: nat, x: nat, y: nat)
    requires a < |CapLevels(Levels(rs), cap)| && b < |CapLevels(Levels(rs), cap)|
    requires x in CapLevels(Levels(rs), cap)[a] && y in CapLevels(Levels(rs), cap)[b]
    requires x < y < |rs| && LevelConflict(rs[x], rs[y])
    ensures a < b
  {
    var origin := CapOrigins(Levels(rs), cap);
    OriginIsLevel(rs, cap, origin, a, x);
    OriginIsLevel(rs, cap, origin, b, y);
    LevelsRespectConflicts(rs, x, y);
  }

  lemma {:induction false} PlanAscending(rs: seq<Resolution>, cap: Cap, a: nat)
    requires a < |CapLevels(Levels(rs), cap)|
    ensures Ascending(CapLevels(Levels(rs), cap)[a])
  {
    forall l | 0 <= l < |Levels(rs)|
      ensures Ascending(Levels(rs)[l])
    {
      MembersExactly(rs, |rs|, l);
    }
    CapAscending(Levels(rs), cap);
  }

  lemma {:induction false} ChunksAscending(level: seq<nat>, w: nat)
    requires Ascending(level) && w >= 1
    ensures forall k | 0 <= k < |Chunks(level, w)| :: Ascending(Chunks(level, w)[k])
    decreases |level|
  {
    if |level| > w {
      ChunksAscending(level[w..], w);
    }
  }

  lemma {:induction false} CapAscending(levels: seq<seq<nat>>, cap: Cap)
    requires forall l | 0 <= l < |levels| :: Ascending(levels[l])
    ensures forall k | 0 <= k < |CapLevels(levels, cap)| :: Ascending(CapLevels(levels, cap)[k])
    decreases |levels|
  {
    if IntegerCap(cap).Some? && levels != [] {
      ChunksAscending(levels[0], IntegerCap(cap).value);
      CapAscending(levels[1..], cap);
    }
  }
}
