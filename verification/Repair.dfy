/** Transcript repair and failure termination
    (packages/agent/src/tool-transcript-integrity.ts:210-274, packages/agent/src/agent-loop.ts:91-131). */
module Repair {
  import opened Wrappers
  import opened Transcript
  import opened Inspector

  datatype RepairResult = Repaired(messages: seq<Message>) | Refused(issue: Issue)

  function SyntheticResult(call: Call, reason: string, disposition: Disposition): Message {
    ToolResult(call.id, call.name, reason, true, disposition)
  }

  // The calls among `calls` whose id is in `missing`, in call order.
  function MissingCalls(calls: seq<Call>, missing: set<string>): seq<Call> {
    if calls == [] then []
    else
      var rest := MissingCalls(calls[1..], missing);
      if calls[0].id in missing then [calls[0]] + rest else rest
  }

  function Synthesize(calls: seq<Call>, reason: string, disposition: Disposition): (r: seq<Message>)
    ensures |r| == |calls|
    ensures forall i | 0 <= i < |calls| :: r[i] == SyntheticResult(calls[i], reason, disposition)
  {
    seq(|calls|, i requires 0 <= i < |calls| => SyntheticResult(calls[i], reason, disposition))
  }

  // The message closes the call with this text and disposition.
  ghost predicate Closes(m: Message, call: Call, text: string, disposition: Disposition) {
    && m.ToolResult? && m.closing && m.toolCallId == call.id && m.toolName == call.name
    && m.text == text && m.disposition == disposition
  }

  // One closing message per call, in order.
  ghost predicate ClosesAll(ms: seq<Message>, calls: seq<Call>, text: string, disposition: Disposition) {
    |ms| == |calls| && forall i | 0 <= i < |ms| :: Closes(ms[i], calls[i], text, disposition)
  }

  lemma SynthesizeCloses(calls: seq<Call>, reason: string, disposition: Disposition)
    ensures ClosesAll(Synthesize(calls, reason, disposition), calls, reason, disposition)
  {
  }

  lemma {:induction false} SynthesizeIds(calls: seq<Call>, reason: string, disposition: Disposition)
    ensures ResultIds(Synthesize(calls, reason, disposition)) == Ids(calls)
    ensures AllResults(Synthesize(calls, reason, disposition))
    ensures AllCalls(Synthesize(calls, reason, disposition)) == []
  {
    var ms := Synthesize(calls, reason, disposition);
    if calls != [] {
      SynthesizeIds(calls[1..], reason, disposition);
      assert ms[1..] == Synthesize(calls[1..], reason, disposition);
      IdsHead(calls);
    }
  }

  // ----- Where the unanswered calls of an accepted prefix are

  function LastAssistant(ms: seq<Message>): (r: int)
    ensures -1 <= r < |ms|
    ensures r >= 0 ==> ms[r].Assistant?
    ensures forall i | r < i < |ms| :: !ms[i].Assistant?
  {
    if ms == [] then -1
    else if ms[|ms| - 1].Assistant? then |ms| - 1
    else LastAssistant(ms[..|ms| - 1])
  }

  // Without an assistant message nothing new is opened, so ids left open are answered from the start.
  lemma {:induction false} NoAssistantTail(ms: seq<Message>, open: multiset<string>)
    requires Prefix(ms, open) && StillOpen(ms, open) != multiset{}
    requires forall i | 0 <= i < |ms| :: !ms[i].Assistant?
    ensures AllResults(ms) && open != multiset{}
    decreases |ms|
  {
    if ms != [] {
      if open == multiset{} {
        assert multiset(Ids(Calls(ms[0]))) == multiset{};
        NoAssistantTail(ms[1..], multiset{});
      } else {
        NoAssistantTail(ms[1..], open - multiset{ms[0].toolCallId});
        assert ms == [ms[0]] + ms[1..];
      }
    }
  }

  // The open ids belong to the last assistant message, and only its results follow it.
  lemma {:induction false} OpenTail(ms: seq<Message>)
    requires Prefix(ms, multiset{}) && StillOpen(ms, multiset{}) != multiset{}
    ensures var last := LastAssistant(ms);
            && last >= 0 && AllResults(ms[last + 1..])
            && multiset(ResultIds(ms[last + 1..])) <= multiset(Ids(Calls(ms[last])))
            && StillOpen(ms, multiset{}) == multiset(Ids(Calls(ms[last]))) - multiset(ResultIds(ms[last + 1..]))
  {
    var last := LastAssistant(ms);
    if last == -1 {
      NoAssistantTail(ms, multiset{});
    } else {
      TailAfter(ms, last);
    }
  }

  lemma {:induction false} TailAfter(ms: seq<Message>, last: nat)
    requires Prefix(ms, multiset{}) && StillOpen(ms, multiset{}) != multiset{}
    requires last < |ms| && ms[last].Assistant? && forall i | last < i < |ms| :: !ms[i].Assistant?
    ensures AllResults(ms[last + 1..])
    ensures multiset(ResultIds(ms[last + 1..])) <= multiset(Ids(Calls(ms[last])))
    ensures StillOpen(ms, multiset{}) == multiset(Ids(Calls(ms[last]))) - multiset(ResultIds(ms[last + 1..]))
  {
    var a, b := ms[..last], ms[last..];
    assert ms == a + b;
    PrefixConcat(a, b, multiset{});
    assert b[0] == ms[last] && b[1..] == ms[last + 1..];
    var tail, ids := ms[last + 1..], multiset(Ids(Calls(ms[last])));
    NoAssistantTail(tail, ids);
    ResultsRun(tail, ids);
  }

  // ----- The synthetic results close exactly what is open

  lemma {:induction false} MissingCallsIds(calls: seq<Call>, missing: set<string>)
    ensures forall id :: multiset(Ids(MissingCalls(calls, missing)))[id] == if id in missing then multiset(Ids(calls))[id] else 0
  {
    if calls != [] {
      MissingCallsIds(calls[1..], missing);
      IdsHead(calls);
      if calls[0].id in missing {
        IdsHead(MissingCalls(calls, missing));
        assert MissingCalls(calls, missing)[1..] == MissingCalls(calls[1..], missing);
      } else {
        assert [] + MissingCalls(calls[1..], missing) == MissingCalls(calls[1..], missing);
      }
    } else {
      assert multiset(Ids([])) == multiset{};
    }
  }

  ghost predicate IsMissing(ms: seq<Message>, id: string) {
    id in Ids(AllCalls(ms)) && id !in ResultIds(ms)
  }

  // The results a repair appends: one per call of the last assistant message still unanswered.
  function Appended(ms: seq<Message>, missing: set<string>, reason: string): seq<Message> {
    var last := LastAssistant(ms);
    if last < 0 then [] else Synthesize(MissingCalls(Calls(ms[last]), missing), reason, Aborted)
  }

  lemma {:induction false} AppendedCloses(ms: seq<Message>, missing: set<string>, reason: string)
    requires Distinct(Ids(AllCalls(ms))) && Prefix(ms, multiset{})
    requires forall id :: id in missing <==> IsMissing(ms, id)
    requires missing != {}
    ensures LastAssistant(ms) >= 0
    ensures multiset(ResultIds(Appended(ms, missing, reason))) == StillOpen(ms, multiset{})
  {
    SomeOpen(ms, missing);
    OpenTail(ms);
    var last := LastAssistant(ms);
    TailDistinct(ms, last);
    TailCloses(Calls(ms[last]), ResultIds(ms[last + 1..]), missing, StillOpen(ms, multiset{}), reason);
  }

  lemma {:induction false} TailCloses(calls: seq<Call>, results: seq<string>, missing: set<string>, open: multiset<string>, reason: string)
    requires Distinct(Ids(calls)) && multiset(results) <= multiset(Ids(calls))
    requires open == multiset(Ids(calls)) - multiset(results)
    requires forall id :: id in missing <==> id in open
    ensures multiset(ResultIds(Synthesize(MissingCalls(calls, missing), reason, Aborted))) == open
  {
    TailCounts(calls, results, missing, open);
    SynthesizeIds(MissingCalls(calls, missing), reason, Aborted);
  }

  lemma {:induction false} SomeOpen(ms: seq<Message>, missing: set<string>)
    requires Distinct(Ids(AllCalls(ms))) && Prefix(ms, multiset{})
    requires forall id :: id in missing <==> IsMissing(ms, id)
    requires missing != {}
    ensures StillOpen(ms, multiset{}) != multiset{}
    ensures forall id :: id in missing <==> id in StillOpen(ms, multiset{})
  {
    PrefixAccounting(ms);
    var some :| some in missing;
    assert IsMissing(ms, some) && some in StillOpen(ms, multiset{});
    forall id
      ensures id in missing <==> id in StillOpen(ms, multiset{})
    {
      assert id in missing <==> IsMissing(ms, id);
    }
  }

  lemma {:induction false} TailCounts(calls: seq<Call>, results: seq<string>, missing: set<string>, open: multiset<string>)
    requires Distinct(Ids(calls)) && multiset(results) <= multiset(Ids(calls))
    requires open == multiset(Ids(calls)) - multiset(results)
    requires forall id :: id in missing <==> id in open
    ensures multiset(Ids(MissingCalls(calls, missing))) == open
  {
    MissingCallsIds(calls, missing);
    DistinctCounts(Ids(calls));
    forall id
      ensures multiset(Ids(MissingCalls(calls, missing)))[id] == open[id]
    {
      assert multiset(Ids(calls))[id] <= 1;
      assert open[id] == multiset(Ids(calls))[id] - multiset(results)[id];
      assert id in missing <==> id in open;
    }
  }

  lemma {:induction false} TailDistinct(ms: seq<Message>, last: nat)
    requires Distinct(Ids(AllCalls(ms))) && last < |ms|
    ensures Distinct(Ids(Calls(ms[last])))
  {
    DistinctParts(ms);
    assert ms[last] in ms;
  }

  lemma {:induction false} AppendResults(ms: seq<Message>, rs: seq<Message>)
    requires AllResults(rs)
    ensures AllCalls(ms + rs) == AllCalls(ms)
    ensures Valid(ms + rs) <==>
            Distinct(Ids(AllCalls(ms))) && Prefix(ms, multiset{}) && multiset(ResultIds(rs)) == StillOpen(ms, multiset{})
  {
    CallsConcat(ms, rs);
    NoCallsInResults(rs);
    assert AllCalls(ms) + [] == AllCalls(ms);
    BlocksAreComplete(ms + rs);
    PrefixConcat(ms, rs, multiset{});
    ResultsRun(rs, StillOpen(ms, multiset{}));
    DifferenceEmpty(StillOpen(ms, multiset{}), multiset(ResultIds(rs)));
  }

  lemma {:induction false} DifferenceEmpty(a: multiset<string>, b: multiset<string>)
    ensures b <= a && a - b == multiset{} <==> a == b
  {
    if b <= a && a - b == multiset{} {
      forall x
        ensures a[x] == b[x]
      {
        assert (a - b)[x] == 0;
      }
    }
  }

  lemma {:induction false} NoCallsInResults(rs: seq<Message>)
    requires AllResults(rs)
    ensures AllCalls(rs) == []
  {
    if rs != [] {
      assert rs[0] in rs && forall m | m in rs[1..] :: m in rs;
      NoCallsInResults(rs[1..]);
    }
  }

  // ----- The repairer

  ghost predicate Repairable(ms: seq<Message>) {
    exists rs :: AllResults(rs) && Valid(ms + rs)
  }

  lemma {:induction false} RepairableIff(ms: seq<Message>)
    ensures Repairable(ms) <==> OnlyMissing(ms)
  {
    OnlyMissingIff(ms);
    if Repairable(ms) {
      var rs :| AllResults(rs) && Valid(ms + rs);
      AppendResults(ms, rs);
    }
    if OnlyMissing(ms) {
      var missing := set id | id in Ids(AllCalls(ms)) && id !in ResultIds(ms);
      CompletedIsValid(ms, missing, "");
      if missing == {} {
        assert ms + [] == ms && AllResults([]);
      } else {
        AppendedCloses(ms, missing, "");
        SynthesizeIds(MissingCalls(Calls(ms[LastAssistant(ms)]), missing), "", Aborted);
      }
    }
  }

  lemma {:induction false} NoneMissingClosed(ms: seq<Message>)
    requires Distinct(Ids(AllCalls(ms))) && Prefix(ms, multiset{})
    requires forall id :: !IsMissing(ms, id)
    ensures StillOpen(ms, multiset{}) == multiset{}
  {
    PrefixAccounting(ms);
    forall id
      ensures id !in StillOpen(ms, multiset{})
    {
      assert !IsMissing(ms, id);
    }
  }

  // The ids called and never answered.
  function MissingIds(ms: seq<Message>): (r: set<string>)
    ensures forall id :: id in r <==> IsMissing(ms, id)
  {
    set id | id in Ids(AllCalls(ms)) && id !in ResultIds(ms)
  }

  function IssueIds(issues: seq<Issue>): set<string> {
    set i | i in issues :: i.toolCallId
  }

  // What a successful repair returns.
  function RepairOf(ms: seq<Message>, reason: string): seq<Message> {
    if MissingIds(ms) == {} then ms else ms + Appended(ms, MissingIds(ms), reason)
  }

  // repairTranscriptIntegrity: refuses only for a detected issue other than a missing result,
  // succeeds exactly when results alone can complete the transcript, and returns a valid one.
  method RepairTranscriptIntegrity(ms: seq<Message>, reason: string) returns (r: RepairResult)
    ensures r.Repaired? <==> Repairable(ms)
    ensures r.Refused? ==> r.issue in Issues(ms) && r.issue.kind != MissingResult
    ensures r.Repaired? ==> Valid(r.messages) && r.messages == RepairOf(ms, reason)
    ensures Valid(ms) ==> r == Repaired(ms)
  {
    var ok, issues := InspectTranscriptIntegrity(ms);
    RepairableIff(ms);
    var other := FirstOtherIssue(issues);
    if other.Some? {
      return Refused(other.value);
    }
    OnlyMissingIff(ms);
    var missingIds := IssueIds(issues);
    MissingSet(ms);
    CompletedIsValid(ms, missingIds, reason);
    if missingIds == {} {
      return Repaired(ms);
    }
    ValidMissesNothing(ms);
    var repaired := CompleteTail(ms, missingIds, reason);
    r := Repaired(repaired);
  }

  lemma {:induction false} ValidMissesNothing(ms: seq<Message>)
    ensures Valid(ms) ==> MissingIds(ms) == {} && Issues(ms) == [] && OnlyMissing(ms)
  {
    if Valid(ms) {
      InspectorExact(ms);
      OnlyMissingIff(ms);
      MissingSet(ms);
    }
  }

  // The loop that throws on the first issue that is not a missing result.
  method FirstOtherIssue(issues: seq<Issue>) returns (r: Option<Issue>)
    ensures r.None? <==> AllOfKind(issues, MissingResult)
    ensures r.Some? ==> r.value in issues && r.value.kind != MissingResult
  {
    for i := 0 to |issues|
      invariant forall j | 0 <= j < i :: issues[j].kind == MissingResult
    {
      if issues[i].kind != MissingResult {
        assert issues[i] in issues;
        return Some(issues[i]);
      }
    }
    return None;
  }

  // The rest of the repair, once only missing results are left. Where the source would still
  // throw, `assert false` shows that it never gets there.
  method CompleteTail(ms: seq<Message>, missingIds: set<string>, reason: string) returns (repaired: seq<Message>)
    requires Distinct(Ids(AllCalls(ms))) && Prefix(ms, multiset{})
    requires missingIds != {} && forall id :: id in missingIds <==> IsMissing(ms, id)
    ensures repaired == ms + Appended(ms, missingIds, reason)
  {
    SomeOpen(ms, missingIds);
    OpenTail(ms);
    var lastAssistantIndex := FindLastAssistant(ms);
    if lastAssistantIndex == -1 {
      assert false;
    }
    var tailCalls := Calls(ms[lastAssistantIndex]);
    var rest := missingIds;
    while rest != {}
      invariant rest <= missingIds
      decreases rest
    {
      var id :| id in rest;
      assert id in multiset(Ids(tailCalls));
      if id !in Ids(tailCalls) {
        assert false;
      }
      rest := rest - {id};
    }
    for i := lastAssistantIndex + 1 to |ms| {
      TailResult(ms, lastAssistantIndex, i);
      if !ms[i].ToolResult? || ms[i].toolCallId !in Ids(tailCalls) {
        assert false;
      }
    }
    repaired := AppendSynthetic(ms, tailCalls, missingIds, reason);
  }

  // A completed tail makes the transcript valid.
  lemma {:induction false} CompletedIsValid(ms: seq<Message>, missing: set<string>, reason: string)
    requires Distinct(Ids(AllCalls(ms))) && Prefix(ms, multiset{})
    requires forall id :: id in missing <==> IsMissing(ms, id)
    ensures missing != {} ==> Valid(ms + Appended(ms, missing, reason))
    ensures missing == {} ==> Valid(ms)
  {
    if missing == {} {
      forall id
        ensures !IsMissing(ms, id)
      {
        assert id !in missing;
      }
      NoneMissingClosed(ms);
      BlocksAreComplete(ms);
    } else {
      AppendedCloses(ms, missing, reason);
      SynthesizeIds(MissingCalls(Calls(ms[LastAssistant(ms)]), missing), reason, Aborted);
      AppendResults(ms, Appended(ms, missing, reason));
    }
  }

  // The ids of the reported issues are the missing ids.
  lemma {:induction false} MissingSet(ms: seq<Message>)
    requires OnlyMissing(ms)
    ensures IssueIds(Issues(ms)) == MissingIds(ms)
  {
    OnlyMissingParts(ms);
    CountIssuesKinds(ms);
    assert Issues(ms) == CountIssues(ms) + [];
    forall id
      ensures id in IssueIds(Issues(ms)) <==> ReportsMissing(CountIssues(ms), id)
    {
      if id in IssueIds(Issues(ms)) {
        var i :| i in Issues(ms) && i.toolCallId == id;
        assert i in CountIssues(ms);
      }
    }
  }

  // The backward loop.
  method FindLastAssistant(ms: seq<Message>) returns (r: int)
    ensures r == LastAssistant(ms)
  {
    var i := |ms| - 1;
    while i >= 0
      invariant -1 <= i < |ms| && LastAssistant(ms[..i + 1]) == LastAssistant(ms)
    {
      assert ms[..i + 1][..i] == ms[..i];
      if ms[i].Assistant? {
        return i;
      }
      i := i - 1;
    }
    return -1;
  }

  lemma {:induction false} TailResult(ms: seq<Message>, last: nat, i: nat)
    requires last < i < |ms| && AllResults(ms[last + 1..])
    requires multiset(ResultIds(ms[last + 1..])) <= multiset(Ids(Calls(ms[last])))
    ensures ms[i].ToolResult? && ms[i].toolCallId in Ids(Calls(ms[last]))
  {
    var tail, k := ms[last + 1..], i - last - 1;
    assert tail[k] == ms[i] && tail[k] in tail;
    ResultIdMember(tail, k);
    CountedIn(ms[i].toolCallId, ResultIds(tail), Ids(Calls(ms[last])));
  }

  lemma CountedIn(id: string, a: seq<string>, b: seq<string>)
    requires id in a && multiset(a) <= multiset(b)
    ensures id in b
  {
    assert id in multiset(a);
    assert id in multiset(b);
  }

  lemma {:induction false} ResultIdMember(ms: seq<Message>, i: nat)
    requires i < |ms| && ms[i].ToolResult?
    ensures ms[i].toolCallId in ResultIds(ms)
  {
    if i > 0 {
      ResultIdMember(ms[1..], i - 1);
    }
  }

  // The forward loop that pushes one synthetic result per missing tail call.
  method AppendSynthetic(ms: seq<Message>, calls: seq<Call>, missing: set<string>, reason: string) returns (repaired: seq<Message>)
    ensures repaired == ms + Synthesize(MissingCalls(calls, missing), reason, Aborted)
  {
    repaired := ms;
    for k := 0 to |calls|
      invariant repaired + Synthesize(MissingCalls(calls[k..], missing), reason, Aborted)
             == ms + Synthesize(MissingCalls(calls, missing), reason, Aborted)
    {
      assert calls[k..][1..] == calls[k + 1..];
      ghost var rest := MissingCalls(calls[k + 1..], missing);
      if calls[k].id in missing {
        SynthesizeHead(calls[k], rest, reason);
        repaired := repaired + [SyntheticResult(calls[k], reason, Aborted)];
      } else {
        assert [] + rest == rest;
      }
    }
  }

  lemma {:induction false} SynthesizeHead(call: Call, rest: seq<Call>, reason: string)
    ensures Synthesize([call] + rest, reason, Aborted)
         == [SyntheticResult(call, reason, Aborted)] + Synthesize(rest, reason, Aborted)
  {}

  // Repairing a repaired transcript changes nothing.
  lemma {:induction false} RepairIdempotent(ms: seq<Message>, reason: string, again: string)
    requires Repairable(ms)
    ensures Valid(RepairOf(ms, reason)) && RepairOf(RepairOf(ms, reason), again) == RepairOf(ms, reason)
  {
    RepairableIff(ms);
    OnlyMissingIff(ms);
    CompletedIsValid(ms, MissingIds(ms), reason);
    ValidMissesNothing(RepairOf(ms, reason));
  }

  lemma {:induction false} MissingCallsConcat(a: seq<Call>, b: seq<Call>, missing: set<string>)
    ensures MissingCalls(a + b, missing) == MissingCalls(a, missing) + MissingCalls(b, missing)
  {
    if a == [] {
      assert a + b == b;
    } else {
      assert (a + b)[1..] == a[1..] + b;
      MissingCallsConcat(a[1..], b, missing);
    }
  }

  lemma {:induction false} NoneMissingAmong(calls: seq<Call>, missing: set<string>)
    requires forall id | id in Ids(calls) :: id !in missing
    ensures MissingCalls(calls, missing) == []
  {
    if calls != [] {
      IdsHead(calls);
      assert Ids(calls)[0] in Ids(calls);
      assert forall id | id in Ids(calls[1..]) :: id in Ids(calls);
      NoneMissingAmong(calls[1..], missing);
    }
  }

  // The repair appends exactly one result per unanswered call of the whole transcript, in the order the
  // calls were made, each with the call's name and the reason, as aborted.
  lemma RepairAppendsInCallOrder(ms: seq<Message>, reason: string)
    requires Repairable(ms)
    ensures ms <= RepairOf(ms, reason)
    ensures ClosesAll(RepairOf(ms, reason)[|ms|..], MissingCalls(AllCalls(ms), MissingIds(ms)), reason, Aborted)
  {
    var appended := Synthesize(MissingCalls(AllCalls(ms), MissingIds(ms)), reason, Aborted);
    RepairAppends(ms, reason);
    assert (ms + appended)[|ms|..] == appended;
  }

  lemma {:induction false} RepairAppends(ms: seq<Message>, reason: string)
    requires Repairable(ms)
    ensures RepairOf(ms, reason) == ms + Synthesize(MissingCalls(AllCalls(ms), MissingIds(ms)), reason, Aborted)
  {
    var missing, all := MissingIds(ms), AllCalls(ms);
    RepairableIff(ms);
    OnlyMissingIff(ms);
    if missing == {} {
      NoneMissingAmong(all, missing);
      assert ms + [] == ms;
    } else {
      SomeOpen(ms, missing);
      OpenTail(ms);
      var last := LastAssistant(ms);
      var before, calls := AllCalls(ms[..last]), Calls(ms[last]);
      CallsBeforeTail(ms, last);
      IdsConcat(before, calls);
      DistinctConcat(Ids(before), Ids(calls));
      forall id | id in Ids(before)
        ensures id !in missing
      {
        assert id in missing ==> id in multiset(Ids(calls));
      }
      NoneMissingAmong(before, missing);
      MissingCallsConcat(before, calls, missing);
      assert [] + MissingCalls(calls, missing) == MissingCalls(calls, missing);
    }
  }

  lemma {:induction false} CallsBeforeTail(ms: seq<Message>, last: nat)
    requires last < |ms| && AllResults(ms[last + 1..])
    ensures AllCalls(ms) == AllCalls(ms[..last]) + Calls(ms[last])
  {
    var rest := ms[last..];
    assert ms == ms[..last] + rest && rest[0] == ms[last] && rest[1..] == ms[last + 1..];
    CallsConcat(ms[..last], rest);
    NoCallsInResults(ms[last + 1..]);
    assert Calls(ms[last]) + [] == Calls(ms[last]);
  }

  // ----- Failure termination

  const RUN_TERMINATED := "Tool result missing; run terminated by error"

  datatype FailurePlan = FailurePlan(messages: seq<Message>, failure: Option<Message>, closure: seq<Message>)

  // planFailureTermination: a failure turn is added only over a closed transcript, and is refused
  // exactly when results alone cannot close it.
  method PlanFailureTermination(completed: seq<Message>, aborted: bool) returns (plan: FailurePlan)
    ensures plan.failure.Some? <==> Repairable(completed)
    ensures plan.failure.Some? ==> plan.failure.value == Assistant([Text("")], if aborted then StopAborted else StopError)
                                   && ClosesAll(plan.closure, MissingCalls(AllCalls(completed), MissingIds(completed)), RUN_TERMINATED, Aborted)
    ensures plan.failure.Some? ==> Valid(plan.messages) && Valid(completed + plan.closure)
                                   && plan.messages == completed + plan.closure + [plan.failure.value]
                                   && Calls(plan.failure.value) == []
    ensures plan.failure.None? ==> plan.messages == completed && plan.closure == []
  {
    var ok, messages, closure := CloseForFailure(completed);
    if !ok {
      return FailurePlan(completed, None, []);
    }
    var failure := Assistant([Text("")], if aborted then StopAborted else StopError);
    ClosedTurn(messages, failure);
    return FailurePlan(messages + [failure], Some(failure), closure);
  }

  // The transcript as it is when valid, repaired when it can be.
  method CloseForFailure(completed: seq<Message>) returns (ok: bool, messages: seq<Message>, closure: seq<Message>)
    ensures ok <==> Repairable(completed)
    ensures ok ==> messages == completed + closure && Valid(messages)
                   && ClosesAll(closure, MissingCalls(AllCalls(completed), MissingIds(completed)), RUN_TERMINATED, Aborted)
  {
    var valid, _ := InspectTranscriptIntegrity(completed);
    InspectorExact(completed);
    ok, messages, closure := true, completed, [];
    assert completed + [] == completed;
    if !valid {
      var repaired := RepairTranscriptIntegrity(completed, RUN_TERMINATED);
      ok := !repaired.Refused?;
      if ok {
        RepairExtends(completed, RUN_TERMINATED);
        messages, closure := CopyClosure(completed, repaired.messages);
        RepairAppendsInCallOrder(completed, RUN_TERMINATED);
        assert RepairOf(completed, RUN_TERMINATED)[|completed|..] == closure;
      }
    } else {
      ValidIsRepairable(completed);
      ValidMissesNothing(completed);
      NoneMissingAmong(AllCalls(completed), {});
    }
  }

  lemma RepairExtends(ms: seq<Message>, reason: string)
    ensures |ms| <= |RepairOf(ms, reason)| && RepairOf(ms, reason)[..|ms|] == ms
  {
  }

  lemma ValidIsRepairable(ms: seq<Message>)
    requires Valid(ms)
    ensures Repairable(ms)
  {
    assert ms + [] == ms && AllResults([]);
  }

  // The loop that moves the appended results into the plan.
  method CopyClosure(completed: seq<Message>, repaired: seq<Message>) returns (messages: seq<Message>, closure: seq<Message>)
    requires |completed| <= |repaired| && repaired[..|completed|] == completed
    ensures messages == repaired && repaired == completed + closure
  {
    messages, closure := completed, [];
    for i := |completed| to |repaired|
      invariant messages == repaired[..i] && closure == repaired[|completed|..i]
    {
      closure := closure + [repaired[i]];
      messages := messages + [repaired[i]];
    }
  }

  // A message that makes no calls and answers none can follow a valid transcript.
  lemma {:induction false} ClosedTurn(ms: seq<Message>, m: Message)
    requires Valid(ms) && !m.ToolResult? && Calls(m) == []
    ensures Valid(ms + [m])
  {
    BlocksAreComplete(ms);
    BlocksAreComplete(ms + [m]);
    PrefixConcat(ms, [m], multiset{});
    CallsConcat(ms, [m]);
    OneMessage(m);
    assert AllCalls(ms) + [] == AllCalls(ms);
    assert [m][1..] == [] && multiset(Ids(Calls(m))) == multiset{};
  }
}
