/** What the ordering pass of the transcript inspector reports when it speaks
    (packages/agent/src/tool-transcript-integrity.ts:120-173). */
module Ordering {
  import opened Wrappers
  import opened Transcript

  // ----- The open calls of a transcript

  // The last message that emits calls, -1 without one.
  function LastCalls(ms: seq<Message>): (r: int)
    ensures -1 <= r < |ms|
    ensures r >= 0 ==> Calls(ms[r]) != []
    ensures forall i | r < i < |ms| :: Calls(ms[i]) == []
  {
    if ms == [] then -1
    else if Calls(ms[|ms| - 1]) != [] then |ms| - 1
    else LastCalls(ms[..|ms| - 1])
  }

  function Unanswered(calls: seq<Call>, answered: seq<string>): seq<Call> {
    if calls == [] then []
    else (if calls[0].id in answered then [] else [calls[0]]) + Unanswered(calls[1..], answered)
  }

  // What a message opens: its calls, an id only once.
  function Opens(m: Message): seq<Call> {
    SetAllPending([], Calls(m))
  }

  // The calls of the last message that emits any which no result after it answers, in call order.
  function Open(ms: seq<Message>): seq<Call> {
    var last := LastCalls(ms);
    if last < 0 then [] else Unanswered(Opens(ms[last]), ResultIds(ms[last + 1..]))
  }

  lemma OpensItsCalls(m: Message)
    requires Distinct(Ids(Calls(m)))
    ensures Opens(m) == Calls(m)
  {
    assert [] + Calls(m) == Calls(m);
    SetAllAppends([], Calls(m));
  }

  // ----- The pending calls of the pass

  function Next(pending: seq<Call>, m: Message): seq<Call> {
    match m
    case ToolResult(id, _, _, _, _) => DeletePending(pending, id)
    case _ => if Calls(m) == [] then pending else Opens(m)
  }

  function After(ms: seq<Message>, pending: seq<Call>): seq<Call> {
    if ms == [] then pending else Next(After(ms[..|ms| - 1], pending), ms[|ms| - 1])
  }

  lemma {:induction false} AfterFront(ms: seq<Message>, pending: seq<Call>)
    requires ms != []
    ensures After(ms, pending) == After(ms[1..], Next(pending, ms[0]))
  {
    var n := |ms| - 1;
    if n > 0 {
      AfterFront(ms[..n], pending);
      assert ms[..n][1..] == ms[1..][..n - 1];
    }
  }

  lemma {:induction false} DeleteAbsent(pending: seq<Call>, id: string)
    requires id !in Ids(pending)
    ensures DeletePending(pending, id) == pending
  {
    if pending != [] {
      assert Ids(pending)[0] == pending[0].id && Ids(pending)[0] in Ids(pending);
      assert forall i | 0 <= i < |pending[1..]| :: Ids(pending[1..])[i] == Ids(pending)[i + 1];
      DeleteAbsent(pending[1..], id);
    }
  }

  // A silent pass goes on with what it left pending, and one that has spoken is over.
  lemma {:induction false} ScanSnoc(ms: seq<Message>, m: Message, pending: seq<Call>, known: seq<string>)
    ensures Scan(ms + [m], pending, known) ==
            if Scan(ms, pending, known) == [] then Scan([m], After(ms, pending), known) else Scan(ms, pending, known)
    decreases |ms|
  {
    if ms == [] {
      assert ms + [m] == [m];
    } else {
      assert (ms + [m])[1..] == ms[1..] + [m] && (ms + [m])[0] == ms[0];
      AfterFront(ms, pending);
      if ms[0].ToolResult? && ms[0].toolCallId !in Ids(pending) {
        DeleteAbsent(pending, ms[0].toolCallId);
      }
      if !(ms[0].ToolResult? || pending == []) {
        assert Interleaved(pending) != [];
      } else {
        ScanSnoc(ms[1..], m, Next(pending, ms[0]), known);
      }
    }
  }

  lemma {:induction false} UnansweredMore(calls: seq<Call>, answered: seq<string>, id: string)
    requires Distinct(Ids(calls))
    ensures DeletePending(Unanswered(calls, answered), id) == Unanswered(calls, answered + [id])
  {
    if calls != [] {
      IdsHead(calls);
      UnansweredMore(calls[1..], answered, id);
      var rest, left := Unanswered(calls[1..], answered), Unanswered(calls[1..], answered + [id]);
      if calls[0].id in answered {
        assert [] + rest == rest && [] + left == left;
      } else {
        assert ([calls[0]] + rest)[1..] == rest;
        if calls[0].id == id {
          UnansweredIds(calls[1..], answered);
          DeleteAbsent(rest, id);
          assert [] + left == left;
        }
      }
    }
  }

  lemma {:induction false} UnansweredIds(calls: seq<Call>, answered: seq<string>)
    ensures forall id | id in Ids(Unanswered(calls, answered)) :: id in Ids(calls)
  {
    if calls != [] {
      IdsHead(calls);
      UnansweredIds(calls[1..], answered);
      var rest := Unanswered(calls[1..], answered);
      assert Ids([calls[0]] + rest) == [calls[0].id] + Ids(rest);
    }
  }

  // ----- What the pass reports

  lemma {:induction false} SetPendingIds(pending: seq<Call>, call: Call)
    requires Distinct(Ids(pending))
    ensures Ids(SetPending(pending, call)) == if call.id in Ids(pending) then Ids(pending) else Ids(pending) + [call.id]
  {
    if pending != [] {
      var head, rest := pending[0].id, Ids(pending[1..]);
      IdsHead(pending);
      IdsHead(SetPending(pending, call));
      if head == call.id {
        assert head in [head] + rest;
      } else {
        SetPendingIds(pending[1..], call);
        assert call.id in [head] + rest <==> call.id in rest;
        assert [head] + (rest + [call.id]) == [head] + rest + [call.id];
      }
    }
  }

  lemma {:induction false} DistinctSnoc(ids: seq<string>, id: string)
    requires Distinct(ids) && id !in ids
    ensures Distinct(ids + [id])
  {
    if ids != [] {
      assert (ids + [id])[1..] == ids[1..] + [id];
      DistinctSnoc(ids[1..], id);
    }
  }

  lemma {:induction false} SetAllDistinct(pending: seq<Call>, calls: seq<Call>)
    requires Distinct(Ids(pending))
    ensures Distinct(Ids(SetAllPending(pending, calls)))
    decreases |calls|
  {
    if calls != [] {
      SetPendingIds(pending, calls[0]);
      if calls[0].id !in Ids(pending) {
        DistinctSnoc(Ids(pending), calls[0].id);
      }
      SetAllDistinct(SetPending(pending, calls[0]), calls[1..]);
    }
  }

  lemma {:induction false} UnansweredNone(calls: seq<Call>)
    ensures Unanswered(calls, []) == calls
  {
    if calls != [] {
      UnansweredNone(calls[1..]);
      assert [calls[0]] + calls[1..] == calls;
    }
  }

  lemma LastCallsSnoc(ms: seq<Message>, m: Message)
    ensures LastCalls(ms + [m]) == if Calls(m) != [] then |ms| else LastCalls(ms)
  {
    assert (ms + [m])[..|ms|] == ms;
  }

  lemma {:induction false} ResultIdsSnoc(ms: seq<Message>, m: Message)
    ensures ResultIds(ms + [m]) == ResultIds(ms) + if m.ToolResult? then [m.toolCallId] else []
  {
    var all, last := ms + [m], if m.ToolResult? then [m.toolCallId] else [];
    if ms == [] {
      assert all == [m] && all[1..] == [];
      assert ResultIds(all) == last + [] == last && [] + last == last;
    } else {
      var head := if ms[0].ToolResult? then [ms[0].toolCallId] else [];
      assert all[1..] == ms[1..] + [m] && all[0] == ms[0];
      ResultIdsSnoc(ms[1..], m);
      assert head + (ResultIds(ms[1..]) + last) == head + ResultIds(ms[1..]) + last;
    }
  }

  lemma AnsweredMore(ms: seq<Message>, m: Message, last: nat)
    requires last < |ms| && m.ToolResult?
    ensures ResultIds((ms + [m])[last + 1..]) == ResultIds(ms[last + 1..]) + [m.toolCallId]
  {
    assert (ms + [m])[last + 1..] == ms[last + 1..] + [m];
    ResultIdsSnoc(ms[last + 1..], m);
  }

  lemma AnsweredKept(ms: seq<Message>, m: Message, last: nat)
    requires last < |ms| && !m.ToolResult?
    ensures ResultIds((ms + [m])[last + 1..]) == ResultIds(ms[last + 1..])
  {
    assert (ms + [m])[last + 1..] == ms[last + 1..] + [m];
    ResultIdsSnoc(ms[last + 1..], m);
    assert ResultIds(ms[last + 1..]) + [] == ResultIds(ms[last + 1..]);
  }

  lemma OpenNew(ms: seq<Message>, m: Message)
    requires Calls(m) != []
    ensures Open(ms + [m]) == Opens(m)
  {
    LastCallsSnoc(ms, m);
    assert (ms + [m])[|ms| + 1..] == [];
    UnansweredNone(Opens(m));
  }

  lemma OpenIs(ms: seq<Message>, last: nat, calls: seq<Call>, answered: seq<string>)
    requires LastCalls(ms) == last && calls == Opens(ms[last]) && answered == ResultIds(ms[last + 1..])
    ensures Open(ms) == Unanswered(calls, answered) && Distinct(Ids(calls))
  {
    SetAllDistinct([], Calls(ms[last]));
  }

  lemma OpenAnswered(ms: seq<Message>, m: Message)
    requires m.ToolResult?
    ensures Open(ms + [m]) == DeletePending(Open(ms), m.toolCallId)
  {
    var all, last, id := ms + [m], LastCalls(ms), m.toolCallId;
    LastCallsSnoc(ms, m);
    if last >= 0 {
      AnsweredMore(ms, m, last);
      var calls, answered := Opens(ms[last]), ResultIds(ms[last + 1..]);
      assert all[last] == ms[last];
      OpenIs(ms, last, calls, answered);
      OpenIs(all, last, calls, answered + [id]);
      UnansweredMore(calls, answered, id);
    }
  }

  lemma OpenKept(ms: seq<Message>, m: Message)
    requires !m.ToolResult? && Calls(m) == []
    ensures Open(ms + [m]) == Open(ms)
  {
    var all, last := ms + [m], LastCalls(ms);
    LastCallsSnoc(ms, m);
    if last >= 0 {
      AnsweredKept(ms, m, last);
      var calls, answered := Opens(ms[last]), ResultIds(ms[last + 1..]);
      assert all[last] == ms[last];
      OpenIs(ms, last, calls, answered);
      OpenIs(all, last, calls, answered);
    }
  }

  // One message more and the open calls are those it answers less, or its own.
  lemma OpenSnoc(ms: seq<Message>, m: Message)
    ensures Open(ms + [m]) == Next(Open(ms), m)
  {
    if m.ToolResult? {
      OpenAnswered(ms, m);
    } else if Calls(m) != [] {
      OpenNew(ms, m);
    } else {
      OpenKept(ms, m);
    }
  }

  // While the pass is silent, what it keeps pending is what is open.
  lemma {:induction false} PendingIsOpen(ms: seq<Message>, known: seq<string>)
    requires Scan(ms, [], known) == []
    ensures After(ms, []) == Open(ms)
  {
    if ms != [] {
      var n := |ms| - 1;
      var front, m := ms[..n], ms[n];
      assert front + [m] == ms;
      ScanSnoc(front, m, [], known);
      PendingIsOpen(front, known);
      assert |Interleaved(Open(front))| == |Open(front)|;
      OpenSnoc(front, m);
    }
  }

  // When the pass speaks it stops at a first message: a result of a known call that is not open, which
  // alone it names, or another message while calls are open, all of which it names in call order.
  lemma {:induction false} ScanNamesOpen(ms: seq<Message>, known: seq<string>) returns (k: nat)
    requires Scan(ms, [], known) != []
    ensures k < |ms| && Scan(ms[..k], [], known) == []
    ensures var issues, open, m := Scan(ms, [], known), Open(ms[..k]), ms[k];
            if m.ToolResult? then
              && m.toolCallId in known && m.toolCallId !in Ids(open)
              && issues == [Issue(InterleavedNonResult, m.toolCallId, None)]
            else
              && open != [] && |issues| == |open|
              && forall i | 0 <= i < |open| :: issues[i] == Issue(InterleavedNonResult, open[i].id, Some(open[i].name))
  {
    var n := |ms| - 1;
    var front, m := ms[..n], ms[n];
    assert front + [m] == ms;
    ScanSnoc(front, m, [], known);
    if Scan(front, [], known) != [] {
      k := ScanNamesOpen(front, known);
      assert front[..k] == ms[..k];
    } else {
      k := n;
      PendingIsOpen(front, known);
      assert [m][1..] == [];
    }
  }

  // ----- What the counting pass names

  // The first call with the id, and its name.
  ghost predicate FirstCall(calls: seq<Call>, id: string, name: string) {
    exists k :: 0 <= k < |calls| && calls[k] == Call(id, name) && forall j | 0 <= j < k :: calls[j].id != id
  }

  lemma {:induction false} NameIsFirst(calls: seq<Call>, id: string, name: string)
    ensures NameOf(calls, id) == Some(name) <==> FirstCall(calls, id, name)
  {
    if calls != [] {
      var rest := calls[1..];
      assert calls[0] == Call(calls[0].id, calls[0].name);
      NameIsFirst(rest, id, name);
      if calls[0].id != id {
        if FirstCall(rest, id, name) {
          var k :| 0 <= k < |rest| && rest[k] == Call(id, name) && forall j | 0 <= j < k :: rest[j].id != id;
          assert calls[k + 1] == rest[k] && forall j | 0 < j < k + 1 :: calls[j] == rest[j - 1];
        }
        if FirstCall(calls, id, name) {
          var k :| 0 <= k < |calls| && calls[k] == Call(id, name) && forall j | 0 <= j < k :: calls[j].id != id;
          assert rest[k - 1] == calls[k] && forall j | 0 <= j < k - 1 :: rest[j] == calls[j + 1];
        }
      }
    }
  }

  // Issues about calls carry the name of the first call with their id, issues about results none.
  ghost predicate NamedAsCounted(issue: Issue, calls: seq<Call>) {
    issue.toolName == if issue.kind == DuplicateCallId || issue.kind == MissingResult then NameOf(calls, issue.toolCallId) else None
  }

  ghost predicate AllNamed(issues: seq<Issue>, calls: seq<Call>) {
    forall i | i in issues :: NamedAsCounted(i, calls)
  }

  lemma {:induction false} PassesName(ids: seq<string>, calls: seq<Call>, results: seq<string>)
    ensures AllNamed(DuplicateCallIssues(ids, calls), calls) && AllNamed(DuplicateResultIssues(ids, results), calls)
    ensures AllNamed(OrphanIssues(ids, calls), calls) && AllNamed(MissingIssues(ids, calls, results), calls)
  {
    if ids != [] {
      PassesName(ids[1..], calls, results);
    }
  }

  lemma CountedNames(ms: seq<Message>)
    ensures AllNamed(CountIssues(ms), AllCalls(ms))
  {
    var calls, results := AllCalls(ms), ResultIds(ms);
    PassesName(FirstSeen(Ids(calls)), calls, results);
    PassesName(FirstSeen(results), calls, results);
  }
}
