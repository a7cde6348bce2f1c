/** Transcript integrity: the inspector and the repairer
    (packages/agent/src/tool-transcript-integrity.ts). */
module Transcript {
  import opened Sequences
  import opened Wrappers

  datatype Block = Text(text: string) | ToolCall(id: string, name: string)

  datatype Disposition = Completed | Failed | Blocked | Skipped | Aborted | TimedOut

  // A result is `closing` when it closes a call without a result of the call's own path: one that was
  // left open, never the outcome of preparing, authorizing or executing it.
  datatype Message =
    | Assistant(content: seq<Block>, stop: StopReason)
    | ToolResult(toolCallId: string, toolName: string, text: string, closing: bool, disposition: Disposition)
    | Plain(role: string, text: string)

  datatype StopReason = Stop | ToolUse | Length | StopError | StopAborted

  datatype Call = Call(id: string, name: string)

  function ContentCalls(content: seq<Block>): seq<Call> {
    if content == [] then []
    else
      match content[0]
      case Text(_) => ContentCalls(content[1..])
      case ToolCall(id, name) => [Call(id, name)] + ContentCalls(content[1..])
  }

  // The tool calls a message emits: none unless it is an assistant message.
  function Calls(m: Message): seq<Call> {
    if m.Assistant? then ContentCalls(m.content) else []
  }

  function Ids(calls: seq<Call>): (r: seq<string>)
    ensures |r| == |calls| && forall i | 0 <= i < |calls| :: r[i] == calls[i].id
  {
    seq(|calls|, i requires 0 <= i < |calls| => calls[i].id)
  }

  // ----- The language of valid transcripts

  ghost predicate AllResults(ms: seq<Message>) {
    forall m | m in ms :: m.ToolResult?
  }

  function ResultIds(ms: seq<Message>): seq<string> {
    if ms == [] then []
    else (if ms[0].ToolResult? then [ms[0].toolCallId] else []) + ResultIds(ms[1..])
  }

  function AllCalls(ms: seq<Message>): seq<Call> {
    if ms == [] then [] else Calls(ms[0]) + AllCalls(ms[1..])
  }

  // Plain messages, and assistant messages with k >= 1 calls followed by exactly k results whose
  // ids are a permutation of the calls' ids.
  ghost predicate Blocks(ms: seq<Message>)
    decreases |ms|
  {
    if ms == [] then true
    else
      var k, tail := |Calls(ms[0])|, ms[1..];
      if k == 0 then !ms[0].ToolResult? && Blocks(tail)
      else
        && k <= |tail| && AllResults(tail[..k])
        && multiset(ResultIds(tail[..k])) == multiset(Ids(Calls(ms[0])))
        && Blocks(tail[k..])
  }

  // No id occurs twice.
  ghost predicate Distinct(ids: seq<string>) {
    ids == [] || (ids[0] !in ids[1..] && Distinct(ids[1..]))
  }

  ghost predicate Valid(ms: seq<Message>) {
    Blocks(ms) && Distinct(Ids(AllCalls(ms)))
  }

  // ----- The same language read message by message, with the ids still awaiting a result

  predicate Prefix(ms: seq<Message>, open: multiset<string>)
    decreases |ms|
  {
    if ms == [] then true
    else if open != multiset{} then
      ms[0].ToolResult? && ms[0].toolCallId in open && Prefix(ms[1..], open - multiset{ms[0].toolCallId})
    else !ms[0].ToolResult? && Prefix(ms[1..], multiset(Ids(Calls(ms[0]))))
  }

  function StillOpen(ms: seq<Message>, open: multiset<string>): multiset<string>
    decreases |ms|
  {
    if ms == [] then open
    else if open != multiset{} then
      StillOpen(ms[1..], if ms[0].ToolResult? then open - multiset{ms[0].toolCallId} else open)
    else StillOpen(ms[1..], multiset(Ids(Calls(ms[0]))))
  }

  lemma {:induction false} PrefixConcat(a: seq<Message>, b: seq<Message>, open: multiset<string>)
    ensures Prefix(a + b, open) <==> Prefix(a, open) && Prefix(b, StillOpen(a, open))
    ensures StillOpen(a + b, open) == StillOpen(b, StillOpen(a, open))
    decreases |a|
  {
    if a == [] {
      assert a + b == b;
    } else {
      assert (a + b)[1..] == a[1..] + b;
      PrefixConcat(a[1..], b, if open == multiset{} then multiset(Ids(Calls(a[0])))
                              else if a[0].ToolResult? then open - multiset{a[0].toolCallId} else open);
    }
  }

  // A run of results that the automaton accepts takes their ids out of the open ones.
  lemma {:induction false} ResultsRun(ms: seq<Message>, open: multiset<string>)
    requires AllResults(ms)
    ensures Prefix(ms, open) <==> multiset(ResultIds(ms)) <= open
    ensures Prefix(ms, open) ==> StillOpen(ms, open) == open - multiset(ResultIds(ms))
    ensures |ResultIds(ms)| == |ms|
    decreases |ms|
  {
    if ms != [] {
      var id := ms[0].toolCallId;
      assert ms[0] in ms && forall m | m in ms[1..] :: m in ms;
      ResultsRun(ms[1..], open - multiset{id});
      assert multiset(ResultIds(ms)) == multiset{id} + multiset(ResultIds(ms[1..]));
      assert open == multiset{} ==> id !in open;
    }
  }

  // A complete transcript starting while ids are open starts with results for exactly those ids.
  ghost predicate ResultsFor(ms: seq<Message>, open: multiset<string>) {
    && |open| <= |ms| && AllResults(ms[..|open|])
    && multiset(ResultIds(ms[..|open|])) == open
  }

  lemma {:induction false} ResultsForNext(ms: seq<Message>, open: multiset<string>)
    requires ms != [] && ms[0].ToolResult? && ms[0].toolCallId in open
    requires ResultsFor(ms[1..], open - multiset{ms[0].toolCallId})
    ensures ResultsFor(ms, open)
    ensures ms[|open|..] == ms[1..][|open - multiset{ms[0].toolCallId}|..]
  {
    var id := ms[0].toolCallId;
    var rest := open - multiset{id};
    OneLess(open, id);
    TakeNext(ms, |rest|);
    var tail := ms[1..][..|rest|];
    assert ([ms[0]] + tail)[1..] == tail;
    assert ResultIds([ms[0]] + tail) == [id] + ResultIds(tail);
    assert multiset([id] + ResultIds(tail)) == multiset{id} + multiset(ResultIds(tail));
  }

  lemma OneLess(open: multiset<string>, id: string)
    requires id in open
    ensures |open| == |open - multiset{id}| + 1 && open == multiset{id} + (open - multiset{id})
  {
  }

  lemma TakeNext(ms: seq<Message>, n: nat)
    requires ms != [] && n < |ms|
    ensures ms[..n + 1] == [ms[0]] + ms[1..][..n] && ms[n + 1..] == ms[1..][n..]
  {
  }

  lemma {:induction false} OpenThenResults(ms: seq<Message>, open: multiset<string>)
    requires Prefix(ms, open) && StillOpen(ms, open) == multiset{}
    ensures ResultsFor(ms, open)
    ensures Prefix(ms[|open|..], multiset{}) && StillOpen(ms[|open|..], multiset{}) == multiset{}
    decreases |ms|
  {
    if open == multiset{} {
      assert ms[..0] == [] && ms[0..] == ms;
    } else {
      OpenThenResults(ms[1..], open - multiset{ms[0].toolCallId});
      ResultsForNext(ms, open);
    }
  }

  ghost predicate Closed(ms: seq<Message>, open: multiset<string>) {
    Prefix(ms, open) && StillOpen(ms, open) == multiset{}
  }

  // One block: its results close exactly its calls.
  lemma {:induction false} OneBlock(results: seq<Message>, rest: seq<Message>, open: multiset<string>)
    requires AllResults(results) && multiset(ResultIds(results)) == open
    ensures Closed(results + rest, open) <==> Closed(rest, multiset{})
  {
    ResultsRun(results, open);
    PrefixConcat(results, rest, open);
  }

  // Results for exactly the open ids, then a closed rest.
  ghost predicate BlockThenClosed(ms: seq<Message>, k: nat, open: multiset<string>) {
    && k <= |ms| && AllResults(ms[..k]) && multiset(ResultIds(ms[..k])) == open
    && Closed(ms[k..], multiset{})
  }

  lemma {:induction false} ClosedSplits(ms: seq<Message>, open: multiset<string>)
    requires Closed(ms, open)
    ensures BlockThenClosed(ms, |open|, open)
  {
    OpenThenResults(ms, open);
  }

  lemma {:induction false} SplitCloses(ms: seq<Message>, k: nat, open: multiset<string>)
    requires BlockThenClosed(ms, k, open)
    ensures Closed(ms, open)
  {
    assert ms == ms[..k] + ms[k..];
    OneBlock(ms[..k], ms[k..], open);
  }

  lemma {:induction false} BlocksUnfold(ms: seq<Message>)
    requires ms != [] && Calls(ms[0]) != []
    ensures var k := |Calls(ms[0])|; var tail := ms[1..];
            Blocks(ms) <==> k <= |tail| && AllResults(tail[..k])
                            && multiset(ResultIds(tail[..k])) == multiset(Ids(Calls(ms[0]))) && Blocks(tail[k..])
  {}

  lemma {:induction false} ClosedUnfold(ms: seq<Message>)
    requires ms != [] && Calls(ms[0]) != []
    ensures Closed(ms, multiset{}) <==> Closed(ms[1..], multiset(Ids(Calls(ms[0]))))
  {}

  // The automaton and the grammar describe the same transcripts.
  lemma {:induction false} BlocksAreComplete(ms: seq<Message>)
    ensures Blocks(ms) <==> Closed(ms, multiset{})
    decreases |ms|, 1
  {
    if ms == [] {
    } else if Calls(ms[0]) == [] {
      BlocksAreComplete(ms[1..]);
      assert multiset(Ids(Calls(ms[0]))) == multiset{};
    } else {
      BlockIsComplete(ms);
    }
  }

  lemma {:induction false} BlockIsComplete(ms: seq<Message>)
    requires ms != [] && Calls(ms[0]) != []
    ensures Blocks(ms) <==> Closed(ms, multiset{})
    decreases |ms|, 0
  {
    var k, open, tail := |Calls(ms[0])|, multiset(Ids(Calls(ms[0]))), ms[1..];
    assert |open| == k;
    ClosedUnfold(ms);
    BlocksUnfold(ms);
    if k <= |tail| {
      BlocksAreComplete(tail[k..]);
    }
    if Closed(tail, open) {
      ClosedSplits(tail, open);
    }
    if Blocks(ms) {
      SplitCloses(tail, k, open);
    }
  }

  // ----- Counting along an accepted prefix

  lemma {:induction false} CallsConcat(a: seq<Message>, b: seq<Message>)
    ensures AllCalls(a + b) == AllCalls(a) + AllCalls(b)
    ensures ResultIds(a + b) == ResultIds(a) + ResultIds(b)
  {
    if a == [] {
      assert a + b == b;
    } else {
      assert (a + b)[1..] == a[1..] + b;
      CallsConcat(a[1..], b);
      ConcatAssoc(Calls(a[0]), AllCalls(a[1..]), AllCalls(b));
      ConcatAssoc(if a[0].ToolResult? then [a[0].toolCallId] else [], ResultIds(a[1..]), ResultIds(b));
    }
  }

  lemma {:induction false} IdsConcat(a: seq<Call>, b: seq<Call>)
    ensures Ids(a + b) == Ids(a) + Ids(b)
  {}

  lemma {:induction false} AddBack(open: multiset<string>, c: multiset<string>, r: multiset<string>, id: string)
    requires id in open && open - multiset{id} + c == r
    ensures open + c == multiset{id} + r
  {
    forall x
      ensures (open + c)[x] == (multiset{id} + r)[x]
    {
      assert (open - multiset{id} + c)[x] == r[x];
    }
  }

  // Calls made are calls answered plus calls still open.
  lemma {:induction false} PrefixBalance(ms: seq<Message>, open: multiset<string>)
    requires Prefix(ms, open)
    ensures open + multiset(Ids(AllCalls(ms))) == multiset(ResultIds(ms)) + StillOpen(ms, open)
    decreases |ms|
  {
    if ms != [] {
      IdsConcat(Calls(ms[0]), AllCalls(ms[1..]));
      if open != multiset{} {
        var id := ms[0].toolCallId;
        PrefixBalance(ms[1..], open - multiset{id});
        assert multiset(ResultIds(ms)) == multiset{id} + multiset(ResultIds(ms[1..]));
        assert Calls(ms[0]) == [];
        assert Calls(ms[0]) + AllCalls(ms[1..]) == AllCalls(ms[1..]);
        var c, r, o := multiset(Ids(AllCalls(ms[1..]))), multiset(ResultIds(ms[1..])), StillOpen(ms, open);
        AddBack(open, c, r + o, id);
      } else {
        PrefixBalance(ms[1..], multiset(Ids(Calls(ms[0]))));
        assert [] + ResultIds(ms[1..]) == ResultIds(ms[1..]);
      }
    }
  }

  ghost predicate AtMostOnce(m: multiset<string>) {
    forall id :: m[id] <= 1
  }

  lemma {:induction false} AtMostOnceAdd(m: multiset<string>, x: string)
    ensures AtMostOnce(multiset{x} + m) <==> AtMostOnce(m) && x !in m
  {
    var all := multiset{x} + m;
    if AtMostOnce(all) {
      assert all[x] <= 1;
      forall id
        ensures m[id] <= 1
      {
        assert all[id] <= 1;
      }
    }
  }

  lemma {:induction false} DistinctCounts(ids: seq<string>)
    ensures Distinct(ids) <==> AtMostOnce(multiset(ids))
  {
    if ids != [] {
      var rest := ids[1..];
      DistinctCounts(rest);
      assert ids == [ids[0]] + rest;
      assert multiset(ids) == multiset{ids[0]} + multiset(rest);
      AtMostOnceAdd(multiset(rest), ids[0]);
      assert ids[0] in rest <==> ids[0] in multiset(rest);
    } else {
      assert multiset(ids) == multiset{};
    }
  }

  lemma {:induction false} DistinctConcat(a: seq<string>, b: seq<string>)
    ensures Distinct(a + b) ==> Distinct(a) && Distinct(b) && forall id | id in a :: id !in b
  {
    DistinctCounts(a + b);
    DistinctCounts(a);
    DistinctCounts(b);
    assert multiset(a + b) == multiset(a) + multiset(b);
    if Distinct(a + b) {
      forall id
        ensures multiset(a)[id] + multiset(b)[id] <= 1
      {
        assert multiset(a + b)[id] <= 1;
      }
      assert forall id | id in a :: id in multiset(a) && multiset(b)[id] == 0;
    }
  }

  lemma {:induction false} DistinctIndices(ids: seq<string>, i: nat, j: nat)
    requires Distinct(ids) && i < j < |ids|
    ensures ids[i] != ids[j]
  {
    if i > 0 {
      DistinctIndices(ids[1..], i - 1, j - 1);
    } else {
      assert ids[j] == ids[1..][j - 1];
    }
  }

  // ----- The inspector

  datatype IssueKind = MissingResult | DuplicateResult | OrphanResult | DuplicateCallId | InterleavedNonResult

  datatype Issue = Issue(kind: IssueKind, toolCallId: string, toolName: Option<string>)

  // The ids in the order they were first inserted into a JavaScript Map.
  function FirstSeen(ids: seq<string>): seq<string> {
    if ids == [] then []
    else
      var init, last := FirstSeen(ids[..|ids| - 1]), ids[|ids| - 1];
      if last in init then init else init + [last]
  }

  // The name of the first call with this id.
  function NameOf(calls: seq<Call>, id: string): Option<string> {
    if calls == [] then None
    else if calls[0].id == id then Some(calls[0].name)
    else NameOf(calls[1..], id)
  }

  predicate Repeated(ids: seq<string>, id: string) {
    multiset(ids)[id] > 1
  }

  function DuplicateCallIssues(ids: seq<string>, calls: seq<Call>): seq<Issue> {
    if ids == [] then []
    else
      (if Repeated(Ids(calls), ids[0]) then [Issue(DuplicateCallId, ids[0], NameOf(calls, ids[0]))] else [])
      + DuplicateCallIssues(ids[1..], calls)
  }

  function DuplicateResultIssues(ids: seq<string>, results: seq<string>): seq<Issue> {
    if ids == [] then []
    else
      (if Repeated(results, ids[0]) then [Issue(DuplicateResult, ids[0], None)] else [])
      + DuplicateResultIssues(ids[1..], results)
  }

  function OrphanIssues(ids: seq<string>, calls: seq<Call>): seq<Issue> {
    if ids == [] then []
    else
      (if ids[0] !in Ids(calls) then [Issue(OrphanResult, ids[0], None)] else []) + OrphanIssues(ids[1..], calls)
  }

  function MissingIssues(ids: seq<string>, calls: seq<Call>, results: seq<string>): seq<Issue> {
    if ids == [] then []
    else
      (if ids[0] !in results then [Issue(MissingResult, ids[0], NameOf(calls, ids[0]))] else [])
      + MissingIssues(ids[1..], calls, results)
  }

  function CountIssues(ms: seq<Message>): seq<Issue> {
    var calls, results := AllCalls(ms), ResultIds(ms);
    var callIds, resultIds := FirstSeen(Ids(calls)), FirstSeen(results);
    DuplicateCallIssues(callIds, calls) + DuplicateResultIssues(resultIds, results)
    + OrphanIssues(resultIds, calls) + MissingIssues(callIds, calls, results)
  }

  // The pending Map: setting an id it holds replaces the name in place.
  function SetPending(pending: seq<Call>, call: Call): seq<Call> {
    if pending == [] then [call]
    else if pending[0].id == call.id then [call] + pending[1..]
    else [pending[0]] + SetPending(pending[1..], call)
  }

  function SetAllPending(pending: seq<Call>, calls: seq<Call>): seq<Call>
    decreases |calls|
  {
    if calls == [] then pending else SetAllPending(SetPending(pending, calls[0]), calls[1..])
  }

  function DeletePending(pending: seq<Call>, id: string): seq<Call> {
    if pending == [] then []
    else if pending[0].id == id then pending[1..]
    else [pending[0]] + DeletePending(pending[1..], id)
  }

  function Interleaved(pending: seq<Call>): (r: seq<Issue>)
    ensures |r| == |pending|
    ensures forall i | 0 <= i < |r| :: r[i] == Issue(InterleavedNonResult, pending[i].id, Some(pending[i].name))
  {
    seq(|pending|, i requires 0 <= i < |pending| => Issue(InterleavedNonResult, pending[i].id, Some(pending[i].name)))
  }

  // The ordering pass; each early break ends it with what it reports.
  function Scan(ms: seq<Message>, pending: seq<Call>, known: seq<string>): seq<Issue>
    decreases |ms|
  {
    if ms == [] then []
    else
      match ms[0]
      case ToolResult(id, _, _, _, _) =>
        if id in Ids(pending) then Scan(ms[1..], DeletePending(pending, id), known)
        else if id in known then [Issue(InterleavedNonResult, id, None)]
        else Scan(ms[1..], pending, known)
      case _ =>
        if pending != [] then Interleaved(pending)
        else Scan(ms[1..], SetAllPending([], Calls(ms[0])), known)
  }

  function Issues(ms: seq<Message>): seq<Issue> {
    CountIssues(ms) + Scan(ms, [], Ids(AllCalls(ms)))
  }

  // ----- What each list of issues says

  lemma {:induction false} FirstSeenMembers(ids: seq<string>)
    ensures forall id :: id in FirstSeen(ids) <==> id in ids
  {
    if ids != [] {
      var init := ids[..|ids| - 1];
      FirstSeenMembers(init);
      assert ids == init + [ids[|ids| - 1]];
    }
  }

  // Every issue has the kind, and there is none exactly when no id is bad.
  ghost predicate Reports(issues: seq<Issue>, kind: IssueKind, ids: seq<string>, bad: string -> bool) {
    && (forall i | i in issues :: i.kind == kind && i.toolCallId in ids && bad(i.toolCallId))
    && (forall id | id in ids && bad(id) :: exists i | i in issues :: i.toolCallId == id)
  }

  lemma {:induction false} ReportsStep(issues: seq<Issue>, kind: IssueKind, ids: seq<string>, bad: string -> bool, head: seq<Issue>, name: Option<string>)
    requires ids != [] && Reports(issues, kind, ids[1..], bad)
    requires head == if bad(ids[0]) then [Issue(kind, ids[0], name)] else []
    ensures Reports(head + issues, kind, ids, bad)
  {
    assert ids == [ids[0]] + ids[1..];
    forall id | id in ids && bad(id)
      ensures exists i | i in head + issues :: i.toolCallId == id
    {
      if id == ids[0] {
        assert head[0] in head + issues;
      } else {
        var i :| i in issues && i.toolCallId == id;
        assert i in head + issues;
      }
    }
  }

  function RepeatedIn(ids: seq<string>): string -> bool {
    id => Repeated(ids, id)
  }

  function AbsentFrom(ids: seq<string>): string -> bool {
    id => id !in ids
  }

  lemma {:induction false} DuplicateCallReports(ids: seq<string>, calls: seq<Call>)
    ensures Reports(DuplicateCallIssues(ids, calls), DuplicateCallId, ids, RepeatedIn(Ids(calls)))
  {
    if ids != [] {
      DuplicateCallReports(ids[1..], calls);
      ReportsStep(DuplicateCallIssues(ids[1..], calls), DuplicateCallId, ids, RepeatedIn(Ids(calls)),
                  if Repeated(Ids(calls), ids[0]) then [Issue(DuplicateCallId, ids[0], NameOf(calls, ids[0]))] else [],
                  NameOf(calls, ids[0]));
    }
  }

  lemma {:induction false} DuplicateResultReports(ids: seq<string>, results: seq<string>)
    ensures Reports(DuplicateResultIssues(ids, results), DuplicateResult, ids, RepeatedIn(results))
  {
    if ids != [] {
      DuplicateResultReports(ids[1..], results);
      ReportsStep(DuplicateResultIssues(ids[1..], results), DuplicateResult, ids, RepeatedIn(results),
                  if Repeated(results, ids[0]) then [Issue(DuplicateResult, ids[0], None)] else [], None);
    }
  }

  lemma {:induction false} OrphanReports(ids: seq<string>, calls: seq<Call>)
    ensures Reports(OrphanIssues(ids, calls), OrphanResult, ids, AbsentFrom(Ids(calls)))
  {
    if ids != [] {
      OrphanReports(ids[1..], calls);
      ReportsStep(OrphanIssues(ids[1..], calls), OrphanResult, ids, AbsentFrom(Ids(calls)),
                  if ids[0] !in Ids(calls) then [Issue(OrphanResult, ids[0], None)] else [], None);
    }
  }

  lemma {:induction false} MissingReports(ids: seq<string>, calls: seq<Call>, results: seq<string>)
    ensures Reports(MissingIssues(ids, calls, results), MissingResult, ids, AbsentFrom(results))
  {
    if ids != [] {
      MissingReports(ids[1..], calls, results);
      ReportsStep(MissingIssues(ids[1..], calls, results), MissingResult, ids, AbsentFrom(results),
                  if ids[0] !in results then [Issue(MissingResult, ids[0], NameOf(calls, ids[0]))] else [],
                  NameOf(calls, ids[0]));
    }
  }

  ghost predicate SubsetIds(a: seq<string>, b: seq<string>) {
    forall id | id in a :: id in b
  }

  lemma {:induction false} RepeatedIsDuplicate(ids: seq<string>)
    ensures Distinct(ids) <==> forall id | id in FirstSeen(ids) :: !RepeatedIn(ids)(id)
  {
    DistinctCounts(ids);
    FirstSeenMembers(ids);
    if forall id | id in FirstSeen(ids) :: !RepeatedIn(ids)(id) {
      forall id
        ensures multiset(ids)[id] <= 1
      {
        if id in ids {
          assert !RepeatedIn(ids)(id);
        }
      }
    }
  }

  ghost predicate AllOfKind(issues: seq<Issue>, kind: IssueKind) {
    forall i | i in issues :: i.kind == kind
  }

  ghost predicate ReportsMissing(issues: seq<Issue>, id: string) {
    exists i | i in issues :: i.kind == MissingResult && i.toolCallId == id
  }

  // The accounting pass is silent, apart from missing results, exactly when ids are not reused.
  lemma {:induction false} CountIssuesKinds(ms: seq<Message>)
    ensures var calls, results := Ids(AllCalls(ms)), ResultIds(ms);
            && (AllOfKind(CountIssues(ms), MissingResult) <==>
                Distinct(calls) && Distinct(results) && SubsetIds(results, calls))
            && (forall id :: ReportsMissing(CountIssues(ms), id)
                             <==> id in calls && id !in results)
  {
    var calls, results := AllCalls(ms), ResultIds(ms);
    var callIds, resultIds := FirstSeen(Ids(calls)), FirstSeen(results);
    var a, b := DuplicateCallIssues(callIds, calls), DuplicateResultIssues(resultIds, results);
    var c, d := OrphanIssues(resultIds, calls), MissingIssues(callIds, calls, results);
    FirstSeenMembers(Ids(calls));
    FirstSeenMembers(results);
    RepeatedIsDuplicate(Ids(calls));
    RepeatedIsDuplicate(results);
    DuplicateCallReports(callIds, calls);
    DuplicateResultReports(resultIds, results);
    OrphanReports(resultIds, calls);
    MissingReports(callIds, calls, results);
    assert CountIssues(ms) == a + b + c + d;
    FourLists(a, b, c, d, callIds, resultIds, Ids(calls), results);
  }

  lemma {:induction false} FourLists(a: seq<Issue>, b: seq<Issue>, c: seq<Issue>, d: seq<Issue>, callIds: seq<string>, resultIds: seq<string>,
                  calls: seq<string>, results: seq<string>)
    requires Reports(a, DuplicateCallId, callIds, RepeatedIn(calls))
    requires Reports(b, DuplicateResult, resultIds, RepeatedIn(results))
    requires Reports(c, OrphanResult, resultIds, AbsentFrom(calls))
    requires Reports(d, MissingResult, callIds, AbsentFrom(results))
    requires forall id :: id in callIds <==> id in calls
    requires forall id :: id in resultIds <==> id in results
    requires Distinct(calls) <==> forall id | id in callIds :: !RepeatedIn(calls)(id)
    requires Distinct(results) <==> forall id | id in resultIds :: !RepeatedIn(results)(id)
    ensures AllOfKind(a + b + c + d, MissingResult) <==> Distinct(calls) && Distinct(results) && SubsetIds(results, calls)
    ensures forall id :: ReportsMissing(a + b + c + d, id)
                         <==> id in calls && id !in results
  {
    var all := a + b + c + d;
    assert forall i :: i in all <==> i in a || i in b || i in c || i in d;
    if AllOfKind(all, MissingResult) {
      FirstIsMember(a);
      FirstIsMember(b);
      FirstIsMember(c);
      assert a == [] && b == [] && c == [];
      forall id | id in results
        ensures id in calls
      {
        assert id in resultIds && !AbsentFrom(calls)(id);
      }
    }
    forall id | id in calls && id !in results
      ensures ReportsMissing(all, id)
    {
      assert AbsentFrom(results)(id);
      var i :| i in d && i.toolCallId == id;
      assert i in all;
    }
  }

  // ----- What the ordering pass says

  lemma {:induction false} DeleteFacts(pending: seq<Call>, id: string)
    requires Distinct(Ids(pending)) && id in Ids(pending)
    ensures Distinct(Ids(DeletePending(pending, id)))
    ensures multiset(Ids(DeletePending(pending, id))) == multiset(Ids(pending)) - multiset{id}
  {
    var first, rest := pending[0], pending[1..];
    IdsHead(pending);
    if first.id != id {
      DeleteFacts(rest, id);
      KeepHead(first, DeletePending(rest, id), Ids(rest), id);
    }
  }

  lemma {:induction false} IdsHead(pending: seq<Call>)
    requires pending != []
    ensures Ids(pending) == [pending[0].id] + Ids(pending[1..]) && Ids(pending)[1..] == Ids(pending[1..])
    ensures multiset(Ids(pending)) == multiset{pending[0].id} + multiset(Ids(pending[1..]))
  {
    assert Ids(pending) == [pending[0].id] + Ids(pending[1..]);
  }

  lemma {:induction false} KeepHead(first: Call, del: seq<Call>, rest: seq<string>, id: string)
    requires first.id != id && id in rest && first.id !in rest && Distinct(Ids(del))
    requires multiset(Ids(del)) == multiset(rest) - multiset{id}
    ensures Distinct(Ids([first] + del))
    ensures multiset(Ids([first] + del)) == multiset{first.id} + multiset(rest) - multiset{id}
  {
    IdsHead([first] + del);
    assert ([first] + del)[1..] == del;
    assert first.id !in multiset(rest);
    assert first.id in Ids(del) <==> first.id in multiset(Ids(del));
  }

  lemma {:induction false} SetAppends(pending: seq<Call>, call: Call)
    requires call.id !in Ids(pending)
    ensures SetPending(pending, call) == pending + [call]
  {
    if pending != [] {
      assert Ids(pending) == [pending[0].id] + Ids(pending[1..]);
      SetAppends(pending[1..], call);
      ConcatAssoc([pending[0]], pending[1..], [call]);
      assert [pending[0]] + pending[1..] == pending;
    }
  }

  lemma {:induction false} SetAllAppends(pending: seq<Call>, calls: seq<Call>)
    requires Distinct(Ids(pending + calls))
    ensures SetAllPending(pending, calls) == pending + calls
    decreases |calls|
  {
    if calls != [] {
      IdsConcat(pending, calls);
      DistinctConcat(Ids(pending), Ids(calls));
      assert calls[0].id == Ids(calls)[0] && Ids(calls)[0] in Ids(calls);
      SetAppends(pending, calls[0]);
      assert pending + [calls[0]] + calls[1..] == pending + calls;
      SetAllAppends(pending + [calls[0]], calls[1..]);
    } else {
      assert pending + calls == pending;
    }
  }

  ghost predicate DistinctPerMessage(ms: seq<Message>) {
    forall m | m in ms :: Distinct(Ids(Calls(m)))
  }

  lemma {:induction false} ScanKind(ms: seq<Message>, pending: seq<Call>, known: seq<string>)
    ensures AllOfKind(Scan(ms, pending, known), InterleavedNonResult)
    decreases |ms|
  {
    if ms != [] {
      match ms[0]
      case ToolResult(id, _, _, _, _) =>
        ScanKind(ms[1..], if id in Ids(pending) then DeletePending(pending, id) else pending, known);
      case _ =>
        ScanKind(ms[1..], SetAllPending([], Calls(ms[0])), known);
    }
  }

  // The ordering pass is silent exactly on the prefixes of complete transcripts.
  lemma {:induction false} ScanIsPrefix(ms: seq<Message>, pending: seq<Call>, known: seq<string>)
    requires SubsetIds(ResultIds(ms), known) && DistinctPerMessage(ms) && Distinct(Ids(pending))
    ensures Scan(ms, pending, known) == [] <==> Prefix(ms, multiset(Ids(pending)))
    decreases |ms|
  {
    if ms != [] {
      assert ms[0] in ms && forall m | m in ms[1..] :: m in ms;
      assert pending != [] ==> Ids(pending)[0] in Ids(pending);
      assert |multiset(Ids(pending))| == |pending|;
      match ms[0]
      case ToolResult(id, _, _, _, _) =>
        assert ResultIds(ms) == [id] + ResultIds(ms[1..]);
        if id in Ids(pending) {
          DeleteFacts(pending, id);
          ScanIsPrefix(ms[1..], DeletePending(pending, id), known);
        }
      case _ =>
        var calls := Calls(ms[0]);
        assert ResultIds(ms) == ResultIds(ms[1..]);
        if pending == [] {
          assert [] + calls == calls;
          SetAllAppends([], calls);
          ScanIsPrefix(ms[1..], calls, known);
        }
    }
  }

  lemma {:induction false} DistinctParts(ms: seq<Message>)
    requires Distinct(Ids(AllCalls(ms)))
    ensures DistinctPerMessage(ms)
  {
    if ms != [] {
      var a, b := Calls(ms[0]), AllCalls(ms[1..]);
      IdsConcat(a, b);
      DistinctConcat(Ids(a), Ids(b));
      DistinctParts(ms[1..]);
      assert ms == [ms[0]] + ms[1..];
    }
  }

  ghost predicate OnlyMissing(ms: seq<Message>) {
    AllOfKind(Issues(ms), MissingResult)
  }

  // Balanced accounting: an accepted prefix answers only calls it made, each once.
  lemma {:induction false} PrefixAccounting(ms: seq<Message>)
    requires Prefix(ms, multiset{}) && Distinct(Ids(AllCalls(ms)))
    ensures Distinct(ResultIds(ms)) && SubsetIds(ResultIds(ms), Ids(AllCalls(ms)))
    ensures forall id :: id in StillOpen(ms, multiset{}) <==> id in Ids(AllCalls(ms)) && id !in ResultIds(ms)
    ensures AtMostOnce(StillOpen(ms, multiset{}))
  {
    var calls, results, open := Ids(AllCalls(ms)), ResultIds(ms), StillOpen(ms, multiset{});
    PrefixBalance(ms, multiset{});
    assert multiset(calls) == multiset(results) + open;
    SplitDistinct(calls, results, open);
  }

  // What holds the distinct calls together with the open ones holds each once.
  lemma SplitDistinct(calls: seq<string>, results: seq<string>, open: multiset<string>)
    requires Distinct(calls) && multiset(calls) == multiset(results) + open
    ensures Distinct(results) && SubsetIds(results, calls) && AtMostOnce(open)
    ensures forall id :: id in open <==> id in calls && id !in results
  {
    DistinctCounts(calls);
    DistinctCounts(results);
    forall id
      ensures multiset(results)[id] + open[id] == multiset(calls)[id] <= 1
      ensures id in results <==> id in multiset(results)
      ensures id in calls <==> id in multiset(calls)
    {
    }
  }

  // Nothing but missing results is reported exactly for the prefixes of valid transcripts.
  lemma {:induction false} OnlyMissingIff(ms: seq<Message>)
    ensures OnlyMissing(ms) <==> Distinct(Ids(AllCalls(ms))) && Prefix(ms, multiset{})
  {
    var known := Ids(AllCalls(ms));
    OnlyMissingParts(ms);
    CountIssuesKinds(ms);
    if Distinct(known) {
      DistinctParts(ms);
      if Prefix(ms, multiset{}) {
        PrefixAccounting(ms);
      }
      if SubsetIds(ResultIds(ms), known) {
        assert multiset(Ids([])) == multiset{};
        ScanIsPrefix(ms, [], known);
      }
    }
  }

  // The inspector reports nothing exactly for the valid transcripts.
  lemma {:induction false} InspectorExact(ms: seq<Message>)
    ensures Issues(ms) == [] <==> Valid(ms)
  {
    OnlyMissingIff(ms);
    BlocksAreComplete(ms);
    FirstIsMember(Issues(ms));
    if OnlyMissing(ms) {
      if Issues(ms) == [] {
        NoIssueNoneOpen(ms);
      } else if StillOpen(ms, multiset{}) == multiset{} {
        NoMissingNoIssue(ms);
      }
    }
  }

  lemma {:induction false} NoIssueNoneOpen(ms: seq<Message>)
    requires OnlyMissing(ms) && Issues(ms) == []
    ensures StillOpen(ms, multiset{}) == multiset{}
  {
    OnlyMissingIff(ms);
    NoOpenNoneMissing(ms);
    assert CountIssues(ms) == [];
    assert forall id :: !ReportsMissing(CountIssues(ms), id);
    assert forall id :: id !in StillOpen(ms, multiset{});
  }

  lemma {:induction false} NoneMissing(issues: seq<Issue>)
    requires AllOfKind(issues, MissingResult)
    requires forall id :: !ReportsMissing(issues, id)
    ensures issues == []
  {
    FirstIsMember(issues);
    assert issues == [] || !ReportsMissing(issues, issues[0].toolCallId);
  }

  lemma {:induction false} NoMissingNoIssue(ms: seq<Message>)
    requires OnlyMissing(ms) && StillOpen(ms, multiset{}) == multiset{}
    ensures Issues(ms) == []
  {
    OnlyMissingIff(ms);
    OnlyMissingParts(ms);
    NoOpenNoneMissing(ms);
    NoneMissing(CountIssues(ms));
  }

  lemma {:induction false} OnlyMissingParts(ms: seq<Message>)
    ensures OnlyMissing(ms) <==> AllOfKind(CountIssues(ms), MissingResult) && Scan(ms, [], Ids(AllCalls(ms))) == []
  {
    var counts, scan := CountIssues(ms), Scan(ms, [], Ids(AllCalls(ms)));
    ScanKind(ms, [], Ids(AllCalls(ms)));
    FirstIsMember(scan);
    assert forall i :: i in counts + scan <==> i in counts || i in scan;
  }

  // The ids reported missing are exactly the ids still open at the end.
  lemma {:induction false} NoOpenNoneMissing(ms: seq<Message>)
    requires Distinct(Ids(AllCalls(ms))) && Prefix(ms, multiset{})
    ensures forall id :: ReportsMissing(CountIssues(ms), id)
                         <==> id in StillOpen(ms, multiset{})
  {
    PrefixAccounting(ms);
    CountIssuesKinds(ms);
  }
}
