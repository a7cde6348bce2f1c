/** The inspector's loops (packages/agent/src/tool-transcript-integrity.ts:77-171). */
module Inspector {
  import opened Sequences
  import opened Wrappers
  import opened Transcript

  // A JavaScript Map from id to count: keys keep the order of their first insertion.
  class IdCounter {
    var order: seq<string>
    var count: map<string, nat>

    constructor ()
      ensures Holds([])
    {
      order, count := [], map[];
    }

    // The counter has seen exactly `ids`.
    ghost predicate Holds(ids: seq<string>)
      reads this
    {
      && order == FirstSeen(ids)
      && (forall id :: id in count <==> id in ids)
      && forall id | id in count :: count[id] == multiset(ids)[id]
    }

    method Bump(id: string, ghost ids: seq<string>)
      requires Holds(ids)
      modifies this
      ensures Holds(ids + [id])
    {
      FirstSeenMembers(ids);
      assert (ids + [id])[..|ids|] == ids;
      if id in count {
        count := count[id := count[id] + 1];
      } else {
        assert multiset(ids)[id] == 0;
        count := count[id := 1];
        order := order + [id];
      }
    }
  }

  lemma {:induction false} NameOfConcat(a: seq<Call>, b: seq<Call>, id: string)
    ensures NameOf(a + b, id) == if id in Ids(a) then NameOf(a, id) else NameOf(b, id)
    ensures NameOf(a, id).Some? <==> id in Ids(a)
  {
    if a == [] {
      assert a + b == b;
    } else {
      assert (a + b)[1..] == a[1..] + b;
      NameOfConcat(a[1..], b, id);
      IdsHead(a);
    }
  }

  ghost predicate NamesOf(names: map<string, string>, calls: seq<Call>) {
    && (forall id :: id in names <==> id in Ids(calls))
    && forall id | id in names :: NameOf(calls, id) == Some(names[id])
  }

  lemma {:induction false} NamesGrow(names: map<string, string>, calls: seq<Call>, call: Call)
    requires NamesOf(names, calls)
    ensures NamesOf(if call.id in names then names else names[call.id := call.name], calls + [call])
  {
    IdsConcat(calls, [call]);
    forall id
      ensures NameOf(calls + [call], id) == if id in Ids(calls) then NameOf(calls, id) else NameOf([call], id)
    {
      NameOfConcat(calls, [call], id);
    }
  }

  lemma {:induction false} ContentCallsSnoc(content: seq<Block>, b: Block)
    ensures ContentCalls(content + [b]) == ContentCalls(content) + (if b.ToolCall? then [Call(b.id, b.name)] else [])
  {
    if content == [] {
      assert content + [b] == [b];
    } else {
      assert (content + [b])[1..] == content[1..] + [b];
      ContentCallsSnoc(content[1..], b);
    }
  }

  // Counts one assistant message's calls and remembers each id's first name.
  method CountCalls(content: seq<Block>, counter: IdCounter, names: map<string, string>, ghost before: seq<Call>)
    returns (r: map<string, string>)
    requires counter.Holds(Ids(before)) && NamesOf(names, before)
    modifies counter
    ensures counter.Holds(Ids(before + ContentCalls(content))) && NamesOf(r, before + ContentCalls(content))
  {
    r := names;
    assert before + [] == before;
    for j := 0 to |content|
      invariant counter.Holds(Ids(before + ContentCalls(content[..j])))
      invariant NamesOf(r, before + ContentCalls(content[..j]))
    {
      ghost var seen := before + ContentCalls(content[..j]);
      assert content[..j + 1] == content[..j] + [content[j]];
      ContentCallsSnoc(content[..j], content[j]);
      match content[j] {
        case Text(_) =>
          assert before + (ContentCalls(content[..j]) + []) == seen;
        case ToolCall(id, name) =>
          ghost var call := Call(id, name);
          assert before + (ContentCalls(content[..j]) + [call]) == seen + [call];
          IdsConcat(seen, [call]);
          assert Ids([call]) == [id];
          NamesGrow(r, seen, call);
          counter.Bump(id, Ids(seen));
          if id !in r {
            r := r[id := name];
          }
      }
    }
    assert content[..|content|] == content;
  }

  // The first loop: how often each id is called and answered.
  method Account(ms: seq<Message>) returns (calls: IdCounter, results: IdCounter, names: map<string, string>)
    ensures calls.Holds(Ids(AllCalls(ms))) && NamesOf(names, AllCalls(ms)) && results.Holds(ResultIds(ms))
  {
    calls := new IdCounter();
    results := new IdCounter();
    names := map[];
    for i := 0 to |ms|
      invariant fresh(calls) && fresh(results) && calls != results
      invariant calls.Holds(Ids(AllCalls(ms[..i]))) && NamesOf(names, AllCalls(ms[..i]))
      invariant results.Holds(ResultIds(ms[..i]))
    {
      assert ms[..i + 1] == ms[..i] + [ms[i]];
      CallsConcat(ms[..i], [ms[i]]);
      OneMessage(ms[i]);
      match ms[i] {
        case Assistant(content, _) =>
          assert ResultIds(ms[..i]) + [] == ResultIds(ms[..i]);
          names := CountCalls(content, calls, names, AllCalls(ms[..i]));
        case ToolResult(id, _, _, _, _) =>
          assert AllCalls(ms[..i]) + [] == AllCalls(ms[..i]);
          results.Bump(id, ResultIds(ms[..i]));
        case Plain(_, _) =>
          assert AllCalls(ms[..i]) + [] == AllCalls(ms[..i]);
          assert ResultIds(ms[..i]) + [] == ResultIds(ms[..i]);
      }
    }
    assert ms[..|ms|] == ms;
  }

  lemma {:induction false} OneMessage(m: Message)
    ensures AllCalls([m]) == Calls(m)
    ensures ResultIds([m]) == if m.ToolResult? then [m.toolCallId] else []
  {
    assert [m][1..] == [];
    assert Calls(m) + [] == Calls(m);
  }

  // What a counter says about the ids it iterates over.
  ghost predicate CountsInOrder(order: seq<string>, count: map<string, nat>, ids: seq<string>) {
    forall k | 0 <= k < |order| :: order[k] in count && (count[order[k]] > 1 <==> Repeated(ids, order[k]))
  }

  ghost predicate NamesInOrder(order: seq<string>, names: map<string, string>, calls: seq<Call>) {
    forall k | 0 <= k < |order| :: order[k] in names && NameOf(calls, order[k]) == Some(names[order[k]])
  }

  lemma NothingBefore(issues: seq<Issue>)
    ensures [] + issues == issues
  {
  }

  // The reporting loops over the maps.
  method ReportDuplicateCalls(order: seq<string>, count: map<string, nat>, names: map<string, string>, ghost all: seq<Call>)
    returns (issues: seq<Issue>)
    requires CountsInOrder(order, count, Ids(all)) && NamesInOrder(order, names, all)
    ensures issues == DuplicateCallIssues(order, all)
  {
    issues := [];
    for k := 0 to |order|
      invariant issues + DuplicateCallIssues(order[k..], all) == DuplicateCallIssues(order, all)
    {
      DuplicateCallStep(order, k, count, names, all);
      ConcatAssoc(issues, [Issue(DuplicateCallId, order[k], Some(names[order[k]]))], DuplicateCallIssues(order[k + 1..], all));
      if count[order[k]] > 1 {
        issues := issues + [Issue(DuplicateCallId, order[k], Some(names[order[k]]))];
      }
    }
  }

  lemma {:induction false} DuplicateCallStep(order: seq<string>, k: nat, count: map<string, nat>, names: map<string, string>, all: seq<Call>)
    requires k < |order| && CountsInOrder(order, count, Ids(all)) && NamesInOrder(order, names, all)
    ensures DuplicateCallIssues(order[k..], all) ==
            var rest := DuplicateCallIssues(order[k + 1..], all);
            if count[order[k]] > 1 then [Issue(DuplicateCallId, order[k], Some(names[order[k]]))] + rest else rest
  {
    NothingBefore(DuplicateCallIssues(order[k + 1..], all));
    assert order[k..][1..] == order[k + 1..];
  }

  lemma {:induction false} DuplicateResultStep(order: seq<string>, k: nat, count: map<string, nat>, all: seq<string>)
    requires k < |order| && CountsInOrder(order, count, all)
    ensures DuplicateResultIssues(order[k..], all) ==
            var rest := DuplicateResultIssues(order[k + 1..], all);
            if count[order[k]] > 1 then [Issue(DuplicateResult, order[k], None)] + rest else rest
  {
    NothingBefore(DuplicateResultIssues(order[k + 1..], all));
    assert order[k..][1..] == order[k + 1..];
  }

  method ReportDuplicateResults(order: seq<string>, count: map<string, nat>, ghost all: seq<string>) returns (issues: seq<Issue>)
    requires CountsInOrder(order, count, all)
    ensures issues == DuplicateResultIssues(order, all)
  {
    issues := [];
    for k := 0 to |order|
      invariant issues + DuplicateResultIssues(order[k..], all) == DuplicateResultIssues(order, all)
    {
      DuplicateResultStep(order, k, count, all);
      ConcatAssoc(issues, [Issue(DuplicateResult, order[k], None)], DuplicateResultIssues(order[k + 1..], all));
      if count[order[k]] > 1 {
        issues := issues + [Issue(DuplicateResult, order[k], None)];
      }
    }
  }

  lemma OrphanStep(order: seq<string>, k: nat, calls: seq<Call>)
    requires k < |order|
    ensures OrphanIssues(order[k..], calls) ==
            var rest := OrphanIssues(order[k + 1..], calls);
            if order[k] !in Ids(calls) then [Issue(OrphanResult, order[k], None)] + rest else rest
  {
    NothingBefore(OrphanIssues(order[k + 1..], calls));
    assert order[k..][1..] == order[k + 1..];
  }

  method ReportOrphans(order: seq<string>, calls: map<string, nat>, ghost all: seq<Call>) returns (issues: seq<Issue>)
    requires forall id :: id in calls <==> id in Ids(all)
    ensures issues == OrphanIssues(order, all)
  {
    issues := [];
    for k := 0 to |order|
      invariant issues + OrphanIssues(order[k..], all) == OrphanIssues(order, all)
    {
      OrphanStep(order, k, all);
      ConcatAssoc(issues, [Issue(OrphanResult, order[k], None)], OrphanIssues(order[k + 1..], all));
      if order[k] !in calls {
        issues := issues + [Issue(OrphanResult, order[k], None)];
      }
    }
  }

  lemma MissingStep(order: seq<string>, k: nat, names: map<string, string>, calls: seq<Call>, answered: seq<string>)
    requires k < |order| && NamesInOrder(order, names, calls)
    ensures MissingIssues(order[k..], calls, answered) ==
            var rest := MissingIssues(order[k + 1..], calls, answered);
            if order[k] !in answered then [Issue(MissingResult, order[k], Some(names[order[k]]))] + rest else rest
  {
    NothingBefore(MissingIssues(order[k + 1..], calls, answered));
    assert order[k..][1..] == order[k + 1..];
  }

  method ReportMissing(order: seq<string>, results: map<string, nat>, names: map<string, string>,
                       ghost all: seq<Call>, ghost answered: seq<string>) returns (issues: seq<Issue>)
    requires NamesInOrder(order, names, all) && forall id :: id in results <==> id in answered
    ensures issues == MissingIssues(order, all, answered)
  {
    issues := [];
    for k := 0 to |order|
      invariant issues + MissingIssues(order[k..], all, answered) == MissingIssues(order, all, answered)
    {
      MissingStep(order, k, names, all, answered);
      ConcatAssoc(issues, [Issue(MissingResult, order[k], Some(names[order[k]]))], MissingIssues(order[k + 1..], all, answered));
      if order[k] !in results {
        issues := issues + [Issue(MissingResult, order[k], Some(names[order[k]]))];
      }
    }
  }

  lemma {:induction false} HoldsInOrder(counter: IdCounter, ids: seq<string>)
    requires counter.Holds(ids)
    ensures CountsInOrder(counter.order, counter.count, ids)
    ensures forall k | 0 <= k < |counter.order| :: counter.order[k] in ids
  {
    FirstSeenMembers(ids);
    forall k | 0 <= k < |counter.order|
      ensures counter.order[k] in ids
    {
      assert counter.order[k] in FirstSeen(ids);
    }
  }

  // The ordering pass with its pending Map, its region flag and its early breaks.
  method ScanOrder(ms: seq<Message>, calls: IdCounter) returns (issues: seq<Issue>)
    requires calls.Holds(Ids(AllCalls(ms)))
    ensures issues == Scan(ms, [], Ids(AllCalls(ms)))
  {
    ghost var known := Ids(AllCalls(ms));
    var pending: seq<Call> := [];
    var resultsRegion := false;
    for i := 0 to |ms|
      invariant resultsRegion <==> pending != []
      invariant Scan(ms[i..], pending, known) == Scan(ms, [], known)
    {
      assert ms[i..][1..] == ms[i + 1..];
      match ms[i] {
        case Assistant(content, _) =>
          var emitted := ContentCalls(content);
          if |emitted| > 0 {
            if |pending| > 0 {
              return Interleaved(pending);
            }
            SetAllNonEmpty(pending, emitted);
            pending := SetAllPending(pending, emitted);
            resultsRegion := true;
          } else if resultsRegion && |pending| > 0 {
            return Interleaved(pending);
          }
        case ToolResult(id, _, _, _, _) =>
          if resultsRegion && id in Ids(pending) {
            pending := DeletePending(pending, id);
            if |pending| == 0 {
              resultsRegion := false;
            }
          } else if id in calls.count {
            return [Issue(InterleavedNonResult, id, None)];
          }
        case Plain(_, _) =>
          if resultsRegion && |pending| > 0 {
            return Interleaved(pending);
          }
      }
    }
    assert ms[|ms|..] == [];
    return [];
  }

  lemma {:induction false} SetAllNonEmpty(pending: seq<Call>, calls: seq<Call>)
    requires pending != [] || calls != []
    ensures SetAllPending(pending, calls) != []
    decreases |calls|
  {
    if calls != [] {
      SetAllNonEmpty(SetPending(pending, calls[0]), calls[1..]);
    }
  }

  // inspectTranscriptIntegrity: ok exactly for the valid transcripts.
  method InspectTranscriptIntegrity(ms: seq<Message>) returns (ok: bool, issues: seq<Issue>)
    ensures issues == Issues(ms) && ok == (issues == [])
    ensures ok <==> Valid(ms)
  {
    var calls, results, names := Account(ms);
    HoldsInOrder(calls, Ids(AllCalls(ms)));
    HoldsInOrder(results, ResultIds(ms));
    var duplicateCalls := ReportDuplicateCalls(calls.order, calls.count, names, AllCalls(ms));
    var duplicateResults := ReportDuplicateResults(results.order, results.count, ResultIds(ms));
    var orphans := ReportOrphans(results.order, calls.count, AllCalls(ms));
    var missing := ReportMissing(calls.order, results.count, names, AllCalls(ms), ResultIds(ms));
    var ordering := ScanOrder(ms, calls);
    issues := duplicateCalls + duplicateResults + orphans + missing + ordering;
    ok := |issues| == 0;
    InspectorExact(ms);
  }
}
