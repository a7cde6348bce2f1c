/** The agent loop over whole runs (packages/agent/src/agent-loop.ts:317-598, 654-811).

    A run is driven by a script of turns: what the provider streams, how the environment answers
    the tool batch, and what the steering and follow-up queues hold. Every prefix of a run is the
    run of a shorter script. */
module AgentLoop {
  import opened Wrappers
  import opened DagScheduler
  import opened DagProperties
  import opened Waves
  import opened Transcript
  import opened Inspector
  import opened Repair
  import opened Executor
  import opened DagExecutor

  datatype StreamEvent = Started(partial: Message) | Updated(partial: Message)

  datatype Turn = Turn(
    events: seq<StreamEvent>,
    final: Message,
    batch: seq<Item>,
    steering: seq<Message>,
    followUps: seq<Message>,
    stopAfterTurn: bool)

  datatype Scheduler = DagV2 | WavesV1(options: Options, sequential: bool)

  datatype Config = Config(scheduler: Scheduler, cap: Cap, maxTurns: Option<nat>)

  // How a run ends: normally, by an invalid turn budget, by refusing a request or an emitted turn,
  // or with the script used up.
  datatype RunEnd = Ended | InvalidMaxTurns | RefusedRequest | RefusedTurn | StillRunning

  function CountStarts(events: seq<StreamEvent>): nat {
    if events == [] then 0 else (if events[0].Started? then 1 else 0) + CountStarts(events[1..])
  }

  ghost predicate AllPlain(ms: seq<Message>) {
    forall m | m in ms :: m.Plain?
  }

  // A provider answers with an assistant message, starts it at most once, and the environment
  // answers exactly its calls; the queues hold user messages.
  ghost predicate WellFormedTurn(turn: Turn) {
    && turn.final.Assistant? && ItemCalls(turn.batch) == Calls(turn.final)
    && CountStarts(turn.events) <= 1 && AllPlain(turn.steering) && AllPlain(turn.followUps)
  }

  ghost predicate WellFormedScript(script: seq<Turn>) {
    forall t | 0 <= t < |script| :: WellFormedTurn(script[t])
  }

  // ----- Streaming one response

  // consumeAssistantStream: the partial message sits at the end of the transcript and is replaced
  // by the final one. A second start would leave the first partial behind.
  method ConsumeAssistantStream(run: Run, events: seq<StreamEvent>, final: Message)
    modifies run`context, run`ended
    ensures run.ended == old(run.ended) + [final]
    ensures |run.context| == |old(run.context)| + (if CountStarts(events) <= 1 then 1 else CountStarts(events))
    ensures run.context[..|old(run.context)|] == old(run.context) && run.context[|run.context| - 1] == final
    ensures CountStarts(events) <= 1 ==> run.context == old(run.context) + [final]
  {
    var addedPartial := false;
    for k := 0 to |events|
      invariant run.ended == old(run.ended)
      invariant |run.context| + CountStarts(events[k..]) == |old(run.context)| + CountStarts(events)
      invariant |run.context| >= |old(run.context)| && run.context[..|old(run.context)|] == old(run.context)
      invariant addedPartial <==> |run.context| > |old(run.context)|
    {
      assert events[k..][1..] == events[k + 1..];
      match events[k] {
        case Started(partial) =>
          run.context := run.context + [partial];
          addedPartial := true;
        case Updated(partial) =>
          if addedPartial {
            run.context := run.context[|run.context| - 1 := partial];
          }
      }
    }
    if addedPartial {
      run.context := run.context[|run.context| - 1 := final];
    } else {
      run.context := run.context + [final];
    }
    run.ended := run.ended + [final];
    assert CountStarts(events) <= 1 ==> run.context == run.context[..|old(run.context)|] + [final];
  }

  // ----- Steps that keep the transcript valid

  lemma {:induction false} PlainTurns(ms: seq<Message>, more: seq<Message>)
    requires AllPlain(more)
    ensures Valid(ms + more) <==> Valid(ms)
    decreases |more|
  {
    if more == [] {
      assert ms + more == ms;
    } else {
      assert more[0] in more && forall m | m in more[1..] :: m in more;
      PlainKeeps(ms, more[0]);
      PlainTurns(ms + [more[0]], more[1..]);
      assert ms + more == ms + [more[0]] + more[1..];
    }
  }

  lemma {:induction false} PlainKeeps(ms: seq<Message>, m: Message)
    requires m.Plain?
    ensures Valid(ms + [m]) <==> Valid(ms)
  {
    BlocksAreComplete(ms);
    BlocksAreComplete(ms + [m]);
    PrefixConcat(ms, [m], multiset{});
    CallsConcat(ms, [m]);
    OneMessage(m);
    assert AllCalls(ms) + [] == AllCalls(ms);
    assert [m][1..] == [] && multiset(Ids(Calls(m))) == multiset{};
  }

  // An unambiguous assistant message followed by one result per call, in call order.
  lemma {:induction false} TurnCloses(ms: seq<Message>, final: Message, results: seq<Message>)
    requires Valid(ms) && final.Assistant? && OnlyMissing(ms + [final])
    requires Answers(results, Calls(final)) && |results| == |Calls(final)|
    ensures Valid(ms + [final] + results)
  {
    BlocksAreComplete(ms);
    OnlyMissingIff(ms + [final]);
    PrefixConcat(ms, [final], multiset{});
    assert [final][1..] == [];
    AnswerIds(results, Calls(final));
    AppendResults(ms + [final], results);
  }

  lemma {:induction false} AnswerIds(results: seq<Message>, calls: seq<Call>)
    requires Answers(results, calls) && |results| == |calls|
    ensures AllResults(results) && ResultIds(results) == Ids(calls)
    decreases |calls|
  {
    AnswersAreResults(results, calls);
    if calls != [] {
      AnswersTail(results, calls);
      AnswerIds(results[1..], calls[1..]);
      IdsHead(calls);
    }
  }

  lemma AnswersAreResults(results: seq<Message>, calls: seq<Call>)
    requires Answers(results, calls)
    ensures AllResults(results)
  {
  }

  lemma AnswersTail(results: seq<Message>, calls: seq<Call>)
    requires Answers(results, calls) && results != []
    ensures Answers(results[1..], calls[1..])
  {
  }

  lemma {:induction false} EmittedDistinct(ms: seq<Message>, final: Message)
    requires OnlyMissing(ms + [final])
    ensures Distinct(Ids(Calls(final)))
  {
    OnlyMissingIff(ms + [final]);
    CallsConcat(ms, [final]);
    OneMessage(final);
    IdsConcat(AllCalls(ms), Calls(final));
    DistinctConcat(Ids(AllCalls(ms)), Ids(Calls(final)));
  }

  // ----- The parts of a turn

  method InjectPendingMessages(run: Run, pending: seq<Message>)
    modifies run
    ensures run.context == old(run.context) + pending
    ensures run.newMessages == old(run.newMessages) + pending
    ensures run.ended == old(run.ended) + pending
  {
    for k := 0 to |pending|
      invariant run.context == old(run.context) + pending[..k]
      invariant run.newMessages == old(run.newMessages) + pending[..k]
      invariant run.ended == old(run.ended) + pending[..k]
    {
      assert pending[..k + 1] == pending[..k] + [pending[k]];
      run.Push(pending[k]);
      run.newMessages := run.newMessages + [pending[k]];
    }
    assert pending[..|pending|] == pending;
  }

  method PushNew(run: Run, m: Message)
    modifies run
    ensures RecordsOf(run) == Grow(old(RecordsOf(run)), [m])
  {
    run.Push(m);
    run.newMessages := run.newMessages + [m];
  }

  lemma AnswerAdded(results: seq<Message>, calls: seq<Call>, reason: string, disposition: Disposition)
    requires Answers(results, calls) && |results| < |calls|
    ensures Answers(results + [SyntheticResult(calls[|results|], reason, disposition)], calls)
  {
  }

  const AFTER_PROVIDER_STOP := "Skipped because the provider terminated before tool execution"

  // closeRunOnTerminalStop: one synthetic result per emitted call.
  method CloseRunOnTerminalStop(run: Run, calls: seq<Call>, aborted: bool) returns (results: seq<Message>)
    modifies run
    ensures Answers(results, calls) && |results| == |calls|
    ensures if aborted then ClosesAll(results, calls, OPERATION_ABORTED, Aborted) else ClosesAll(results, calls, AFTER_PROVIDER_STOP, Skipped)
    ensures RecordsOf(run) == Grow(old(RecordsOf(run)), results)
  {
    var reason := if aborted then OPERATION_ABORTED else AFTER_PROVIDER_STOP;
    var disposition := if aborted then Aborted else Skipped;
    results := [];
    for k := 0 to |calls|
      invariant |results| == k && Answers(results, calls) && ClosesAll(results, calls[..k], reason, disposition)
      invariant RecordsOf(run) == Grow(old(RecordsOf(run)), results)
    {
      var result := SyntheticResult(calls[k], reason, disposition);
      AnswerAdded(results, calls, reason, disposition);
      GrowTwice(old(RecordsOf(run)), results, [result]);
      PushNew(run, result);
      results := results + [result];
    }
    assert calls[..|calls|] == calls;
  }

  // Every message is its call's own result or closes a call that did not run.
  ghost predicate OwnOrClosed(messages: seq<Message>, items: seq<Item>) {
    && |messages| <= |items|
    && forall i | 0 <= i < |messages| ::
         OwnResult(messages[i], items[i]) || IsClosing(messages[i], items[i].call)
  }

  // Calls started together never clash under their emitted arguments.
  ghost predicate ClearGroups(kinds: seq<Kind>, groups: seq<seq<nat>>) {
    forall g | g in groups :: Allowed(kinds, g)
  }

  // Part of a wave is allowed when the wave is.
  lemma {:induction false} GroupOfWave(kinds: seq<Kind>, wave: seq<nat>, g: seq<nat>)
    requires Allowed(kinds, wave) && Ascending(g) && forall x | x in g :: x in wave
    ensures Allowed(kinds, g)
  {
    forall i | 0 <= i < |g|
      ensures g[i] < |kinds|
    {
      assert g[i] in g && g[i] in wave;
    }
    forall i, j | 0 <= i < j < |g|
      ensures !Clash(kinds[g[i]], kinds[g[j]])
    {
      assert g[i] in wave && g[j] in wave;
      var p :| 0 <= p < |wave| && wave[p] == g[i];
      var q :| 0 <= q < |wave| && wave[q] == g[j];
      ClashSymmetric(kinds[g[i]], kinds[g[j]]);
    }
  }

  lemma {:induction false} AscendingPieces(groups: seq<seq<nat>>, a: nat)
    requires Ascending(Concat(groups)) && a < |groups|
    ensures Ascending(groups[a])
  {
    forall i, j | 0 <= i < j < |groups[a]|
      ensures groups[a][i] < groups[a][j]
    {
      ConcatPosition(groups, a, i);
      ConcatPosition(groups, a, j);
    }
  }

  lemma {:induction false} WaveGroupsClear(kinds: seq<Kind>, items: seq<Item>, waves: seq<seq<nat>>, groups: seq<seq<nat>>, ran: nat)
    requires |kinds| == |items| && AllAllowed(kinds, waves) && WaveLog(groups, items, waves, ran)
    ensures ClearGroups(kinds, groups)
  {
    StartedInFacts(items, 0, ran);
    forall g | g in groups
      ensures Allowed(kinds, g)
    {
      var a :| 0 <= a < |groups| && groups[a] == g;
      AscendingPieces(groups, a);
      var w :| 0 <= w < |waves| && forall x | x in g :: x in waves[w];
      GroupOfWave(kinds, waves[w], g);
    }
  }

  // Calls started alone, or all of them out of a single wave, are logged inside the waves.
  lemma {:induction false} LogInWaves(items: seq<Item>, waves: seq<seq<nat>>, groups: seq<seq<nat>>, ran: nat)
    requires Partition(waves, |items|) && LogsExactly(groups, items, 0, ran)
    requires UnsettledLast(items, groups) && (|waves| == 1 || forall g | g in groups :: |g| == 1)
    ensures WaveLog(groups, items, waves, ran)
  {
    GroupsWithin(groups, items, 0, ran);
    forall g | g in groups
      ensures exists w | 0 <= w < |waves| :: forall x | x in g :: x in waves[w]
    {
      if |waves| == 1 {
        EndStep(waves, |items|, 0);
        assert waves[..0] == [] && waves[..1] == waves;
        forall x | x in g
          ensures x in waves[0]
        {
          assert waves[0][x] == x;
        }
      } else {
        assert |g| == 1 && g[0] in g;
        assert Range(0, |items|)[g[0]] == g[0];
        var w := MemberOfConcat(waves, g[0]);
        assert forall x | x in g :: x in waves[w];
      }
    }
  }

  // What a batch starts on the waves-v1 paths: exactly the calls that ran and can start, in source
  // order, and together only calls that do not clash under their emitted arguments.
  ghost predicate WavesV1Log(items: seq<Item>, options: Options, ran: nat, groups: seq<seq<nat>>) {
    LogsExactly(groups, items, 0, ran) && ClearGroups(Kinds(Shapes(items), options), groups)
  }

  function Shapes(items: seq<Item>): (r: seq<ToolCallShape>)
    ensures |r| == |items| && forall i | 0 <= i < |items| :: r[i] == items[i].shape
  {
    seq(|items|, i requires 0 <= i < |items| => items[i].shape)
  }

  // Whether the scheduler runs the calls one by one: it is told to, or every wave is a single call.
  ghost predicate OneByOne(sequential: bool, waves: seq<seq<nat>>) {
    sequential || forall w | w in waves :: |w| == 1
  }

  // Why a batch on the waves-v1 paths stopped where it did: an unsettled timeout comes last and stops
  // the run, and termination is what all calls that ran ask for, or all of the wave that ran last.
  ghost predicate WavesV1Stops(items: seq<Item>, sequential: bool, waves: seq<seq<nat>>, w: nat, messages: seq<Message>, ran: nat,
                               groups: seq<seq<nat>>, terminate: bool, stopRun: bool) {
    && ran <= |items| && UnsettledLast(items, groups) && (stopRun <==> LogUnsettled(items, groups))
    && if OneByOne(sequential, waves) then
         && Flags(items[..ran], terminate, stopRun) && (!stopRun ==> ran == |messages|)
         && RanThenSkipped(messages, items, ran, AFTER_UNSETTLED_TOOL)
       else if |waves| == 1 then
         Flags(items[..ran], terminate, stopRun) && ran == |messages| && AllOwn(messages, items)
       else WavesRun(items, waves, w, messages, ran, terminate, stopRun)
  }

  // The waves a batch is cut into before the cap.
  ghost predicate GreedyPartition(items: seq<Item>, options: Options, partition: seq<seq<nat>>) {
    var kinds := Kinds(Shapes(items), options);
    Partition(partition, |items|) && AllAllowed(kinds, partition) && Greedy(kinds, partition)
  }

  // What a batch executed and started, what it asks of the run, whether the abort was seen by its
  // end, and how its scheduler got there.
  datatype BatchReport =
    | DagReport(executed: seq<Message>, groups: seq<seq<nat>>, terminate: bool, stopRun: bool, aborted: bool,
                levels: seq<seq<nat>>, stage: seq<nat>, reached: nat)
    | WavesReport(executed: seq<Message>, groups: seq<seq<nat>>, terminate: bool, stopRun: bool, aborted: bool,
                  partition: seq<seq<nat>>, w: nat, ran: nat)

  // The report is one the configured scheduler can give.
  ghost predicate BatchRan(config: Config, items: seq<Item>, r: BatchReport) {
    match config.scheduler
    case DagV2 =>
      && r.DagReport? && DagLog(items, r.executed, r.levels, r.stage, r.groups)
      && (r.levels in Candidates(items, config.cap) || (r.groups == [] && r.aborted))
      && OwnOrDagClosed(items, r.executed, r.terminate, r.stopRun, r.aborted)
      && DagStops(items, OwnResults(items, r.executed), r.levels, r.groups, r.reached, r.terminate, r.stopRun, r.aborted)
    case WavesV1(options, sequential) =>
      && r.WavesReport? && WavesV1Log(items, options, r.ran, r.groups) && GreedyPartition(items, options, r.partition)
      && WavesV1Stops(items, sequential, CapLevels(r.partition, config.cap), r.w, r.executed, r.ran, r.groups, r.terminate, r.stopRun)
  }

  // An abort seen later leaves a report as it is.
  lemma SeenLater(config: Config, items: seq<Item>, r: BatchReport, aborted: bool)
    requires BatchRan(config, items, r) && (r.aborted ==> aborted)
    ensures BatchRan(config, items, r.(aborted := aborted))
  {
  }

  // Unless the abort was seen, a call left running is what the batch stops the run for.
  lemma StopsIffUnsettled(config: Config, items: seq<Item>, r: BatchReport)
    requires BatchRan(config, items, r) && !r.aborted
    ensures r.stopRun <==> LogUnsettled(items, r.groups)
  {
  }

  lemma AloneStops(items: seq<Item>, sequential: bool, waves: seq<seq<nat>>, messages: seq<Message>, ran: nat, groups: seq<seq<nat>>,
                   terminate: bool, stopRun: bool)
    requires OneByOne(sequential, waves) && RanAlone(items, 0, messages, ran, stopRun, groups)
    requires terminate <==> stopRun || AllAskToEnd(items[..ran])
    ensures WavesV1Stops(items, sequential, waves, 0, messages, ran, groups, terminate, stopRun)
  {
    LogsUnsettled(groups, items, ran);
    AloneUnsettledLast(groups, items, ran);
  }

  lemma TogetherStops(items: seq<Item>, sequential: bool, waves: seq<seq<nat>>, messages: seq<Message>, groups: seq<seq<nat>>,
                      terminate: bool, stopRun: bool)
    requires !OneByOne(sequential, waves) && AllOwn(messages, items)
    requires |waves| == |groups| == 1 && LogsExactly(groups, items, 0, |messages|) && Flags(items[..|messages|], terminate, stopRun)
    ensures WavesV1Stops(items, sequential, waves, 0, messages, |messages|, groups, terminate, stopRun)
  {
    LogsUnsettled(groups, items, |messages|);
  }

  lemma InWavesStops(items: seq<Item>, sequential: bool, waves: seq<seq<nat>>, w: nat, messages: seq<Message>, ran: nat,
                     groups: seq<seq<nat>>, terminate: bool, stopRun: bool)
    requires !OneByOne(sequential, waves) && |waves| != 1
    requires WavesRun(items, waves, w, messages, ran, terminate, stopRun) && WaveLog(groups, items, waves, ran)
    ensures WavesV1Stops(items, sequential, waves, w, messages, ran, groups, terminate, stopRun)
  {
    LogsUnsettled(groups, items, ran);
  }

  lemma StopsAnswer(items: seq<Item>, sequential: bool, waves: seq<seq<nat>>, w: nat, messages: seq<Message>, ran: nat,
                    groups: seq<seq<nat>>, terminate: bool, stopRun: bool)
    requires WavesV1Stops(items, sequential, waves, w, messages, ran, groups, terminate, stopRun)
    ensures Answers(messages, ItemCalls(items)) && OwnOrClosed(messages, items)
  {
  }

  lemma DagOwnOrClosed(items: seq<Item>, messages: seq<Message>, terminate: bool, stopRun: bool, aborted: bool)
    requires OwnOrDagClosed(items, messages, terminate, stopRun, aborted)
    ensures OwnOrClosed(messages, items)
  {
  }

  // The waves-v1 scheduler: alone, all at the same time, or wave by wave.
  method ExecuteToolCallsV1(run: Run, items: seq<Item>, options: Options, sequential: bool, cap: Cap, signal: AbortSignal)
    returns (messages: seq<Message>, terminate: bool, stopRun: bool, ghost ran: nat, ghost partition: seq<seq<nat>>, ghost w: nat,
             ghost groups: seq<seq<nat>>)
    requires Distinct(Ids(ItemCalls(items)))
    modifies run`context, run`ended, run`started, run`startedAt, signal
    ensures Grown(run, old(run.context), old(run.ended), messages)
    ensures run.started == old(run.started) + groups && WavesV1Log(items, options, ran, groups)
    ensures GreedyPartition(items, options, partition)
    ensures WavesV1Stops(items, sequential, CapLevels(partition, cap), w, messages, ran, groups, terminate, stopRun)
    ensures |messages| == |items| || signal.Fired()
    ensures old(signal.clock) <= signal.clock
  {
    var waves := PartitionToolBatchWaves(Shapes(items), options);
    ghost var kinds := Kinds(Shapes(items), options);
    CappedWaves(kinds, waves, cap, |items|);
    var batchWaves := ApplyConcurrencyCap(waves, cap);
    partition, w := waves, 0;
    if sequential || forall w | w in batchWaves :: |w| == 1 {
      messages, terminate, stopRun, ran, groups := ExecuteToolCallsSequential(run, items, 0, signal);
      AloneStops(items, sequential, batchWaves, messages, ran, groups, terminate, stopRun);
      LogInWaves(items, batchWaves, groups, ran);
    } else if |batchWaves| == 1 {
      messages, terminate, stopRun, groups := ExecuteToolCallsParallel(run, items, 0, signal);
      ran := |messages|;
      TogetherStops(items, sequential, batchWaves, messages, groups, terminate, stopRun);
      LogInWaves(items, batchWaves, groups, ran);
    } else {
      messages, terminate, stopRun, ran, w, groups := ExecuteToolCallsInWaves(run, items, batchWaves, signal);
      InWavesStops(items, sequential, batchWaves, w, messages, ran, groups, terminate, stopRun);
    }
    WaveGroupsClear(kinds, items, batchWaves, groups, ran);
  }

  // executeToolCalls: the configured executor, what it logs as started and why it stopped.
  method ExecuteToolCalls(run: Run, items: seq<Item>, config: Config, signal: AbortSignal)
    returns (messages: seq<Message>, terminate: bool, stopRun: bool, ghost report: BatchReport)
    requires Distinct(Ids(ItemCalls(items)))
    modifies run`context, run`ended, run`started, run`startedAt, signal
    ensures run.context == old(run.context) + messages && run.ended == old(run.ended) + messages
    ensures Answers(messages, ItemCalls(items)) && OwnOrClosed(messages, items)
    ensures run.started == old(run.started) + report.groups && BatchRan(config, items, report)
    ensures report.executed == messages && report.terminate == terminate && report.stopRun == stopRun && report.aborted == signal.Fired()
    ensures |messages| == |items| || signal.Fired()
    ensures old(signal.clock) <= signal.clock
  {
    match config.scheduler {
      case DagV2 =>
        ghost var levels, stage, groups, reached, times;
        messages, terminate, stopRun, levels, stage, groups, reached, times := ExecuteToolCallsDagLevels(run, items, config.cap, signal);
        DagOwnOrClosed(items, messages, terminate, stopRun, signal.Fired());
        report := DagReport(messages, groups, terminate, stopRun, signal.Fired(), levels, stage, reached);
      case WavesV1(options, sequential) =>
        ghost var ran, partition, w, groups;
        messages, terminate, stopRun, ran, partition, w, groups :=
          ExecuteToolCallsV1(run, items, options, sequential, config.cap, signal);
        StopsAnswer(items, sequential, CapLevels(partition, config.cap), w, messages, ran, groups, terminate, stopRun);
        report := WavesReport(messages, groups, terminate, stopRun, signal.Fired(), partition, w, ran);
    }
  }

  // After an abort, closes what the executor left unresolved.
  method CloseAborted(run: Run, calls: seq<Call>, messages: seq<Message>) returns (results: seq<Message>)
    requires Distinct(Ids(calls)) && Answers(messages, calls)
    modifies run`context, run`ended
    ensures messages <= results && Answers(results, calls) && |results| == |calls|
    ensures ClosedTail(messages, results, calls)
    ensures run.context == old(run.context) + results[|messages|..] && run.ended == old(run.ended) + results[|messages|..]
  {
    UnresolvedRest(calls, messages);
    AnswersExtend(messages, calls, OPERATION_ABORTED, Aborted);
    var synthesized := CloseUnresolvedToolBatch(run, calls, messages, OPERATION_ABORTED, Aborted);
    results := messages + synthesized;
    assert results[|messages|..] == synthesized;
  }

  // The results beyond the given ones close their calls as aborted.
  ghost predicate ClosedTail(messages: seq<Message>, results: seq<Message>, calls: seq<Call>) {
    && messages <= results && |results| == |calls|
    && forall i | |messages| <= i < |results| :: Closes(results[i], calls[i], OPERATION_ABORTED, Aborted)
  }

  lemma ClosedRest(messages: seq<Message>, results: seq<Message>, items: seq<Item>)
    requires OwnOrClosed(messages, items) && ClosedTail(messages, results, ItemCalls(items))
    ensures OwnOrClosed(results, items)
  {
    forall i | 0 <= i < |results|
      ensures OwnResult(results[i], items[i]) || IsClosing(results[i], items[i].call)
    {
      if i >= |messages| {
        assert Closes(results[i], ItemCalls(items)[i], OPERATION_ABORTED, Aborted);
      }
    }
  }

  // runToolBatchForTurn: every call of the batch ends up with exactly one result, in source order; the
  // run ends exactly when the abort has been seen, and otherwise does what the batch asks for.
  method RunToolBatchForTurn(run: Run, items: seq<Item>, config: Config, signal: AbortSignal)
    returns (results: seq<Message>, ended: bool, hasMoreToolCalls: bool, stopRun: bool, ghost report: BatchReport)
    requires Distinct(Ids(ItemCalls(items)))
    modifies run, signal
    ensures Answers(results, ItemCalls(items)) && |results| == |items| && OwnOrClosed(results, items)
    ensures ClosedTail(report.executed, results, ItemCalls(items)) && (report.executed == results || ended)
    ensures run.started == old(run.started) + report.groups && BatchRan(config, items, report)
    ensures RecordsOf(run) == Grow(old(RecordsOf(run)), results)
    ensures ended == report.aborted == signal.Fired() && hasMoreToolCalls == !report.terminate && stopRun == report.stopRun
    ensures old(signal.clock) < signal.clock
  {
    var calls := ItemCalls(items);
    var terminate;
    results, terminate, stopRun, report := ExecuteToolCalls(run, items, config, signal);
    var aborted := signal.Aborted();
    SeenLater(config, items, report, aborted);
    report := report.(aborted := aborted);
    if aborted {
      ghost var messages := results;
      results := CloseAborted(run, calls, results);
      ClosedRest(messages, results, items);
      ExtendAll(old(run.context), messages, results);
      ExtendAll(old(run.ended), messages, results);
    }
    run.newMessages := run.newMessages + results;
    ended, hasMoreToolCalls := aborted, !terminate;
  }

  // ----- The run

  // The three records of a run.
  datatype Records = Records(context: seq<Message>, newMessages: seq<Message>, ended: seq<Message>)

  ghost function RecordsOf(run: Run): Records
    reads run
  {
    Records(run.context, run.newMessages, run.ended)
  }

  // The records after each has grown by the same messages.
  ghost function Grow(r: Records, added: seq<Message>): Records {
    Records(r.context + added, r.newMessages + added, r.ended + added)
  }

  lemma GrowTwice(r: Records, a: seq<Message>, b: seq<Message>)
    ensures Grow(Grow(r, a), b) == Grow(r, a + b)
  {
    assert r.context + a + b == r.context + (a + b);
    assert r.newMessages + a + b == r.newMessages + (a + b);
    assert r.ended + a + b == r.ended + (a + b);
  }

  // Queued messages go in and the transcript is checked before the request.
  method OpenRequest(run: Run, pending: seq<Message>) returns (ok: bool)
    requires AllPlain(pending)
    modifies run
    ensures RecordsOf(run) == Grow(old(RecordsOf(run)), pending)
    ensures ok <==> Valid(old(run.context))
    ensures ok ==> Valid(run.context)
  {
    InjectPendingMessages(run, pending);
    PlainTurns(old(run.context), pending);
    var report, _ := InspectTranscriptIntegrity(run.context);
    ok := report;
  }

  // The response is committed, and the emitted turn is checked before any tool runs.
  method CommitResponse(run: Run, turn: Turn) returns (clean: bool)
    requires WellFormedTurn(turn)
    modifies run
    ensures RecordsOf(run) == Grow(old(RecordsOf(run)), [turn.final])
    ensures clean <==> OnlyMissing(run.context)
    ensures !clean ==> !Repairable(run.context)
  {
    ConsumeAssistantStream(run, turn.events, turn.final);
    run.newMessages := run.newMessages + [turn.final];
    var _, issues := InspectTranscriptIntegrity(run.context);
    var other := FirstOtherIssue(issues);
    RepairableIff(run.context);
    clean := other.None?;
  }

  // A provider that stopped with an error or an abort.
  predicate ProviderStopped(turn: Turn) {
    turn.final.Assistant? && (turn.final.stop == StopError || turn.final.stop == StopAborted)
  }

  // What a turn added around the provider's message, how its batch went if one ran, and how often the
  // abort signal had been read by its end.
  datatype Step = Step(pending: seq<Message>, results: seq<Message>, report: Option<BatchReport>, clock: nat)

  // The batch of the turn asks for another request.
  predicate MoreTools(step: Step) {
    step.report.Some? && !step.report.value.terminate
  }

  // The turn's batch saw the abort or left a call running.
  predicate BatchEnds(step: Step) {
    step.report.Some? && (step.report.value.aborted || step.report.value.stopRun)
  }

  // A step of the turn: one result per call, in order; a batch exactly when the turn has calls and its
  // provider did not stop, which the configured scheduler can have run and which saw the abort exactly
  // when it has happened by then.
  ghost predicate TurnStep(config: Config, abortAt: Option<nat>, turn: Turn, before: nat, step: Step) {
    && Answers(step.results, Calls(turn.final)) && |step.results| == |Calls(turn.final)|
    && (step.report.Some? <==> Calls(turn.final) != [] && !ProviderStopped(turn)) && before <= step.clock
    && (ProviderStopped(turn) ==> StoppedResults(turn.final, step.results))
    && (step.report.Some? ==> before < step.clock && Reported(config, abortAt, turn.batch, step.results, step.report.value, step.clock))
  }

  // A provider that stopped leaves every call closed, as it stopped.
  ghost predicate StoppedResults(final: Message, results: seq<Message>)
    requires final.Assistant?
  {
    if final.stop == StopAborted then ClosesAll(results, Calls(final), OPERATION_ABORTED, Aborted)
    else ClosesAll(results, Calls(final), AFTER_PROVIDER_STOP, Skipped)
  }

  // The steps a turn that begins at this reading of the clock can be.
  ghost function TurnSteps(config: Config, abortAt: Option<nat>, turn: Turn, before: nat): iset<Step> {
    iset step: Step | TurnStep(config, abortAt, turn, before, step)
  }

  ghost predicate Reported(config: Config, abortAt: Option<nat>, items: seq<Item>, results: seq<Message>, r: BatchReport, clock: nat) {
    && BatchRan(config, items, r) && (r.aborted <==> FiredAt(abortAt, clock))
    && ClosedTail(r.executed, results, ItemCalls(items)) && (r.executed == results || r.aborted)
  }

  // What the end of a turn says about the run.
  predicate TurnFlags(turn: Turn, step: Step, ended: bool, hasMoreToolCalls: bool, stopRun: bool) {
    && (ended <==> ProviderStopped(turn) || (step.report.Some? && step.report.value.aborted))
    && (stopRun <==> step.report.Some? && step.report.value.stopRun)
    && (hasMoreToolCalls <==> MoreTools(step))
  }

  // The tools of a committed turn, or its closure when the provider stopped with an error.
  method AnswerCalls(run: Run, turn: Turn, pending: seq<Message>, config: Config, signal: AbortSignal)
    returns (ended: bool, hasMoreToolCalls: bool, stopRun: bool, ghost step: Step)
    requires WellFormedTurn(turn) && Distinct(Ids(Calls(turn.final)))
    modifies run, signal
    ensures RecordsOf(run) == Grow(old(RecordsOf(run)), step.results) && step.pending == pending && step.clock == signal.clock
    ensures step in TurnSteps(config, signal.abortAt, turn, old(signal.clock)) && TurnFlags(turn, step, ended, hasMoreToolCalls, stopRun)
  {
    ended, hasMoreToolCalls, stopRun := false, false, false;
    step := Step(pending, [], None, signal.clock);
    var calls := Calls(turn.final);
    if turn.final.stop == StopError || turn.final.stop == StopAborted {
      var results := CloseRunOnTerminalStop(run, calls, turn.final.stop == StopAborted);
      ended := true;
      step := Step(pending, results, None, signal.clock);
    } else if |calls| > 0 {
      var results;
      ghost var report;
      results, ended, hasMoreToolCalls, stopRun, report := RunToolBatchForTurn(run, turn.batch, config, signal);
      step := Step(pending, results, Some(report), signal.clock);
    }
  }

  method AnswerTurn(run: Run, turn: Turn, pending: seq<Message>, config: Config, signal: AbortSignal, ghost before: seq<Message>)
    returns (ended: bool, hasMoreToolCalls: bool, stopRun: bool, ghost step: Step)
    requires WellFormedTurn(turn) && Valid(before)
    requires run.context == before + [turn.final] && OnlyMissing(before + [turn.final])
    modifies run, signal
    ensures RecordsOf(run) == Grow(old(RecordsOf(run)), step.results) && Valid(run.context)
    ensures step.pending == pending && step.clock == signal.clock
    ensures step in TurnSteps(config, signal.abortAt, turn, old(signal.clock)) && TurnFlags(turn, step, ended, hasMoreToolCalls, stopRun)
  {
    EmittedDistinct(before, turn.final);
    ended, hasMoreToolCalls, stopRun, step := AnswerCalls(run, turn, pending, config, signal);
    TurnCloses(before, turn.final, step.results);
  }

  // How far a turn got before its end was reached or something was refused: after the queued messages
  // and the provider's message comes exactly one result per call of it, in order.
  ghost predicate TurnResult(before: seq<Message>, after: seq<Message>, pending: seq<Message>, turn: Turn, end: RunEnd, results: seq<Message>) {
    match end
    case RefusedRequest => !Valid(before) && after == before + pending
    case RefusedTurn => Valid(before) && after == before + pending + [turn.final] && !Repairable(after)
    case InvalidMaxTurns => false
    case _ => Valid(before) && Valid(after) && after == before + pending + [turn.final] + results
  }

  // The same of the turn's step: how it went, and what its end says about the run.
  ghost predicate TurnEnd(config: Config, abortAt: Option<nat>, turn: Turn, before: nat, step: Step, end: RunEnd, hasMoreToolCalls: bool,
                          stopRun: bool) {
    end == Ended || end == StillRunning ==>
      step in TurnSteps(config, abortAt, turn, before) && TurnFlags(turn, step, end == Ended, hasMoreToolCalls, stopRun)
  }

  // One request and everything up to its turn_end.
  method RunTurn(run: Run, turn: Turn, pending: seq<Message>, config: Config, signal: AbortSignal)
    returns (end: RunEnd, hasMoreToolCalls: bool, stopRun: bool, ghost added: seq<Message>, ghost step: Step)
    requires WellFormedTurn(turn) && AllPlain(pending)
    modifies run, signal
    ensures RecordsOf(run) == Grow(old(RecordsOf(run)), added)
    ensures TurnResult(old(run.context), run.context, pending, turn, end, step.results)
    ensures TurnEnd(config, signal.abortAt, turn, old(signal.clock), step, end, hasMoreToolCalls, stopRun)
    ensures step.pending == pending && step.clock == signal.clock
    ensures end == RefusedRequest || end == RefusedTurn ==> signal.clock == old(signal.clock) && step.results == [] && !hasMoreToolCalls
  {
    hasMoreToolCalls, stopRun := false, false;
    ghost var start := RecordsOf(run);
    added, step := pending, Step(pending, [], None, signal.clock);
    var ok := OpenRequest(run, pending);
    if !ok {
      end := RefusedRequest;
      return;
    }
    ghost var before := run.context;
    var clean := CommitResponse(run, turn);
    GrowTwice(start, pending, [turn.final]);
    added := pending + [turn.final];
    if !clean {
      end := RefusedTurn;
      return;
    }
    var ended;
    ended, hasMoreToolCalls, stopRun, step := AnswerTurn(run, turn, pending, config, signal, before);
    GrowTwice(start, added, step.results);
    added := added + step.results;
    end := if ended then Ended else StillRunning;
  }

  // ----- Whole runs

  // What a run starts from.
  datatype Setting = Setting(script: seq<Turn>, first: seq<Message>, config: Config, start: Records, abortAt: Option<nat>, clock: nat)

  // The transcript at the end of the first n of these turns.
  function Reached(p: Setting, steps: seq<Step>, n: nat): seq<Message>
    requires n <= |steps| <= |p.script|
  {
    if n == 0 then p.start.context
    else Reached(p, steps, n - 1) + steps[n - 1].pending + [p.script[n - 1].final] + steps[n - 1].results
  }

  // The messages queued for turn n: the first ones, or what the turn before it left in the steering
  // queue or, with that empty and its batch asking for nothing more, in the follow-up queue.
  function Queued(p: Setting, steps: seq<Step>, n: nat): seq<Message>
    requires n <= |steps| <= |p.script|
  {
    if n == 0 then p.first
    else if MoreTools(steps[n - 1]) || p.script[n - 1].steering != [] then p.script[n - 1].steering
    else p.script[n - 1].followUps
  }

  // How often the abort signal had been read when turn n began.
  function ClockAt(p: Setting, steps: seq<Step>, n: nat): nat
    requires n <= |steps|
  {
    if n == 0 then p.clock else steps[n - 1].clock
  }

  // Turn k was answered in full over the messages queued for it, and valid at its end.
  ghost predicate StepOf(p: Setting, steps: seq<Step>, k: nat)
    requires k < |steps| <= |p.script|
  {
    && steps[k].pending == Queued(p, steps, k)
    && steps[k] in TurnSteps(p.config, p.abortAt, p.script[k], ClockAt(p, steps, k))
    && Valid(Reached(p, steps, k + 1))
  }

  // The turns so far.
  ghost predicate Chain(p: Setting, steps: seq<Step>) {
    |steps| <= |p.script| && forall k: nat | k < |steps| :: k in Answered(p, steps)
  }

  // The turns answered as they should be.
  ghost function Answered(p: Setting, steps: seq<Step>): iset<nat> {
    iset k: nat | k < |steps| <= |p.script| && StepOf(p, steps, k)
  }

  lemma TurnAt(p: Setting, steps: seq<Step>, k: nat)
    requires Chain(p, steps) && k < |steps|
    ensures StepOf(p, steps, k)
  {
    assert k in Answered(p, steps);
  }

  lemma {:induction false} ReachedKept(p: Setting, steps: seq<Step>, longer: seq<Step>, n: nat)
    requires n <= |steps| <= |longer| <= |p.script| && steps <= longer
    ensures Reached(p, longer, n) == Reached(p, steps, n)
  {
    if n > 0 {
      ReachedKept(p, steps, longer, n - 1);
    }
  }

  lemma {:induction false} StepKept(p: Setting, steps: seq<Step>, longer: seq<Step>, k: nat)
    requires k < |steps| <= |longer| <= |p.script| && steps <= longer && StepOf(p, steps, k)
    ensures StepOf(p, longer, k)
  {
    ReachedKept(p, steps, longer, k + 1);
    assert longer[k] == steps[k] && (k > 0 ==> longer[k - 1] == steps[k - 1]);
  }

  lemma {:induction false} StepsKept(p: Setting, steps: seq<Step>, longer: seq<Step>)
    requires Chain(p, steps) && |steps| <= |longer| <= |p.script| && steps <= longer
    ensures forall k: nat | k < |steps| :: k in Answered(p, longer)
  {
    forall k: nat | k < |steps|
      ensures k in Answered(p, longer)
    {
      TurnAt(p, steps, k);
      StepKept(p, steps, longer, k);
    }
  }

  lemma {:induction false} StepAdded(p: Setting, steps: seq<Step>, after: seq<Message>, step: Step, longer: seq<Step>)
    requires |steps| < |p.script| && longer == steps + [step] && Valid(after)
    requires step.pending == Queued(p, steps, |steps|)
    requires step in TurnSteps(p.config, p.abortAt, p.script[|steps|], ClockAt(p, steps, |steps|))
    requires after == Reached(p, steps, |steps|) + step.pending + [p.script[|steps|].final] + step.results
    ensures StepOf(p, longer, |steps|) && Reached(p, longer, |longer|) == after
  {
    ReachedNext(p, steps, step, longer);
    KeptBefore(p, steps, longer);
  }

  lemma {:induction false} ReachedNext(p: Setting, steps: seq<Step>, step: Step, longer: seq<Step>)
    requires |steps| < |p.script| && longer == steps + [step]
    ensures Reached(p, longer, |longer|) == Reached(p, steps, |steps|) + step.pending + [p.script[|steps|].final] + step.results
  {
    ReachedKept(p, steps, longer, |steps|);
    assert longer[|steps|] == step;
  }

  lemma KeptBefore(p: Setting, steps: seq<Step>, longer: seq<Step>)
    requires |steps| < |longer| <= |p.script| && steps <= longer
    ensures Queued(p, longer, |steps|) == Queued(p, steps, |steps|) && ClockAt(p, longer, |steps|) == ClockAt(p, steps, |steps|)
  {
  }

  lemma ChainNext(p: Setting, steps: seq<Step>, longer: seq<Step>)
    requires Chain(p, steps) && |longer| == |steps| + 1 <= |p.script| && steps <= longer && StepOf(p, longer, |steps|)
    ensures Chain(p, longer)
  {
    StepsKept(p, steps, longer);
    assert |steps| in Answered(p, longer);
    ChainOf(p, longer, |steps|);
  }

  lemma ChainOf(p: Setting, steps: seq<Step>, last: nat)
    requires |steps| == last + 1 <= |p.script| && last in Answered(p, steps)
    requires forall k: nat | k < last :: k in Answered(p, steps)
    ensures Chain(p, steps)
  {
  }

  lemma LastIsValid(p: Setting, steps: seq<Step>)
    requires Chain(p, steps) && steps != []
    ensures Valid(Reached(p, steps, |steps|))
  {
    TurnAt(p, steps, |steps| - 1);
  }

  lemma {:induction false} ReachedGrows(p: Setting, steps: seq<Step>, k: nat, n: nat)
    requires k <= n <= |steps| <= |p.script|
    ensures Reached(p, steps, k) <= Reached(p, steps, n)
    decreases n
  {
    if k < n {
      ReachedGrows(p, steps, k, n - 1);
    }
  }

  // Every turn end is valid, and extends the ones before it and the transcript the run began with.
  lemma {:induction false} ChainGrows(p: Setting, steps: seq<Step>, k: nat)
    requires Chain(p, steps) && 0 < k <= |steps|
    ensures Valid(Reached(p, steps, k))
    ensures p.start.context <= Reached(p, steps, k) <= Reached(p, steps, |steps|)
  {
    TurnAt(p, steps, k - 1);
    ReachedGrows(p, steps, 0, k);
    ReachedGrows(p, steps, k, |steps|);
  }

  // ----- Why a run goes on, and why it ends

  // Nothing stops the run right after the turn: the provider answered, its batch saw no abort and left
  // no call running, and neither the caller nor the budget ends the run.
  ghost predicate NotStopped(p: Setting, k: nat, step: Step)
    requires k < |p.script|
  {
    !ProviderStopped(p.script[k]) && !BatchEnds(step) && !p.script[k].stopAfterTurn && p.config.maxTurns != Some(k + 1)
  }

  // The run goes on after turn k: nothing stops it, and its batch or a queue asks for another turn.
  ghost predicate Passed(p: Setting, k: nat, step: Step)
    requires k < |p.script|
  {
    NotStopped(p, k, step) && (MoreTools(step) || p.script[k].steering != [] || p.script[k].followUps != [])
  }

  ghost predicate PassedTurns(p: Setting, steps: seq<Step>, n: nat)
    requires n <= |steps| <= |p.script|
  {
    forall k | 0 <= k < n :: Passed(p, k, steps[k])
  }

  // What the end of a run says about its turns and its transcript.
  ghost predicate Outcome(p: Setting, context: seq<Message>, steps: seq<Step>, end: RunEnd)
    requires |steps| <= |p.script|
  {
    var n := |steps|;
    var reached := Reached(p, steps, n);
    && (n > 0 ==> Valid(p.start.context))
    && match end
       case Ended => n > 0 && context == reached && PassedTurns(p, steps, n - 1) && !Passed(p, n - 1, steps[n - 1])
       case InvalidMaxTurns => n == 0 && context == reached
       case RefusedRequest => n == 0 && p.script != [] && !Valid(p.start.context) && context == reached + p.first
       case RefusedTurn =>
         && n < |p.script| && PassedTurns(p, steps, n) && Valid(p.start.context) && !Repairable(context)
         && context == reached + Queued(p, steps, n) + [p.script[n].final]
       case StillRunning => n == |p.script| && context == reached && PassedTurns(p, steps, n)
  }

  // After a turn the run passes, no call of its batch is left running and the abort has not happened.
  lemma PassedIsSettled(p: Setting, steps: seq<Step>, k: nat)
    requires Chain(p, steps) && k < |steps| && Passed(p, k, steps[k]) && Calls(p.script[k].final) != []
    ensures var report := steps[k].report;
            report.Some? && !LogUnsettled(p.script[k].batch, report.value.groups) && steps[k].results == report.value.executed
    ensures !FiredAt(p.abortAt, steps[k].clock)
  {
    TurnAt(p, steps, k);
    StopsIffUnsettled(p.config, p.script[k].batch, steps[k].report.value);
  }

  // An abort that has happened by the end of a turn ends the run with the first batch after it.
  lemma {:induction false} AbortEndsRun(p: Setting, steps: seq<Step>, j: nat, k: nat)
    requires Chain(p, steps) && j < k < |steps| && FiredAt(p.abortAt, steps[j].clock) && Calls(p.script[k].final) != []
    ensures !Passed(p, k, steps[k])
  {
    ClockGrows(p, steps, j, k);
    TurnAt(p, steps, k);
  }

  lemma {:induction false} ClockGrows(p: Setting, steps: seq<Step>, j: nat, k: nat)
    requires Chain(p, steps) && j <= k < |steps|
    ensures steps[j].clock <= steps[k].clock
    decreases k
  {
    if j < k {
      ClockGrows(p, steps, j, k - 1);
      ClockStep(p, steps, k);
    }
  }

  lemma ClockStep(p: Setting, steps: seq<Step>, k: nat)
    requires Chain(p, steps) && k < |steps|
    ensures ClockAt(p, steps, k) <= steps[k].clock
  {
    TurnAt(p, steps, k);
  }

  // What holds between turns: the records have grown alike and the transcript is the last turn end.
  ghost predicate Between(p: Setting, now: Records, added: seq<Message>, steps: seq<Step>, clock: nat) {
    && now == Grow(p.start, added) && Chain(p, steps)
    && now.context == Reached(p, steps, |steps|) && clock == ClockAt(p, steps, |steps|)
    && (|steps| > 0 ==> Valid(p.start.context)) && (p.config.maxTurns.Some? ==> |steps| < p.config.maxTurns.value)
  }

  // What a run that has come to an end guarantees.
  ghost predicate Final(p: Setting, now: Records, added: seq<Message>, steps: seq<Step>, end: RunEnd, clock: nat) {
    && now == Grow(p.start, added) && Chain(p, steps) && clock == ClockAt(p, steps, |steps|)
    && (p.config.maxTurns.Some? ==> |steps| <= p.config.maxTurns.value)
    && Outcome(p, now.context, steps, end) && end != InvalidMaxTurns
  }

  // Turn k leaves nothing to do but its follow-up messages.
  ghost predicate LeavesIdle(p: Setting, k: nat, step: Step)
    requires k < |p.script|
  {
    NotStopped(p, k, step) && !MoreTools(step) && p.script[k].steering == []
  }

  // The turns so far let the run go on when something asks for it; otherwise the last one left it idle.
  ghost predicate GoesOn(p: Setting, steps: seq<Step>, pending: seq<Message>, hasMoreToolCalls: bool)
    requires |steps| <= |p.script|
  {
    var n := |steps|;
    if hasMoreToolCalls || pending != [] then PassedTurns(p, steps, n) && pending == Queued(p, steps, n)
    else n > 0 && PassedTurns(p, steps, n - 1) && LeavesIdle(p, n - 1, steps[n - 1])
  }

  predicate Checked(turn: Turn, config: Config, t: nat, ended: bool, stopRun: bool, end: RunEnd) {
    && (end == Ended || end == StillRunning)
    && (end == Ended <==> ended || stopRun || (config.maxTurns.Some? && t + 1 >= config.maxTurns.value) || turn.stopAfterTurn)
  }

  method CheckTurnEnd(turn: Turn, config: Config, t: nat, ended: bool, stopRun: bool) returns (end: RunEnd)
    ensures Checked(turn, config, t, ended, stopRun, end)
  {
    if ended || stopRun {
      end := Ended;
    } else if config.maxTurns.Some? && t + 1 >= config.maxTurns.value {
      end := Ended;
    } else if turn.stopAfterTurn {
      end := Ended;
    } else {
      end := StillRunning;
    }
  }

  lemma TurnDecides(p: Setting, t: nat, step: Step, ended: bool, hasMoreToolCalls: bool, stopRun: bool, end: RunEnd)
    requires t < |p.script| && TurnFlags(p.script[t], step, ended, hasMoreToolCalls, stopRun)
    requires p.config.maxTurns.Some? ==> t < p.config.maxTurns.value
    requires Checked(p.script[t], p.config, t, ended, stopRun, end)
    ensures end != Ended <==> NotStopped(p, t, step)
    ensures end != Ended && p.config.maxTurns.Some? ==> t + 1 < p.config.maxTurns.value
  {
  }

  lemma RefusedOutcome(p: Setting, steps: seq<Step>, context: seq<Message>, pending: seq<Message>, end: RunEnd)
    requires Chain(p, steps) && |steps| < |p.script| && pending == Queued(p, steps, |steps|) && PassedTurns(p, steps, |steps|)
    requires |steps| > 0 ==> Valid(p.start.context)
    requires end == RefusedRequest || end == RefusedTurn
    requires TurnResult(Reached(p, steps, |steps|), context, pending, p.script[|steps|], end, [])
    ensures Outcome(p, context, steps, end)
  {
    if steps != [] {
      LastIsValid(p, steps);
    }
  }

  lemma EndedOutcome(p: Setting, steps: seq<Step>, context: seq<Message>)
    requires 0 < |steps| <= |p.script| && context == Reached(p, steps, |steps|) && Valid(p.start.context)
    requires PassedTurns(p, steps, |steps| - 1) && !Passed(p, |steps| - 1, steps[|steps| - 1])
    ensures Outcome(p, context, steps, Ended)
  {
  }

  // A turn that was refused ends the run.
  lemma AfterRefusal(p: Setting, before: Records, now: Records, added: seq<Message>, more: seq<Message>, steps: seq<Step>,
                     pending: seq<Message>, end: RunEnd, clock: nat)
    requires |steps| < |p.script| && Between(p, before, added, steps, clock) && GoesOn(p, steps, pending, true)
    requires now == Grow(before, more) && TurnResult(before.context, now.context, pending, p.script[|steps|], end, [])
    requires end == RefusedRequest || end == RefusedTurn
    ensures Final(p, now, added + more, steps, end, clock)
  {
    GrowTwice(p.start, added, more);
    RefusedOutcome(p, steps, now.context, pending, end);
  }

  lemma PassedKept(p: Setting, steps: seq<Step>, longer: seq<Step>, n: nat)
    requires n <= |steps| <= |longer| <= |p.script| && steps <= longer && PassedTurns(p, steps, n)
    ensures PassedTurns(p, longer, n)
  {
  }

  // A turn that was run becomes a step of the run.
  lemma AfterStep(p: Setting, before: Records, now: Records, added: seq<Message>, more: seq<Message>, steps: seq<Step>,
                  step: Step, longer: seq<Step>, end: RunEnd, clock: nat)
    requires |steps| < |p.script| && Between(p, before, added, steps, clock) && longer == steps + [step]
    requires step.pending == Queued(p, steps, |steps|) && step in TurnSteps(p.config, p.abortAt, p.script[|steps|], clock)
    requires now == Grow(before, more) && TurnResult(before.context, now.context, step.pending, p.script[|steps|], end, step.results)
    requires end == Ended || end == StillRunning
    ensures now == Grow(p.start, added + more) && Chain(p, longer) && now.context == Reached(p, longer, |longer|)
    ensures Valid(p.start.context)
  {
    GrowTwice(p.start, added, more);
    StepAdded(p, steps, now.context, step, longer);
    ChainNext(p, steps, longer);
    assert steps == [] ==> before.context == p.start.context;
  }

  // The checks after a turn end the run or let it go on.
  lemma AfterChecks(p: Setting, now: Records, added: seq<Message>, steps: seq<Step>, step: Step, longer: seq<Step>, pending: seq<Message>,
                    ended: bool, hasMoreToolCalls: bool, stopRun: bool, end: RunEnd)
    requires |steps| < |p.script| && longer == steps + [step] && GoesOn(p, steps, pending, true)
    requires now == Grow(p.start, added) && Chain(p, longer) && now.context == Reached(p, longer, |longer|) && Valid(p.start.context)
    requires p.config.maxTurns.Some? ==> |steps| < p.config.maxTurns.value
    requires TurnFlags(p.script[|steps|], step, ended, hasMoreToolCalls, stopRun)
    requires Checked(p.script[|steps|], p.config, |steps|, ended, stopRun, end)
    ensures LoopState(now, added, longer, |longer|, p.script[|steps|].steering, hasMoreToolCalls, end, step.clock) in InnerStates(p)
  {
    var t := |steps|;
    assert longer[t] == step;
    TurnDecides(p, t, step, ended, hasMoreToolCalls, stopRun, end);
    PassedKept(p, steps, longer, t);
    if end == Ended {
      EndedOutcome(p, longer, now.context);
    } else {
      StillGoes(p, longer, p.script[t].steering, hasMoreToolCalls);
    }
  }

  // A turn nothing stops leaves the run going on or idle.
  lemma StillGoes(p: Setting, steps: seq<Step>, pending: seq<Message>, hasMoreToolCalls: bool)
    requires 0 < |steps| <= |p.script| && PassedTurns(p, steps, |steps| - 1)
    requires var k := |steps| - 1; NotStopped(p, k, steps[k]) && (hasMoreToolCalls <==> MoreTools(steps[k])) && pending == p.script[k].steering
    ensures GoesOn(p, steps, pending, hasMoreToolCalls)
  {
    var k := |steps| - 1;
    if hasMoreToolCalls || pending != [] {
      assert Passed(p, k, steps[k]);
    }
  }

  // The state of the inner loop before its next test.
  ghost predicate Inner(p: Setting, now: Records, added: seq<Message>, steps: seq<Step>, t: nat, pending: seq<Message>,
                        hasMoreToolCalls: bool, end: RunEnd, clock: nat) {
    && t <= |p.script|
    && if end == StillRunning then Between(p, now, added, steps, clock) && |steps| == t && GoesOn(p, steps, pending, hasMoreToolCalls)
       else Final(p, now, added, steps, end, clock)
  }

  // What a loop of the run works on, `more` being whether it asks for another pass, and the states the
  // inner loop can be in.
  datatype LoopState = LoopState(now: Records, added: seq<Message>, steps: seq<Step>, t: nat, pending: seq<Message>,
                                 more: bool, end: RunEnd, clock: nat)

  ghost function InnerStates(p: Setting): iset<LoopState> {
    iset s: LoopState | Inner(p, s.now, s.added, s.steps, s.t, s.pending, s.more, s.end, s.clock)
  }

  lemma InnerTurn(p: Setting, now: Records, added: seq<Message>, steps: seq<Step>, t: nat, pending: seq<Message>, hasMoreToolCalls: bool,
                  clock: nat)
    requires LoopState(now, added, steps, t, pending, hasMoreToolCalls, StillRunning, clock) in InnerStates(p)
    requires hasMoreToolCalls || |pending| > 0
    ensures Between(p, now, added, steps, clock) && |steps| == t <= |p.script| && GoesOn(p, steps, pending, true)
    ensures pending == Queued(p, steps, |steps|)
  {
  }

  // A refused turn, as a state of the inner loop.
  lemma TurnRefused(p: Setting, before: Records, now: Records, addedBefore: seq<Message>, more: seq<Message>, added: seq<Message>,
                    steps: seq<Step>, t: nat, pending: seq<Message>, hadMore: bool, end: RunEnd, steering: seq<Message>, clock: nat)
    requires LoopState(before, addedBefore, steps, t, pending, hadMore, StillRunning, clock) in InnerStates(p)
    requires (hadMore || |pending| > 0) && t < |p.script| && (end == RefusedRequest || end == RefusedTurn)
    requires now == Grow(before, more) && added == addedBefore + more
    requires TurnResult(before.context, now.context, pending, p.script[t], end, [])
    ensures LoopState(now, added, steps, t + 1, steering, false, end, clock) in InnerStates(p)
  {
    InnerTurn(p, before, addedBefore, steps, t, pending, hadMore, clock);
    AfterRefusal(p, before, now, addedBefore, more, steps, pending, end, clock);
  }

  // A turn that was run, as a state of the inner loop after the checks.
  lemma TurnRan(p: Setting, before: Records, now: Records, addedBefore: seq<Message>, more: seq<Message>, added: seq<Message>,
                stepsBefore: seq<Step>, step: Step, steps: seq<Step>, t: nat, hadMore: bool, clock: nat,
                turnEnd: RunEnd, hasMoreToolCalls: bool, stopRun: bool, end: RunEnd)
    requires LoopState(before, addedBefore, stepsBefore, t, step.pending, hadMore, StillRunning, clock) in InnerStates(p)
    requires (hadMore || |step.pending| > 0) && t < |p.script| && (turnEnd == Ended || turnEnd == StillRunning)
    requires now == Grow(before, more) && added == addedBefore + more && steps == stepsBefore + [step]
    requires TurnResult(before.context, now.context, step.pending, p.script[t], turnEnd, step.results)
    requires step in TurnSteps(p.config, p.abortAt, p.script[t], clock)
    requires TurnFlags(p.script[t], step, turnEnd == Ended, hasMoreToolCalls, stopRun)
    requires Checked(p.script[t], p.config, t, turnEnd == Ended, stopRun, end)
    ensures LoopState(now, added, steps, t + 1, p.script[t].steering, hasMoreToolCalls, end, step.clock) in InnerStates(p)
  {
    InnerTurn(p, before, addedBefore, stepsBefore, t, step.pending, hadMore, clock);
    AfterStep(p, before, now, addedBefore, more, stepsBefore, step, steps, turnEnd, clock);
    AfterChecks(p, now, added, stepsBefore, step, steps, step.pending, turnEnd == Ended, hasMoreToolCalls, stopRun, end);
  }

  // One turn of the inner loop with the checks after it.
  method RunTurnAndChecks(run: Run, script: seq<Turn>, pending: seq<Message>, config: Config, signal: AbortSignal, t: nat,
                          hadMore: bool, ghost p: Setting, ghost addedBefore: seq<Message>, ghost stepsBefore: seq<Step>)
    returns (end: RunEnd, hasMoreToolCalls: bool, steering: seq<Message>, ghost added: seq<Message>, ghost steps: seq<Step>)
    requires p.script == script && p.config == config && p.abortAt == signal.abortAt
    requires WellFormedScript(script) && AllPlain(pending) && t < |script|
    requires LoopState(RecordsOf(run), addedBefore, stepsBefore, t, pending, hadMore, StillRunning, signal.clock) in InnerStates(p)
    requires hadMore || |pending| > 0
    modifies run, signal
    ensures LoopState(RecordsOf(run), added, steps, t + 1, steering, hasMoreToolCalls, end, signal.clock) in InnerStates(p)
    ensures AllPlain(steering)
  {
    var turn := script[t];
    steering := turn.steering;
    ghost var before, clock := RecordsOf(run), signal.clock;
    var stopRun;
    ghost var more, step;
    end, hasMoreToolCalls, stopRun, more, step := RunTurn(run, turn, pending, config, signal);
    added := addedBefore + more;
    if end == RefusedRequest || end == RefusedTurn {
      steps := stepsBefore;
      TurnRefused(p, before, RecordsOf(run), addedBefore, more, added, steps, t, pending, hadMore, end, steering, clock);
    } else {
      steps := stepsBefore + [step];
      var ended := end;
      end := CheckTurnEnd(turn, config, t, ended == Ended, stopRun);
      TurnRan(p, before, RecordsOf(run), addedBefore, more, added, stepsBefore, step, steps, t, hadMore, clock,
              ended, hasMoreToolCalls, stopRun, end);
    }
  }

  // The inner loop is left because the run is over, the script is used up, or nothing is left to do.
  lemma InnerExit(p: Setting, now: Records, added: seq<Message>, steps: seq<Step>, t: nat, pending: seq<Message>, hasMoreToolCalls: bool,
                  end: RunEnd, clock: nat, idle: bool)
    requires LoopState(now, added, steps, t, pending, hasMoreToolCalls, end, clock) in InnerStates(p)
    requires t == |p.script| || end != StillRunning || !(hasMoreToolCalls || |pending| > 0)
    requires idle <==> end == StillRunning && !(hasMoreToolCalls || |pending| > 0)
    ensures if idle then Between(p, now, added, steps, clock) && |steps| == t <= |p.script| && GoesOn(p, steps, [], false)
            else Final(p, now, added, steps, end, clock)
  {
  }

  // The inner loop: turns as long as tools or steering messages keep the agent going.
  method RunTurns(run: Run, script: seq<Turn>, config: Config, signal: AbortSignal, startPending: seq<Message>, from: nat,
                  ghost p: Setting, ghost addedBefore: seq<Message>, ghost stepsBefore: seq<Step>)
    returns (end: RunEnd, idle: bool, t: nat, pending: seq<Message>, hasMoreToolCalls: bool,
             ghost added: seq<Message>, ghost steps: seq<Step>)
    requires p.script == script && p.config == config && p.abortAt == signal.abortAt
    requires WellFormedScript(script) && AllPlain(startPending) && from <= |script|
    requires LoopState(RecordsOf(run), addedBefore, stepsBefore, from, startPending, true, StillRunning, signal.clock) in InnerStates(p)
    modifies run, signal
    ensures from <= t <= |script| && (idle ==> t > from)
    ensures LoopState(RecordsOf(run), added, steps, t, pending, hasMoreToolCalls, end, signal.clock) in InnerStates(p)
    ensures t == |script| || end != StillRunning || !(hasMoreToolCalls || |pending| > 0)
    ensures idle <==> end == StillRunning && !(hasMoreToolCalls || |pending| > 0)
  {
    pending, hasMoreToolCalls := startPending, true;
    t, added, steps := from, addedBefore, stepsBefore;
    end := StillRunning;
    while t < |script| && end == StillRunning && (hasMoreToolCalls || |pending| > 0)
      invariant from <= t <= |script| && AllPlain(pending) && (t > from || hasMoreToolCalls)
      invariant LoopState(RecordsOf(run), added, steps, t, pending, hasMoreToolCalls, end, signal.clock) in InnerStates(p)
      decreases |script| - t
    {
      end, hasMoreToolCalls, pending, added, steps :=
        RunTurnAndChecks(run, script, pending, config, signal, t, hasMoreToolCalls, p, added, steps);
      t := t + 1;
    }
    idle := end == StillRunning && !(hasMoreToolCalls || |pending| > 0);
  }

  // What a run's outcome means for the validity of its transcripts.
  lemma OutcomeFacts(p: Setting, context: seq<Message>, steps: seq<Step>, end: RunEnd)
    requires Chain(p, steps) && Outcome(p, context, steps, end)
    ensures p.script != [] && end != InvalidMaxTurns ==> (end == RefusedRequest <==> !Valid(p.start.context))
    ensures Valid(p.start.context) && end != RefusedTurn ==> Valid(context)
  {
    if steps != [] {
      LastIsValid(p, steps);
    }
  }

  // However a run ends, its transcript extends the last turn end.
  lemma OutcomeExtends(p: Setting, context: seq<Message>, steps: seq<Step>, end: RunEnd)
    requires |steps| <= |p.script| && Outcome(p, context, steps, end)
    ensures Reached(p, steps, |steps|) <= context
  {
  }

  // The state of the outer loop before its next test.
  ghost predicate Outer(p: Setting, now: Records, added: seq<Message>, steps: seq<Step>, t: nat, pending: seq<Message>, idle: bool,
                        end: RunEnd, clock: nat) {
    && t <= |p.script|
    && if idle then Between(p, now, added, steps, clock) && |steps| == t && GoesOn(p, steps, pending, true)
       else Final(p, now, added, steps, end, clock)
  }

  ghost function OuterStates(p: Setting): iset<LoopState> {
    iset s: LoopState | Outer(p, s.now, s.added, s.steps, s.t, s.pending, s.more, s.end, s.clock)
  }

  // With nothing left to do the follow-up messages start the agent again, and without any the run ends.
  lemma AtIdle(p: Setting, now: Records, added: seq<Message>, steps: seq<Step>, t: nat, clock: nat)
    requires 0 < t <= |p.script| && Between(p, now, added, steps, clock) && |steps| == t && GoesOn(p, steps, [], false)
    ensures if p.script[t - 1].followUps == [] then Outer(p, now, added, steps, t, [], false, Ended, clock)
            else Outer(p, now, added, steps, t, p.script[t - 1].followUps, true, StillRunning, clock)
  {
    if p.script[t - 1].followUps == [] {
      EndedOutcome(p, steps, now.context);
    } else {
      assert Passed(p, t - 1, steps[t - 1]);
    }
  }

  lemma OuterStart(p: Setting)
    requires p.config.maxTurns != Some(0)
    ensures LoopState(p.start, [], [], 0, p.first, true, StillRunning, p.clock) in OuterStates(p)
  {
    assert Grow(p.start, []) == p.start;
  }

  lemma OuterExit(p: Setting, now: Records, added: seq<Message>, steps: seq<Step>, t: nat, pending: seq<Message>, end: RunEnd, clock: nat)
    requires LoopState(now, added, steps, t, pending, false, end, clock) in OuterStates(p)
    ensures Final(p, now, added, steps, end, clock)
  {
  }

  lemma InnerStart(p: Setting, now: Records, added: seq<Message>, steps: seq<Step>, t: nat, pending: seq<Message>, end: RunEnd, clock: nat)
    requires LoopState(now, added, steps, t, pending, true, end, clock) in OuterStates(p)
    ensures LoopState(now, added, steps, t, pending, true, StillRunning, clock) in InnerStates(p)
  {
  }

  // The inner loop left idle starts again with the follow-up messages.
  lemma OuterNext(p: Setting, now: Records, added: seq<Message>, steps: seq<Step>, t: nat, pending: seq<Message>, hasMoreToolCalls: bool,
                  end: RunEnd, clock: nat, idle: bool)
    requires LoopState(now, added, steps, t, pending, hasMoreToolCalls, end, clock) in InnerStates(p)
    requires t == |p.script| || end != StillRunning || !(hasMoreToolCalls || |pending| > 0)
    requires (idle <==> end == StillRunning && !(hasMoreToolCalls || |pending| > 0)) && t <= |p.script| && (idle ==> t > 0)
    ensures !idle ==> LoopState(now, added, steps, t, [], false, end, clock) in OuterStates(p)
    ensures idle ==> var followUps := p.script[t - 1].followUps;
                     if followUps == [] then LoopState(now, added, steps, t, [], false, Ended, clock) in OuterStates(p)
                     else LoopState(now, added, steps, t, followUps, true, StillRunning, clock) in OuterStates(p)
  {
    InnerExit(p, now, added, steps, t, pending, hasMoreToolCalls, end, clock, idle);
    if idle {
      AtIdle(p, now, added, steps, t, clock);
    }
  }

  // runLoop: the transcript grows turn by turn, each turn end is valid and extends the one before it,
  // a run passes a turn exactly when nothing stops it there and something asks for another one, and
  // context, new messages and message_end events grow by the same messages.
  method RunLoop(run: Run, script: seq<Turn>, config: Config, signal: AbortSignal, startSteering: seq<Message>)
    returns (end: RunEnd, ghost added: seq<Message>, ghost steps: seq<Step>)
    requires WellFormedScript(script) && AllPlain(startSteering)
    modifies run, signal
    ensures RecordsOf(run) == Grow(old(RecordsOf(run)), added)
    ensures var p := Setting(script, startSteering, config, old(RecordsOf(run)), signal.abortAt, old(signal.clock));
            Chain(p, steps) && Outcome(p, run.context, steps, end) && signal.clock == ClockAt(p, steps, |steps|)
    ensures end == InvalidMaxTurns <==> config.maxTurns == Some(0)
    ensures config.maxTurns.Some? ==> |steps| <= config.maxTurns.value
  {
    ghost var p := Setting(script, startSteering, config, RecordsOf(run), signal.abortAt, signal.clock);
    end, added, steps := InvalidMaxTurns, [], [];
    assert Grow(p.start, []) == p.start;
    if config.maxTurns != Some(0) {
      end, added, steps := RunUntilIdle(run, script, config, signal, startSteering, p);
    }
  }

  // The outer loop.
  method RunUntilIdle(run: Run, script: seq<Turn>, config: Config, signal: AbortSignal, startSteering: seq<Message>, ghost p: Setting)
    returns (end: RunEnd, ghost added: seq<Message>, ghost steps: seq<Step>)
    requires WellFormedScript(script) && AllPlain(startSteering) && config.maxTurns != Some(0)
    requires p == Setting(script, startSteering, config, RecordsOf(run), signal.abortAt, signal.clock)
    modifies run, signal
    ensures Final(p, RecordsOf(run), added, steps, end, signal.clock)
  {
    end, added, steps := StillRunning, [], [];
    var pending, t, idle := startSteering, 0, true;
    OuterStart(p);
    while idle
      invariant LoopState(RecordsOf(run), added, steps, t, pending, idle, end, signal.clock) in OuterStates(p)
      invariant AllPlain(pending) && t <= |script|
      decreases |script| - t, idle
    {
      InnerStart(p, RecordsOf(run), added, steps, t, pending, end, signal.clock);
      var left, more;
      end, idle, t, left, more, added, steps := RunTurns(run, script, config, signal, pending, t, p, added, steps);
      OuterNext(p, RecordsOf(run), added, steps, t, left, more, end, signal.clock, idle);
      pending := [];
      if idle {
        pending := script[t - 1].followUps;
        if |pending| == 0 {
          end, idle := Ended, false;
        }
      }
    }
    OuterExit(p, RecordsOf(run), added, steps, t, pending, end, signal.clock);
  }
}
