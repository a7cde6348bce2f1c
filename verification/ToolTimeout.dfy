/** One tool call from its race against timeout and abort to its finalized envelope
    (packages/agent/src/tool-timeout.ts, tool-execution-boundary.ts, types.ts). */
module ToolTimeout {
  import opened Sequences
  import opened Wrappers
  import Executor
  import Transcript

  // ----- The effective timeout

  datatype JsNumber = Finite(value: real) | NotFinite

  // What a level that decides makes of the timer: a finite positive value sets it, any other disables it.
  predicate Sets(level: JsNumber, ms: real) {
    if level.Finite? && level.value > 0.0 then ms == level.value else ms == 0.0
  }

  // The first level that is present decides, whatever the levels after it say.
  function ResolveToolTimeoutMs(perTool: Option<JsNumber>, perName: Option<JsNumber>, global: Option<JsNumber>): (ms: real)
    ensures perTool.Some? ==> Sets(perTool.value, ms)
    ensures perTool.None? && perName.Some? ==> Sets(perName.value, ms)
    ensures perTool.None? && perName.None? && global.Some? ==> Sets(global.value, ms)
    ensures perTool.None? && perName.None? && global.None? ==> ms == 0.0
  {
    var chosen := if perTool.Some? then perTool else if perName.Some? then perName else global;
    match chosen
    case Some(Finite(v)) => if v > 0.0 then v else 0.0
    case _ => 0.0
  }

  // ----- The race

  datatype Outcome = Resolved(text: string) | Rejected(error: string)

  // What can happen to a running call, in the order it happens.
  datatype RaceEvent = RealSettles(outcome: Outcome) | TimerFires | ParentAborts

  datatype Terminal = Timeout | Aborted

  datatype Executed = Executed(outcome: Option<Outcome>, isError: bool, executionStarted: bool, terminal: Option<Terminal>)

  datatype LateSettlement = LateSettlement(disposition: Terminal, resolved: bool)

  // What the call is decided by: its own settlement or a terminal cause.
  datatype Decision = Undecided | ByReal(outcome: Outcome) | ByCause(cause: Terminal)

  function Decide(timeoutMs: real, events: seq<RaceEvent>): Decision {
    if events == [] then Undecided
    else
      match events[0]
      case RealSettles(outcome) => ByReal(outcome)
      case TimerFires => if timeoutMs > 0.0 then ByCause(Timeout) else Decide(timeoutMs, events[1..])
      case ParentAborts => ByCause(Aborted)
  }

  function ResultOf(d: Decision): (r: Executed)
    requires d != Undecided
  {
    match d
    case ByReal(Resolved(text)) => Executed(Some(Resolved(text)), false, true, None)
    case ByReal(Rejected(error)) => Executed(Some(Rejected(error)), true, true, None)
    case ByCause(cause) => Executed(None, true, true, Some(cause))
  }

  // A timer that is not set cannot have fired.
  ghost predicate Ignored(timeoutMs: real, e: RaceEvent) {
    e.TimerFires? && timeoutMs <= 0.0
  }

  // What the first event that counts makes of the call.
  ghost predicate DecidedBy(e: RaceEvent, r: Executed) {
    && r.executionStarted
    && match e
       case RealSettles(outcome) => r.terminal.None? && r.outcome == Some(outcome) && (r.isError <==> outcome.Rejected?)
       case TimerFires => r.terminal == Some(Timeout) && r.outcome.None? && r.isError
       case ParentAborts => r.terminal == Some(Aborted) && r.outcome.None? && r.isError
  }

  // The first event that counts decides, and without one nothing does.
  lemma {:induction false} FirstDecides(timeoutMs: real, events: seq<RaceEvent>)
    ensures Decide(timeoutMs, events) == Undecided <==> forall j | 0 <= j < |events| :: Ignored(timeoutMs, events[j])
    ensures Decide(timeoutMs, events) != Undecided ==>
              exists k | 0 <= k < |events| ::
                && (forall j | 0 <= j < k :: Ignored(timeoutMs, events[j])) && !Ignored(timeoutMs, events[k])
                && DecidedBy(events[k], ResultOf(Decide(timeoutMs, events)))
  {
    if events != [] {
      if Ignored(timeoutMs, events[0]) {
        var rest := events[1..];
        FirstDecides(timeoutMs, rest);
        assert forall j | 0 <= j < |rest| :: rest[j] == events[j + 1];
        if Decide(timeoutMs, rest) != Undecided {
          var k :| 0 <= k < |rest| && (forall j | 0 <= j < k :: Ignored(timeoutMs, rest[j])) && !Ignored(timeoutMs, rest[k])
                   && DecidedBy(rest[k], ResultOf(Decide(timeoutMs, rest)));
          assert events[k + 1] == rest[k];
        }
      } else {
        assert DecidedBy(events[0], ResultOf(Decide(timeoutMs, events)));
      }
    }
  }

  // The settlements of the real promise, which settles at most once.
  function Settlements(events: seq<RaceEvent>): seq<Outcome> {
    if events == [] then []
    else
      var rest := Settlements(events[1..]);
      if events[0].RealSettles? then [events[0].outcome] + rest else rest
  }

  // The audit events a run of events gives rise to.
  function Audits(timeoutMs: real, audit: bool, events: seq<RaceEvent>): seq<LateSettlement> {
    var d := Decide(timeoutMs, events);
    if audit && d.ByCause? && Settlements(events) != [] then
      [LateSettlement(d.cause, Settlements(events)[0].Resolved?)]
    else []
  }

  lemma {:induction false} DecideConcat(timeoutMs: real, a: seq<RaceEvent>, b: seq<RaceEvent>)
    ensures Decide(timeoutMs, a + b) ==
            if Decide(timeoutMs, a) != Undecided then Decide(timeoutMs, a) else Decide(timeoutMs, b)
  {
    if a == [] {
      assert a + b == b;
    } else {
      assert (a + b)[1..] == a[1..] + b;
      DecideConcat(timeoutMs, a[1..], b);
    }
  }

  lemma {:induction false} SettlementsConcat(a: seq<RaceEvent>, b: seq<RaceEvent>)
    ensures Settlements(a + b) == Settlements(a) + Settlements(b)
  {
    if a == [] {
      assert a + b == b;
    } else {
      assert (a + b)[1..] == a[1..] + b && (a + b)[0] == a[0];
      SettlementsConcat(a[1..], b);
      if a[0].RealSettles? {
        ConcatAssoc([a[0].outcome], Settlements(a[1..]), Settlements(b));
      }
    }
  }

  // A settlement before the decision would have been the decision.
  lemma {:induction false} UndecidedUnsettled(timeoutMs: real, events: seq<RaceEvent>)
    requires Decide(timeoutMs, events) == Undecided
    ensures Settlements(events) == []
  {
    if events != [] {
      UndecidedUnsettled(timeoutMs, events[1..]);
    }
  }

  // The running call: its timer and abort listener, the cause promise, and the audit events.
  class Race {
    const timeoutMs: real
    const audit: bool
    var cause: Option<Terminal>
    var childAborted: bool
    var timerLive: bool
    var listenerLive: bool
    var raceSettled: bool
    var committed: Option<Executed>
    var audits: seq<LateSettlement>
    ghost var history: seq<RaceEvent>

    constructor (timeoutMs: real, audit: bool)
      ensures Valid() && history == [] && this.timeoutMs == timeoutMs && this.audit == audit
    {
      this.timeoutMs, this.audit := timeoutMs, audit;
      cause, childAborted, timerLive, listenerLive := None, false, timeoutMs > 0.0, true;
      raceSettled, committed, audits, history := false, None, [], [];
    }

    // The state is decided by the events so far, with one settlement of the real promise at most.
    ghost predicate Valid()
      reads this
    {
      var d := Decide(timeoutMs, history);
      && |Settlements(history)| <= 1
      && (raceSettled <==> d != Undecided)
      && committed == (if d == Undecided then None else Some(ResultOf(d)))
      && cause == (if d.ByCause? then Some(d.cause) else None)
      && (childAborted <==> d.ByCause?)
      && timerLive == (!raceSettled && timeoutMs > 0.0) && listenerLive == !raceSettled
      && audits == Audits(timeoutMs, audit, history)
    }

    // The committed result, disposal of timer and listener.
    method Settle(result: Executed)
      modifies this`committed, this`raceSettled, this`timerLive, this`listenerLive
      ensures committed == Some(result) && raceSettled && !timerLive && !listenerLive
    {
      raceSettled, committed := true, Some(result);
      timerLive, listenerLive := false, false;
    }

    method OnTimer()
      requires Valid()
      modifies this
      ensures Valid() && history == old(history) + [TimerFires]
      ensures old(raceSettled) ==> committed == old(committed) && audits == old(audits)
    {
      DecideConcat(timeoutMs, history, [TimerFires]);
      SettlementsConcat(history, [TimerFires]);
      assert Settlements([TimerFires]) == [];
      if timerLive {
        UndecidedUnsettled(timeoutMs, history);
        cause := Some(Timeout);
        childAborted := true;
        Settle(Executed(None, true, true, Some(Timeout)));
      }
      history := history + [TimerFires];
    }

    method OnParentAbort()
      requires Valid()
      modifies this
      ensures Valid() && history == old(history) + [ParentAborts]
      ensures old(raceSettled) ==> committed == old(committed) && audits == old(audits)
    {
      DecideConcat(timeoutMs, history, [ParentAborts]);
      SettlementsConcat(history, [ParentAborts]);
      assert Settlements([ParentAborts]) == [];
      if listenerLive {
        UndecidedUnsettled(timeoutMs, history);
        cause := Some(Aborted);
        childAborted := true;
        Settle(Executed(None, true, true, Some(Aborted)));
      }
      history := history + [ParentAborts];
    }

    method OnRealSettled(outcome: Outcome)
      requires Valid() && Settlements(history) == []
      modifies this
      ensures Valid() && history == old(history) + [RealSettles(outcome)]
      ensures old(raceSettled) ==> committed == old(committed)
      ensures |audits| <= 1 && (audits != old(audits) ==> old(raceSettled))
    {
      var event := RealSettles(outcome);
      DecideConcat(timeoutMs, history, [event]);
      SettlementsConcat(history, [event]);
      assert Settlements([event]) == [outcome];
      if raceSettled {
        if cause.Some? && audit {
          audits := audits + [LateSettlement(cause.value, outcome.Resolved?)];
        }
      } else {
        Settle(Executed(Some(outcome), outcome.Rejected?, true, None));
      }
      history := history + [event];
    }
  }

  // runToolCallWithTimeout on one order of events. A run aborted before the start never starts the
  // tool; otherwise the first effective event decides and nothing later changes the result.
  method RunToolCallWithTimeout(timeoutMs: real, audit: bool, abortedAtStart: bool, events: seq<RaceEvent>)
    returns (committed: Option<Executed>, audits: seq<LateSettlement>)
    requires |Settlements(events)| <= 1
    ensures abortedAtStart ==> committed == Some(Executed(None, true, false, Some(Aborted))) && audits == []
    ensures !abortedAtStart ==>
              committed == (if Decide(timeoutMs, events) == Undecided then None else Some(ResultOf(Decide(timeoutMs, events))))
    ensures !abortedAtStart ==> audits == Audits(timeoutMs, audit, events)
    ensures |audits| <= 1
  {
    if abortedAtStart {
      return Some(Executed(None, true, false, Some(Aborted))), [];
    }
    var race := new Race(timeoutMs, audit);
    for k := 0 to |events|
      invariant fresh(race) && race.timeoutMs == timeoutMs && race.audit == audit
      invariant race.Valid() && race.history == events[..k]
    {
      assert events[..k + 1] == events[..k] + [events[k]];
      assert events == events[..k] + [events[k]] + events[k + 1..];
      SettlementsConcat(events[..k], [events[k]]);
      SettlementsConcat(events[..k] + [events[k]], events[k + 1..]);
      match events[k] {
        case RealSettles(outcome) =>
          assert Settlements([events[k]]) == [outcome];
          race.OnRealSettled(outcome);
        case TimerFires => race.OnTimer();
        case ParentAborts => race.OnParentAbort();
      }
    }
    assert events[..|events|] == events;
    return race.committed, race.audits;
  }

  // ----- Envelopes

  datatype Envelope = Envelope(synthetic: bool, disposition: Transcript.Disposition, timeoutMs: Option<JsNumber>, executionStarted: bool)

  // isToolResultEnvelope: the shape and the rules of each disposition.
  predicate IsToolResultEnvelope(e: Envelope) {
    && (e.timeoutMs.Some? ==> e.timeoutMs.value.Finite? && e.timeoutMs.value.value > 0.0)
    && match e.disposition
       case Completed => !e.synthetic && e.executionStarted && e.timeoutMs.None?
       case Failed => (e.executionStarted || e.synthetic) && e.timeoutMs.None?
       case Blocked => e.synthetic && !e.executionStarted && e.timeoutMs.None?
       case Skipped => e.synthetic && !e.executionStarted && e.timeoutMs.None?
       case Aborted => e.synthetic && e.timeoutMs.None?
       case TimedOut => e.synthetic && e.executionStarted && e.timeoutMs.Some?
  }

  // createToolResultEnvelope; None is its throw.
  function CreateToolResultEnvelope(e: Envelope): Option<Envelope> {
    if IsToolResultEnvelope(e) then Some(e) else None
  }

  // The dispositions a result can carry, by who made it and whether the tool started: a result of the
  // tool itself has completed or failed, a call that never started is closed without a timeout, and
  // one that started is never blocked or skipped.
  function Allowed(synthetic: bool, executionStarted: bool): set<Transcript.Disposition> {
    if synthetic && executionStarted then {Transcript.Failed, Transcript.Aborted, Transcript.TimedOut}
    else if synthetic then {Transcript.Failed, Transcript.Blocked, Transcript.Skipped, Transcript.Aborted}
    else if executionStarted then {Transcript.Completed, Transcript.Failed}
    else {}
  }

  lemma DispositionsAllowed(synthetic: bool, executionStarted: bool, d: Transcript.Disposition)
    ensures (exists t :: CreateToolResultEnvelope(Envelope(synthetic, d, t, executionStarted)).Some?) <==>
            d in Allowed(synthetic, executionStarted)
    ensures forall t | CreateToolResultEnvelope(Envelope(synthetic, d, t, executionStarted)).Some? ::
              t.Some? <==> d == Transcript.TimedOut
  {
    if d in Allowed(synthetic, executionStarted) {
      var t := if d == Transcript.TimedOut then Some(Finite(1.0)) else None;
      assert CreateToolResultEnvelope(Envelope(synthetic, d, t, executionStarted)).Some?;
    }
  }

  // ----- Finalization

  // A tool result as far as finalization looks: its payload may be malformed.
  datatype ToolResult = ToolResult(text: string, wellFormed: bool)

  datatype HookPatch = HookPatch(text: Option<ToolResult>, isError: Option<bool>)

  // What the afterToolCall hook does, if there is one.
  datatype Hook = NoHook | Throws(message: string) | AbortWins | Returns(patch: Option<HookPatch>)

  datatype Committed = Committed(result: ToolResult, isError: bool, envelope: Envelope)

  // The consistency finalization relies on, as the race establishes it.
  ghost predicate RaceResult(e: Executed, timeoutMs: real) {
    && (e.terminal.None? ==> e.executionStarted && e.outcome.Some? && (e.isError <==> e.outcome.value.Rejected?))
    && (e.terminal.Some? ==> e.isError)
    && (e.terminal == Some(Timeout) ==> e.executionStarted && timeoutMs > 0.0)
  }

  lemma {:induction false} DecidedResult(timeoutMs: real, events: seq<RaceEvent>)
    requires Decide(timeoutMs, events) != Undecided
    ensures RaceResult(ResultOf(Decide(timeoutMs, events)), timeoutMs)
  {
    if events != [] && events[0].TimerFires? && timeoutMs <= 0.0 {
      DecidedResult(timeoutMs, events[1..]);
    }
  }

  // finalizeExecutedToolCall. The aborted flags are its reads of the parent signal before and
  // after the hook.
  method FinalizeExecutedToolCall(executed: Executed, payload: ToolResult, timeoutMs: real, hook: Hook,
                                  abortedBefore: bool, abortedAfter: bool) returns (f: Option<Committed>)
    requires RaceResult(executed, timeoutMs)
    ensures f.Some? && IsToolResultEnvelope(f.value.envelope)
    ensures f.value.isError <==> f.value.envelope.disposition != Transcript.Completed
    ensures DisposedAs(executed, f.value.envelope.disposition)
    ensures executed.terminal.None? && abortedBefore ==> f.value.envelope.disposition == Transcript.Aborted
    ensures f.value.envelope.disposition == Transcript.Completed ==>
              executed.terminal.None? && payload.wellFormed && !abortedBefore && !hook.Throws? && !hook.AbortWins?
    ensures executed.terminal.None? && !abortedBefore && !payload.wellFormed ==>
              f.value.result.text == "Invalid tool result" && f.value.envelope == Envelope(true, Transcript.Failed, None, executed.executionStarted)
    ensures executed.terminal.None? && !abortedBefore && payload.wellFormed && (hook.AbortWins? || (hook.Returns? && abortedAfter)) ==>
              f.value.result.text == "Operation aborted" && f.value.envelope.disposition == Transcript.Aborted
    ensures executed.terminal.None? && !abortedBefore && payload.wellFormed
            && (hook.NoHook? || (hook.Returns? && hook.patch.None? && !abortedAfter)) ==>
              f.value.result == payload && f.value.isError == executed.isError && !f.value.envelope.synthetic
    ensures executed.terminal.Some? && payload.wellFormed ==> f.value.result == payload
    ensures executed.terminal.None? && !abortedBefore && payload.wellFormed && hook.Throws? ==>
              f.value.result.text == hook.message && f.value.envelope == Envelope(true, Transcript.Failed, None, executed.executionStarted)
    ensures executed.terminal.None? && !abortedBefore && payload.wellFormed && hook.Returns? && hook.patch.Some? && !abortedAfter ==>
              var text := if hook.patch.value.text.Some? then hook.patch.value.text.value else payload;
              var isError := if hook.patch.value.isError.Some? then hook.patch.value.isError.value else executed.isError;
              && (text.wellFormed ==> f.value.result == text && f.value.isError == isError && !f.value.envelope.synthetic)
              && (!text.wellFormed ==> f.value.envelope.disposition == Transcript.Failed && f.value.envelope.synthetic)
  {
    var result, isError, syntheticFailure := payload, executed.isError, false;
    var terminal := executed.terminal;
    if !result.wellFormed {
      result, isError, syntheticFailure := ToolResult("Invalid tool result", true), true, true;
    }
    if terminal.None? && abortedBefore {
      terminal, result, isError := Some(Aborted), ToolResult("Operation aborted", true), true;
    }
    if terminal.None? && !hook.NoHook? && !syntheticFailure {
      match hook {
        case Throws(message) =>
          result, isError, syntheticFailure := ToolResult(message, true), true, true;
        case AbortWins =>
          terminal, result, isError := Some(Aborted), ToolResult("Operation aborted", true), true;
        case Returns(patch) =>
          if abortedAfter {
            terminal, result, isError := Some(Aborted), ToolResult("Operation aborted", true), true;
          } else if patch.Some? {
            result := if patch.value.text.Some? then patch.value.text.value else result;
            isError := if patch.value.isError.Some? then patch.value.isError.value else isError;
          }
      }
    }
    if terminal.None? {
      if !result.wellFormed {
        result, isError, syntheticFailure := ToolResult("Invalid tool result", true), true, true;
      }
    } else {
      isError := true;
    }
    var envelope := match terminal
      case Some(Timeout) => CreateToolResultEnvelope(Envelope(true, Transcript.TimedOut, Some(Finite(timeoutMs)), executed.executionStarted))
      case Some(Aborted) => CreateToolResultEnvelope(Envelope(true, Transcript.Aborted, None, executed.executionStarted))
      case None => CreateToolResultEnvelope(Envelope(syntheticFailure, if isError then Transcript.Failed else Transcript.Completed, None, executed.executionStarted));
    if envelope.None? {
      return None;
    }
    return Some(Committed(result, isError, envelope.value));
  }

  // ----- What the batch executors see of the call

  // The settlement of the call: a result whose real promise has not settled is still running.
  function SettlementOf(f: Committed, events: seq<RaceEvent>, terminate: bool): Executor.Settlement {
    Executor.Settlement(f.result.text, f.envelope.disposition, terminate, Settlements(events) == [])
  }

  // What finalization promises about the disposition.
  ghost predicate DisposedAs(executed: Executed, disposition: Transcript.Disposition) {
    && (executed.terminal == Some(Timeout) ==> disposition == Transcript.TimedOut)
    && (executed.terminal == Some(Aborted) ==> disposition == Transcript.Aborted)
    && (executed.terminal.None? ==> disposition in {Transcript.Completed, Transcript.Failed, Transcript.Aborted})
  }

  // The call's own result is the committed one, and it asks for the end of the turns when the tool does.
  lemma CommittedIsOwn(item: Executor.Item, events: seq<RaceEvent>, f: Committed, terminate: bool, m: Transcript.Message)
    requires item.plan.Planned? && item.authorization.Granted? && item.settlement == SettlementOf(f, events, terminate)
    requires Executor.OwnResult(m, item)
    ensures m.text == f.result.text && m.disposition == f.envelope.disposition && (Executor.AsksToEnd(item) <==> terminate)
  {
  }

  // A call stops its batch exactly when the timer decided its race and the tool never settled.
  lemma StopsBatchIff(item: Executor.Item, timeoutMs: real, events: seq<RaceEvent>, f: Committed, terminate: bool)
    requires Decide(timeoutMs, events) != Undecided && DisposedAs(ResultOf(Decide(timeoutMs, events)), f.envelope.disposition)
    requires item.plan.Planned? && item.authorization.Granted? && item.settlement == SettlementOf(f, events, terminate)
    ensures Executor.LeftRunning(item) <==>
            Decide(timeoutMs, events) == ByCause(Timeout) && Settlements(events) == []
  {
  }
}
