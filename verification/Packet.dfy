/** Work packets: the transition table and its runs, adjudication of a packet's runs, and how a
    verdict moves the packet (packages/adaptorch-wpl/src/state-machine.ts, adjudicator.ts,
    adjudicator-registry.ts, loop.ts). */
module Packet {
  import opened Sequences
  import opened Wrappers

  // ----- The state machine

  datatype State =
    | Drafted | Routed | AwaitingApproval | Dispatched | Active | Halting | RawTerminal | UnderReview
    | AdjudicationFailed | Confirmed | Declined | RetryQueued | Escalated | Closed

  function Transitions(from: State): set<State> {
    match from
    case Drafted => {Routed}
    case Routed => {AwaitingApproval, Dispatched}
    case AwaitingApproval => {Dispatched, Closed}
    case Dispatched => {Active, RawTerminal, Closed}
    case Active => {RawTerminal, Halting, Closed}
    case Halting => {RawTerminal, Closed}
    case RawTerminal => {UnderReview, AdjudicationFailed}
    case UnderReview => {AdjudicationFailed, Confirmed, Declined}
    case AdjudicationFailed => {UnderReview, Escalated}
    case Confirmed => {Closed}
    case Declined => {Escalated, RetryQueued, Closed}
    case RetryQueued => {Routed}
    case Escalated => {RetryQueued, Closed}
    case Closed => {}
  }

  predicate CanTransition(from: State, to: State) {
    to in Transitions(from)
  }

  datatype LogEntry = LogEntry(from: State, to: State, at: string, cause: string)

  datatype WorkPacket = WorkPacket(id: string, state: State, log: seq<LogEntry>, retryCount: int, maxDispatchAttempts: int)

  datatype Step = Step(to: State, cause: string, at: string)

  // None is the throw on an illegal transition.
  function ApplyTransition(p: WorkPacket, step: Step): (r: Option<WorkPacket>)
    ensures r.Some? <==> CanTransition(p.state, step.to)
    ensures r.Some? && WellLogged(p) ==> WellLogged(r.value)
    ensures r.Some? ==> && r.value == p.(state := step.to, log := r.value.log) && |r.value.log| == |p.log| + 1
                        && r.value.log[..|p.log|] == p.log
                        && r.value.log[|p.log|].from == p.state && r.value.log[|p.log|].to == step.to
                        && r.value.log[|p.log|].at == step.at && r.value.log[|p.log|].cause == step.cause
  {
    if !CanTransition(p.state, step.to) then None
    else Some(p.(state := step.to, log := p.log + [LogEntry(p.state, step.to, step.at, step.cause)]))
  }

  // Every entry is legal and starts where the one before it ended, from DRAFTED to the current state.
  ghost predicate WellLogged(p: WorkPacket) {
    && (forall i | 0 <= i < |p.log| :: CanTransition(p.log[i].from, p.log[i].to))
    && (forall i | 0 < i < |p.log| :: p.log[i].from == p.log[i - 1].to)
    && (if p.log == [] then p.state == Drafted
        else p.log[0].from == Drafted && p.log[|p.log| - 1].to == p.state)
  }

  function Entries(log: seq<LogEntry>, state: State): nat {
    if log == [] then 0
    else (if log[|log| - 1].to == state then 1 else 0) + Entries(log[..|log| - 1], state)
  }

  // How far a state lies from DRAFTED inside one lap, an entry to ADJUDICATION_FAILED counted as two.
  function Depth(s: State): nat {
    match s
    case Drafted => 0
    case Routed => 1
    case AwaitingApproval => 2
    case Dispatched => 3
    case Active => 4
    case Halting => 5
    case RawTerminal => 6
    case UnderReview => 7
    case AdjudicationFailed => 6
    case Confirmed => 8
    case Declined => 8
    case RetryQueued => 0
    case Escalated => 9
    case Closed => 10
  }

  lemma {:induction false} LogWithinDepth(p: WorkPacket)
    requires WellLogged(p)
    ensures |p.log| <= Depth(p.state) + 10 * Entries(p.log, RetryQueued) + 2 * Entries(p.log, AdjudicationFailed)
    decreases |p.log|
  {
    if p.log != [] {
      var n := |p.log| - 1;
      BeforeLast(p);
      LogWithinDepth(p.(log := p.log[..n], state := p.log[n].from));
      MoveDepth(p.log[n].from, p.log[n].to);
    }
  }

  lemma BeforeLast(p: WorkPacket)
    requires WellLogged(p) && p.log != []
    ensures var n := |p.log| - 1;
            WellLogged(p.(log := p.log[..n], state := p.log[n].from)) && CanTransition(p.log[n].from, p.log[n].to) && p.log[n].to == p.state
  {
    var n := |p.log| - 1;
    assert CanTransition(p.log[n].from, p.log[n].to);
    if n > 0 {
      assert p.log[n].from == p.log[n - 1].to;
    }
  }

  // A move gains at most one, a new lap and a failed adjudication paid for apart.
  lemma MoveDepth(from: State, to: State)
    requires CanTransition(from, to)
    ensures Depth(from) + 1 <= Depth(to) + (if to == RetryQueued then 10 else 0) + (if to == AdjudicationFailed then 2 else 0)
  {
  }

  // The number of transitions is bounded by the laps and the failed adjudications.
  lemma TransitionBound(p: WorkPacket)
    requires WellLogged(p)
    ensures |p.log| <= 10 + 10 * Entries(p.log, RetryQueued) + 2 * Entries(p.log, AdjudicationFailed)
  {
    LogWithinDepth(p);
  }

  // A run of the machine; None as soon as one step is illegal.
  function RunSteps(p: WorkPacket, steps: seq<Step>): (r: Option<WorkPacket>)
    ensures r.Some? && WellLogged(p) ==> WellLogged(r.value)
    ensures r.Some? ==> |r.value.log| == |p.log| + |steps|
    decreases |steps|
  {
    if steps == [] then Some(p)
    else
      match ApplyTransition(p, steps[0])
      case Some(q) => RunSteps(q, steps[1..])
      case None => None
  }

  ghost predicate Fresh(p: WorkPacket) {
    p.state == Drafted && p.log == []
  }

  // Every completed run from DRAFTED keeps a legal chained log and the bound.
  lemma {:induction false} EveryRunIsLogged(p: WorkPacket, steps: seq<Step>)
    requires Fresh(p) && RunSteps(p, steps).Some?
    ensures var q := RunSteps(p, steps).value;
            && WellLogged(q)
            && |steps| == |q.log| <= 10 + 10 * Entries(q.log, RetryQueued) + 2 * Entries(q.log, AdjudicationFailed)
  {
    TransitionBound(RunSteps(p, steps).value);
  }

  // A closed packet never moves again, and only a closed packet is stuck.
  lemma ClosedIsTheOnlyEnd(s: State)
    ensures (forall to :: !CanTransition(s, to)) <==> s == Closed
  {
    if s != Closed {
      var next := match s
        case Drafted => Routed
        case Routed => Dispatched
        case RawTerminal => UnderReview
        case UnderReview => Declined
        case AdjudicationFailed => Escalated
        case RetryQueued => Routed
        case _ => Closed;
      assert CanTransition(s, next);
    }
  }

  // ----- The bound is attained

  function To(s: State): Step {
    Step(s, "", "")
  }

  // One move more is counted once.
  lemma Move(p: WorkPacket, s: State) returns (q: WorkPacket)
    requires WellLogged(p) && CanTransition(p.state, s)
    ensures WellLogged(q) && q.state == s && |q.log| == |p.log| + 1
    ensures forall x: State :: Entries(q.log, x) == Entries(p.log, x) + if x == s then 1 else 0
  {
    q := ApplyTransition(p, To(s)).value;
    assert q.log[..|p.log|] == p.log;
  }

  // One more failed adjudication, taken under review.
  lemma FailOnce(p: WorkPacket) returns (q: WorkPacket)
    requires WellLogged(p) && p.state == UnderReview
    ensures WellLogged(q) && q.state == UnderReview && |q.log| == |p.log| + 2
    ensures Entries(q.log, RetryQueued) == Entries(p.log, RetryQueued)
    ensures Entries(q.log, AdjudicationFailed) == Entries(p.log, AdjudicationFailed) + 1
  {
    q := Move(p, AdjudicationFailed);
    q := Move(q, UnderReview);
  }

  ghost predicate SameCounts(a: seq<LogEntry>, b: seq<LogEntry>) {
    && Entries(a, RetryQueued) == Entries(b, RetryQueued)
    && Entries(a, AdjudicationFailed) == Entries(b, AdjudicationFailed)
  }

  lemma Advance(p: WorkPacket, s: State) returns (q: WorkPacket)
    requires WellLogged(p) && CanTransition(p.state, s) && s != RetryQueued && s != AdjudicationFailed
    ensures WellLogged(q) && q.state == s && |q.log| == |p.log| + 1 && SameCounts(q.log, p.log)
  {
    q := Move(p, s);
  }

  // The longest way from the start of a lap to its review.
  lemma ToReview(p: WorkPacket) returns (q: WorkPacket)
    requires WellLogged(p) && (p.state == Drafted || p.state == RetryQueued)
    ensures WellLogged(q) && q.state == UnderReview && |q.log| == |p.log| + 7 && SameCounts(q.log, p.log)
  {
    q := Advance(p, Routed);
    q := Advance(q, AwaitingApproval);
    q := Advance(q, Dispatched);
    q := Advance(q, Active);
    q := Advance(q, Halting);
    q := Advance(q, RawTerminal);
    q := Advance(q, UnderReview);
  }

  lemma {:induction false} LapsAndFailures(r: nat, f: nat) returns (q: WorkPacket)
    ensures WellLogged(q) && q.state == UnderReview && |q.log| == 7 + 10 * r + 2 * f
    ensures Entries(q.log, RetryQueued) == r && Entries(q.log, AdjudicationFailed) == f
    decreases r, f
  {
    if f > 0 {
      var p := LapsAndFailures(r, f - 1);
      q := FailOnce(p);
    } else if r > 0 {
      var p := LapsAndFailures(r - 1, 0);
      p := Advance(p, Declined);
      p := Advance(p, Escalated);
      p := Move(p, RetryQueued);
      q := ToReview(p);
    } else {
      q := ToReview(WorkPacket("", Drafted, [], 0, 0));
    }
  }

  // No smaller bound would do, for any number of laps and failures.
  lemma BoundAttained(r: nat, f: nat) returns (q: WorkPacket)
    ensures WellLogged(q) && q.state == Closed && |q.log| == 10 + 10 * r + 2 * f
    ensures Entries(q.log, RetryQueued) == r && Entries(q.log, AdjudicationFailed) == f
  {
    q := LapsAndFailures(r, f);
    q := Advance(q, Declined);
    q := Advance(q, Escalated);
    q := Advance(q, Closed);
  }

  // ----- Reason codes and verdicts, worst first

  datatype ReasonCode =
    | ScopeViolation | SchemaDrift | ContentCheckFailed | NoEvidenceOnSuccess | EmptyArtifactContent
    | TraceCheckFailed | TraceErrorSpan | MinActionsUnmet | RunStatusUnparseable | RunFetchFailed
    | MalformedRequest | RunNotTerminal | EvidenceEmpty | FailureReported | AllChecksPassed

  const REASON_CODES: seq<ReasonCode> := [
    ScopeViolation, SchemaDrift, ContentCheckFailed, NoEvidenceOnSuccess, EmptyArtifactContent,
    TraceCheckFailed, TraceErrorSpan, MinActionsUnmet, RunStatusUnparseable, RunFetchFailed,
    MalformedRequest, RunNotTerminal, EvidenceEmpty, FailureReported, AllChecksPassed]

  function Severity(code: ReasonCode): (k: nat)
    ensures k < |REASON_CODES| && REASON_CODES[k] == code
  {
    match code
    case ScopeViolation => 0
    case SchemaDrift => 1
    case ContentCheckFailed => 2
    case NoEvidenceOnSuccess => 3
    case EmptyArtifactContent => 4
    case TraceCheckFailed => 5
    case TraceErrorSpan => 6
    case MinActionsUnmet => 7
    case RunStatusUnparseable => 8
    case RunFetchFailed => 9
    case MalformedRequest => 10
    case RunNotTerminal => 11
    case EvidenceEmpty => 12
    case FailureReported => 13
    case AllChecksPassed => 14
  }

  ghost predicate IsWorstCode(codes: seq<ReasonCode>, worst: ReasonCode) {
    && (codes == [] ==> worst == AllChecksPassed)
    && (codes != [] ==> worst in codes)
    && forall c | c in codes :: Severity(worst) <= Severity(c)
  }

  method ReduceReasonCodes(codes: seq<ReasonCode>) returns (worst: ReasonCode)
    ensures IsWorstCode(codes, worst)
  {
    for k := 0 to |REASON_CODES|
      invariant forall i | 0 <= i < k :: REASON_CODES[i] !in codes
    {
      if REASON_CODES[k] in codes {
        SeverityOf(k);
        return REASON_CODES[k];
      }
    }
    NoCodeLeft(codes);
    return AllChecksPassed;
  }

  lemma NoCodeLeft(codes: seq<ReasonCode>)
    requires forall i | 0 <= i < |REASON_CODES| :: REASON_CODES[i] !in codes
    ensures codes == []
  {
    forall c: ReasonCode
      ensures c !in codes
    {
      assert REASON_CODES[Severity(c)] == c;
    }
    FirstIsMember(codes);
  }

  lemma SeverityOf(k: nat)
    requires k < |REASON_CODES|
    ensures Severity(REASON_CODES[k]) == k
  {
  }

  datatype VerdictState = VerifierError | Contradicted | CorroboratedFailure | Indeterminate | AllConfirmed

  function VerdictRank(v: VerdictState): nat {
    match v
    case VerifierError => 0
    case Contradicted => 1
    case CorroboratedFailure => 2
    case Indeterminate => 3
    case AllConfirmed => 4
  }

  datatype RunVerdict = RunVerdict(runId: string, verdict: VerdictState, code: ReasonCode)

  ghost predicate IsWorstVerdict(perRun: seq<RunVerdict>, worst: VerdictState) {
    && (exists r | r in perRun :: r.verdict == worst)
    && forall r | r in perRun :: VerdictRank(worst) <= VerdictRank(r.verdict)
  }

  predicate AnyRun(perRun: seq<RunVerdict>, v: VerdictState) {
    exists r | r in perRun :: r.verdict == v
  }

  function ReduceVerdicts(perRun: seq<RunVerdict>): (worst: VerdictState)
    ensures perRun != [] ==> IsWorstVerdict(perRun, worst)
    ensures perRun == [] ==> worst == AllConfirmed
  {
    assert perRun != [] ==> perRun[0] in perRun;
    if AnyRun(perRun, VerifierError) then VerifierError
    else if AnyRun(perRun, Contradicted) then Contradicted
    else if AnyRun(perRun, CorroboratedFailure) then CorroboratedFailure
    else if AnyRun(perRun, Indeterminate) then Indeterminate
    else AllConfirmed
  }

  // The codes of the runs that share the record's verdict.
  function CodesOf(perRun: seq<RunVerdict>, verdict: VerdictState): (codes: seq<ReasonCode>)
    ensures forall c :: c in codes <==> exists r | r in perRun :: r.verdict == verdict && r.code == c
  {
    if perRun == [] then []
    else
      var rest := CodesOf(perRun[1..], verdict);
      assert perRun == [perRun[0]] + perRun[1..];
      if perRun[0].verdict == verdict then [perRun[0].code] + rest else rest
  }

  // ----- Adjudicating one run

  datatype CheckResult = CheckResult(ok: bool, code: Option<ReasonCode>)

  datatype StatusBranch = NonTerminal | Success | Failure | Unparseable

  datatype Artifact = Artifact(content: string, hasSubstance: bool)

  datatype Span = Span(isErrorSpan: bool, hasMarker: bool, isAction: bool)

  // What the client answers for a run: a throw anywhere in the sequence, or its three payloads.
  datatype Fetch = Threw | Fetched(branch: StatusBranch, artifacts: seq<Artifact>, traces: seq<Span>)

  datatype RegistryEntry = RegistryEntry(
    allowZeroArtifacts: bool, noEvidenceIsContradiction: bool, expectedMinActions: int,
    contentCheck: Option<Artifact -> CheckResult>, traceCheck: Option<seq<Span> -> CheckResult>)

  function CountErrorSpans(traces: seq<Span>): nat {
    if traces == [] then 0
    else (if traces[|traces| - 1].isErrorSpan then 1 else 0) + CountErrorSpans(traces[..|traces| - 1])
  }

  function CountMarked(traces: seq<Span>, actionsOnly: bool): nat {
    if traces == [] then 0
    else
      var last := traces[|traces| - 1];
      (if last.hasMarker && (actionsOnly ==> last.isAction) then 1 else 0) + CountMarked(traces[..|traces| - 1], actionsOnly)
  }

  // The spans that are marked as actions, or all of them when none carries a marker.
  method CountActionSpans(traces: seq<Span>) returns (count: nat)
    ensures count == ActionSpans(traces)
  {
    var recognized, matched := 0, 0;
    for k := 0 to |traces|
      invariant recognized == CountMarked(traces[..k], false) && matched == CountMarked(traces[..k], true)
    {
      assert traces[..k + 1][..k] == traces[..k];
      if traces[k].hasMarker {
        recognized := recognized + 1;
        if traces[k].isAction {
          matched := matched + 1;
        }
      }
    }
    assert traces[..|traces|] == traces;
    return if recognized > 0 then matched else |traces|;
  }

  function ActionSpans(traces: seq<Span>): nat {
    if CountMarked(traces, false) > 0 then CountMarked(traces, true) else |traces|
  }

  method CountErrors(traces: seq<Span>) returns (count: nat)
    ensures count == CountErrorSpans(traces)
    ensures count > 0 <==> exists t | t in traces :: t.isErrorSpan
  {
    count := 0;
    for k := 0 to |traces|
      invariant count == CountErrorSpans(traces[..k])
      invariant count > 0 <==> exists i | 0 <= i < k :: traces[i].isErrorSpan
    {
      assert traces[..k + 1][..k] == traces[..k];
      if traces[k].isErrorSpan {
        count := count + 1;
      }
    }
    assert traces[..|traces|] == traces;
  }

  predicate ContentFails(entry: RegistryEntry, a: Artifact) {
    entry.contentCheck.Some? && !entry.contentCheck.value(a).ok
  }

  function ContentCode(entry: RegistryEntry, a: Artifact): ReasonCode
    requires entry.contentCheck.Some?
  {
    var code := entry.contentCheck.value(a).code;
    if code.Some? then code.value else ContentCheckFailed
  }

  predicate TraceFails(entry: RegistryEntry, traces: seq<Span>) {
    entry.traceCheck.Some? && !entry.traceCheck.value(traces).ok
  }

  function TraceCode(entry: RegistryEntry, traces: seq<Span>): ReasonCode
    requires entry.traceCheck.Some?
  {
    var code := entry.traceCheck.value(traces).code;
    if code.Some? then code.value else TraceCheckFailed
  }

  // The problems a reported success with evidence can have.
  ghost predicate Problem(entry: RegistryEntry, artifacts: seq<Artifact>, traces: seq<Span>, code: ReasonCode) {
    || (code == EmptyArtifactContent && exists a | a in artifacts :: !a.hasSubstance)
    || (exists a | a in artifacts :: ContentFails(entry, a) && code == ContentCode(entry, a))
    || (TraceFails(entry, traces) && code == TraceCode(entry, traces))
    || (code == TraceErrorSpan && exists t | t in traces :: t.isErrorSpan)
    || (code == MinActionsUnmet && 0 < entry.expectedMinActions && ActionSpans(traces) < entry.expectedMinActions)
  }

  ghost predicate TooThin(entry: RegistryEntry, artifacts: seq<Artifact>, traces: seq<Span>) {
    (artifacts == [] && !entry.allowZeroArtifacts) || traces == []
  }

  ghost predicate RunJudged(entry: RegistryEntry, fetch: Fetch, verdict: VerdictState, code: ReasonCode) {
    match fetch
    case Threw => verdict == VerifierError && code == RunFetchFailed
    case Fetched(branch, artifacts, traces) =>
      if branch == Unparseable then verdict == VerifierError && code == RunStatusUnparseable
      else if branch == NonTerminal then verdict == Indeterminate && code == RunNotTerminal
      else if TooThin(entry, artifacts, traces) then
        if branch == Success && artifacts == [] && traces == [] && entry.noEvidenceIsContradiction then
          verdict == Contradicted && code == NoEvidenceOnSuccess
        else verdict == Indeterminate && code == EvidenceEmpty
      else if branch == Failure then verdict == CorroboratedFailure && code == FailureReported
      else if exists c :: Problem(entry, artifacts, traces, c) then
        && verdict == Contradicted && Problem(entry, artifacts, traces, code)
        && forall c | Problem(entry, artifacts, traces, c) :: Severity(code) <= Severity(c)
      else verdict == AllConfirmed && code == AllChecksPassed
  }

  method CollectProblems(entry: RegistryEntry, artifacts: seq<Artifact>, traces: seq<Span>) returns (problems: seq<ReasonCode>)
    ensures forall c :: c in problems <==> Problem(entry, artifacts, traces, c)
  {
    problems := [];
    if exists a | a in artifacts :: !a.hasSubstance {
      problems := problems + [EmptyArtifactContent];
    }
    if entry.contentCheck.Some? {
      ghost var before := problems;
      for k := 0 to |artifacts|
        invariant forall c :: c in problems <==>
                    (c in before || exists i | 0 <= i < k :: ContentFails(entry, artifacts[i]) && c == ContentCode(entry, artifacts[i]))
      {
        var result := entry.contentCheck.value(artifacts[k]);
        if !result.ok {
          problems := problems + [if result.code.Some? then result.code.value else ContentCheckFailed];
        }
      }
    }
    if entry.traceCheck.Some? {
      var result := entry.traceCheck.value(traces);
      if !result.ok {
        problems := problems + [if result.code.Some? then result.code.value else TraceCheckFailed];
      }
    }
    var errorSpans := CountErrors(traces);
    if errorSpans > 0 {
      problems := problems + [TraceErrorSpan];
    }
    if entry.expectedMinActions > 0 {
      var actions := CountActionSpans(traces);
      if actions < entry.expectedMinActions {
        problems := problems + [MinActionsUnmet];
      }
    }
  }

  method AdjudicateRun(runId: string, entry: RegistryEntry, fetch: Fetch) returns (r: RunVerdict)
    ensures r.runId == runId && RunJudged(entry, fetch, r.verdict, r.code)
  {
    match fetch {
      case Threw =>
        return RunVerdict(runId, VerifierError, RunFetchFailed);
      case Fetched(branch, artifacts, traces) =>
        if branch == Unparseable {
          return RunVerdict(runId, VerifierError, RunStatusUnparseable);
        }
        if branch == NonTerminal {
          return RunVerdict(runId, Indeterminate, RunNotTerminal);
        }
        var artifactsEmpty, tracesEmpty := |artifacts| == 0, |traces| == 0;
        if (artifactsEmpty && !entry.allowZeroArtifacts) || tracesEmpty {
          if branch == Success && artifactsEmpty && tracesEmpty && entry.noEvidenceIsContradiction {
            return RunVerdict(runId, Contradicted, NoEvidenceOnSuccess);
          }
          return RunVerdict(runId, Indeterminate, EvidenceEmpty);
        }
        if branch != Success {
          return RunVerdict(runId, CorroboratedFailure, FailureReported);
        }
        var problems := CollectProblems(entry, artifacts, traces);
        if |problems| > 0 {
          assert problems[0] in problems;
          var code := ReduceReasonCodes(problems);
          return RunVerdict(runId, Contradicted, code);
        }
        return RunVerdict(runId, AllConfirmed, AllChecksPassed);
    }
  }

  // ----- The record

  datatype Adjudication = Adjudication(verdict: VerdictState, code: ReasonCode, perRun: seq<RunVerdict>)

  datatype Request = Request(kind: string, runIds: seq<string>)

  // The record is the worst verdict of its runs, with the worst code among the runs that share it.
  ghost predicate Reduced(r: Adjudication) {
    && IsWorstVerdict(r.perRun, r.verdict)
    && IsWorstCode(CodesOf(r.perRun, r.verdict), r.code)
  }

  method Adjudicate(request: Request, entry: RegistryEntry, fetches: map<string, Fetch>) returns (r: Adjudication)
    requires forall id | id in request.runIds :: id in fetches
    ensures request.kind == "" || request.runIds == [] ==> r == Adjudication(VerifierError, MalformedRequest, [])
    ensures request.kind != "" && request.runIds != [] ==>
              && |r.perRun| == |request.runIds|
              && Reduced(r)
              && forall i | 0 <= i < |request.runIds| ::
                   && r.perRun[i].runId == request.runIds[i]
                   && RunJudged(entry, fetches[request.runIds[i]], r.perRun[i].verdict, r.perRun[i].code)
  {
    if request.kind == "" || |request.runIds| == 0 {
      return Adjudication(VerifierError, MalformedRequest, []);
    }
    var outcomes: seq<RunVerdict> := [];
    for k := 0 to |request.runIds|
      invariant |outcomes| == k
      invariant forall i | 0 <= i < k ::
                  && outcomes[i].runId == request.runIds[i]
                  && RunJudged(entry, fetches[request.runIds[i]], outcomes[i].verdict, outcomes[i].code)
    {
      var outcome := AdjudicateRun(request.runIds[k], entry, fetches[request.runIds[k]]);
      outcomes := outcomes + [outcome];
    }
    var verdict := ReduceVerdicts(outcomes);
    var code := ReduceReasonCodes(CodesOf(outcomes, verdict));
    return Adjudication(verdict, code, outcomes);
  }

  // ----- From verdict to the packet's next state

  datatype NextAction = RetrySameTopology | Reroute | Escalate | NoAction

  datatype Disposition = Disposition(target: State, action: NextAction)

  datatype ContradictedClass = EscalateClass | RerouteOnRecurrence | RetryClass

  function ContradictedDispositionClass(code: ReasonCode): ContradictedClass {
    match code
    case ScopeViolation => EscalateClass
    case SchemaDrift => RerouteOnRecurrence
    case ContentCheckFailed => RerouteOnRecurrence
    case _ => RetryClass
  }

  function ProjectVerdictToDisposition(r: Adjudication, p: WorkPacket): Disposition {
    match r.verdict
    case AllConfirmed => Disposition(Confirmed, NoAction)
    case CorroboratedFailure => Disposition(Declined, RetrySameTopology)
    case Contradicted =>
      (match ContradictedDispositionClass(r.code)
       case EscalateClass => Disposition(Declined, Escalate)
       case RerouteOnRecurrence => Disposition(Declined, if p.retryCount >= 1 then Reroute else RetrySameTopology)
       case RetryClass => Disposition(Declined, RetrySameTopology))
    case Indeterminate => Disposition(Declined, Escalate)
    case VerifierError => Disposition(Declined, Escalate)
  }

  function DecideNextTransition(p: WorkPacket, d: Disposition): State {
    if d.action == Escalate then Escalated
    else if d.target == Confirmed then Confirmed
    else if p.retryCount < p.maxDispatchAttempts then RetryQueued else Closed
  }

  function HandleAdjudicationFailure(attempts: int, maxAttempts: int): State {
    if attempts < maxAttempts then UnderReview else Escalated
  }

  // The next state of a reviewed packet, through its projected disposition.
  function NextState(p: WorkPacket, r: Adjudication): State {
    DecideNextTransition(p, ProjectVerdictToDisposition(r, p))
  }

  // Whatever the verdict, the projected moves are legal ones.
  lemma ProjectedMovesAreLegal(p: WorkPacket, r: Adjudication, attempts: int, maxAttempts: int)
    ensures var d := ProjectVerdictToDisposition(r, p);
            && CanTransition(UnderReview, d.target)
            && (if d.target == Confirmed then NextState(p, r) == Confirmed else CanTransition(Declined, NextState(p, r)))
    ensures CanTransition(AdjudicationFailed, HandleAdjudicationFailure(attempts, maxAttempts))
    ensures HandleAdjudicationFailure(attempts, maxAttempts) == if attempts < maxAttempts then UnderReview else Escalated
  {
  }

  predicate OutOfScope(run: RunVerdict) {
    run.verdict == Contradicted && run.code == ScopeViolation
  }

  // A run could not be verified or left its scope, or nothing worse than an undecided run was found.
  ghost predicate Escalates(perRun: seq<RunVerdict>) {
    || (exists run | run in perRun :: run.verdict == VerifierError || OutOfScope(run))
    || (AnyRun(perRun, Indeterminate) && !AnyRun(perRun, Contradicted) && !AnyRun(perRun, CorroboratedFailure))
  }

  // Exactly when a record escalates, in terms of its runs: the budget plays no part.
  lemma {:induction false} EscalatesExactly(p: WorkPacket, r: Adjudication)
    requires Reduced(r)
    ensures NextState(p, r) == Escalated <==> Escalates(r.perRun)
  {
    var codes := CodesOf(r.perRun, r.verdict);
    if run :| run in r.perRun && OutOfScope(run) && r.verdict == Contradicted {
      assert run.code in codes;
      assert Severity(r.code) <= Severity(ScopeViolation);
    }
    if r.verdict == Contradicted && r.code == ScopeViolation {
      var sharing :| sharing in r.perRun && sharing.verdict == Contradicted;
      assert sharing.code in codes;
      assert r.code in codes;
    }
  }

  // A scope violation of one run escalates whatever the other runs and the budget are.
  lemma {:induction false} ScopeViolationEscalates(p: WorkPacket, r: Adjudication, run: RunVerdict)
    requires Reduced(r) && run in r.perRun && OutOfScope(run)
    ensures NextState(p, r) == Escalated
  {
    EscalatesExactly(p, r);
  }

  // A packet is confirmed exactly when every run is; one that is not and does not escalate is queued
  // again while budget remains, and closed without.
  lemma {:induction false} ConfirmedExactly(p: WorkPacket, r: Adjudication)
    requires Reduced(r)
    ensures NextState(p, r) == Confirmed <==> forall run | run in r.perRun :: run.verdict == AllConfirmed
    ensures NextState(p, r) == RetryQueued <==>
            && (exists run | run in r.perRun :: run.verdict != AllConfirmed)
            && !Escalates(r.perRun) && p.retryCount < p.maxDispatchAttempts
    ensures NextState(p, r) == Closed <==>
            && (exists run | run in r.perRun :: run.verdict != AllConfirmed)
            && !Escalates(r.perRun) && p.retryCount >= p.maxDispatchAttempts
  {
    EscalatesExactly(p, r);
    if r.verdict != AllConfirmed {
      var sharing :| sharing in r.perRun && sharing.verdict == r.verdict;
    }
  }

  // A run was contradicted by drift of its schema or its content.
  ghost predicate Drifted(run: RunVerdict) {
    run.verdict == Contradicted && (run.code == SchemaDrift || run.code == ContentCheckFailed)
  }

  // A topology is given up for another exactly when drift recurs and nothing worse was found.
  lemma {:induction false} ReroutesExactly(p: WorkPacket, r: Adjudication)
    requires Reduced(r)
    ensures ProjectVerdictToDisposition(r, p).action == Reroute <==>
            && p.retryCount >= 1 && (exists run | run in r.perRun :: Drifted(run))
            && forall run | run in r.perRun :: run.verdict != VerifierError && !OutOfScope(run)
  {
    var codes := CodesOf(r.perRun, r.verdict);
    forall run | run in r.perRun && run.verdict == r.verdict
      ensures run.code in codes
    {
    }
    if r.verdict == Contradicted {
      var sharing :| sharing in r.perRun && sharing.verdict == Contradicted;
      assert r.code in codes;
      var worst :| worst in r.perRun && worst.verdict == Contradicted && worst.code == r.code;
    }
  }
}
