/** The client side of the streaming proxy: the line reader over decoded text and the partial
    message rebuilt from its events (packages/agent/src/proxy.ts). */
module Proxy {
  import opened Wrappers
  import opened Text

  // ----- Events and the partial message

  datatype ProseKind = TextKind | ThinkingKind

  datatype ProxyEvent =
    | Start
    | ProseStart(index: nat, kind: ProseKind)
    | ProseDelta(index: nat, kind: ProseKind, delta: string)
    | ProseEnd(index: nat, kind: ProseKind, signature: Option<string>)
    | ToolStart(index: nat, id: string, name: string)
    | ToolDelta(index: nat, delta: string)
    | ToolEnd(index: nat)
    | Done(reason: string, usage: string)
    | Failed(reason: string, message: string, usage: string)
    | Unhandled(kind_: string)

  datatype Block =
    | Prose(kind: ProseKind, text: string, signature: Option<string>)
    | Tool(id: string, name: string, arguments: string, partialJson: Option<string>)

  datatype StreamEvent =
    | Started
    | ProseStarted(index: nat, kind: ProseKind)
    | ProseGrew(index: nat, kind: ProseKind, delta: string)
    | ProseEnded(index: nat, kind: ProseKind, content: string)
    | ToolStarted(index: nat)
    | ToolGrew(index: nat, delta: string)
    | ToolEnded(index: nat, call: Block)
    | MessageDone(reason: string)
    | MessageFailed(reason: string)

  // The content array may have holes, hence a map.
  datatype State = State(content: map<nat, Block>, stopReason: string, errorMessage: Option<string>, usage: string)

  const INITIAL := State(map[], "stop", None, "")

  // JSON.parse and the tolerant parser of tool arguments are code outside this file.
  datatype Codec = Codec(parse: string -> Parsed, arguments: string -> string)

  datatype Parsed = Event(event: ProxyEvent) | Malformed(message: string)

  datatype StepResult = Stepped(state: State, emitted: seq<StreamEvent>) | Throws(message: string)

  function PutBlock(s: State, index: nat, b: Block): State {
    s.(content := s.content[index := b])
  }

  // What one event does; `undefined` in a JavaScript concatenation reads as a word.
  function Step(codec: Codec, s: State, e: ProxyEvent): StepResult {
    match e
    case Start => Stepped(s, [Started])
    case ProseStart(i, kind) => Stepped(PutBlock(s, i, Prose(kind, "", None)), [ProseStarted(i, kind)])
    case ProseDelta(i, kind, delta) =>
      if IsProse(s, i, kind) then
        Stepped(PutBlock(s, i, s.content[i].(text := s.content[i].text + delta)), [ProseGrew(i, kind, delta)])
      else Throws("delta for content of another type")
    case ProseEnd(i, kind, signature) =>
      if IsProse(s, i, kind) then
        Stepped(PutBlock(s, i, s.content[i].(signature := signature)), [ProseEnded(i, kind, s.content[i].text)])
      else Throws("end for content of another type")
    case ToolStart(i, id, name) => Stepped(PutBlock(s, i, Tool(id, name, "{}", Some(""))), [ToolStarted(i)])
    case ToolDelta(i, delta) =>
      if i in s.content && s.content[i].Tool? then
        var json := (if s.content[i].partialJson.Some? then s.content[i].partialJson.value else "undefined") + delta;
        Stepped(PutBlock(s, i, s.content[i].(partialJson := Some(json), arguments := codec.arguments(json))), [ToolGrew(i, delta)])
      else Throws("delta for content of another type")
    case ToolEnd(i) =>
      if i in s.content && s.content[i].Tool? then
        var call := s.content[i].(partialJson := None);
        Stepped(PutBlock(s, i, call), [ToolEnded(i, call)])
      else Stepped(s, [])
    case Done(reason, usage) => Stepped(s.(stopReason := reason, usage := usage), [MessageDone(reason)])
    case Failed(reason, message, usage) =>
      Stepped(s.(stopReason := reason, errorMessage := Some(message), usage := usage), [MessageFailed(reason)])
    case Unhandled(_) => Stepped(s, [])
  }

  predicate IsProse(s: State, i: nat, kind: ProseKind) {
    i in s.content && s.content[i].Prose? && s.content[i].kind == kind
  }

  function RunEvents(codec: Codec, s: State, events: seq<ProxyEvent>): StepResult {
    if events == [] then Stepped(s, [])
    else
      match RunEvents(codec, s, events[..|events| - 1])
      case Throws(m) => Throws(m)
      case Stepped(t, emitted) =>
        match Step(codec, t, events[|events| - 1])
        case Throws(m) => Throws(m)
        case Stepped(u, more) => Stepped(u, emitted + more)
  }

  // ----- Blocks in terms of the events alone

  datatype Opened = ProseOpened(kind: ProseKind) | ToolOpened(id: string, name: string)

  // What the last start event at an index opened.
  function LastStart(events: seq<ProxyEvent>, i: nat): Option<Opened> {
    if events == [] then None
    else
      match events[|events| - 1]
      case ProseStart(j, kind) => if i == j then Some(ProseOpened(kind)) else LastStart(events[..|events| - 1], i)
      case ToolStart(j, id, name) => if i == j then Some(ToolOpened(id, name)) else LastStart(events[..|events| - 1], i)
      case _ => LastStart(events[..|events| - 1], i)
  }

  // The deltas at an index since its last start event, joined.
  function DeltasSince(events: seq<ProxyEvent>, i: nat): string {
    if events == [] then ""
    else
      var front := DeltasSince(events[..|events| - 1], i);
      match events[|events| - 1]
      case ProseStart(j, _) => if i == j then "" else front
      case ToolStart(j, _, _) => if i == j then "" else front
      case ProseDelta(j, _, delta) => if i == j then front + delta else front
      case ToolDelta(j, delta) => if i == j then front + delta else front
      case _ => front
  }

  // The signature of the last end at an index since its last start.
  function SignatureSince(events: seq<ProxyEvent>, i: nat): Option<string> {
    if events == [] then None
    else
      var front := SignatureSince(events[..|events| - 1], i);
      match events[|events| - 1]
      case ProseStart(j, _) => if i == j then None else front
      case ProseEnd(j, _, signature) => if i == j then signature else front
      case _ => front
  }

  // The last event of the tool call at an index is its end.
  predicate Closed(events: seq<ProxyEvent>, i: nat) {
    if events == [] then false
    else
      var front := Closed(events[..|events| - 1], i);
      match events[|events| - 1]
      case ToolStart(j, _, _) => i != j && front
      case ToolDelta(j, _) => i != j && front
      case ToolEnd(j) => i == j || front
      case _ => front
  }

  predicate GrewSince(events: seq<ProxyEvent>, i: nat) {
    if events == [] then false
    else
      var front := GrewSince(events[..|events| - 1], i);
      match events[|events| - 1]
      case ToolStart(j, _, _) => i != j && front
      case ToolDelta(j, _) => i == j || front
      case _ => front
  }

  // A delta of the tool call at an index came after an end of it, since its last start.
  predicate ResumedSince(events: seq<ProxyEvent>, i: nat) {
    if events == [] then false
    else
      var front := ResumedSince(events[..|events| - 1], i);
      match events[|events| - 1]
      case ToolStart(j, _, _) => i != j && front
      case ToolDelta(j, _) => front || (i == j && Closed(events[..|events| - 1], i))
      case _ => front
  }

  // The text the arguments at an index are parsed from: the deltas since the last start, or after an
  // end the word for a missing text and the deltas since that end.
  function ToolJson(events: seq<ProxyEvent>, i: nat): string {
    if events == [] then ""
    else
      var before := events[..|events| - 1];
      match events[|events| - 1]
      case ToolStart(j, _, _) => if i == j then "" else ToolJson(before, i)
      case ToolDelta(j, delta) =>
        if i != j then ToolJson(before, i)
        else if Closed(before, i) then "undefined" + delta
        else ToolJson(before, i) + delta
      case _ => ToolJson(before, i)
  }

  function ToolArguments(codec: Codec, events: seq<ProxyEvent>, i: nat): string {
    if GrewSince(events, i) then codec.arguments(ToolJson(events, i)) else "{}"
  }

  // The block an index holds after the events, as its last start and what followed determine it.
  ghost predicate BlockMatches(codec: Codec, content: map<nat, Block>, events: seq<ProxyEvent>, i: nat) {
    match LastStart(events, i)
    case None => i !in content
    case Some(ProseOpened(kind)) =>
      i in content && content[i] == Prose(kind, DeltasSince(events, i), SignatureSince(events, i))
    case Some(ToolOpened(id, name)) =>
      && i in content
      && content[i] == Tool(id, name, ToolArguments(codec, events, i), if Closed(events, i) then None else Some(ToolJson(events, i)))
  }

  predicate OpensTool(start: Option<Opened>) {
    start.Some? && start.value.ToolOpened?
  }

  // A delta or an end that does not fit the block its index holds.
  predicate Misplaced(before: seq<ProxyEvent>, e: ProxyEvent) {
    match e
    case ProseDelta(i, kind, _) => LastStart(before, i) != Some(ProseOpened(kind))
    case ProseEnd(i, kind, _) => LastStart(before, i) != Some(ProseOpened(kind))
    case ToolDelta(i, _) => !OpensTool(LastStart(before, i))
    case _ => false
  }

  lemma {:induction false} StepKeepsBlock(codec: Codec, s: State, before: seq<ProxyEvent>, e: ProxyEvent, i: nat)
    requires AllMatch(codec, s.content, before)
    requires Step(codec, s, e).Stepped?
    ensures BlockMatches(codec, Step(codec, s, e).state.content, before + [e], i)
  {
    assert (before + [e])[..|before|] == before;
    assert BlockMatches(codec, s.content, before, i);
  }

  ghost predicate AllMatch(codec: Codec, content: map<nat, Block>, events: seq<ProxyEvent>) {
    forall i: nat :: BlockMatches(codec, content, events, i)
  }

  predicate MisplacedAt(events: seq<ProxyEvent>, k: nat)
    requires k < |events|
  {
    Misplaced(events[..k], events[k])
  }

  predicate HasMisplaced(events: seq<ProxyEvent>) {
    exists k | 0 <= k < |events| :: MisplacedAt(events, k)
  }

  lemma HasMisplacedLast(events: seq<ProxyEvent>, e: ProxyEvent)
    ensures HasMisplaced(events + [e]) <==> HasMisplaced(events) || Misplaced(events, e)
  {
    var all := events + [e];
    forall k | 0 <= k < |events|
      ensures MisplacedAt(all, k) <==> MisplacedAt(events, k)
    {
      assert all[..k] == events[..k];
    }
    assert all[..|events|] == events;
    assert MisplacedAt(all, |events|) <==> Misplaced(events, e);
  }

  // Every block is its last start and the deltas since, and a run fails exactly when it holds a
  // misplaced event.
  lemma {:induction false} BlocksAreDeltas(codec: Codec, events: seq<ProxyEvent>)
    ensures RunEvents(codec, INITIAL, events).Throws? <==> HasMisplaced(events)
    ensures RunEvents(codec, INITIAL, events).Stepped? ==> AllMatch(codec, RunEvents(codec, INITIAL, events).state.content, events)
  {
    if events != [] {
      var n := |events| - 1;
      var front, e := events[..n], events[n];
      assert front + [e] == events;
      BlocksAreDeltas(codec, front);
      HasMisplacedLast(front, e);
      var r := RunEvents(codec, INITIAL, front);
      if r.Stepped? {
        StepKeepsAll(codec, r.state, front, e);
      }
    }
  }

  lemma {:induction false} StepKeepsAll(codec: Codec, s: State, before: seq<ProxyEvent>, e: ProxyEvent)
    requires AllMatch(codec, s.content, before)
    ensures Step(codec, s, e).Throws? <==> Misplaced(before, e)
    ensures Step(codec, s, e).Stepped? ==> AllMatch(codec, Step(codec, s, e).state.content, before + [e])
  {
    StepThrows(codec, s, before, e);
    if Step(codec, s, e).Stepped? {
      forall i: nat
        ensures BlockMatches(codec, Step(codec, s, e).state.content, before + [e], i)
      {
        StepKeepsBlock(codec, s, before, e, i);
      }
    }
  }

  lemma StepThrows(codec: Codec, s: State, before: seq<ProxyEvent>, e: ProxyEvent)
    requires AllMatch(codec, s.content, before)
    ensures Step(codec, s, e).Throws? <==> Misplaced(before, e)
  {
    match e
    case ProseDelta(i, _, _) => assert BlockMatches(codec, s.content, before, i);
    case ProseEnd(i, _, _) => assert BlockMatches(codec, s.content, before, i);
    case ToolDelta(i, _) => assert BlockMatches(codec, s.content, before, i);
    case _ =>
  }

  // What an end event reports is what was streamed since the block's start.
  lemma {:induction false} EndReportsDeltas(codec: Codec, events: seq<ProxyEvent>, i: nat, kind: ProseKind, signature: Option<string>)
    requires RunEvents(codec, INITIAL, events + [ProseEnd(i, kind, signature)]).Stepped?
    ensures var emitted := RunEvents(codec, INITIAL, events + [ProseEnd(i, kind, signature)]).emitted;
            emitted != [] && emitted[|emitted| - 1] == ProseEnded(i, kind, DeltasSince(events, i))
  {
    var all := events + [ProseEnd(i, kind, signature)];
    assert all[..|all| - 1] == events;
    BlocksAreDeltas(codec, events);
    var r := RunEvents(codec, INITIAL, events);
    assert BlockMatches(codec, r.state.content, events, i);
  }

  // Without a delta after an end, the text of a tool call's arguments is all its deltas.
  lemma {:induction false} JsonIsDeltas(events: seq<ProxyEvent>, i: nat)
    requires !HasMisplaced(events) && OpensTool(LastStart(events, i)) && !ResumedSince(events, i)
    ensures ToolJson(events, i) == DeltasSince(events, i) && (!GrewSince(events, i) ==> DeltasSince(events, i) == "")
  {
    if events != [] {
      var n := |events| - 1;
      var front, e := events[..n], events[n];
      assert front + [e] == events;
      HasMisplacedLast(front, e);
      if !(e.ToolStart? && e.index == i) {
        JsonIsDeltas(front, i);
      }
    }
  }

  // A finished tool call is the one its start named, with the arguments all its deltas spell, and its
  // end event reports exactly that call.
  lemma {:induction false} FinishedTool(codec: Codec, events: seq<ProxyEvent>, i: nat)
    requires RunEvents(codec, INITIAL, events + [ToolEnd(i)]).Stepped?
    requires OpensTool(LastStart(events, i)) && !ResumedSince(events, i)
    ensures var r := RunEvents(codec, INITIAL, events + [ToolEnd(i)]);
            var start := LastStart(events, i).value;
            var arguments := if GrewSince(events, i) then codec.arguments(DeltasSince(events, i)) else "{}";
            var call := Tool(start.id, start.name, arguments, None);
            && i in r.state.content && r.state.content[i] == call
            && r.emitted != [] && r.emitted[|r.emitted| - 1] == ToolEnded(i, call)
  {
    var all := events + [ToolEnd(i)];
    assert all[..|all| - 1] == events;
    BlocksAreDeltas(codec, events);
    JsonIsDeltas(events, i);
    assert BlockMatches(codec, RunEvents(codec, INITIAL, events).state.content, events, i);
  }

  // ----- What is emitted, and how the message ends

  // What one event is answered with, in terms of the events before it.
  function Echo(codec: Codec, before: seq<ProxyEvent>, e: ProxyEvent): seq<StreamEvent> {
    match e
    case Start => [Started]
    case ProseStart(i, kind) => [ProseStarted(i, kind)]
    case ProseDelta(i, kind, delta) => [ProseGrew(i, kind, delta)]
    case ProseEnd(i, kind, _) => [ProseEnded(i, kind, DeltasSince(before, i))]
    case ToolStart(i, _, _) => [ToolStarted(i)]
    case ToolDelta(i, delta) => [ToolGrew(i, delta)]
    case ToolEnd(i) =>
      if OpensTool(LastStart(before, i)) then
        var start := LastStart(before, i).value;
        [ToolEnded(i, Tool(start.id, start.name, ToolArguments(codec, before, i), None))]
      else []
    case Done(reason, _) => [MessageDone(reason)]
    case Failed(reason, _, _) => [MessageFailed(reason)]
    case Unhandled(_) => []
  }

  function Echoes(codec: Codec, events: seq<ProxyEvent>): seq<StreamEvent> {
    if events == [] then []
    else
      var before := events[..|events| - 1];
      Echoes(codec, before) + Echo(codec, before, events[|events| - 1])
  }

  // The reason and the usage the last end of the message gave, if it has ended.
  function LastEnd(events: seq<ProxyEvent>): Option<(string, string)> {
    if events == [] then None
    else
      match events[|events| - 1]
      case Done(reason, usage) => Some((reason, usage))
      case Failed(reason, _, usage) => Some((reason, usage))
      case _ => LastEnd(events[..|events| - 1])
  }

  // The message of the last failure, if any.
  function LastFailure(events: seq<ProxyEvent>): Option<string> {
    if events == [] then None
    else
      var e := events[|events| - 1];
      if e.Failed? then Some(e.message) else LastFailure(events[..|events| - 1])
  }

  // Every event is answered as its block stands.
  lemma {:induction false} EmittedAreEchoes(codec: Codec, events: seq<ProxyEvent>)
    requires RunEvents(codec, INITIAL, events).Stepped?
    ensures RunEvents(codec, INITIAL, events).emitted == Echoes(codec, events)
  {
    if events != [] {
      var n := |events| - 1;
      var front, e := events[..n], events[n];
      EmittedAreEchoes(codec, front);
      BlocksAreDeltas(codec, front);
      StepEchoes(codec, RunEvents(codec, INITIAL, front).state, front, e);
    }
  }

  // The message ends as its last end and its last failure say.
  lemma {:induction false} EndsAsToldLast(codec: Codec, events: seq<ProxyEvent>)
    requires RunEvents(codec, INITIAL, events).Stepped?
    ensures var s := RunEvents(codec, INITIAL, events).state;
            && s.errorMessage == LastFailure(events)
            && (s.stopReason, s.usage) == if LastEnd(events).Some? then LastEnd(events).value else ("stop", "")
  {
    if events != [] {
      EndsAsToldLast(codec, events[..|events| - 1]);
    }
  }

  lemma StepEchoes(codec: Codec, s: State, before: seq<ProxyEvent>, e: ProxyEvent)
    requires AllMatch(codec, s.content, before) && Step(codec, s, e).Stepped?
    ensures Step(codec, s, e).emitted == Echo(codec, before, e)
  {
    if e.ProseEnd? || e.ToolEnd? {
      assert BlockMatches(codec, s.content, before, e.index);
    }
  }

  // ----- Lines

  // The text's lines but the last, which no newline has ended yet.
  function CompleteLines(text: string): seq<string> {
    var pieces := SplitOn(text, '\n');
    pieces[..|pieces| - 1]
  }

  function Tail(text: string): string {
    var pieces := SplitOn(text, '\n');
    pieces[|pieces| - 1]
  }

  const PREFIX := "data: "

  // The payload of a line, None when the line carries none.
  function Payload(line: string): Option<string> {
    if |line| >= |PREFIX| && line[..|PREFIX|] == PREFIX then
      var data := Trim(line[|PREFIX|..]);
      if data == "" then None else Some(data)
    else None
  }

  datatype Outcome = Outcome(state: State, pushed: seq<StreamEvent>, error: Option<string>)

  // One line after another until one throws.
  function Consume(codec: Codec, lines: seq<string>): Outcome {
    if lines == [] then Outcome(INITIAL, [], None)
    else ConsumeLine(codec, Consume(codec, lines[..|lines| - 1]), lines[|lines| - 1])
  }

  function ConsumeLine(codec: Codec, before: Outcome, line: string): Outcome {
    if before.error.Some? || Payload(line).None? then before
    else
      match codec.parse(Payload(line).value)
      case Malformed(message) => before.(error := Some(message))
      case Event(e) =>
        match Step(codec, before.state, e)
        case Throws(message) => before.(error := Some(message))
        case Stepped(state, emitted) => Outcome(state, before.pushed + emitted, None)
  }

  // After an error nothing more is consumed.
  lemma {:induction false} ConsumeStops(codec: Codec, lines: seq<string>, more: seq<string>)
    requires Consume(codec, lines).error.Some?
    ensures Consume(codec, lines + more) == Consume(codec, lines)
  {
    if more == [] {
      assert lines + more == lines;
    } else {
      var n := |more| - 1;
      assert (lines + more)[..|lines| + n] == lines + more[..n];
      ConsumeStops(codec, lines, more[..n]);
    }
  }

  // The events the lines carry, as far as they parse.
  function EventsOf(codec: Codec, lines: seq<string>): seq<ProxyEvent> {
    if lines == [] then []
    else
      var front, payload := EventsOf(codec, lines[..|lines| - 1]), Payload(lines[|lines| - 1]);
      if payload.Some? && codec.parse(payload.value).Event? then front + [codec.parse(payload.value).event] else front
  }

  predicate HasMalformed(codec: Codec, lines: seq<string>) {
    exists k | 0 <= k < |lines| :: MalformedAt(codec, lines, k)
  }

  predicate MalformedAt(codec: Codec, lines: seq<string>, k: nat)
    requires k < |lines|
  {
    Payload(lines[k]).Some? && codec.parse(Payload(lines[k]).value).Malformed?
  }

  // The lines are consumed without error exactly when none is malformed and no event is misplaced, and
  // then the message and what was pushed are those of their events.
  lemma {:induction false} ConsumeIsRun(codec: Codec, lines: seq<string>)
    ensures Consume(codec, lines).error.None? <==> !HasMalformed(codec, lines) && !HasMisplaced(EventsOf(codec, lines))
    ensures var o, events := Consume(codec, lines), EventsOf(codec, lines);
            o.error.None? ==> RunEvents(codec, INITIAL, events) == Stepped(o.state, o.pushed)
                              && AllMatch(codec, o.state.content, events) && o.pushed == Echoes(codec, events)
  {
    LinesAreRun(codec, lines);
    if Consume(codec, lines).error.None? {
      BlocksAreDeltas(codec, EventsOf(codec, lines));
      EmittedAreEchoes(codec, EventsOf(codec, lines));
    }
  }

  lemma {:induction false} LinesAreRun(codec: Codec, lines: seq<string>)
    ensures Consume(codec, lines).error.None? <==> !HasMalformed(codec, lines) && !HasMisplaced(EventsOf(codec, lines))
    ensures Consume(codec, lines).error.None? ==>
              RunEvents(codec, INITIAL, EventsOf(codec, lines)) == Stepped(Consume(codec, lines).state, Consume(codec, lines).pushed)
  {
    if lines != [] {
      var n := |lines| - 1;
      var front, line := lines[..n], lines[n];
      LinesAreRun(codec, front);
      MalformedLast(codec, front, line, lines);
      if Payload(line).Some? && codec.parse(Payload(line).value).Event? {
        var before, e := EventsOf(codec, front), codec.parse(Payload(line).value).event;
        HasMisplacedLast(before, e);
        if Consume(codec, front).error.None? {
          EventConsumed(codec, Consume(codec, front), before, e, line);
        }
      }
    }
  }

  lemma EventConsumed(codec: Codec, o: Outcome, before: seq<ProxyEvent>, e: ProxyEvent, line: string)
    requires o.error.None? && RunEvents(codec, INITIAL, before) == Stepped(o.state, o.pushed)
    requires Payload(line).Some? && codec.parse(Payload(line).value) == Event(e)
    ensures var next := ConsumeLine(codec, o, line);
            && (next.error.None? <==> !HasMisplaced(before + [e]))
            && (next.error.None? ==> RunEvents(codec, INITIAL, before + [e]) == Stepped(next.state, next.pushed))
  {
    var events := before + [e];
    assert events[..|before|] == before && events[|before|] == e;
    BlocksAreDeltas(codec, events);
  }

  lemma MalformedLast(codec: Codec, front: seq<string>, line: string, lines: seq<string>)
    requires lines == front + [line]
    ensures HasMalformed(codec, lines) <==>
            HasMalformed(codec, front) || (Payload(line).Some? && codec.parse(Payload(line).value).Malformed?)
  {
    assert forall k | 0 <= k < |front| :: MalformedAt(codec, lines, k) <==> MalformedAt(codec, front, k);
    assert lines[|front|] == line;
    assert MalformedAt(codec, lines, |front|) <==> Payload(line).Some? && codec.parse(Payload(line).value).Malformed?;
  }

  // A chunk completes the open line; the lines it completes are split off.
  lemma {:induction false} ChunkLines(text: string, chunk: string)
    ensures var pieces := SplitOn(Tail(text) + chunk, '\n');
            && CompleteLines(text + chunk) == CompleteLines(text) + pieces[..|pieces| - 1]
            && Tail(text + chunk) == pieces[|pieces| - 1]
  {
    var l, r := SplitOn(text, '\n'), SplitOn(chunk, '\n');
    var front, tail := l[..|l| - 1], l[|l| - 1];
    SplitOnConcat(text, chunk, '\n');
    TailSplits(text, chunk);
    MeetLast(l, r);
    var pieces := Meet([tail], r);
    assert SplitOn(text + chunk, '\n') == front + pieces;
    DropLast(front, pieces);
  }

  // The open line holds no line break.
  lemma {:induction false} TailSplits(text: string, chunk: string)
    ensures SplitOn(Tail(text) + chunk, '\n') == Meet([Tail(text)], SplitOn(chunk, '\n'))
  {
    var l, tail := SplitOn(text, '\n'), Tail(text);
    SplitOnPieces(text, '\n');
    assert tail in l;
    SplitOnFree(tail, '\n');
    SplitOnConcat(tail, chunk, '\n');
  }

  lemma DropLast<T>(a: seq<T>, b: seq<T>)
    requires b != []
    ensures (a + b)[..|a + b| - 1] == a + b[..|b| - 1] && (a + b)[|a + b| - 1] == b[|b| - 1]
  {
  }

  function Joined(chunks: seq<string>): string {
    if chunks == [] then "" else Joined(chunks[..|chunks| - 1]) + chunks[|chunks| - 1]
  }

  // ----- The reader loop

  // The partial message every event shares, updated in place.
  class Partial {
    var content: map<nat, Block>
    var stopReason: string
    var errorMessage: Option<string>
    var usage: string

    constructor ()
      ensures Value() == INITIAL
    {
      content, stopReason, errorMessage, usage := map[], "stop", None, "";
    }

    function Value(): State
      reads this
    {
      State(content, stopReason, errorMessage, usage)
    }

    method ProcessProxyEvent(codec: Codec, e: ProxyEvent) returns (emitted: seq<StreamEvent>, thrown: Option<string>)
      modifies this
      ensures match Step(codec, old(Value()), e)
              case Throws(message) => thrown == Some(message) && Value() == old(Value()) && emitted == []
              case Stepped(state, more) => thrown == None && Value() == state && emitted == more
    {
      match e {
        case Start =>
          return [Started], None;
        case ProseStart(i, kind) =>
          content := content[i := Prose(kind, "", None)];
          return [ProseStarted(i, kind)], None;
        case ProseDelta(i, kind, delta) =>
          if i in content && content[i].Prose? && content[i].kind == kind {
            content := content[i := content[i].(text := content[i].text + delta)];
            return [ProseGrew(i, kind, delta)], None;
          }
          return [], Some("delta for content of another type");
        case ProseEnd(i, kind, signature) =>
          if i in content && content[i].Prose? && content[i].kind == kind {
            content := content[i := content[i].(signature := signature)];
            return [ProseEnded(i, kind, content[i].text)], None;
          }
          return [], Some("end for content of another type");
        case ToolStart(i, id, name) =>
          content := content[i := Tool(id, name, "{}", Some(""))];
          return [ToolStarted(i)], None;
        case ToolDelta(i, delta) =>
          if i in content && content[i].Tool? {
            var json := (if content[i].partialJson.Some? then content[i].partialJson.value else "undefined") + delta;
            content := content[i := content[i].(partialJson := Some(json), arguments := codec.arguments(json))];
            return [ToolGrew(i, delta)], None;
          }
          return [], Some("delta for content of another type");
        case ToolEnd(i) =>
          if i in content && content[i].Tool? {
            content := content[i := content[i].(partialJson := None)];
            return [ToolEnded(i, content[i])], None;
          }
          return [], None;
        case Done(reason, usage') =>
          stopReason, usage := reason, usage';
          return [MessageDone(reason)], None;
        case Failed(reason, message, usage') =>
          stopReason, errorMessage, usage := reason, Some(message), usage';
          return [MessageFailed(reason)], None;
        case Unhandled(_) =>
          return [], None;
      }
    }

    method Fail(reason: string, message: string)
      modifies this
      ensures Value() == old(Value()).(stopReason := reason, errorMessage := Some(message))
    {
      stopReason, errorMessage := reason, Some(message);
    }
  }

  lemma OneLineMore(done: seq<string>, lines: seq<string>, k: nat)
    requires k < |lines|
    ensures var upTo := done + lines[..k + 1];
            && upTo[..|upTo| - 1] == done + lines[..k] && upTo[|upTo| - 1] == lines[k]
            && done + lines == upTo + lines[k + 1..]
  {
    assert lines[..k + 1][..k] == lines[..k];
  }

  // The lines one read completes.
  method ConsumeLines(codec: Codec, partial: Partial, lines: seq<string>, ghost done: seq<string>, before: seq<StreamEvent>)
    returns (pushed: seq<StreamEvent>, thrown: Option<string>)
    requires Consume(codec, done) == Outcome(partial.Value(), before, None)
    modifies partial
    ensures Consume(codec, done + lines) == Outcome(partial.Value(), pushed, thrown)
  {
    pushed := before;
    assert done + lines[..0] == done;
    for k := 0 to |lines|
      invariant Consume(codec, done + lines[..k]) == Outcome(partial.Value(), pushed, None)
    {
      ghost var upTo := done + lines[..k + 1];
      OneLineMore(done, lines, k);
      var payload := Payload(lines[k]);
      if payload.Some? {
        match codec.parse(payload.value) {
          case Malformed(message) =>
            ConsumeStops(codec, upTo, lines[k + 1..]);
            return pushed, Some(message);
          case Event(e) =>
            var emitted, failure := partial.ProcessProxyEvent(codec, e);
            if failure.Some? {
              ConsumeStops(codec, upTo, lines[k + 1..]);
              return pushed, failure;
            }
            pushed := pushed + emitted;
        }
      }
    }
    assert done + lines[..|lines|] == done + lines;
    return pushed, None;
  }

  // One read: what it completes is consumed, the open line stays in the buffer.
  method ReadChunk(codec: Codec, partial: Partial, buffer: string, chunk: string, before: seq<StreamEvent>, ghost text: string)
    returns (rest: string, pushed: seq<StreamEvent>, thrown: Option<string>)
    requires buffer == Tail(text) && Consume(codec, CompleteLines(text)) == Outcome(partial.Value(), before, None)
    modifies partial
    ensures rest == Tail(text + chunk)
    ensures Consume(codec, CompleteLines(text + chunk)) == Outcome(partial.Value(), pushed, thrown)
  {
    ChunkLines(text, chunk);
    var pieces := SplitOn(buffer + chunk, '\n');
    rest := pieces[|pieces| - 1];
    pushed, thrown := ConsumeLines(codec, partial, pieces[..|pieces| - 1], CompleteLines(text), before);
  }

  // The text read before the signal is found aborted; the number of reads stands for the last check.
  function TextSeen(chunks: seq<string>, abortAt: Option<nat>): string {
    Joined(if abortAt.Some? && abortAt.value <= |chunks| then chunks[..abortAt.value] else chunks)
  }

  // streamProxy after the response has opened, on its decoded chunks. The outcome depends on the
  // text before the abort only, not on how it was cut into chunks.
  method StreamProxy(codec: Codec, chunks: seq<string>, abortAt: Option<nat>) returns (final: State, pushed: seq<StreamEvent>)
    ensures var o := Consume(codec, CompleteLines(TextSeen(chunks, abortAt)));
            if o.error.Some? then
              && final == o.state.(stopReason := "error", errorMessage := o.error) && pushed == o.pushed + [MessageFailed("error")]
            else if abortAt.Some? && abortAt.value <= |chunks| then
              && final == o.state.(stopReason := "aborted", errorMessage := Some("Request aborted by user"))
              && pushed == o.pushed + [MessageFailed("aborted")]
            else final == o.state && pushed == o.pushed
  {
    var partial := new Partial();
    var buffer, k := "", 0;
    pushed := [];
    while k < |chunks|
      invariant fresh(partial) && k <= |chunks|
      invariant abortAt.Some? ==> k <= abortAt.value
      invariant buffer == Tail(Joined(chunks[..k]))
      invariant Consume(codec, CompleteLines(Joined(chunks[..k]))) == Outcome(partial.Value(), pushed, None)
    {
      if abortAt == Some(k) {
        break;
      }
      assert chunks[..k + 1][..k] == chunks[..k];
      var thrown;
      buffer, pushed, thrown := ReadChunk(codec, partial, buffer, chunks[k], pushed, Joined(chunks[..k]));
      k := k + 1;
      if thrown.Some? {
        ErrorSeen(codec, chunks, k, abortAt);
        partial.Fail("error", thrown.value);
        return partial.Value(), pushed + [MessageFailed("error")];
      }
    }
    assert chunks[..|chunks|] == chunks;
    if abortAt == Some(k) {
      partial.Fail("aborted", "Request aborted by user");
      pushed := pushed + [MessageFailed("aborted")];
    }
    final := partial.Value();
  }

  lemma ErrorSeen(codec: Codec, chunks: seq<string>, k: nat, abortAt: Option<nat>)
    requires k <= |chunks| && Consume(codec, CompleteLines(Joined(chunks[..k]))).error.Some?
    requires abortAt.Some? ==> k <= abortAt.value
    ensures Consume(codec, CompleteLines(TextSeen(chunks, abortAt))) == Consume(codec, CompleteLines(Joined(chunks[..k])))
  {
    if abortAt.Some? && abortAt.value <= |chunks| {
      assert chunks[..abortAt.value][..k] == chunks[..k];
      ErrorStays(codec, chunks[..abortAt.value], k);
    } else {
      ErrorStays(codec, chunks, k);
    }
  }

  lemma ChunkAfterError(codec: Codec, text: string, chunk: string)
    requires Consume(codec, CompleteLines(text)).error.Some?
    ensures Consume(codec, CompleteLines(text + chunk)) == Consume(codec, CompleteLines(text))
  {
    ChunkLines(text, chunk);
    var pieces := SplitOn(Tail(text) + chunk, '\n');
    ConsumeStops(codec, CompleteLines(text), pieces[..|pieces| - 1]);
  }

  lemma {:induction false} ErrorStays(codec: Codec, chunks: seq<string>, k: nat)
    requires k <= |chunks| && Consume(codec, CompleteLines(Joined(chunks[..k]))).error.Some?
    ensures Consume(codec, CompleteLines(Joined(chunks))) == Consume(codec, CompleteLines(Joined(chunks[..k])))
    decreases |chunks|
  {
    if k == |chunks| {
      assert chunks[..k] == chunks;
    } else {
      var n := |chunks| - 1;
      assert chunks[..n][..k] == chunks[..k];
      ErrorStays(codec, chunks[..n], k);
      ChunkAfterError(codec, Joined(chunks[..n]), chunks[n]);
    }
  }

  // What a well-formed server sends decodes back to its events: one line per payload.
  function Encode(payloads: seq<string>): string {
    if payloads == [] then "" else Encode(payloads[..|payloads| - 1]) + PREFIX + payloads[|payloads| - 1] + "\n"
  }

  ghost predicate PlainPayload(p: string) {
    p != "" && '\n' !in p && Trim(p) == p
  }

  // The events of a stream are those of its payloads, in order; an unterminated rest adds nothing.
  lemma {:induction false} EncodedLines(payloads: seq<string>, rest: string)
    requires forall p | p in payloads :: PlainPayload(p)
    requires '\n' !in rest
    ensures var lines := CompleteLines(Encode(payloads) + rest);
            |lines| == |payloads| && forall i | 0 <= i < |lines| :: Payload(lines[i]) == Some(payloads[i])
  {
    ChunkLines(Encode(payloads), rest);
    EncodedWhole(payloads);
    assert Tail(Encode(payloads)) + rest == rest;
    SplitOnFree(rest, '\n');
    assert SplitOn(rest, '\n')[..0] == [];
  }

  lemma LineAdded(text: string, line: string)
    requires Tail(text) == "" && '\n' !in line
    ensures CompleteLines(text + (line + "\n")) == CompleteLines(text) + [line]
    ensures Tail(text + (line + "\n")) == ""
  {
    ChunkLines(text, line + "\n");
    assert "" + (line + "\n") == line + "\n";
    SplitOnConcat(line, "\n", '\n');
    SplitOnFree(line, '\n');
    assert SplitOn("\n", '\n') == [[], []];
    assert line + [] == line && [line][..0] == [];
    assert Meet([line], [[], []]) == [line, []];
  }

  // Space around a payload does not count.
  lemma PaddedPayload(before: string, p: string, after: string)
    requires IsBlank(before) && IsBlank(after) && PlainPayload(p)
    ensures Payload(PREFIX + (before + p + after)) == Some(p)
  {
    TrimExactly(before, p, after);
    assert (PREFIX + (before + p + after))[..|PREFIX|] == PREFIX && (PREFIX + (before + p + after))[|PREFIX|..] == before + p + after;
  }

  // Nor does the carriage return of a line that ends with one.
  lemma CarriageReturn(p: string)
    requires PlainPayload(p)
    ensures Payload(PREFIX + (p + "\r")) == Some(p)
  {
    PaddedPayload("", p, "\r");
    assert "" + p + "\r" == p + "\r";
  }

  lemma PayloadOfLine(p: string)
    requires PlainPayload(p)
    ensures '\n' !in PREFIX + p && Payload(PREFIX + p) == Some(p)
  {
    assert (PREFIX + p)[..|PREFIX|] == PREFIX && (PREFIX + p)[|PREFIX|..] == p;
    assert '\n' !in PREFIX;
  }

  lemma {:induction false} EncodedWhole(payloads: seq<string>)
    requires forall p | p in payloads :: PlainPayload(p)
    ensures var lines := CompleteLines(Encode(payloads));
            && |lines| == |payloads| && Tail(Encode(payloads)) == ""
            && forall i | 0 <= i < |lines| :: Payload(lines[i]) == Some(payloads[i])
  {
    if payloads != [] {
      var n := |payloads| - 1;
      var front, p := payloads[..n], payloads[n];
      EncodedWhole(front);
      PayloadOfLine(p);
      assert Encode(payloads) == Encode(front) + ((PREFIX + p) + "\n");
      LineAdded(Encode(front), PREFIX + p);
    }
  }
}
