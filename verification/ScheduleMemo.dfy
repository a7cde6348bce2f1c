/** The bounded per-run memo of dag schedules (packages/agent/src/agent-loop.ts:886-955). */
module ScheduleMemo {
  import opened Wrappers
  import opened PlanRequest
  import opened PlanKey
  import Resolver

  const DAG_SCHEDULE_CACHE_LIMIT: nat := 64

  // A plan as callers hold it: every level is a mutable array.
  datatype HeldPlan = HeldPlan(levels: seq<array<nat>>, planKey: string)

  function LevelValues(levels: seq<array<nat>>): (r: seq<seq<nat>>)
    reads set l | l in levels
    ensures |r| == |levels| && forall k | 0 <= k < |levels| :: r[k] == levels[k][..]
  {
    seq(|levels|, k requires 0 <= k < |levels| reads set l | l in levels => levels[k][..])
  }

  function Value(plan: HeldPlan): PlanValue
    reads set l | l in plan.levels
  {
    PlanValue(LevelValues(plan.levels), plan.planKey)
  }

  // The plan in its arrays has the value.
  ghost predicate Holds(plan: HeldPlan, value: PlanValue)
    reads set l | l in plan.levels
  {
    && plan.planKey == value.planKey && |plan.levels| == |value.levels|
    && forall i | 0 <= i < |plan.levels| :: plan.levels[i][..] == value.levels[i]
  }

  lemma HoldsIsValue(plan: HeldPlan, value: PlanValue)
    ensures Holds(plan, value) <==> Value(plan) == value
  {
  }

  // Copies of every level.
  method CopyLevels(levels: seq<seq<nat>>) returns (copy: seq<array<nat>>)
    ensures LevelValues(copy) == levels
    ensures forall l | l in copy :: fresh(l)
  {
    copy := [];
    for k := 0 to |levels|
      invariant |copy| == k && (forall l | l in copy :: fresh(l))
      invariant forall j | 0 <= j < k :: copy[j][..] == levels[j]
    {
      var level := levels[k];
      var a := new nat[|level|](i requires 0 <= i < |level| => level[i]);
      assert a[..] == level;
      copy := copy + [a];
    }
  }

  // ----- Least recent use over a history of keys

  function Without(keys: seq<string>, key: string): seq<string> {
    if keys == [] then []
    else if keys[0] == key then keys[1..]
    else [keys[0]] + Without(keys[1..], key)
  }

  // The distinct keys of a history in the order of their last use.
  function ByLastUse(history: seq<string>): seq<string> {
    if history == [] then []
    else
      var last := history[|history| - 1];
      Without(ByLastUse(history[..|history| - 1]), last) + [last]
  }

  function LastN(keys: seq<string>, n: nat): seq<string> {
    if |keys| <= n then keys else keys[|keys| - n..]
  }

  ghost predicate Unique(keys: seq<string>) {
    forall i, j | 0 <= i < j < |keys| :: keys[i] != keys[j]
  }

  lemma {:induction false} WithoutFacts(keys: seq<string>, key: string)
    requires Unique(keys)
    ensures Unique(Without(keys, key))
    ensures forall k :: k in Without(keys, key) <==> k in keys && k != key
    ensures |Without(keys, key)| == if key in keys then |keys| - 1 else |keys|
    ensures key !in keys ==> Without(keys, key) == keys
  {
    if keys != [] {
      var rest := keys[1..];
      assert forall i | 0 <= i < |rest| :: rest[i] == keys[i + 1];
      WithoutFacts(rest, key);
      assert keys == [keys[0]] + rest;
      assert keys[0] !in rest;
      if keys[0] != key {
        var w := Without(rest, key);
        assert forall i | 0 <= i < |w| :: w[i] in w;
      }
    }
  }

  lemma {:induction false} WithoutConcat(a: seq<string>, b: seq<string>, key: string)
    ensures Without(a + b, key) == if key in a then Without(a, key) + b else a + Without(b, key)
  {
    if a == [] {
      assert a + b == b && [] + Without(b, key) == Without(b, key);
    } else {
      assert (a + b)[1..] == a[1..] + b;
      WithoutConcat(a[1..], b, key);
      if a[0] == key {
        assert Without(a, key) == a[1..];
      } else {
        assert [a[0]] + (a[1..] + Without(b, key)) == a + Without(b, key);
        assert [a[0]] + (Without(a[1..], key) + b) == [a[0]] + Without(a[1..], key) + b;
      }
    }
  }

  lemma {:induction false} ByLastUseUnique(history: seq<string>)
    ensures Unique(ByLastUse(history))
    ensures forall k :: k in ByLastUse(history) <==> k in history
  {
    if history != [] {
      var init, last := history[..|history| - 1], history[|history| - 1];
      ByLastUseUnique(init);
      WithoutFacts(ByLastUse(init), last);
      assert history == init + [last];
      var w := Without(ByLastUse(init), last);
      assert forall i | 0 <= i < |w| :: w[i] in w;
    }
  }

  lemma {:induction false} SplitLast(all: seq<string>, n: nat) returns (older: seq<string>, kept: seq<string>)
    requires Unique(all)
    ensures all == older + kept && kept == LastN(all, n) && |kept| <= n && (|kept| < n ==> older == [])
    ensures Unique(kept) && forall k | k in kept :: k !in older
  {
    kept := LastN(all, n);
    older := all[..|all| - |kept|];
    assert forall i | 0 <= i < |kept| :: kept[i] == all[|older| + i];
    assert forall i | 0 <= i < |older| :: older[i] == all[i];
  }

  lemma LastOfConcat(older: seq<string>, kept: seq<string>, n: nat)
    requires |kept| == n || (|kept| <= n && older == [])
    ensures LastN(older + kept, n) == kept
  {
    assert older + kept == (if older == [] then kept else older + kept);
  }

  // A cache hit: the used key moves to the end.
  lemma {:induction false} HitKeepsLast(all: seq<string>, key: string, n: nat)
    requires Unique(all) && n >= 1 && key in LastN(all, n)
    ensures LastN(Without(all, key) + [key], n) == Without(LastN(all, n), key) + [key]
  {
    var older, kept := SplitLast(all, n);
    WithoutConcat(older, kept, key);
    WithoutFacts(kept, key);
    var moved := Without(kept, key) + [key];
    assert older + Without(kept, key) + [key] == older + moved;
    LastOfConcat(older, moved, n);
  }

  // A miss: the least recently used key leaves a full cache.
  lemma {:induction false} MissKeepsLast(all: seq<string>, key: string, n: nat)
    requires Unique(all) && n >= 1 && key !in LastN(all, n)
    ensures LastN(Without(all, key) + [key], n) ==
            (if |LastN(all, n)| >= n then LastN(all, n)[1..] else LastN(all, n)) + [key]
  {
    var older, kept := SplitLast(all, n);
    WithoutConcat(older, kept, key);
    WithoutFacts(kept, key);
    var before := if key in older then Without(older, key) else older;
    assert Without(all, key) == before + kept;
    AppendKeepsLast(before, kept, key, n);
  }

  lemma {:induction false} AppendKeepsLast(before: seq<string>, kept: seq<string>, key: string, n: nat)
    requires n >= 1 && |kept| <= n && (|kept| < n ==> before == [])
    ensures LastN(before + kept + [key], n) == (if |kept| >= n then kept[1..] else kept) + [key]
  {
    if |kept| >= n {
      assert before + kept + [key] == (before + [kept[0]]) + (kept[1..] + [key]);
      LastOfConcat(before + [kept[0]], kept[1..] + [key], n);
    } else {
      assert before + kept + [key] == [] + (kept + [key]);
      LastOfConcat([], kept + [key], n);
    }
  }

  // ----- The memo

  // A request with its key and its plan.
  datatype Record = Record(request: Request, key: string, plan: PlanValue)

  ghost predicate IsRecord(answers: Answers, r: Record) {
    r.key == Key(r.request) && r.request.options.resourceKeyResolver.None? && r.plan == PlanOf(answers, r.request)
  }

  ghost function Genuine(answers: Answers): iset<Record> {
    iset r: Record | IsRecord(answers, r)
  }

  // A JavaScript Map as the cache uses it: its entries in insertion order.
  datatype Entry = Entry(key: string, plan: HeldPlan)

  ghost function Arrays(entries: seq<Entry>): set<array<nat>> {
    set i, l | 0 <= i < |entries| && l in entries[i].plan.levels :: l
  }

  // The entry holds the plan of the record under its key.
  ghost predicate Stands(e: Entry, r: Record)
    reads set l | l in e.plan.levels
  {
    e.key == r.key && Holds(e.plan, r.plan)
  }

  ghost predicate AllIn(records: seq<Record>, genuine: iset<Record>) {
    forall i | 0 <= i < |records| :: records[i] in genuine
  }

  // What the cache is known by: the keys asked for, and for each entry the record it was computed as.
  datatype Book = Book(history: seq<string>, records: seq<Record>)

  function KeysOf(records: seq<Record>): (r: seq<string>)
    ensures |r| == |records| && forall i | 0 <= i < |r| :: r[i] == records[i].key
  {
    seq(|records|, i requires 0 <= i < |records| => records[i].key)
  }

  // The entries are the plans used last.
  ghost predicate Keeps(entries: seq<Entry>, book: Book)
    reads Arrays(entries)
  {
    && KeysOf(book.records) == LastN(ByLastUse(book.history), DAG_SCHEDULE_CACHE_LIMIT)
    && |entries| == |book.records| && forall i | 0 <= i < |entries| :: Stands(entries[i], book.records[i])
  }

  function Find(entries: seq<Entry>, key: string): (r: Option<nat>)
    ensures r.Some? ==> r.value < |entries| && entries[r.value].key == key
    ensures r.None? ==> forall e | e in entries :: e.key != key
  {
    if entries == [] then None
    else if entries[|entries| - 1].key == key then Some(|entries| - 1)
    else Find(entries[..|entries| - 1], key)
  }

  // The record under a key, if there is one.
  function RecordOf(records: seq<Record>, key: string): Option<Record> {
    if records == [] then None
    else if records[|records| - 1].key == key then Some(records[|records| - 1])
    else RecordOf(records[..|records| - 1], key)
  }

  lemma {:induction false} FindRecord(entries: seq<Entry>, records: seq<Record>, key: string)
    requires |entries| == |records| && forall i | 0 <= i < |entries| :: entries[i].key == records[i].key
    ensures match Find(entries, key)
            case None => RecordOf(records, key) == None
            case Some(i) => RecordOf(records, key) == Some(records[i])
  {
    if entries != [] && entries[|entries| - 1].key != key {
      var n := |entries| - 1;
      assert forall i | 0 <= i < n :: entries[..n][i] == entries[i] && records[..n][i] == records[i];
      FindRecord(entries[..n], records[..n], key);
    }
  }

  lemma {:induction false} RecordOfFacts(records: seq<Record>, key: string)
    ensures RecordOf(records, key).Some? ==> RecordOf(records, key).value in records && RecordOf(records, key).value.key == key
  {
    if records != [] && records[|records| - 1].key != key {
      RecordOfFacts(records[..|records| - 1], key);
    }
  }

  // The request whose plan a request is served: an earlier one with its key, or itself.
  ghost function Source(records: seq<Record>, request: Request): Request {
    var r := RecordOf(records, Key(request));
    if request.options.resourceKeyResolver.None? && r.Some? then r.value.request else request
  }

  // What a plan of its own would be recorded as for a request.
  ghost function OwnRecords(answers: Answers, request: Request): iset<Record> {
    iset r: Record | IsOwn(answers, request, r)
  }

  ghost predicate IsOwn(answers: Answers, request: Request, r: Record) {
    r == Record(request, Key(request), PlanOf(answers, request))
  }

  // The plan served is that of its source, and with no extension that looks at the ids the request's own.
  lemma SourcePlan(answers: Answers, records: seq<Record>, request: Request)
    requires AllIn(records, Genuine(answers))
    ensures var r := RecordOf(records, Key(request));
            request.options.resourceKeyResolver.None? && r.Some? ==> r.value.plan == PlanOf(answers, Source(records, request))
    ensures IgnoresIds(answers, request.options) ==> PlanOf(answers, Source(records, request)) == PlanOf(answers, request)
  {
    var key := Key(request);
    RecordOfFacts(records, key);
    if request.options.resourceKeyResolver.None? && RecordOf(records, key).Some? {
      var r := RecordOf(records, key).value;
      var i :| 0 <= i < |records| && records[i] == r;
      assert records[i] in Genuine(answers) && IsRecord(answers, r);
      if IgnoresIds(answers, request.options) {
        KeyDeterminesPlan(answers, request, r.request);
      }
    }
  }

  // ----- Hits and misses

  // cache.delete(key); cache.set(key, cached)
  function MovedLast<T>(s: seq<T>, i: nat): seq<T>
    requires i < |s|
  {
    s[..i] + s[i + 1..] + [s[i]]
  }

  lemma {:induction false} WithoutAt(keys: seq<string>, i: nat)
    requires Unique(keys) && i < |keys|
    ensures Without(keys, keys[i]) == keys[..i] + keys[i + 1..]
  {
    if i > 0 {
      var rest := keys[1..];
      assert forall j | 0 <= j < |rest| :: rest[j] == keys[j + 1];
      WithoutAt(rest, i - 1);
      assert rest[i - 1] == keys[i] && keys[0] != keys[i];
      assert [keys[0]] + (rest[..i - 1] + rest[i..]) == keys[..i] + keys[i + 1..];
    }
  }

  lemma HitKeeps(entries: seq<Entry>, book: Book, i: nat)
    requires Keeps(entries, book) && i < |entries|
    ensures Keeps(MovedLast(entries, i), Book(book.history + [entries[i].key], MovedLast(book.records, i)))
  {
    var keys := KeysOf(book.records);
    var key := keys[i];
    assert Stands(entries[i], book.records[i]);
    TouchedOrder(book.history, keys, key);
    WithoutAt(keys, i);
    MovedKeys(book.records, i);
    MovedStand(entries, book.records, i);
  }

  lemma MovedKeys(records: seq<Record>, i: nat)
    requires i < |records|
    ensures var keys := KeysOf(records); KeysOf(MovedLast(records, i)) == keys[..i] + keys[i + 1..] + [keys[i]]
  {
  }

  lemma MovedStand(entries: seq<Entry>, records: seq<Record>, i: nat)
    requires |entries| == |records| && i < |entries| && forall j | 0 <= j < |entries| :: Stands(entries[j], records[j])
    ensures forall j | 0 <= j < |entries| :: Stands(MovedLast(entries, i)[j], MovedLast(records, i)[j])
  {
    var movedEntries, movedRecords := MovedLast(entries, i), MovedLast(records, i);
    forall j | 0 <= j < |entries|
      ensures Stands(movedEntries[j], movedRecords[j])
    {
      var from := if j < i then j else if j < |entries| - 1 then j + 1 else i;
      assert movedEntries[j] == entries[from] && movedRecords[j] == records[from];
      assert Stands(entries[from], records[from]);
    }
  }

  // A full cache drops its oldest entry.
  function Pushed<T>(s: seq<T>, x: T): seq<T> {
    (if |s| >= DAG_SCHEDULE_CACHE_LIMIT then s[1..] else s) + [x]
  }

  ghost function Levels(plan: HeldPlan): set<array<nat>> {
    set l | l in plan.levels
  }

  lemma MovedArrays(entries: seq<Entry>, i: nat)
    requires i < |entries|
    ensures Arrays(MovedLast(entries, i)) <= Arrays(entries)
  {
    var moved := MovedLast(entries, i);
    forall l | l in Arrays(moved)
      ensures l in Arrays(entries)
    {
      var j :| 0 <= j < |moved| && l in moved[j].plan.levels;
      var from := if j < i then j else if j < |entries| - 1 then j + 1 else i;
      assert moved[j] == entries[from];
    }
  }

  lemma PushedArrays(entries: seq<Entry>, e: Entry)
    ensures Arrays(Pushed(entries, e)) <= Arrays(entries) + Levels(e.plan)
  {
    var pushed := Pushed(entries, e);
    var shift := if |entries| >= DAG_SCHEDULE_CACHE_LIMIT then 1 else 0;
    forall l | l in Arrays(pushed)
      ensures l in Arrays(entries) + Levels(e.plan)
    {
      var j :| 0 <= j < |pushed| && l in pushed[j].plan.levels;
      if j + shift < |entries| {
        assert pushed[j] == entries[j + shift];
      }
    }
  }

  lemma MissKeeps(entries: seq<Entry>, book: Book, e: Entry, r: Record)
    requires Keeps(entries, book) && Stands(e, r) && forall x | x in entries :: x.key != e.key
    ensures Keeps(Pushed(entries, e), Book(book.history + [e.key], Pushed(book.records, r)))
  {
    var keys := KeysOf(book.records);
    forall i | 0 <= i < |keys|
      ensures keys[i] != e.key
    {
      assert Stands(entries[i], book.records[i]) && entries[i] in entries;
    }
    NextOrder(book.history, keys, e.key);
    assert KeysOf(Pushed(book.records, r)) == Pushed(keys, e.key);
    var shift := if |entries| >= DAG_SCHEDULE_CACHE_LIMIT then 1 else 0;
    forall j | 0 <= j < |Pushed(entries, e)|
      ensures Stands(Pushed(entries, e)[j], Pushed(book.records, r)[j])
    {
      if j + shift < |entries| {
        assert Stands(entries[j + shift], book.records[j + shift]);
      }
    }
  }

  // A hit: the used key moved to the end.
  lemma TouchedOrder(history: seq<string>, keys: seq<string>, key: string)
    requires keys == LastN(ByLastUse(history), DAG_SCHEDULE_CACHE_LIMIT) && key in keys
    ensures LastN(ByLastUse(history + [key]), DAG_SCHEDULE_CACHE_LIMIT) == Without(keys, key) + [key] && Unique(keys)
  {
    ByLastUseUnique(history);
    HitKeepsLast(ByLastUse(history), key, DAG_SCHEDULE_CACHE_LIMIT);
    LastUnique(ByLastUse(history), DAG_SCHEDULE_CACHE_LIMIT);
    assert (history + [key])[..|history|] == history;
  }

  // A miss: the order with its oldest key dropped when full, and the key added.
  lemma NextOrder(history: seq<string>, keys: seq<string>, key: string)
    requires keys == LastN(ByLastUse(history), DAG_SCHEDULE_CACHE_LIMIT) && key !in keys
    ensures LastN(ByLastUse(history + [key]), DAG_SCHEDULE_CACHE_LIMIT) == Pushed(keys, key)
  {
    ByLastUseUnique(history);
    MissKeepsLast(ByLastUse(history), key, DAG_SCHEDULE_CACHE_LIMIT);
    assert (history + [key])[..|history|] == history;
  }

  lemma LastUnique(keys: seq<string>, n: nat)
    requires Unique(keys)
    ensures Unique(LastN(keys, n))
  {}

  // ----- The memo

  // `answers` is what the extensions of the run answer.
  class DagScheduleCache {
    var entries: seq<Entry>
    const answers: Answers
    ghost const genuine: iset<Record>
    ghost var book: Book

    constructor (answers: Answers)
      ensures Valid() && book.history == [] && entries == [] && this.answers == answers
    {
      this.answers, genuine := answers, Genuine(answers);
      entries, book := [], Book([], []);
    }

    // The memo holds the most recently used plans, at most the limit, each the plan of a request
    // with its key.
    ghost predicate Valid()
      reads this, Arrays(entries)
    {
      Kept() && genuine == Genuine(answers)
    }

    ghost predicate Kept()
      reads this, Arrays(entries)
    {
      Keeps(entries, book) && AllIn(book.records, genuine)
    }

    // scheduleDagLevelsMemo. The caller may do what it likes with the returned arrays.
    method Schedule(request: Request, aborted: bool) returns (result: Option<HeldPlan>)
      requires Valid()
      modifies this
      ensures Valid() && fresh(Arrays(entries) - old(Arrays(entries)))
      ensures result.Some? ==> Value(result.value) == PlanOf(answers, Source(old(book.records), request))
      ensures result.Some? && IgnoresIds(answers, request.options) ==> Value(result.value) == PlanOf(answers, request)
      ensures result.Some? ==> fresh(Levels(result.value)) && Levels(result.value) !! Arrays(entries)
      ensures result.None? <==> aborted && (request.options.resourceKeyResolver.Some? || Find(old(entries), Key(request)).None?)
      ensures book.history == old(book.history) + if request.options.resourceKeyResolver.Some? || result.None? then [] else [Key(request)]
    {
      var key, keyed := Key(request), request.options.resourceKeyResolver.None?;
      var held := if keyed then Find(entries, key) else None;
      ghost var record := Record(request, key, PlanOf(answers, request));
      HeldIsSource(request, held, record);
      result := Serve(request, key, keyed, held, aborted, record);
    }

    // What is held for a request is the plan of its source.
    lemma HeldIsSource(request: Request, held: Option<nat>, record: Record)
      requires Valid() && record == Record(request, Key(request), PlanOf(answers, request))
      requires held == if request.options.resourceKeyResolver.None? then Find(entries, Key(request)) else None
      ensures held.None? ==> Source(book.records, request) == request
      ensures held.Some? ==> held.value < |book.records|
                             && book.records[held.value].plan == PlanOf(answers, Source(book.records, request))
      ensures IgnoresIds(answers, request.options) ==> PlanOf(answers, Source(book.records, request)) == PlanOf(answers, request)
      ensures record in OwnRecords(answers, request) && (request.options.resourceKeyResolver.None? ==> record in genuine)
    {
      SourcePlan(answers, book.records, request);
      SameKeys();
      FindRecord(entries, book.records, Key(request));
    }

    // A held plan, or a new one unless the run is aborted.
    method Serve(request: Request, key: string, keyed: bool, held: Option<nat>, aborted: bool, ghost record: Record)
      returns (result: Option<HeldPlan>)
      requires Kept() && held == (if keyed then Find(entries, key) else None)
      requires record in OwnRecords(answers, request) && record.key == key && (keyed ==> record in genuine)
      modifies this
      ensures Kept() && fresh(Arrays(entries) - old(Arrays(entries)))
      ensures held.Some? ==> held.value < |old(book.records)|
      ensures result.Some? ==> Value(result.value) == if held.Some? then old(book.records)[held.value].plan else record.plan
      ensures result.Some? ==> fresh(Levels(result.value)) && Levels(result.value) !! Arrays(entries)
      ensures result.None? <==> aborted && held.None?
      ensures book.history == old(book.history) + if result.None? || !keyed then [] else [key]
    {
      result := None;
      if held.Some? {
        var copy := Hit(held.value);
        result := Some(copy);
      } else if !aborted {
        var scheduled := ServeNew(request, key, keyed, record);
        result := Some(scheduled);
      }
    }

    // A new plan, kept under its key.
    method ServeNew(request: Request, key: string, keyed: bool, ghost record: Record) returns (scheduled: HeldPlan)
      requires Kept() && record in OwnRecords(answers, request) && record.key == key
      requires keyed ==> record in genuine && Find(entries, key).None?
      modifies this
      ensures Kept() && fresh(Arrays(entries) - old(Arrays(entries)))
      ensures Value(scheduled) == record.plan && fresh(Levels(scheduled)) && Levels(scheduled) !! Arrays(entries)
      ensures book.history == old(book.history) + if keyed then [key] else []
    {
      scheduled := Compute(request, record);
      if keyed {
        ghost var own := Miss(key, scheduled, record);
      }
    }

    lemma SameKeys()
      requires Kept()
      ensures |entries| == |book.records| && forall i | 0 <= i < |entries| :: entries[i].key == book.records[i].key
    {
      forall i | 0 <= i < |entries|
        ensures entries[i].key == book.records[i].key
      {
        assert Stands(entries[i], book.records[i]);
      }
    }

    // scheduleDagLevels over the resolved claims.
    method Compute(request: Request, ghost record: Record) returns (plan: HeldPlan)
      requires record in OwnRecords(answers, request)
      ensures Value(plan) == record.plan && fresh(Levels(plan))
    {
      var resolutions := ResolutionsOf(answers, request);
      var levels, planKey := ScheduleDagLevels(resolutions, CapOf(request.options.maxConcurrency));
      var copy := CopyLevels(levels);
      return HeldPlan(copy, planKey);
    }

    // A held plan, as a copy; its key becomes the most recent.
    method Hit(i: nat) returns (copy: HeldPlan)
      requires Kept() && i < |entries|
      modifies this
      ensures Kept() && Arrays(entries) <= old(Arrays(entries)) && i < |old(book.records)|
      ensures book == Book(old(book.history) + [old(entries)[i].key], MovedLast(old(book.records), i))
      ensures Value(copy) == old(book.records)[i].plan
      ensures fresh(Levels(copy)) && Levels(copy) !! Arrays(entries)
    {
      var cached := entries[i].plan;
      assert Stands(entries[i], book.records[i]);
      HoldsIsValue(cached, book.records[i].plan);
      var levels := CopyLevels(LevelValues(cached.levels));
      copy := HeldPlan(levels, cached.planKey);
      HitKeeps(entries, book, i);
      MovedArrays(entries, i);
      book := Book(book.history + [entries[i].key], MovedLast(book.records, i));
      entries := MovedLast(entries, i);
    }

    // Keeps a copy of the plan computed for a request; a full cache drops its oldest plan.
    method Miss(key: string, scheduled: HeldPlan, ghost record: Record) returns (ghost own: set<array<nat>>)
      requires Kept() && Find(entries, key).None? && Value(scheduled) == record.plan && record.key == key && record in genuine
      modifies this
      ensures Kept() && book == Book(old(book.history) + [key], Pushed(old(book.records), record))
      ensures fresh(own) && own !! Levels(scheduled) && Arrays(entries) <= old(Arrays(entries)) + own
    {
      var levels := CopyLevels(LevelValues(scheduled.levels));
      var stored := HeldPlan(levels, scheduled.planKey);
      HoldsIsValue(stored, record.plan);
      own := Levels(stored);
      Push(Entry(key, stored), record);
    }

    method Push(e: Entry, ghost record: Record)
      requires Kept() && Find(entries, e.key).None? && Stands(e, record) && record in genuine
      modifies this
      ensures Kept() && book == Book(old(book.history) + [e.key], Pushed(old(book.records), record))
      ensures Arrays(entries) <= old(Arrays(entries)) + Levels(e.plan)
    {
      MissKeeps(entries, book, e, record);
      PushedArrays(entries, e);
      book := Book(book.history + [e.key], Pushed(book.records, record));
      entries := Pushed(entries, e);
    }
  }

  // The number of plans never exceeds the limit.
  lemma AtMostLimit(cache: DagScheduleCache)
    requires cache.Kept()
    ensures |cache.entries| <= DAG_SCHEDULE_CACHE_LIMIT
  {
  }
}
