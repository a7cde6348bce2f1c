/** Claim evaluation over observations: three-valued conditions, waivers and the task verdict
    (packages/protocol/src/evaluation.ts). */
module Evaluation {
  import opened Wrappers

  // ----- Fact matching

  // A JSON value; equality of primitives is that of `Object.is`, which tells -0 from 0.
  datatype Json =
    | Null
    | Bool(value: bool)
    | Number(number: real)
    | NegativeZero
    | Text(text: string)
    | Array(items: seq<Json>)
    | Object(fields: map<string, Json>)

  function Field(fields: map<string, Json>, name: string): Option<Json> {
    if name in fields then Some(fields[name]) else None
  }

  predicate MatchesExpected(actual: Option<Json>, expected: Json)
    decreases expected
  {
    match expected
    case Array(items) =>
      && actual.Some? && actual.value.Array? && |actual.value.items| == |items|
      && forall i | 0 <= i < |items| :: MatchesExpected(Some(actual.value.items[i]), items[i])
    case Object(fields) =>
      && actual.Some? && actual.value.Object?
      && forall name | name in fields :: MatchesExpected(Field(actual.value.fields, name), fields[name])
    case _ => actual == Some(expected)
  }

  lemma {:induction false} MatchReflexive(v: Json)
    ensures MatchesExpected(Some(v), v)
    decreases v
  {
    match v
    case Array(items) =>
      forall i | 0 <= i < |items|
        ensures MatchesExpected(Some(items[i]), items[i])
      {
        MatchReflexive(items[i]);
      }
    case Object(fields) =>
      forall name | name in fields
        ensures MatchesExpected(Field(fields, name), fields[name])
      {
        MatchReflexive(fields[name]);
      }
    case _ =>
  }

  lemma {:induction false} MatchTransitive(a: Option<Json>, b: Json, c: Json)
    requires MatchesExpected(a, b) && MatchesExpected(Some(b), c)
    ensures MatchesExpected(a, c)
    decreases c
  {
    match c
    case Array(items) =>
      forall i | 0 <= i < |items|
        ensures MatchesExpected(Some(a.value.items[i]), items[i])
      {
        MatchTransitive(Some(a.value.items[i]), b.items[i], items[i]);
      }
    case Object(fields) =>
      forall name | name in fields
        ensures MatchesExpected(Field(a.value.fields, name), fields[name])
      {
        FieldOfMatch(b.fields, fields, name);
        MatchTransitive(Field(a.value.fields, name), b.fields[name], fields[name]);
      }
    case _ =>
  }

  // A missing field matches nothing.
  lemma FieldOfMatch(actual: map<string, Json>, expected: map<string, Json>, name: string)
    requires name in expected && MatchesExpected(Field(actual, name), expected[name])
    ensures name in actual
  {
    NothingMatchesNone(expected[name]);
  }

  lemma NothingMatchesNone(expected: Json)
    ensures !MatchesExpected(None, expected)
  {
  }

  lemma {:induction false} MatchAntisymmetric(a: Json, b: Json)
    requires MatchesExpected(Some(a), b) && MatchesExpected(Some(b), a)
    ensures a == b
    decreases b
  {
    match b
    case Array(items) =>
      forall i | 0 <= i < |items|
        ensures a.items[i] == items[i]
      {
        MatchAntisymmetric(a.items[i], items[i]);
      }
      assert a.items == items;
    case Object(fields) =>
      forall name
        ensures name in fields <==> name in a.fields
        ensures name in fields ==> fields[name] == a.fields[name]
      {
        if name in fields {
          FieldOfMatch(a.fields, fields, name);
          MatchAntisymmetric(a.fields[name], fields[name]);
        } else if name in a.fields {
          FieldOfMatch(fields, a.fields, name);
        }
      }
      assert a.fields == fields;
    case _ =>
  }

  // ----- Conditions

  datatype ClaimResult = Satisfied | Violated | Inconclusive

  datatype Condition =
    | Observed(kind: string, taskScope: bool, facts: Json)
    | Not(condition: Condition)
    | All(conditions: seq<Condition>)
    | AnyOf(conditions: seq<Condition>)

  datatype Observation = Observation(id: string, taskId: string, kind: string, attemptId: string, facts: Json)

  datatype ConditionResult = ConditionResult(result: ClaimResult, observationIds: seq<string>)

  predicate IsCandidate(o: Observation, kind: string, taskScope: bool, attemptId: string) {
    o.kind == kind && (taskScope || o.attemptId == attemptId)
  }

  function Candidates(c: Condition, observations: seq<Observation>, attemptId: string): seq<Observation>
    requires c.Observed?
  {
    if observations == [] then []
    else
      var rest := Candidates(c, observations[1..], attemptId);
      if IsCandidate(observations[0], c.kind, c.taskScope, attemptId) then [observations[0]] + rest else rest
  }

  function Matching(candidates: seq<Observation>, facts: Json): seq<Observation> {
    if candidates == [] then []
    else
      var rest := Matching(candidates[1..], facts);
      if MatchesExpected(Some(candidates[0].facts), facts) then [candidates[0]] + rest else rest
  }

  function Ids(observations: seq<Observation>): seq<string> {
    seq(|observations|, i requires 0 <= i < |observations| => observations[i].id)
  }

  function Unique(values: seq<string>): seq<string> {
    if values == [] then []
    else
      var front := Unique(values[..|values| - 1]);
      var last := values[|values| - 1];
      if last in front then front else front + [last]
  }

  function FlatIds(children: seq<ConditionResult>): seq<string> {
    if children == [] then [] else children[0].observationIds + FlatIds(children[1..])
  }

  function Negate(r: ClaimResult): ClaimResult {
    match r
    case Satisfied => Violated
    case Violated => Satisfied
    case Inconclusive => Inconclusive
  }

  function AllResult(children: seq<ConditionResult>): ClaimResult {
    if exists i | 0 <= i < |children| :: children[i].result == Violated then Violated
    else if exists i | 0 <= i < |children| :: children[i].result == Inconclusive then Inconclusive
    else Satisfied
  }

  function AnyResult(children: seq<ConditionResult>): ClaimResult {
    if exists i | 0 <= i < |children| :: children[i].result == Satisfied then Satisfied
    else if forall i | 0 <= i < |children| :: children[i].result == Violated then Violated
    else Inconclusive
  }

  function EvaluateCondition(c: Condition, observations: seq<Observation>, attemptId: string): ConditionResult
    decreases c
  {
    match c
    case Observed(_, _, facts) =>
      var candidates := Candidates(c, observations, attemptId);
      if candidates == [] then ConditionResult(Inconclusive, [])
      else
        var matching := Matching(candidates, facts);
        if matching != [] then ConditionResult(Satisfied, Ids(matching)) else ConditionResult(Violated, Ids(candidates))
    case Not(child) =>
      var r := EvaluateCondition(child, observations, attemptId);
      ConditionResult(Negate(r.result), r.observationIds)
    case All(conditions) =>
      var children := EvaluateEach(conditions, observations, attemptId);
      ConditionResult(AllResult(children), Unique(FlatIds(children)))
    case AnyOf(conditions) =>
      var children := EvaluateEach(conditions, observations, attemptId);
      ConditionResult(AnyResult(children), Unique(FlatIds(children)))
  }

  function EvaluateEach(conditions: seq<Condition>, observations: seq<Observation>, attemptId: string): (r: seq<ConditionResult>)
    ensures |r| == |conditions|
    ensures forall i | 0 <= i < |conditions| :: r[i] == EvaluateCondition(conditions[i], observations, attemptId)
    decreases conditions
  {
    seq(|conditions|, i requires 0 <= i < |conditions| => EvaluateCondition(conditions[i], observations, attemptId))
  }

  // ----- De Morgan and double negation, evidence included

  lemma DoubleNegation(c: Condition, observations: seq<Observation>, attemptId: string)
    ensures EvaluateCondition(Not(Not(c)), observations, attemptId) == EvaluateCondition(c, observations, attemptId)
  {
  }

  function NotEach(conditions: seq<Condition>): (r: seq<Condition>)
    ensures |r| == |conditions| && forall i | 0 <= i < |r| :: r[i] == Not(conditions[i])
  {
    seq(|conditions|, i requires 0 <= i < |conditions| => Not(conditions[i]))
  }

  lemma {:induction false} FlatIdsSame(a: seq<ConditionResult>, b: seq<ConditionResult>)
    requires |a| == |b| && forall i | 0 <= i < |a| :: a[i].observationIds == b[i].observationIds
    ensures FlatIds(a) == FlatIds(b)
  {
    if a != [] {
      FlatIdsSame(a[1..], b[1..]);
    }
  }

  lemma {:induction false} DeMorgan(conditions: seq<Condition>, observations: seq<Observation>, attemptId: string)
    ensures EvaluateCondition(Not(All(conditions)), observations, attemptId) ==
            EvaluateCondition(AnyOf(NotEach(conditions)), observations, attemptId)
    ensures EvaluateCondition(Not(AnyOf(conditions)), observations, attemptId) ==
            EvaluateCondition(All(NotEach(conditions)), observations, attemptId)
  {
    var plain := EvaluateEach(conditions, observations, attemptId);
    var negated := EvaluateEach(NotEach(conditions), observations, attemptId);
    forall i | 0 <= i < |conditions|
      ensures negated[i].observationIds == plain[i].observationIds
      ensures negated[i].result == Negate(plain[i].result)
    {
      assert NotEach(conditions)[i] == Not(conditions[i]);
    }
    FlatIdsSame(plain, negated);
    assert Negate(AllResult(plain)) == AnyResult(negated);
    assert Negate(AnyResult(plain)) == AllResult(negated);
  }

  // ----- More observations, weaker facts

  ghost predicate Included(small: seq<Observation>, large: seq<Observation>) {
    forall o | o in small :: o in large
  }

  lemma {:induction false} CandidatesExact(c: Condition, observations: seq<Observation>, attemptId: string, o: Observation)
    requires c.Observed?
    ensures o in Candidates(c, observations, attemptId) <==>
            o in observations && IsCandidate(o, c.kind, c.taskScope, attemptId)
  {
    if observations != [] {
      CandidatesExact(c, observations[1..], attemptId, o);
      assert observations == [observations[0]] + observations[1..];
    }
  }

  lemma {:induction false} MatchingExact(candidates: seq<Observation>, facts: Json, o: Observation)
    ensures o in Matching(candidates, facts) <==> o in candidates && MatchesExpected(Some(o.facts), facts)
  {
    if candidates != [] {
      MatchingExact(candidates[1..], facts, o);
      assert candidates == [candidates[0]] + candidates[1..];
    }
  }

  ghost predicate Support(o: Observation, c: Condition, observations: seq<Observation>, attemptId: string)
    requires c.Observed?
  {
    o in observations && IsCandidate(o, c.kind, c.taskScope, attemptId) && MatchesExpected(Some(o.facts), c.facts)
  }

  // A leaf is satisfied exactly when some observation in scope matches its facts.
  lemma SatisfiedLeaf(c: Condition, observations: seq<Observation>, attemptId: string)
    requires c.Observed?
    ensures EvaluateCondition(c, observations, attemptId).result == Satisfied <==>
            exists o :: Support(o, c, observations, attemptId)
  {
    var candidates := Candidates(c, observations, attemptId);
    var matching := Matching(candidates, c.facts);
    if matching != [] {
      var o := matching[0];
      MatchingExact(candidates, c.facts, o);
      CandidatesExact(c, observations, attemptId, o);
      assert Support(o, c, observations, attemptId);
    }
    if o: Observation :| Support(o, c, observations, attemptId) {
      CandidatesExact(c, observations, attemptId, o);
      MatchingExact(candidates, c.facts, o);
    }
  }

  // Every leaf stands under an even number of negations (for `positive`; odd for its opposite).
  predicate Polarity(c: Condition, positive: bool)
    decreases c
  {
    match c
    case Observed(_, _, _) => positive
    case Not(child) => Polarity(child, !positive)
    case All(conditions) => forall i | 0 <= i < |conditions| :: Polarity(conditions[i], positive)
    case AnyOf(conditions) => forall i | 0 <= i < |conditions| :: Polarity(conditions[i], positive)
  }

  // The second condition asks for no more than the first, leaf by leaf: the same kind, a scope at
  // least as wide, and facts that the first one's facts match.
  predicate Weakens(c: Condition, d: Condition)
    decreases c
  {
    match (c, d)
    case (Observed(kind, taskScope, facts), Observed(kind', taskScope', facts')) =>
      kind == kind' && (taskScope ==> taskScope') && MatchesExpected(Some(facts), facts')
    case (Not(child), Not(child')) => Weakens(child, child')
    case (All(cs), All(ds)) => |cs| == |ds| && forall i | 0 <= i < |cs| :: Weakens(cs[i], ds[i])
    case (AnyOf(cs), AnyOf(ds)) => |cs| == |ds| && forall i | 0 <= i < |cs| :: Weakens(cs[i], ds[i])
    case _ => false
  }

  lemma LeafMonotone(c: Condition, d: Condition, small: seq<Observation>, large: seq<Observation>, attemptId: string)
    requires c.Observed? && Weakens(c, d) && Included(small, large)
    requires EvaluateCondition(c, small, attemptId).result == Satisfied
    ensures EvaluateCondition(d, large, attemptId).result == Satisfied
  {
    SatisfiedLeaf(c, small, attemptId);
    SatisfiedLeaf(d, large, attemptId);
    var o :| Support(o, c, small, attemptId);
    MatchTransitive(Some(o.facts), c.facts, d.facts);
    assert Support(o, d, large, attemptId);
  }

  ghost predicate Supported(c: Condition, observations: seq<Observation>, attemptId: string)
    requires c.Observed?
  {
    exists o :: Support(o, c, observations, attemptId)
  }

  // No leaf in negative position gains a support, `d` being the condition over the larger observations.
  ghost predicate NoGain(c: Condition, d: Condition, positive: bool, small: seq<Observation>, large: seq<Observation>, attemptId: string)
    requires Weakens(c, d)
    decreases c
  {
    match c
    case Observed(_, _, _) => !positive && Supported(d, large, attemptId) ==> Supported(c, small, attemptId)
    case Not(child) => NoGain(child, d.condition, !positive, small, large, attemptId)
    case All(cs) => forall i | 0 <= i < |cs| :: NoGain(cs[i], d.conditions[i], positive, small, large, attemptId)
    case AnyOf(cs) => forall i | 0 <= i < |cs| :: NoGain(cs[i], d.conditions[i], positive, small, large, attemptId)
  }

  // A leaf is violated exactly when observations are in scope and none of them matches its facts.
  lemma ViolatedLeaf(c: Condition, observations: seq<Observation>, attemptId: string)
    requires c.Observed?
    ensures EvaluateCondition(c, observations, attemptId).result == Violated <==>
            !Supported(c, observations, attemptId)
            && exists o | o in observations :: IsCandidate(o, c.kind, c.taskScope, attemptId)
  {
    SatisfiedLeaf(c, observations, attemptId);
    var candidates := Candidates(c, observations, attemptId);
    if candidates != [] {
      CandidatesExact(c, observations, attemptId, candidates[0]);
    }
    if o: Observation :| o in observations && IsCandidate(o, c.kind, c.taskScope, attemptId) {
      CandidatesExact(c, observations, attemptId, o);
    }
  }

  // A satisfied negation of a leaf stays satisfied exactly while nothing supports the leaf.
  lemma NegatedLeafKeeps(leaf: Condition, small: seq<Observation>, large: seq<Observation>, attemptId: string)
    requires leaf.Observed? && Included(small, large)
    requires EvaluateCondition(Not(leaf), small, attemptId).result == Satisfied
    ensures EvaluateCondition(Not(leaf), large, attemptId).result == Satisfied <==> !Supported(leaf, large, attemptId)
  {
    ViolatedLeaf(leaf, small, attemptId);
    ViolatedLeaf(leaf, large, attemptId);
  }

  lemma LeafKeeps(c: Condition, d: Condition, small: seq<Observation>, large: seq<Observation>, attemptId: string)
    requires c.Observed? && Weakens(c, d) && Included(small, large) && NoGain(c, d, false, small, large, attemptId)
    requires EvaluateCondition(c, small, attemptId).result == Violated
    ensures EvaluateCondition(d, large, attemptId).result == Violated
  {
    ViolatedLeaf(c, small, attemptId);
    ViolatedLeaf(d, large, attemptId);
    var o :| o in small && IsCandidate(o, c.kind, c.taskScope, attemptId);
    assert o in large && IsCandidate(o, d.kind, d.taskScope, attemptId);
  }

  function Wanted(positive: bool): ClaimResult {
    if positive then Satisfied else Violated
  }

  // What more observations and weaker facts cannot undo: a satisfied condition no negative leaf of
  // which gains a support, and a violated one no positive leaf of which does.
  lemma {:induction false} SatisfactionKept(c: Condition, d: Condition, positive: bool,
                                            small: seq<Observation>, large: seq<Observation>, attemptId: string)
    requires Weakens(c, d) && Included(small, large) && NoGain(c, d, positive, small, large, attemptId)
    requires EvaluateCondition(c, small, attemptId).result == Wanted(positive)
    ensures EvaluateCondition(d, large, attemptId).result == Wanted(positive)
    decreases c
  {
    match c
    case Observed(_, _, _) =>
      if positive {
        LeafMonotone(c, d, small, large, attemptId);
      } else {
        LeafKeeps(c, d, small, large, attemptId);
      }
    case Not(child) => SatisfactionKept(child, d.condition, !positive, small, large, attemptId);
    case All(cs) => EachKept(c, cs, d.conditions, positive, small, large, attemptId);
    case AnyOf(cs) => EachKept(c, cs, d.conditions, positive, small, large, attemptId);
  }

  lemma {:induction false} EachKept(whole: Condition, cs: seq<Condition>, ds: seq<Condition>, positive: bool,
                                    small: seq<Observation>, large: seq<Observation>, attemptId: string)
    requires (whole.All? || whole.AnyOf?) && whole.conditions == cs && Included(small, large)
    requires |cs| == |ds| && forall i | 0 <= i < |cs| :: Weakens(cs[i], ds[i]) && NoGain(cs[i], ds[i], positive, small, large, attemptId)
    ensures forall i | 0 <= i < |cs| && EvaluateEach(cs, small, attemptId)[i].result == Wanted(positive) ::
              EvaluateEach(ds, large, attemptId)[i].result == Wanted(positive)
    decreases whole, 0
  {
    forall i | 0 <= i < |cs| && EvaluateEach(cs, small, attemptId)[i].result == Wanted(positive)
      ensures EvaluateEach(ds, large, attemptId)[i].result == Wanted(positive)
    {
      SatisfactionKept(cs[i], ds[i], positive, small, large, attemptId);
    }
  }

  // Without negative leaves there is nothing to gain.
  lemma {:induction false} PositiveNoGain(c: Condition, d: Condition, positive: bool,
                                          small: seq<Observation>, large: seq<Observation>, attemptId: string)
    requires Polarity(c, positive) && Weakens(c, d)
    ensures NoGain(c, d, positive, small, large, attemptId)
    decreases c
  {
    match c
    case Observed(_, _, _) =>
    case Not(child) => PositiveNoGain(child, d.condition, !positive, small, large, attemptId);
    case All(cs) =>
      forall i | 0 <= i < |cs|
        ensures NoGain(cs[i], d.conditions[i], positive, small, large, attemptId)
      {
        PositiveNoGain(cs[i], d.conditions[i], positive, small, large, attemptId);
      }
    case AnyOf(cs) =>
      forall i | 0 <= i < |cs|
        ensures NoGain(cs[i], d.conditions[i], positive, small, large, attemptId)
      {
        PositiveNoGain(cs[i], d.conditions[i], positive, small, large, attemptId);
      }
  }

  // A satisfied condition whose leaves are all positive stays satisfied, a violated one whose leaves
  // are all negative stays violated.
  lemma SatisfactionMonotone(c: Condition, d: Condition, positive: bool,
                             small: seq<Observation>, large: seq<Observation>, attemptId: string)
    requires Polarity(c, positive) && Weakens(c, d) && Included(small, large)
    requires EvaluateCondition(c, small, attemptId).result == Wanted(positive)
    ensures EvaluateCondition(d, large, attemptId).result == Wanted(positive)
  {
    PositiveNoGain(c, d, positive, small, large, attemptId);
    SatisfactionKept(c, d, positive, small, large, attemptId);
  }

  // Under one negation the same statement is false: a new observation can undo satisfaction.
  lemma NegationNotMonotone() returns (c: Condition, small: seq<Observation>, large: seq<Observation>)
    ensures c.Not? && Included(small, large)
    ensures EvaluateCondition(c, small, "a").result == Satisfied
    ensures EvaluateCondition(c, large, "a").result == Violated
  {
    var leaf := Observed("test", true, Bool(true));
    c := Not(leaf);
    var failed, passed := Observation("1", "t", "test", "a", Bool(false)), Observation("2", "t", "test", "a", Bool(true));
    small, large := [failed], [failed, passed];
    assert !MatchesExpected(Some(failed.facts), leaf.facts);
    SatisfiedLeaf(leaf, small, "a");
    SatisfiedLeaf(leaf, large, "a");
    CandidatesExact(leaf, small, "a", failed);
    assert Support(passed, leaf, large, "a");
  }

  // ----- The recorded evidence is enough

  // The observations whose id is kept.
  function Keep(observations: seq<Observation>, ids: set<string>): seq<Observation> {
    if observations == [] then []
    else
      var rest := Keep(observations[1..], ids);
      if observations[0].id in ids then [observations[0]] + rest else rest
  }

  function IdSet(ids: seq<string>): set<string> {
    set id | id in ids
  }

  lemma {:induction false} KeepCandidates(c: Condition, observations: seq<Observation>, attemptId: string, ids: set<string>)
    requires c.Observed?
    ensures Candidates(c, Keep(observations, ids), attemptId) == Keep(Candidates(c, observations, attemptId), ids)
  {
    if observations != [] {
      var o, rest := observations[0], observations[1..];
      KeepCandidates(c, rest, attemptId, ids);
      if o.id in ids {
        assert ([o] + Keep(rest, ids))[1..] == Keep(rest, ids);
      }
      if IsCandidate(o, c.kind, c.taskScope, attemptId) {
        assert ([o] + Candidates(c, rest, attemptId))[1..] == Candidates(c, rest, attemptId);
      }
    }
  }

  lemma {:induction false} KeepMatching(candidates: seq<Observation>, facts: Json, ids: set<string>)
    ensures Matching(Keep(candidates, ids), facts) == Keep(Matching(candidates, facts), ids)
  {
    if candidates != [] {
      var o, rest := candidates[0], candidates[1..];
      KeepMatching(rest, facts, ids);
      if o.id in ids {
        assert ([o] + Keep(rest, ids))[1..] == Keep(rest, ids);
      }
      if MatchesExpected(Some(o.facts), facts) {
        assert ([o] + Matching(rest, facts))[1..] == Matching(rest, facts);
      }
    }
  }

  lemma {:induction false} KeepAll(observations: seq<Observation>, ids: set<string>)
    requires IdSet(Ids(observations)) <= ids
    ensures Keep(observations, ids) == observations
  {
    if observations != [] {
      assert Ids(observations)[0] in IdSet(Ids(observations));
      assert Ids(observations)[1..] == Ids(observations[1..]);
      assert IdSet(Ids(observations[1..])) <= IdSet(Ids(observations));
      KeepAll(observations[1..], ids);
    }
  }

  lemma {:induction false} UniqueSame(values: seq<string>, v: string)
    ensures v in Unique(values) <==> v in values
  {
    if values != [] {
      UniqueSame(values[..|values| - 1], v);
      UniqueSame(values[..|values| - 1], values[|values| - 1]);
      assert values == values[..|values| - 1] + [values[|values| - 1]];
    }
  }

  lemma {:induction false} FlatIdsContain(children: seq<ConditionResult>, i: nat, id: string)
    requires i < |children| && id in children[i].observationIds
    ensures id in FlatIds(children)
  {
    if i > 0 {
      FlatIdsContain(children[1..], i - 1, id);
    }
  }

  // Dropping observations the result does not name changes neither the result nor what it names.
  lemma {:induction false} EvidenceSuffices(c: Condition, observations: seq<Observation>, attemptId: string, ids: set<string>)
    requires IdSet(EvaluateCondition(c, observations, attemptId).observationIds) <= ids
    ensures EvaluateCondition(c, Keep(observations, ids), attemptId) == EvaluateCondition(c, observations, attemptId)
    decreases c
  {
    match c
    case Observed(_, _, facts) => LeafEvidence(c, observations, attemptId, ids);
    case Not(child) => EvidenceSuffices(child, observations, attemptId, ids);
    case All(cs) => EachEvidence(c, cs, observations, attemptId, ids);
    case AnyOf(cs) => EachEvidence(c, cs, observations, attemptId, ids);
  }

  lemma LeafEvidence(c: Condition, observations: seq<Observation>, attemptId: string, ids: set<string>)
    requires c.Observed?
    requires IdSet(EvaluateCondition(c, observations, attemptId).observationIds) <= ids
    ensures EvaluateCondition(c, Keep(observations, ids), attemptId) == EvaluateCondition(c, observations, attemptId)
  {
    var candidates := Candidates(c, observations, attemptId);
    var matching := Matching(candidates, c.facts);
    KeepCandidates(c, observations, attemptId, ids);
    KeepMatching(candidates, c.facts, ids);
    if matching != [] {
      KeepAll(matching, ids);
      assert Keep([], ids) == [];
    } else {
      KeepAll(candidates, ids);
    }
  }

  lemma {:induction false} EachEvidence(whole: Condition, cs: seq<Condition>, observations: seq<Observation>, attemptId: string, ids: set<string>)
    requires (whole.All? || whole.AnyOf?) && whole.conditions == cs
    requires IdSet(Unique(FlatIds(EvaluateEach(cs, observations, attemptId)))) <= ids
    ensures EvaluateEach(cs, Keep(observations, ids), attemptId) == EvaluateEach(cs, observations, attemptId)
    decreases whole, 0
  {
    var children := EvaluateEach(cs, observations, attemptId);
    forall i | 0 <= i < |cs|
      ensures EvaluateCondition(cs[i], Keep(observations, ids), attemptId) == children[i]
    {
      forall id | id in IdSet(children[i].observationIds)
        ensures id in ids
      {
        FlatIdsContain(children, i, id);
        UniqueSame(FlatIds(children), id);
      }
      EvidenceSuffices(cs[i], observations, attemptId, ids);
    }
  }

  // ----- Claims, waivers and the verdict

  datatype Claim = Claim(id: string, required: bool, condition: Condition)

  // Times are compared only; any linear order of instants will do.
  datatype Waiver = Waiver(id: string, taskId: string, claimId: string, attemptId: Option<string>,
                           approvedAt: int, expiresAt: Option<int>)

  datatype Input = Input(taskId: string, claims: seq<Claim>, attemptId: string, attemptTaskId: string, evaluatedAt: int)

  datatype Evaluated = Evaluated(claimId: string, required: bool, result: ClaimResult, observationIds: seq<string>,
                                 waiverId: Option<string>)

  datatype Verdict = Fail | Unsettled | Pass

  function ClaimsById(claims: seq<Claim>): map<string, Claim> {
    if claims == [] then map[]
    else
      var last := claims[|claims| - 1];
      ClaimsById(claims[..|claims| - 1])[last.id := last]
  }

  // The checks one waiver has to pass by itself.
  predicate WaiverApplies(input: Input, w: Waiver) {
    var claims := ClaimsById(input.claims);
    && w.taskId == input.taskId
    && w.claimId in claims && claims[w.claimId].required
    && (w.attemptId.Some? ==> w.attemptId.value == input.attemptId)
    && w.approvedAt <= input.evaluatedAt
    && (w.expiresAt.Some? ==> input.evaluatedAt < w.expiresAt.value)
  }

  ghost predicate OnePerClaim(waivers: seq<Waiver>) {
    forall i, j | 0 <= i < j < |waivers| :: waivers[i].claimId != waivers[j].claimId
  }

  // None is the invariant error. The waivers are accepted as a whole or not at all.
  method ValidateWaivers(input: Input, waivers: seq<Waiver>) returns (r: Option<map<string, Waiver>>)
    ensures r.Some? <==> (forall w | w in waivers :: WaiverApplies(input, w)) && OnePerClaim(waivers)
    ensures r.Some? ==> forall w | w in waivers :: w.claimId in r.value && r.value[w.claimId] == w
    ensures r.Some? ==> forall id | id in r.value :: r.value[id] in waivers && r.value[id].claimId == id
  {
    var claims := ClaimsById(input.claims);
    var byClaim: map<string, Waiver> := map[];
    for k := 0 to |waivers|
      invariant forall i | 0 <= i < k :: WaiverApplies(input, waivers[i])
      invariant OnePerClaim(waivers[..k])
      invariant forall i | 0 <= i < k :: waivers[i].claimId in byClaim && byClaim[waivers[i].claimId] == waivers[i]
      invariant forall id | id in byClaim :: byClaim[id] in waivers[..k] && byClaim[id].claimId == id
    {
      var w := waivers[k];
      assert w in waivers;
      if w.taskId != input.taskId { return None; }
      if w.claimId !in claims { return None; }
      if !claims[w.claimId].required { return None; }
      if w.attemptId.Some? && w.attemptId.value != input.attemptId { return None; }
      if w.approvedAt > input.evaluatedAt { return None; }
      if w.expiresAt.Some? && w.expiresAt.value <= input.evaluatedAt { return None; }
      if w.claimId in byClaim {
        var i :| 0 <= i < k && waivers[i] == byClaim[w.claimId];
        assert waivers[i].claimId == waivers[k].claimId;
        return None;
      }
      assert waivers[..k + 1] == waivers[..k] + [w];
      byClaim := byClaim[w.claimId := w];
    }
    assert waivers[..|waivers|] == waivers;
    return Some(byClaim);
  }

  function EvaluateClaim(input: Input, c: Claim, observations: seq<Observation>, waivers: map<string, Waiver>): Evaluated {
    var r := EvaluateCondition(c.condition, observations, input.attemptId);
    var waiverId := if r.result != Satisfied && c.id in waivers then Some(waivers[c.id].id) else None;
    Evaluated(c.id, c.required, r.result, r.observationIds, waiverId)
  }

  function EvaluateClaims(input: Input, observations: seq<Observation>, waivers: map<string, Waiver>): (r: seq<Evaluated>)
    ensures |r| == |input.claims|
    ensures forall i | 0 <= i < |r| :: r[i] == EvaluateClaim(input, input.claims[i], observations, waivers)
  {
    seq(|input.claims|, i requires 0 <= i < |input.claims| => EvaluateClaim(input, input.claims[i], observations, waivers))
  }

  // The required claims no waiver covers.
  function Binding(claims: seq<Evaluated>): (r: seq<Evaluated>)
    ensures forall c :: c in r <==> c in claims && c.required && c.waiverId.None?
  {
    if claims == [] then []
    else
      var rest := Binding(claims[1..]);
      if claims[0].required && claims[0].waiverId.None? then [claims[0]] + rest else rest
  }

  function ReduceVerdict(claims: seq<Evaluated>): Verdict {
    var required := Binding(claims);
    if required == [] then if exists c | c in claims :: c.required then Pass else Unsettled
    else if exists c | c in required :: c.result == Violated then Fail
    else if exists c | c in required :: c.result == Inconclusive then Unsettled
    else Pass
  }

  function VerdictOf(input: Input, observations: seq<Observation>, waivers: map<string, Waiver>): Verdict {
    ReduceVerdict(EvaluateClaims(input, observations, waivers))
  }

  ghost predicate Holds(input: Input, i: nat, observations: seq<Observation>, result: ClaimResult)
    requires i < |input.claims|
  {
    EvaluateCondition(input.claims[i].condition, observations, input.attemptId).result == result
  }

  ghost predicate Breaks(input: Input, i: nat, observations: seq<Observation>, waivers: map<string, Waiver>)
    requires i < |input.claims|
  {
    input.claims[i].required && input.claims[i].id !in waivers && Holds(input, i, observations, Violated)
  }

  ghost predicate Covered(input: Input, i: nat, observations: seq<Observation>, waivers: map<string, Waiver>)
    requires i < |input.claims|
  {
    input.claims[i].required ==> input.claims[i].id in waivers || Holds(input, i, observations, Satisfied)
  }

  // The verdict in terms of the claims: a fail is an unwaived violation of a required claim; a pass
  // needs a required claim at all and each of them satisfied or waived.
  lemma {:induction false} VerdictExact(input: Input, observations: seq<Observation>, waivers: map<string, Waiver>)
    ensures VerdictOf(input, observations, waivers) == Fail <==>
            exists i | 0 <= i < |input.claims| :: Breaks(input, i, observations, waivers)
    ensures VerdictOf(input, observations, waivers) == Pass <==>
            && (exists i | 0 <= i < |input.claims| :: input.claims[i].required)
            && (forall i | 0 <= i < |input.claims| :: Covered(input, i, observations, waivers))
  {
    var claims := EvaluateClaims(input, observations, waivers);
    var required := Binding(claims);
    forall i | 0 <= i < |input.claims|
      ensures claims[i] in required && claims[i].result == Violated <==> Breaks(input, i, observations, waivers)
      ensures claims[i] in required && claims[i].result != Satisfied <==> !Covered(input, i, observations, waivers)
      ensures claims[i].required <==> input.claims[i].required
    {
      assert claims[i] == EvaluateClaim(input, input.claims[i], observations, waivers);
    }
    forall c | c in required
      ensures exists i | 0 <= i < |claims| :: claims[i] == c
    {
    }
    if i :| 0 <= i < |input.claims| && input.claims[i].required {
      assert claims[i] in claims;
    }
    if required != [] {
      assert required[0] in required;
    }
  }

  function Rank(v: Verdict): nat {
    match v
    case Fail => 0
    case Unsettled => 1
    case Pass => 2
  }

  // More waivers never lower the verdict.
  lemma {:induction false} WaiversNeverLower(input: Input, observations: seq<Observation>,
                                             fewer: map<string, Waiver>, more: map<string, Waiver>)
    requires fewer.Keys <= more.Keys
    ensures Rank(VerdictOf(input, observations, fewer)) <= Rank(VerdictOf(input, observations, more))
  {
    VerdictExact(input, observations, fewer);
    VerdictExact(input, observations, more);
    if VerdictOf(input, observations, more) == Fail {
      var i :| 0 <= i < |input.claims| && Breaks(input, i, observations, more);
      assert Breaks(input, i, observations, fewer);
    }
    if VerdictOf(input, observations, fewer) == Pass {
      forall i | 0 <= i < |input.claims|
        ensures Covered(input, i, observations, more)
      {
        assert Covered(input, i, observations, fewer);
      }
    }
  }

  // No observation added to the condition's own evaluation supports a negative leaf anew.
  ghost predicate NoNegativeGain(c: Condition, small: seq<Observation>, large: seq<Observation>, attemptId: string) {
    Weakens(c, c) && NoGain(c, c, true, small, large, attemptId)
  }

  // A passing task stays passing as observations arrive that give no negative leaf of a required
  // claim its first support.
  lemma {:induction false} PassKept(input: Input, small: seq<Observation>, large: seq<Observation>, waivers: map<string, Waiver>)
    requires Included(small, large)
    requires forall i | 0 <= i < |input.claims| && input.claims[i].required ::
               NoNegativeGain(input.claims[i].condition, small, large, input.attemptId)
    requires VerdictOf(input, small, waivers) == Pass
    ensures VerdictOf(input, large, waivers) == Pass
  {
    VerdictExact(input, small, waivers);
    VerdictExact(input, large, waivers);
    forall i | 0 <= i < |input.claims|
      ensures Covered(input, i, large, waivers)
    {
      assert Covered(input, i, small, waivers);
      if input.claims[i].required && input.claims[i].id !in waivers {
        var c := input.claims[i].condition;
        SatisfactionKept(c, c, true, small, large, input.attemptId);
      }
    }
  }

  // A passing task whose required claims are all positive stays passing as observations arrive.
  lemma {:induction false} PassIsStable(input: Input, small: seq<Observation>, large: seq<Observation>, waivers: map<string, Waiver>)
    requires Included(small, large)
    requires forall i | 0 <= i < |input.claims| && input.claims[i].required :: Polarity(input.claims[i].condition, true)
    requires VerdictOf(input, small, waivers) == Pass
    ensures VerdictOf(input, large, waivers) == Pass
  {
    forall i | 0 <= i < |input.claims| && input.claims[i].required
      ensures NoNegativeGain(input.claims[i].condition, small, large, input.attemptId)
    {
      var c := input.claims[i].condition;
      WeakensReflexive(c);
      PositiveNoGain(c, c, true, small, large, input.attemptId);
    }
    PassKept(input, small, large, waivers);
  }

  lemma {:induction false} WeakensReflexive(c: Condition)
    ensures Weakens(c, c)
    decreases c
  {
    match c
    case Observed(_, _, facts) => MatchReflexive(facts);
    case Not(child) => WeakensReflexive(child);
    case All(cs) => forall i | 0 <= i < |cs| ensures Weakens(cs[i], cs[i]) { WeakensReflexive(cs[i]); }
    case AnyOf(cs) => forall i | 0 <= i < |cs| ensures Weakens(cs[i], cs[i]) { WeakensReflexive(cs[i]); }
  }

  predicate TargetsTask(input: Input, observations: seq<Observation>) {
    input.attemptTaskId == input.taskId && forall o | o in observations :: o.taskId == input.taskId
  }

  // evaluateTask on a parsed input: the claims with their evidence, and their verdict.
  method EvaluateTask(input: Input, observations: seq<Observation>, waivers: seq<Waiver>)
    returns (r: Option<(seq<Evaluated>, Verdict)>)
    ensures r.Some? <==> TargetsTask(input, observations) && (forall w | w in waivers :: WaiverApplies(input, w)) && OnePerClaim(waivers)
    ensures r.Some? ==> |r.value.0| == |input.claims|
    ensures r.Some? ==> forall i | 0 <= i < |input.claims| ::
              var e := r.value.0[i];
              && e.claimId == input.claims[i].id && e.required == input.claims[i].required && Holds(input, i, observations, e.result)
              && e.observationIds == EvaluateCondition(input.claims[i].condition, observations, input.attemptId).observationIds
              && (e.waiverId.Some? ==> exists w | w in waivers :: w.claimId == e.claimId && w.id == e.waiverId.value)
              && (e.waiverId.Some? <==> e.result != Satisfied && exists w | w in waivers :: w.claimId == e.claimId)
    ensures r.Some? ==> exists byClaim ::
              && (forall id :: id in byClaim <==> exists w | w in waivers :: w.claimId == id)
              && r.value.1 == VerdictOf(input, observations, byClaim)
  {
    if input.attemptTaskId != input.taskId {
      return None;
    }
    for k := 0 to |observations|
      invariant forall i | 0 <= i < k :: observations[i].taskId == input.taskId
    {
      if observations[k].taskId != input.taskId {
        assert observations[k] in observations;
        return None;
      }
    }
    var byClaim := ValidateWaivers(input, waivers);
    if byClaim.None? {
      return None;
    }
    var claims := EvaluateClaims(input, observations, byClaim.value);
    assert forall id :: id in byClaim.value <==> exists w | w in waivers :: w.claimId == id;
    r := Some((claims, ReduceVerdict(claims)));
    assert r.value.1 == VerdictOf(input, observations, byClaim.value);
  }
}
