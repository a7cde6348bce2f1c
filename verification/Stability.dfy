/** Which observation can undo a satisfied condition (packages/protocol/src/evaluation.ts:59-100), for
    conditions whose leaves are about different kinds. */
module Stability {
  import opened Wrappers
  import opened Evaluation

  predicate HasKind(c: Condition, kind: string)
    decreases c
  {
    match c
    case Observed(own, _, _) => own == kind
    case Not(child) => HasKind(child, kind)
    case All(conditions) => exists i | 0 <= i < |conditions| :: HasKind(conditions[i], kind)
    case AnyOf(conditions) => exists i | 0 <= i < |conditions| :: HasKind(conditions[i], kind)
  }

  ghost predicate Apart(conditions: seq<Condition>) {
    forall i, j, kind | 0 <= i < j < |conditions| && HasKind(conditions[i], kind) :: !HasKind(conditions[j], kind)
  }

  // No two leaves share a kind, and no combination is empty, which parsing refuses.
  ghost predicate DistinctKinds(c: Condition)
    decreases c
  {
    match c
    case Observed(_, _, _) => true
    case Not(child) => DistinctKinds(child)
    case All(cs) => cs != [] && Apart(cs) && forall i | 0 <= i < |cs| :: DistinctKinds(cs[i])
    case AnyOf(cs) => cs != [] && Apart(cs) && forall i | 0 <= i < |cs| :: DistinctKinds(cs[i])
  }

  // The observation supports a leaf in negative position.
  predicate SupportsNegative(o: Observation, c: Condition, positive: bool, attemptId: string)
    decreases c
  {
    match c
    case Observed(kind, taskScope, facts) =>
      !positive && IsCandidate(o, kind, taskScope, attemptId) && MatchesExpected(Some(o.facts), facts)
    case Not(child) => SupportsNegative(o, child, !positive, attemptId)
    case All(cs) => exists i | 0 <= i < |cs| :: SupportsNegative(o, cs[i], positive, attemptId)
    case AnyOf(cs) => exists i | 0 <= i < |cs| :: SupportsNegative(o, cs[i], positive, attemptId)
  }

  // ----- Only observations of a condition's kinds matter

  ghost predicate Agree(c: Condition, a: seq<Observation>, b: seq<Observation>) {
    forall o: Observation | HasKind(c, o.kind) :: o in a <==> o in b
  }

  lemma LeafLocal(c: Condition, a: seq<Observation>, b: seq<Observation>, attemptId: string)
    requires c.Observed? && Agree(c, a, b)
    ensures EvaluateCondition(c, a, attemptId).result == EvaluateCondition(c, b, attemptId).result
  {
    SatisfiedLeaf(c, a, attemptId);
    SatisfiedLeaf(c, b, attemptId);
    ViolatedLeaf(c, a, attemptId);
    ViolatedLeaf(c, b, attemptId);
    assert forall o :: Support(o, c, a, attemptId) <==> Support(o, c, b, attemptId);
    assert forall o | IsCandidate(o, c.kind, c.taskScope, attemptId) :: o in a <==> o in b;
  }

  lemma {:induction false} ResultLocal(c: Condition, a: seq<Observation>, b: seq<Observation>, attemptId: string)
    requires Agree(c, a, b)
    ensures EvaluateCondition(c, a, attemptId).result == EvaluateCondition(c, b, attemptId).result
    decreases c
  {
    match c
    case Observed(_, _, _) => LeafLocal(c, a, b, attemptId);
    case Not(child) => ResultLocal(child, a, b, attemptId);
    case All(cs) => EachLocal(c, cs, a, b, attemptId);
    case AnyOf(cs) => EachLocal(c, cs, a, b, attemptId);
  }

  lemma {:induction false} EachLocal(whole: Condition, cs: seq<Condition>, a: seq<Observation>, b: seq<Observation>, attemptId: string)
    requires (whole.All? || whole.AnyOf?) && whole.conditions == cs && Agree(whole, a, b)
    ensures forall i | 0 <= i < |cs| :: EvaluateEach(cs, a, attemptId)[i].result == EvaluateEach(cs, b, attemptId)[i].result
    decreases whole, 0
  {
    forall i | 0 <= i < |cs|
      ensures EvaluateEach(cs, a, attemptId)[i].result == EvaluateEach(cs, b, attemptId)[i].result
    {
      assert Agree(cs[i], a, b);
      ResultLocal(cs[i], a, b, attemptId);
    }
  }

  // ----- Observations that force a result

  // Facts that do not match the expected ones.
  function Mismatch(expected: Json): (r: Json)
    ensures !MatchesExpected(Some(r), expected)
  {
    if expected == Null then Bool(true) else Null
  }

  function LeafObservation(c: Condition, positive: bool, attemptId: string): Observation
    requires c.Observed?
  {
    Observation("", "", c.kind, attemptId, if positive then c.facts else Mismatch(c.facts))
  }

  // All observations are about kinds of the condition.
  ghost predicate About(c: Condition, observations: seq<Observation>) {
    forall o | o in observations :: HasKind(c, o.kind)
  }

  lemma LeafForced(c: Condition, positive: bool, attemptId: string)
    requires c.Observed?
    ensures EvaluateCondition(c, [LeafObservation(c, positive, attemptId)], attemptId).result == Wanted(positive)
  {
    var o := LeafObservation(c, positive, attemptId);
    MatchReflexive(c.facts);
    SatisfiedLeaf(c, [o], attemptId);
    ViolatedLeaf(c, [o], attemptId);
    assert o in [o];
    assert positive ==> Support(o, c, [o], attemptId);
  }

  function Width(c: Condition): nat {
    if c.All? || c.AnyOf? then |c.conditions| + 1 else 0
  }

  // Some observations about the condition give it the wanted result.
  lemma {:induction false} Forced(c: Condition, positive: bool, attemptId: string) returns (observations: seq<Observation>)
    requires DistinctKinds(c)
    ensures About(c, observations) && EvaluateCondition(c, observations, attemptId).result == Wanted(positive)
    decreases c, Width(c)
  {
    match c
    case Observed(_, _, _) =>
      LeafForced(c, positive, attemptId);
      observations := [LeafObservation(c, positive, attemptId)];
    case Not(child) =>
      observations := Forced(child, !positive, attemptId);
    case All(cs) =>
      observations := ForcedEach(c, cs, positive, |cs|, |cs|, attemptId);
    case AnyOf(cs) =>
      observations := ForcedEach(c, cs, positive, |cs|, |cs|, attemptId);
  }

  // The first n children but one get the wanted result; no other child is observed.
  lemma {:induction false} ForcedEach(whole: Condition, cs: seq<Condition>, positive: bool, n: nat, skip: nat, attemptId: string)
    returns (observations: seq<Observation>)
    requires (whole.All? || whole.AnyOf?) && whole.conditions == cs && DistinctKinds(whole) && n <= |cs|
    ensures OnlyOf(cs, n, skip, observations) && GivesEach(cs, positive, n, skip, observations, attemptId)
    decreases whole, n
  {
    if n == 0 {
      observations := [];
    } else {
      var k := n - 1;
      var before := ForcedEach(whole, cs, positive, k, skip, attemptId);
      if k == skip {
        observations := before;
      } else {
        var own := Forced(cs[k], positive, attemptId);
        OneMoreForced(cs, positive, k, skip, before, own, attemptId);
        observations := before + own;
      }
    }
  }

  ghost predicate GivesEach(cs: seq<Condition>, positive: bool, n: nat, skip: nat, observations: seq<Observation>, attemptId: string)
    requires n <= |cs|
  {
    forall i | 0 <= i < n && i != skip :: EvaluateCondition(cs[i], observations, attemptId).result == Wanted(positive)
  }

  lemma OneMoreForced(cs: seq<Condition>, positive: bool, n: nat, skip: nat, before: seq<Observation>, own: seq<Observation>, attemptId: string)
    requires Apart(cs) && n < |cs| && n != skip && OnlyOf(cs, n, skip, before) && GivesEach(cs, positive, n, skip, before, attemptId)
    requires About(cs[n], own) && EvaluateCondition(cs[n], own, attemptId).result == Wanted(positive)
    ensures OnlyOf(cs, n + 1, skip, before + own) && GivesEach(cs, positive, n + 1, skip, before + own, attemptId)
  {
    OwnUntouched(cs, n, skip, n, before, own);
    ResultLocal(cs[n], own, before + own, attemptId);
    forall i | 0 <= i < n && i != skip
      ensures EvaluateCondition(cs[i], before + own, attemptId).result == Wanted(positive)
    {
      OthersUntouched(cs, n, before, own, i);
      ResultLocal(cs[i], before, before + own, attemptId);
    }
  }

  // Every observation is about one of the first n conditions but one.
  ghost predicate OnlyOf(cs: seq<Condition>, n: nat, skip: nat, observations: seq<Observation>)
    requires n <= |cs|
  {
    forall o | o in observations :: exists i | 0 <= i < n && i != skip :: HasKind(cs[i], o.kind)
  }

  // Observations about condition k leave every other condition's alone.
  lemma OthersUntouched(cs: seq<Condition>, k: nat, before: seq<Observation>, own: seq<Observation>, i: nat)
    requires Apart(cs) && i < |cs| && k < |cs| && i != k && About(cs[k], own)
    ensures Agree(cs[i], before, before + own)
  {
  }

  lemma OwnUntouched(cs: seq<Condition>, n: nat, skip: nat, k: nat, before: seq<Observation>, own: seq<Observation>)
    requires Apart(cs) && n <= |cs| && k < |cs| && (n <= k || k == skip) && OnlyOf(cs, n, skip, before)
    ensures Agree(cs[k], own, before + own)
  {
  }

  // ----- The observation that undoes satisfaction

  lemma LeafFocus(o: Observation, c: Condition, attemptId: string)
    requires c.Observed? && SupportsNegative(o, c, false, attemptId)
    ensures var small := [LeafObservation(c, false, attemptId)];
            && EvaluateCondition(c, small, attemptId).result == Violated
            && EvaluateCondition(c, small + [o], attemptId).result == Satisfied
  {
    var small := [LeafObservation(c, false, attemptId)];
    LeafForced(c, false, attemptId);
    SatisfiedLeaf(c, small + [o], attemptId);
    assert o in small + [o];
    assert Support(o, c, small + [o], attemptId);
  }

  // Observations over which the condition's result turns on the leaf the observation supports.
  lemma {:induction false} Focus(o: Observation, c: Condition, positive: bool, attemptId: string) returns (small: seq<Observation>)
    requires DistinctKinds(c) && SupportsNegative(o, c, positive, attemptId)
    ensures About(c, small + [o])
    ensures EvaluateCondition(c, small, attemptId).result == Wanted(positive)
    ensures EvaluateCondition(c, small + [o], attemptId).result == Wanted(!positive)
    decreases c, 1
  {
    match c
    case Observed(_, _, _) =>
      LeafFocus(o, c, attemptId);
      small := [LeafObservation(c, false, attemptId)];
    case Not(child) =>
      small := Focus(o, child, !positive, attemptId);
    case All(cs) =>
      small := FocusEach(o, c, cs, positive, attemptId);
    case AnyOf(cs) =>
      small := FocusEach(o, c, cs, positive, attemptId);
  }

  lemma {:induction false} FocusEach(o: Observation, whole: Condition, cs: seq<Condition>, positive: bool, attemptId: string)
    returns (small: seq<Observation>)
    requires (whole.All? || whole.AnyOf?) && whole.conditions == cs && DistinctKinds(whole)
    requires SupportsNegative(o, whole, positive, attemptId)
    ensures About(whole, small + [o])
    ensures EvaluateCondition(whole, small, attemptId).result == Wanted(positive)
    ensures EvaluateCondition(whole, small + [o], attemptId).result == Wanted(!positive)
    decreases whole, 0
  {
    var k :| 0 <= k < |cs| && SupportsNegative(o, cs[k], positive, attemptId);
    var own := Focus(o, cs[k], positive, attemptId);
    var rest := ForcedEach(whole, cs, whole.All?, |cs|, k, attemptId);
    small := rest + own;
    TurnsOn(whole, cs, k, rest, own, attemptId);
    assert small + [o] == rest + (own + [o]);
    assert About(cs[k], own) by { assert forall x | x in own :: x in own + [o]; }
    TurnsOn(whole, cs, k, rest, own + [o], attemptId);
    AboutWhole(whole, cs, k, rest, own + [o]);
  }

  lemma AboutWhole(whole: Condition, cs: seq<Condition>, k: nat, rest: seq<Observation>, own: seq<Observation>)
    requires (whole.All? || whole.AnyOf?) && whole.conditions == cs && k < |cs| && OnlyOf(cs, |cs|, k, rest) && About(cs[k], own)
    ensures About(whole, rest + own)
  {
  }

  // With every other child neutral the combination has the result of its child k.
  lemma TurnsOn(whole: Condition, cs: seq<Condition>, k: nat, rest: seq<Observation>, own: seq<Observation>, attemptId: string)
    requires (whole.All? || whole.AnyOf?) && whole.conditions == cs && DistinctKinds(whole) && k < |cs|
    requires OnlyOf(cs, |cs|, k, rest) && About(cs[k], own)
    requires forall i | 0 <= i < |cs| && i != k :: EvaluateCondition(cs[i], rest, attemptId).result == Wanted(whole.All?)
    requires EvaluateCondition(cs[k], own, attemptId).result != Inconclusive
    ensures EvaluateCondition(whole, rest + own, attemptId).result == EvaluateCondition(cs[k], own, attemptId).result
  {
    var children := EvaluateEach(cs, rest + own, attemptId);
    OwnUntouched(cs, |cs|, k, k, rest, own);
    ResultLocal(cs[k], own, rest + own, attemptId);
    forall i | 0 <= i < |cs| && i != k
      ensures children[i].result == Wanted(whole.All?)
    {
      OthersUntouched(cs, k, rest, own, i);
      ResultLocal(cs[i], rest, rest + own, attemptId);
    }
    Combined(children, k, whole.All?);
  }

  lemma Combined(children: seq<ConditionResult>, k: nat, all: bool)
    requires k < |children| && children[k].result != Inconclusive
    requires forall i | 0 <= i < |children| && i != k :: children[i].result == Wanted(all)
    ensures (if all then AllResult(children) else AnyResult(children)) == children[k].result
  {
  }

  // An observation supporting no negative leaf gives none its first support.
  lemma {:induction false} NoSupportNoGain(o: Observation, c: Condition, positive: bool, small: seq<Observation>, attemptId: string)
    requires !SupportsNegative(o, c, positive, attemptId)
    ensures Weakens(c, c) && NoGain(c, c, positive, small, small + [o], attemptId)
    decreases c
  {
    WeakensReflexive(c);
    match c
    case Observed(_, _, _) =>
      if x: Observation :| Support(x, c, small + [o], attemptId) {
        assert positive || Support(x, c, small, attemptId);
      }
    case Not(child) => NoSupportNoGain(o, child, !positive, small, attemptId);
    case All(cs) => EachNoGain(o, c, cs, positive, small, attemptId);
    case AnyOf(cs) => EachNoGain(o, c, cs, positive, small, attemptId);
  }

  lemma {:induction false} EachNoGain(o: Observation, whole: Condition, cs: seq<Condition>, positive: bool, small: seq<Observation>,
                                      attemptId: string)
    requires (whole.All? || whole.AnyOf?) && whole.conditions == cs && !SupportsNegative(o, whole, positive, attemptId)
    ensures forall i | 0 <= i < |cs| :: Weakens(cs[i], cs[i]) && NoGain(cs[i], cs[i], positive, small, small + [o], attemptId)
    decreases whole, 0
  {
    forall i | 0 <= i < |cs|
      ensures Weakens(cs[i], cs[i]) && NoGain(cs[i], cs[i], positive, small, small + [o], attemptId)
    {
      NoSupportNoGain(o, cs[i], positive, small, attemptId);
    }
  }

  // Added to any observations, this one leaves a satisfied condition satisfied.
  ghost predicate NeverUndoes(o: Observation, c: Condition, attemptId: string) {
    forall small | EvaluateCondition(c, small, attemptId).result == Satisfied ::
      EvaluateCondition(c, small + [o], attemptId).result == Satisfied
  }

  // Whatever was observed before, an observation never undoes satisfaction exactly when it supports
  // no leaf in negative position.
  lemma NeverUndoesIff(o: Observation, c: Condition, attemptId: string)
    requires DistinctKinds(c)
    ensures NeverUndoes(o, c, attemptId) <==> !SupportsNegative(o, c, true, attemptId)
  {
    if SupportsNegative(o, c, true, attemptId) {
      var small := Focus(o, c, true, attemptId);
      assert EvaluateCondition(c, small, attemptId).result == Satisfied;
    } else {
      forall small | EvaluateCondition(c, small, attemptId).result == Satisfied
        ensures EvaluateCondition(c, small + [o], attemptId).result == Satisfied
      {
        NoSupportNoGain(o, c, true, small, attemptId);
        SatisfactionKept(c, c, true, small, small + [o], attemptId);
      }
    }
  }

  lemma {:induction false} NegativeLeaf(c: Condition, positive: bool, attemptId: string) returns (o: Observation)
    requires !Polarity(c, positive)
    ensures SupportsNegative(o, c, positive, attemptId)
    decreases c
  {
    match c
    case Observed(_, _, facts) =>
      MatchReflexive(facts);
      o := LeafObservation(c, true, attemptId);
    case Not(child) => o := NegativeLeaf(child, !positive, attemptId);
    case All(cs) =>
      var i :| 0 <= i < |cs| && !Polarity(cs[i], positive);
      o := NegativeLeaf(cs[i], positive, attemptId);
    case AnyOf(cs) =>
      var i :| 0 <= i < |cs| && !Polarity(cs[i], positive);
      o := NegativeLeaf(cs[i], positive, attemptId);
  }

  // No observation at all can undo a condition's satisfaction exactly when its leaves are positive.
  lemma NothingUndoesIff(c: Condition, attemptId: string)
    requires DistinctKinds(c)
    ensures (forall o :: NeverUndoes(o, c, attemptId)) <==> Polarity(c, true)
  {
    if Polarity(c, true) {
      forall o
        ensures NeverUndoes(o, c, attemptId)
      {
        forall small | EvaluateCondition(c, small, attemptId).result == Satisfied
          ensures EvaluateCondition(c, small + [o], attemptId).result == Satisfied
        {
          WeakensReflexive(c);
          SatisfactionMonotone(c, c, true, small, small + [o], attemptId);
        }
      }
    } else {
      var o := NegativeLeaf(c, true, attemptId);
      NeverUndoesIff(o, c, attemptId);
    }
  }
}
