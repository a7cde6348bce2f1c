/** What a condition asks of the observations' facts, and what its result and evidence are
    (packages/protocol/src/evaluation.ts:33-100). */
module Facts {
  import opened Wrappers
  import opened Evaluation

  // ----- Matching, kind by kind

  function Restricted(fields: map<string, Json>, names: set<string>): map<string, Json> {
    map name | name in fields && name in names :: fields[name]
  }

  // Primitives match when they are equal, arrays item by item at equal length, and an object when its
  // restriction to the expected names does.
  lemma {:induction false} MatchExactly(actual: Json, expected: Json)
    ensures !expected.Array? && !expected.Object? ==> (MatchesExpected(Some(actual), expected) <==> actual == expected)
    ensures expected.Array? ==>
              (MatchesExpected(Some(actual), expected) <==>
               actual.Array? && |actual.items| == |expected.items|
               && forall i | 0 <= i < |expected.items| :: MatchesExpected(Some(actual.items[i]), expected.items[i]))
    ensures expected.Object? ==>
              (MatchesExpected(Some(actual), expected) <==>
               actual.Object? && expected.fields.Keys <= actual.fields.Keys
               && MatchesExpected(Some(Object(Restricted(actual.fields, expected.fields.Keys))), expected))
  {
    if expected.Object? && actual.Object? {
      var wanted, few := expected.fields, Restricted(actual.fields, expected.fields.Keys);
      forall name | name in wanted
        ensures Field(few, name) == Field(actual.fields, name)
      {
      }
      if MatchesExpected(Some(actual), expected) {
        forall name | name in wanted
          ensures name in actual.fields
        {
          FieldOfMatch(actual.fields, wanted, name);
        }
      }
    }
  }

  // ----- More fields

  // The second value is the first with fields added to objects, at any depth.
  ghost predicate Gains(a: Json, b: Json)
    decreases a
  {
    match a
    case Array(items) =>
      b.Array? && |b.items| == |items| && forall i | 0 <= i < |items| :: Gains(items[i], b.items[i])
    case Object(fields) =>
      b.Object? && forall name | name in fields :: name in b.fields && Gains(fields[name], b.fields[name])
    case _ => a == b
  }

  lemma {:induction false} GainsReflexive(a: Json)
    ensures Gains(a, a)
    decreases a
  {
    match a
    case Array(items) =>
      forall i | 0 <= i < |items|
        ensures Gains(items[i], items[i])
      {
        GainsReflexive(items[i]);
      }
    case Object(fields) =>
      forall name | name in fields
        ensures Gains(fields[name], fields[name])
      {
        GainsReflexive(fields[name]);
      }
    case _ =>
  }

  datatype PathStep = ToField(name: string) | ToItem(index: nat)

  // The value with a field of its own added to the object the path leads to, if it leads to one.
  function WithField(v: Json, path: seq<PathStep>, name: string, value: Json): Json
    decreases |path|
  {
    if path == [] then
      if v.Object? && name !in v.fields then Object(v.fields[name := value]) else v
    else
      match path[0]
      case ToField(f) =>
        if v.Object? && f in v.fields then Object(v.fields[f := WithField(v.fields[f], path[1..], name, value)]) else v
      case ToItem(i) =>
        if v.Array? && i < |v.items| then Array(v.items[i := WithField(v.items[i], path[1..], name, value)]) else v
  }

  lemma {:induction false} WithFieldGains(v: Json, path: seq<PathStep>, name: string, value: Json)
    ensures Gains(v, WithField(v, path, name, value))
    decreases |path|
  {
    GainsReflexive(v);
    if path != [] {
      if path[0].ToField? && v.Object? && path[0].name in v.fields {
        WithFieldGains(v.fields[path[0].name], path[1..], name, value);
      }
      if path[0].ToItem? && v.Array? && path[0].index < |v.items| {
        WithFieldGains(v.items[path[0].index], path[1..], name, value);
      }
    }
  }

  // Gaining fields never loses a match.
  lemma {:induction false} GainsKeepMatch(a: Json, b: Json, expected: Json)
    requires Gains(a, b) && MatchesExpected(Some(a), expected)
    ensures MatchesExpected(Some(b), expected)
    decreases expected
  {
    match expected
    case Array(items) =>
      forall i | 0 <= i < |items|
        ensures MatchesExpected(Some(b.items[i]), items[i])
      {
        GainsKeepMatch(a.items[i], b.items[i], items[i]);
      }
    case Object(fields) =>
      forall name | name in fields
        ensures MatchesExpected(Field(b.fields, name), fields[name])
      {
        FieldOfMatch(a.fields, fields, name);
        GainsKeepMatch(a.fields[name], b.fields[name], fields[name]);
      }
    case _ =>
  }

  // A field more, wherever it is added, never loses a match.
  lemma FieldMoreKeepsMatch(v: Json, path: seq<PathStep>, name: string, value: Json, expected: Json)
    requires MatchesExpected(Some(v), expected)
    ensures MatchesExpected(Some(WithField(v, path, name, value)), expected)
  {
    WithFieldGains(v, path, name, value);
    GainsKeepMatch(v, WithField(v, path, name, value), expected);
  }

  // The same observations, with facts that gained fields.
  ghost predicate SameButRicher(small: seq<Observation>, large: seq<Observation>) {
    |small| == |large| && forall k | 0 <= k < |small| :: Richer(small[k], large[k])
  }

  ghost predicate Richer(o: Observation, p: Observation) {
    p == o.(facts := p.facts) && Gains(o.facts, p.facts)
  }

  // A condition whose leaves are all positive stays satisfied as facts gain fields, and one whose
  // leaves are all negative stays violated.
  lemma {:induction false} RicherKeeps(c: Condition, positive: bool, small: seq<Observation>, large: seq<Observation>, attemptId: string)
    requires Polarity(c, positive) && SameButRicher(small, large)
    requires EvaluateCondition(c, small, attemptId).result == Wanted(positive)
    ensures EvaluateCondition(c, large, attemptId).result == Wanted(positive)
    decreases c
  {
    match c
    case Observed(_, _, facts) =>
      SatisfiedLeaf(c, small, attemptId);
      SatisfiedLeaf(c, large, attemptId);
      var o :| Support(o, c, small, attemptId);
      var k :| 0 <= k < |small| && small[k] == o;
      assert Richer(small[k], large[k]);
      GainsKeepMatch(o.facts, large[k].facts, facts);
      assert Support(large[k], c, large, attemptId);
    case Not(child) => RicherKeeps(child, !positive, small, large, attemptId);
    case All(cs) => RicherKeepsEach(c, cs, positive, small, large, attemptId);
    case AnyOf(cs) => RicherKeepsEach(c, cs, positive, small, large, attemptId);
  }

  lemma {:induction false} RicherKeepsEach(whole: Condition, cs: seq<Condition>, positive: bool,
                                           small: seq<Observation>, large: seq<Observation>, attemptId: string)
    requires (whole.All? || whole.AnyOf?) && whole.conditions == cs && Polarity(whole, positive) && SameButRicher(small, large)
    ensures forall i | 0 <= i < |cs| && EvaluateEach(cs, small, attemptId)[i].result == Wanted(positive) ::
              EvaluateEach(cs, large, attemptId)[i].result == Wanted(positive)
    decreases whole, 0
  {
    forall i | 0 <= i < |cs| && EvaluateEach(cs, small, attemptId)[i].result == Wanted(positive)
      ensures EvaluateEach(cs, large, attemptId)[i].result == Wanted(positive)
    {
      RicherKeeps(cs[i], positive, small, large, attemptId);
    }
  }

  // A passing task whose required claims are all positive stays passing as facts gain fields.
  lemma {:induction false} PassKeepsRicher(input: Input, small: seq<Observation>, large: seq<Observation>, waivers: map<string, Waiver>)
    requires SameButRicher(small, large)
    requires forall i | 0 <= i < |input.claims| && input.claims[i].required :: Polarity(input.claims[i].condition, true)
    requires VerdictOf(input, small, waivers) == Pass
    ensures VerdictOf(input, large, waivers) == Pass
  {
    VerdictExact(input, small, waivers);
    VerdictExact(input, large, waivers);
    forall i | 0 <= i < |input.claims|
      ensures Covered(input, i, large, waivers)
    {
      assert Covered(input, i, small, waivers);
      if input.claims[i].required && input.claims[i].id !in waivers {
        RicherKeeps(input.claims[i].condition, true, small, large, input.attemptId);
      }
    }
  }

  // Of claims with one id the last counts.
  lemma {:induction false} LastClaimCounts(claims: seq<Claim>, id: string, c: Claim)
    ensures (id in ClaimsById(claims) && ClaimsById(claims)[id] == c) <==> exists k :: LastNamed(claims, id, k) && claims[k] == c
  {
    if claims != [] {
      var n := |claims| - 1;
      var front := claims[..n];
      LastClaimCounts(front, id, c);
      if claims[n].id == id {
        assert LastNamed(claims, id, n);
      } else {
        assert forall k :: LastNamed(claims, id, k) <==> LastNamed(front, id, k);
      }
    }
  }

  ghost predicate LastNamed(claims: seq<Claim>, id: string, k: int) {
    0 <= k < |claims| && claims[k].id == id && forall j | k < j < |claims| :: claims[j].id != id
  }

  // ----- Results and evidence

  // The observation is one the leaf looks at: of its kind, and of the attempt unless its scope is the task.
  ghost predicate InScope(leaf: Condition, o: Observation, attemptId: string)
    requires leaf.Observed?
  {
    o.kind == leaf.kind && (leaf.taskScope || o.attemptId == attemptId)
  }

  ghost predicate Increasing(indices: seq<nat>) {
    forall a, b | 0 <= a < b < |indices| :: indices[a] < indices[b]
  }

  // Exactly the observations in scope from `lo` on, in order.
  ghost predicate ListsScope(indices: seq<nat>, leaf: Condition, observations: seq<Observation>, attemptId: string, lo: nat)
    requires leaf.Observed?
  {
    Increasing(indices) && forall k :: k in indices <==> lo <= k < |observations| && InScope(leaf, observations[k], attemptId)
  }

  // Exactly those of them with matching facts, in order.
  ghost predicate ListsSupport(indices: seq<nat>, leaf: Condition, observations: seq<Observation>, attemptId: string, lo: nat)
    requires leaf.Observed?
  {
    Increasing(indices) && forall k :: k in indices <==>
      lo <= k < |observations| && InScope(leaf, observations[k], attemptId) && MatchesExpected(Some(observations[k].facts), leaf.facts)
  }

  function At(observations: seq<Observation>, indices: seq<nat>): (r: seq<Observation>)
    requires forall a | 0 <= a < |indices| :: indices[a] < |observations|
    ensures |r| == |indices| && forall a | 0 <= a < |indices| :: r[a] == observations[indices[a]]
  {
    seq(|indices|, a requires 0 <= a < |indices| => observations[indices[a]])
  }

  // The ids of the observations at the indices.
  ghost predicate NamesAt(names: seq<string>, observations: seq<Observation>, indices: seq<nat>) {
    |names| == |indices| && forall a | 0 <= a < |indices| :: indices[a] < |observations| && names[a] == observations[indices[a]].id
  }

  lemma NextCandidate(leaf: Condition, observations: seq<Observation>, attemptId: string, lo: nat)
    requires leaf.Observed? && lo < |observations|
    ensures var o, later := observations[lo], Candidates(leaf, observations[lo + 1..], attemptId);
            var all := Candidates(leaf, observations[lo..], attemptId);
            && all == (if InScope(leaf, o, attemptId) then [o] + later else later)
            && Matching(all, leaf.facts) ==
               if InScope(leaf, o, attemptId) && MatchesExpected(Some(o.facts), leaf.facts) then [o] + Matching(later, leaf.facts)
               else Matching(later, leaf.facts)
  {
    var o, later := observations[lo], Candidates(leaf, observations[lo + 1..], attemptId);
    assert observations[lo..][0] == o && observations[lo..][1..] == observations[lo + 1..];
    assert ([o] + later)[1..] == later;
  }

  lemma Ahead(observations: seq<Observation>, indices: seq<nat>, lo: nat) returns (longer: seq<nat>)
    requires lo < |observations| && Increasing(indices) && forall k | k in indices :: lo < k < |observations|
    ensures longer == [lo] + indices && Increasing(longer) && forall k :: k in longer <==> k == lo || k in indices
    ensures forall a | 0 <= a < |indices| :: indices[a] < |observations|
    ensures At(observations, longer) == [observations[lo]] + At(observations, indices)
  {
    longer := [lo] + indices;
    assert forall a | 0 <= a < |indices| :: indices[a] in indices;
  }

  lemma Below(observations: seq<Observation>, indices: seq<nat>)
    requires forall k | k in indices :: k < |observations|
    ensures forall a | 0 <= a < |indices| :: indices[a] < |observations|
  {
    assert forall a | 0 <= a < |indices| :: indices[a] in indices;
  }

  lemma {:induction false} ScopeInOrder(leaf: Condition, observations: seq<Observation>, attemptId: string, lo: nat) returns (scope: seq<nat>)
    requires leaf.Observed? && lo <= |observations|
    ensures ListsScope(scope, leaf, observations, attemptId, lo) && forall a | 0 <= a < |scope| :: scope[a] < |observations|
    ensures Candidates(leaf, observations[lo..], attemptId) == At(observations, scope)
    decreases |observations| - lo
  {
    scope := [];
    if lo < |observations| {
      NextCandidate(leaf, observations, attemptId, lo);
      scope := ScopeInOrder(leaf, observations, attemptId, lo + 1);
      if InScope(leaf, observations[lo], attemptId) {
        scope := Ahead(observations, scope, lo);
      }
      Below(observations, scope);
    }
  }

  lemma {:induction false} SupportInOrder(leaf: Condition, observations: seq<Observation>, attemptId: string, lo: nat) returns (support: seq<nat>)
    requires leaf.Observed? && lo <= |observations|
    ensures ListsSupport(support, leaf, observations, attemptId, lo) && forall a | 0 <= a < |support| :: support[a] < |observations|
    ensures Matching(Candidates(leaf, observations[lo..], attemptId), leaf.facts) == At(observations, support)
    decreases |observations| - lo
  {
    support := [];
    if lo < |observations| {
      NextCandidate(leaf, observations, attemptId, lo);
      support := SupportInOrder(leaf, observations, attemptId, lo + 1);
      if InScope(leaf, observations[lo], attemptId) && MatchesExpected(Some(observations[lo].facts), leaf.facts) {
        support := Ahead(observations, support, lo);
      }
      Below(observations, support);
    }
  }

  // A leaf is inconclusive with nothing in scope, satisfied by what matches and violated otherwise; it
  // names in order what satisfies it, or what is in scope.
  lemma LeafExactly(leaf: Condition, observations: seq<Observation>, attemptId: string) returns (scope: seq<nat>, support: seq<nat>)
    requires leaf.Observed?
    ensures ListsScope(scope, leaf, observations, attemptId, 0) && ListsSupport(support, leaf, observations, attemptId, 0)
    ensures var r := EvaluateCondition(leaf, observations, attemptId);
            && (r.result == Inconclusive <==> scope == []) && (r.result == Satisfied <==> support != [])
            && NamesAt(r.observationIds, observations, if r.result == Satisfied then support else scope)
  {
    scope := ScopeInOrder(leaf, observations, attemptId, 0);
    support := SupportInOrder(leaf, observations, attemptId, 0);
    assert observations[0..] == observations;
  }

  // ----- Composite conditions

  lemma {:induction false} FlatMembers(children: seq<ConditionResult>, id: string)
    ensures id in FlatIds(children) <==> exists i | 0 <= i < |children| :: id in children[i].observationIds
  {
    if children != [] {
      FlatMembers(children[1..], id);
      if i :| 0 <= i < |children[1..]| && id in children[1..][i].observationIds {
        assert id in children[i + 1].observationIds;
      }
    }
  }

  lemma {:induction false} UniqueMembers(values: seq<string>)
    ensures forall v :: v in Unique(values) <==> v in values
    ensures forall i, j | 0 <= i < j < |Unique(values)| :: Unique(values)[i] != Unique(values)[j]
  {
    if values != [] {
      UniqueMembers(values[..|values| - 1]);
      assert values == values[..|values| - 1] + [values[|values| - 1]];
    }
  }

  // The first place of a value.
  ghost predicate FirstAt(values: seq<string>, v: string, k: int) {
    0 <= k < |values| && values[k] == v && v !in values[..k]
  }

  // Values are kept in the order of their first places.
  lemma {:induction false} UniqueInOrder(values: seq<string>, i: nat, j: nat, k: int, l: int)
    requires i < j < |Unique(values)| && FirstAt(values, Unique(values)[i], k) && FirstAt(values, Unique(values)[j], l)
    ensures k < l
  {
    var n := |values| - 1;
    var front, last := values[..n], values[n];
    UniqueMembers(front);
    UniqueMembers(values);
    if j < |Unique(front)| {
      assert Unique(front)[i] == Unique(values)[i] && Unique(front)[j] == Unique(values)[j];
      assert Unique(front)[i] in front && Unique(front)[j] in front;
      assert front[..k] == values[..k] && front[..l] == values[..l];
      UniqueInOrder(front, i, j, k, l);
    } else {
      assert Unique(values)[j] == last && last !in front;
      assert Unique(front)[i] in front;
      assert l == n;
    }
  }

  ghost predicate ChildIs(conditions: seq<Condition>, i: nat, observations: seq<Observation>, attemptId: string, result: ClaimResult)
    requires i < |conditions|
  {
    EvaluateCondition(conditions[i], observations, attemptId).result == result
  }

  ghost predicate ChildNames(conditions: seq<Condition>, i: nat, observations: seq<Observation>, attemptId: string, id: string)
    requires i < |conditions|
  {
    id in EvaluateCondition(conditions[i], observations, attemptId).observationIds
  }

  // Each name once, and exactly the names of the children.
  ghost predicate NamesOfAll(names: seq<string>, conditions: seq<Condition>, observations: seq<Observation>, attemptId: string) {
    && (forall i, j | 0 <= i < j < |names| :: names[i] != names[j])
    && forall id :: id in names <==> exists i | 0 <= i < |conditions| :: ChildNames(conditions, i, observations, attemptId, id)
  }

  lemma {:induction false} NamesOfChildren(conditions: seq<Condition>, observations: seq<Observation>, attemptId: string)
    ensures NamesOfAll(Unique(FlatIds(EvaluateEach(conditions, observations, attemptId))), conditions, observations, attemptId)
  {
    var children := EvaluateEach(conditions, observations, attemptId);
    UniqueMembers(FlatIds(children));
    forall id
      ensures id in FlatIds(children) <==> exists i | 0 <= i < |conditions| :: ChildNames(conditions, i, observations, attemptId, id)
    {
      FlatMembers(children, id);
      assert forall i | 0 <= i < |conditions| :: id in children[i].observationIds <==> ChildNames(conditions, i, observations, attemptId, id);
    }
  }

  // All is satisfied when every child is and violated when one is, and names what its children name.
  lemma {:induction false} AllExactly(conditions: seq<Condition>, observations: seq<Observation>, attemptId: string)
    ensures var r := EvaluateCondition(All(conditions), observations, attemptId);
            && (r.result == Satisfied <==> forall i | 0 <= i < |conditions| :: ChildIs(conditions, i, observations, attemptId, Satisfied))
            && (r.result == Violated <==> exists i | 0 <= i < |conditions| :: ChildIs(conditions, i, observations, attemptId, Violated))
            && NamesOfAll(r.observationIds, conditions, observations, attemptId)
  {
    var children := EvaluateEach(conditions, observations, attemptId);
    NamesOfChildren(conditions, observations, attemptId);
    assert forall i | 0 <= i < |conditions| :: children[i].result == Satisfied <==> ChildIs(conditions, i, observations, attemptId, Satisfied);
    assert forall i | 0 <= i < |conditions| :: children[i].result == Violated <==> ChildIs(conditions, i, observations, attemptId, Violated);
  }

  // Any is satisfied when a child is and violated when every one is, and names what its children name.
  lemma {:induction false} AnyExactly(conditions: seq<Condition>, observations: seq<Observation>, attemptId: string)
    ensures var r := EvaluateCondition(AnyOf(conditions), observations, attemptId);
            && (r.result == Satisfied <==> exists i | 0 <= i < |conditions| :: ChildIs(conditions, i, observations, attemptId, Satisfied))
            && (r.result == Violated <==> forall i | 0 <= i < |conditions| :: ChildIs(conditions, i, observations, attemptId, Violated))
            && NamesOfAll(r.observationIds, conditions, observations, attemptId)
  {
    var children := EvaluateEach(conditions, observations, attemptId);
    NamesOfChildren(conditions, observations, attemptId);
    assert forall i | 0 <= i < |conditions| :: children[i].result == Satisfied <==> ChildIs(conditions, i, observations, attemptId, Satisfied);
    assert forall i | 0 <= i < |conditions| :: children[i].result == Violated <==> ChildIs(conditions, i, observations, attemptId, Violated);
  }
}
