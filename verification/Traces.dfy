/** Runs of atomic steps: reordering independent steps never changes where a run ends. */
module Traces {
  import opened Sequences

  function Run<E, S>(step: (E, S) -> S, trace: seq<E>, s: S): S {
    if trace == [] then s else Run(step, trace[1..], step(trace[0], s))
  }

  // Steps that do not depend on each other can be swapped in every state.
  ghost predicate Commutes<E(!new), S(!new)>(step: (E, S) -> S, dep: (E, E) -> bool) {
    forall e, f, s :: !dep(e, f) ==> step(f, step(e, s)) == step(e, step(f, s))
  }

  ghost predicate NoDuplicates<E>(trace: seq<E>) {
    forall i, j | 0 <= i < j < |trace| :: trace[i] != trace[j]
  }

  // Every dependent pair of `t` occurs in the same order in `u`.
  ghost predicate KeepsOrder<E(!new)>(dep: (E, E) -> bool, t: seq<E>, u: seq<E>) {
    forall i, j, k, l | 0 <= i < j < |t| && 0 <= k < |u| && 0 <= l < |u| ::
      u[k] == t[i] && u[l] == t[j] && dep(t[i], t[j]) ==> k < l
  }

  lemma {:induction false} MoveToFront<E(!new), S(!new)>(step: (E, S) -> S, dep: (E, E) -> bool, u: seq<E>, k: nat, s: S)
    requires Commutes(step, dep) && k < |u|
    requires forall i | 0 <= i < k :: !dep(u[k], u[i])
    ensures Run(step, u, s) == Run(step, [u[k]] + u[..k] + u[k + 1..], s)
    decreases k
  {
    if k == 0 {
      assert [u[0]] + u[..0] + u[1..] == u;
    } else {
      var e, f, rest := u[k], u[0], u[1..];
      assert forall i | 0 <= i < k - 1 :: rest[i] == u[i + 1];
      MoveToFront(step, dep, rest, k - 1, step(f, s));
      MovedParts(u, k);
      assert !dep(e, f);
    }
  }

  lemma MovedParts<E>(u: seq<E>, k: nat)
    requires 0 < k < |u|
    ensures var rest := u[1..]; var moved := [u[k]] + rest[..k - 1] + rest[k..]; var goal := [u[k]] + u[..k] + u[k + 1..];
            && moved[0] == goal[0] == u[k] && goal[1..] == [u[0]] + moved[1..] && goal[1..][0] == u[0] && goal[1..][1..] == moved[1..]
  {
    var rest := u[1..];
    assert u[..k] == [u[0]] + rest[..k - 1] && u[k + 1..] == rest[k..];
    ConcatAssoc([u[k]], rest[..k - 1], rest[k..]);
    ConcatAssoc([u[k]], u[..k], u[k + 1..]);
    ConcatAssoc([u[0]], rest[..k - 1], rest[k..]);
  }

  lemma {:induction false} KeepsOrderTail<E(!new)>(dep: (E, E) -> bool, t: seq<E>, u: seq<E>, k: nat)
    requires t != [] && k < |u| && KeepsOrder(dep, t, u)
    ensures KeepsOrder(dep, t[1..], u[..k] + u[k + 1..])
  {
    var v := u[..k] + u[k + 1..];
    forall i, j, a, b | 0 <= i < j < |t[1..]| && 0 <= a < |v| && 0 <= b < |v|
                        && v[a] == t[1..][i] && v[b] == t[1..][j] && dep(t[1..][i], t[1..][j])
      ensures a < b
    {
      var a', b' := if a < k then a else a + 1, if b < k then b else b + 1;
      assert u[a'] == t[i + 1] && u[b'] == t[j + 1];
    }
  }

  // Two runs of the same steps that order dependent steps alike end in the same state.
  lemma {:induction false} SameResult<E(!new), S(!new)>(step: (E, S) -> S, dep: (E, E) -> bool, t: seq<E>, u: seq<E>, s: S)
    requires Commutes(step, dep)
    requires NoDuplicates(t) && NoDuplicates(u) && (forall e :: e in t <==> e in u)
    requires KeepsOrder(dep, t, u)
    ensures Run(step, t, s) == Run(step, u, s)
    decreases |t|
  {
    if t == [] {
      FirstIsMember(u);
    } else {
      var e := t[0];
      assert e in u;
      var k :| 0 <= k < |u| && u[k] == e;
      forall i | 0 <= i < k
        ensures !dep(u[k], u[i])
      {
        assert u[i] in t;
        var j :| 0 <= j < |t| && t[j] == u[i];
        assert j > 0;
      }
      MoveToFront(step, dep, u, k, s);
      var v := u[..k] + u[k + 1..];
      assert [e] + u[..k] + u[k + 1..] == [e] + v;
      assert ([e] + v)[1..] == v;
      KeepsOrderTail(dep, t, u, k);
      SameMembers(t, u, k);
      SameResult(step, dep, t[1..], v, step(e, s));
    }
  }

  lemma SameMembers<E>(t: seq<E>, u: seq<E>, k: nat)
    requires NoDuplicates(t) && NoDuplicates(u) && (forall e :: e in t <==> e in u)
    requires t != [] && k < |u| && u[k] == t[0]
    ensures var v := u[..k] + u[k + 1..];
            NoDuplicates(t[1..]) && NoDuplicates(v) && forall e :: e in t[1..] <==> e in v
  {
    var v := u[..k] + u[k + 1..];
    assert forall e :: e in t[1..] <==> e in t && e != t[0] by {
      forall e | e in t && e != t[0]
        ensures e in t[1..]
      {
        var i :| 0 <= i < |t| && t[i] == e;
        assert t[1..][i - 1] == e;
      }
    }
    assert forall e :: e in v <==> e in u && e != u[k] by {
      forall e | e in u && e != u[k]
        ensures e in v
      {
        var i :| 0 <= i < |u| && u[i] == e;
        assert v[if i < k then i else i - 1] == e;
      }
    }
  }
}
