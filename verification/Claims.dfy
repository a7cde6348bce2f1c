/** Resource claims and when two calls' claims conflict (packages/agent/src/tool-resource-claims.ts,
    with the path identity rules of builtin-tool-resource-claims.ts). */
module Claims {
  import opened Sequences
  import opened Wrappers
  import opened Text
  import opened Paths

  datatype Access = Exclusive | Read | Write

  datatype NamedKind = Global | Network | Session | Terminal

  // A path claim may carry the identities a platform resolver found; a named claim never does.
  datatype Claim =
    | PathClaim(key: string, access: Access, realKey: Option<string>, inodeKey: Option<string>)
    | NamedClaim(kind: NamedKind, key: string, access: Access)

  datatype Resolution = ExclusiveCall | Claims(claims: seq<Claim>)

  // ----- Conflicts

  function PathClaimKeys(claim: Claim): seq<string>
    requires claim.PathClaim?
  {
    if claim.realKey.None? || claim.realKey.value == claim.key then [claim.key]
    else [claim.key, claim.realKey.value]
  }

  function LowerAll(parts: seq<string>): (r: seq<string>)
    ensures |r| == |parts|
    ensures forall i | 0 <= i < |parts| :: r[i] == Lower(parts[i])
  {
    seq(|parts|, i requires 0 <= i < |parts| => Lower(parts[i]))
  }

  function UncSegments(key: string): Option<seq<string>> {
    if StartsWith(key, "//") then Some(LowerAll(PathSegments(key[2..]))) else None
  }

  predicate IdentityPathKeysOverlap(left: string, right: string) {
    match (UncSegments(left), UncSegments(right))
    case (Some(l), Some(r)) => forall i | 0 <= i < |l| && i < |r| :: l[i] == r[i]
    case (None, None) => PathSegmentsOverlap(left, right)
    case _ => false
  }

  predicate PathClaimsOverlap(left: Claim, right: Claim)
    requires left.PathClaim? && right.PathClaim?
  {
    || (left.inodeKey.Some? && left.inodeKey == right.inodeKey)
    || exists l, r | l in PathClaimKeys(left) && r in PathClaimKeys(right) :: IdentityPathKeysOverlap(l, r)
  }

  predicate ClaimsConflict(left: Claim, right: Claim) {
    if left.access == Exclusive || right.access == Exclusive then true
    else if left.PathClaim? && right.PathClaim? then
      PathClaimsOverlap(left, right) && !(left.access == Read && right.access == Read)
    else if left.NamedClaim? && right.NamedClaim? then
      left.kind == right.kind && left.key == right.key && !(left.access == Read && right.access == Read)
    else false
  }

  predicate ResolutionsConflict(left: Resolution, right: Resolution) {
    || left.ExclusiveCall? || right.ExclusiveCall?
    || exists a, b | a in left.claims && b in right.claims :: ClaimsConflict(a, b)
  }

  lemma ClaimsConflictSymmetric(left: Claim, right: Claim)
    ensures ClaimsConflict(left, right) == ClaimsConflict(right, left)
  {
    if left.PathClaim? && right.PathClaim? {
      forall l: string, r: string
        ensures IdentityPathKeysOverlap(l, r) == IdentityPathKeysOverlap(r, l)
      {
        OverlapSymmetric(l, r);
      }
    }
  }

  lemma ResolutionsConflictSymmetric(left: Resolution, right: Resolution)
    ensures ResolutionsConflict(left, right) == ResolutionsConflict(right, left)
  {
    forall a: Claim, b: Claim
      ensures ClaimsConflict(a, b) == ClaimsConflict(b, a)
    {
      ClaimsConflictSymmetric(a, b);
    }
  }

  // Two path claims of which one writes conflict whenever their keys are the same path.
  lemma SamePathConflicts(left: Claim, right: Claim)
    requires left.PathClaim? && right.PathClaim? && left.key == right.key
    requires left.access == Write || right.access == Write
    ensures ClaimsConflict(left, right)
  {
    OverlapReflexive(left.key);
    assert IdentityPathKeysOverlap(left.key, right.key);
    assert left.key in PathClaimKeys(left) && right.key in PathClaimKeys(right);
  }

  // ----- Canonical order

  predicate StringLess(a: string, b: string) {
    if b == "" then false
    else if a == "" then true
    else if a[0] != b[0] then a[0] < b[0]
    else StringLess(a[1..], b[1..])
  }

  function CompareStrings(a: string, b: string): int {
    if a == b then 0 else if StringLess(a, b) then -1 else 1
  }

  // The position of the kind's name in alphabetical order.
  function KindRank(claim: Claim): nat {
    match claim
    case PathClaim(_, _, _, _) => 2
    case NamedClaim(Global, _, _) => 0
    case NamedClaim(Network, _, _) => 1
    case NamedClaim(Session, _, _) => 3
    case NamedClaim(Terminal, _, _) => 4
  }

  // The position of the access's name in alphabetical order.
  function AccessRank(access: Access): nat {
    match access
    case Exclusive => 0
    case Read => 1
    case Write => 2
  }

  function OrEmpty(s: Option<string>): string {
    match s
    case None => ""
    case Some(v) => v
  }

  function CompareNats(a: nat, b: nat): int {
    if a == b then 0 else if a < b then -1 else 1
  }

  // The first non-zero comparison decides.
  function Then(first: int, second: int): int {
    if first != 0 then first else second
  }

  function CompareClaims(left: Claim, right: Claim): int {
    Then(CompareNats(KindRank(left), KindRank(right)),
    Then(CompareStrings(left.key, right.key),
    Then(CompareNats(AccessRank(left.access), AccessRank(right.access)),
    Then(CompareStrings(RealKey(left), RealKey(right)), CompareStrings(InodeKey(left), InodeKey(right))))))
  }

  function RealKey(claim: Claim): string {
    if claim.PathClaim? then OrEmpty(claim.realKey) else ""
  }

  function InodeKey(claim: Claim): string {
    if claim.PathClaim? then OrEmpty(claim.inodeKey) else ""
  }

  function InsertClaim(claim: Claim, sorted: seq<Claim>): seq<Claim> {
    if sorted == [] || CompareClaims(claim, sorted[0]) <= 0 then [claim] + sorted
    else [sorted[0]] + InsertClaim(claim, sorted[1..])
  }

  // The stable sort of the claims: an earlier claim goes before a later one it ties with.
  function CanonicalizeClaims(claims: seq<Claim>): seq<Claim> {
    if claims == [] then [] else InsertClaim(claims[0], CanonicalizeClaims(claims[1..]))
  }

  lemma {:induction false} StringLessTotal(a: string, b: string)
    ensures a != b ==> StringLess(a, b) || StringLess(b, a)
    ensures !(StringLess(a, b) && StringLess(b, a)) && !StringLess(a, a)
  {
    if a != "" {
      StringLessTotal(a[1..], a[1..]);
    }
    if a != "" && b != "" && a[0] == b[0] {
      StringLessTotal(a[1..], b[1..]);
      assert a == [a[0]] + a[1..] && b == [b[0]] + b[1..];
    }
  }

  lemma {:induction false} StringLessTransitive(a: string, b: string, c: string)
    requires StringLess(a, b) && StringLess(b, c)
    ensures StringLess(a, c)
  {
    if a != "" && a[0] == b[0] && b[0] == c[0] {
      StringLessTransitive(a[1..], b[1..], c[1..]);
    }
  }

  lemma CompareStringsOrder(a: string, b: string, c: string)
    ensures CompareStrings(a, b) == -CompareStrings(b, a)
    ensures CompareStrings(a, b) == 0 <==> a == b
    ensures CompareStrings(a, b) <= 0 && CompareStrings(b, c) <= 0 ==> CompareStrings(a, c) <= 0
    ensures CompareStrings(a, b) < 0 && CompareStrings(b, c) < 0 ==> CompareStrings(a, c) < 0
  {
    StringLessTotal(a, b);
    StringLessTotal(b, c);
    StringLessTotal(a, c);
    if StringLess(a, b) && StringLess(b, c) {
      StringLessTransitive(a, b, c);
    }
  }

  // compareClaims is a total preorder: antisymmetric in sign and transitive.
  lemma CompareClaimsOrder(a: Claim, b: Claim, c: Claim)
    ensures CompareClaims(a, b) == -CompareClaims(b, a)
    ensures CompareClaims(a, b) <= 0 && CompareClaims(b, c) <= 0 ==> CompareClaims(a, c) <= 0
    ensures CompareClaims(a, b) == 0 && CompareClaims(b, c) == 0 ==> CompareClaims(a, c) == 0
  {
    CompareStringsOrder(a.key, b.key, c.key);
    CompareStringsOrder(RealKey(a), RealKey(b), RealKey(c));
    CompareStringsOrder(InodeKey(a), InodeKey(b), InodeKey(c));
  }

  ghost predicate Sorted(claims: seq<Claim>) {
    forall i, j | 0 <= i < j < |claims| :: CompareClaims(claims[i], claims[j]) <= 0
  }

  lemma PrependSorted(first: Claim, rest: seq<Claim>)
    requires Sorted(rest) && forall c | c in rest :: CompareClaims(first, c) <= 0
    ensures Sorted([first] + rest)
  {
    var all := [first] + rest;
    forall i, j | 0 <= i < j < |all|
      ensures CompareClaims(all[i], all[j]) <= 0
    {
      assert all[j] == rest[j - 1];
      if i > 0 {
        assert all[i] == rest[i - 1];
      }
    }
  }

  lemma SortedRest(sorted: seq<Claim>)
    requires Sorted(sorted) && sorted != []
    ensures Sorted(sorted[1..]) && forall c | c in sorted[1..] :: CompareClaims(sorted[0], c) <= 0
  {
    var rest := sorted[1..];
    assert forall i | 0 <= i < |rest| :: rest[i] == sorted[i + 1];
  }

  lemma MemberOfSum(c: Claim, all: seq<Claim>, part: seq<Claim>, extra: Claim)
    requires c in all && multiset(all) == multiset(part) + multiset{extra}
    ensures c in part || c == extra
  {
    assert c in multiset(all);
  }

  lemma {:induction false} InsertSorted(claim: Claim, sorted: seq<Claim>)
    requires Sorted(sorted)
    ensures Sorted(InsertClaim(claim, sorted))
    ensures multiset(InsertClaim(claim, sorted)) == multiset(sorted) + multiset{claim}
  {
    if sorted != [] {
      if CompareClaims(claim, sorted[0]) <= 0 {
        InsertFirst(claim, sorted);
      } else {
        SortedRest(sorted);
        InsertSorted(claim, sorted[1..]);
        InsertLater(claim, sorted, InsertClaim(claim, sorted[1..]));
      }
    }
  }

  lemma InsertFirst(claim: Claim, sorted: seq<Claim>)
    requires Sorted(sorted) && sorted != [] && CompareClaims(claim, sorted[0]) <= 0
    ensures Sorted([claim] + sorted) && multiset([claim] + sorted) == multiset(sorted) + multiset{claim}
  {
    SortedRest(sorted);
    assert sorted == [sorted[0]] + sorted[1..];
    forall c | c in sorted
      ensures CompareClaims(claim, c) <= 0
    {
      CompareClaimsOrder(claim, sorted[0], c);
    }
    PrependSorted(claim, sorted);
  }

  lemma InsertLater(claim: Claim, sorted: seq<Claim>, rest: seq<Claim>)
    requires Sorted(sorted) && sorted != [] && CompareClaims(claim, sorted[0]) > 0
    requires Sorted(rest) && multiset(rest) == multiset(sorted[1..]) + multiset{claim}
    ensures Sorted([sorted[0]] + rest) && multiset([sorted[0]] + rest) == multiset(sorted) + multiset{claim}
  {
    SortedRest(sorted);
    HeadAndTail(sorted);
    CompareClaimsOrder(sorted[0], claim, claim);
    forall c | c in rest
      ensures CompareClaims(sorted[0], c) <= 0
    {
      MemberOfSum(c, rest, sorted[1..], claim);
    }
    PrependSorted(sorted[0], rest);
  }

  lemma HeadAndTail<T>(s: seq<T>)
    requires s != []
    ensures multiset(s) == multiset(s[1..]) + multiset{s[0]}
  {
    assert s == [s[0]] + s[1..];
  }

  lemma {:induction false} CanonicalSorted(claims: seq<Claim>)
    ensures Sorted(CanonicalizeClaims(claims))
    ensures multiset(CanonicalizeClaims(claims)) == multiset(claims)
  {
    if claims != [] {
      CanonicalSorted(claims[1..]);
      InsertSorted(claims[0], CanonicalizeClaims(claims[1..]));
      HeadAndTail(claims);
    }
  }

  ghost predicate SortedBy<T>(le: (T, T) -> bool, s: seq<T>) {
    forall i, j | 0 <= i < j < |s| :: le(s[i], s[j])
  }

  ghost predicate TiesEqual<T>(le: (T, T) -> bool, s: seq<T>) {
    forall i, j | 0 <= i < |s| && 0 <= j < |s| && le(s[i], s[j]) && le(s[j], s[i]) :: s[i] == s[j]
  }

  // Sorted sequences of the same elements are equal once ties are equalities.
  lemma {:induction false} SortedUnique<T>(le: (T, T) -> bool, a: seq<T>, b: seq<T>)
    requires SortedBy(le, a) && SortedBy(le, b) && multiset(a) == multiset(b) && TiesEqual(le, a)
    ensures a == b
  {
    SameSize(a, b);
    if a != [] {
      SortedHeads(le, a, b);
      DropHead(a);
      DropHead(b);
      SortedTail(le, a);
      SortedTail(le, b);
      SortedUnique(le, a[1..], b[1..]);
      SameParts(a, b);
    }
  }

  lemma SameSize<T>(a: seq<T>, b: seq<T>)
    requires multiset(a) == multiset(b)
    ensures |a| == |b|
  {
    assert |multiset(a)| == |multiset(b)|;
  }

  lemma SortedTail<T>(le: (T, T) -> bool, s: seq<T>)
    requires SortedBy(le, s) && s != []
    ensures SortedBy(le, s[1..]) && (TiesEqual(le, s) ==> TiesEqual(le, s[1..]))
  {
    var t := s[1..];
    assert forall i | 0 <= i < |t| :: t[i] == s[i + 1];
  }

  lemma SortedHeads<T>(le: (T, T) -> bool, a: seq<T>, b: seq<T>)
    requires SortedBy(le, a) && SortedBy(le, b) && multiset(a) == multiset(b) && a != [] && b != [] && TiesEqual(le, a)
    ensures a[0] == b[0]
  {
    assert a[0] in multiset(b) && b[0] in multiset(a);
    var i :| 0 <= i < |a| && a[i] == b[0];
    var j :| 0 <= j < |b| && b[j] == a[0];
    assert i > 0 ==> le(a[0], a[i]);
    assert j > 0 ==> le(b[0], b[j]);
  }

  lemma DropHead<T>(a: seq<T>)
    requires a != []
    ensures multiset(a[1..]) == multiset(a) - multiset{a[0]}
  {
    assert a == [a[0]] + a[1..];
  }

  // ----- When reordering a call's claims leaves its canonical form alone

  // No two different claims tie: an absent identity is never confused with an empty one.
  ghost predicate TiesAreEqual(claims: seq<Claim>) {
    forall x, y | x in claims && y in claims && CompareClaims(x, y) == 0 :: x == y
  }

  ghost predicate ReorderingInvariant(claims: seq<Claim>) {
    forall p: seq<Claim> | multiset(p) == multiset(claims) ::
      CanonicalizeClaims(p) == CanonicalizeClaims(claims)
  }

  lemma InsertTie(a: Claim, b: Claim, sorted: seq<Claim>)
    requires CompareClaims(a, b) == 0
    ensures InsertClaim(a, InsertClaim(b, sorted)) == InsertPair(a, b, sorted)
  {
    CompareClaimsOrder(a, b, a);
    if sorted != [] {
      CompareClaimsOrder(a, b, sorted[0]);
      CompareClaimsOrder(b, a, sorted[0]);
      CompareClaimsOrder(sorted[0], a, b);
      CompareClaimsOrder(sorted[0], b, a);
      if CompareClaims(b, sorted[0]) > 0 {
        InsertTie(a, b, sorted[1..]);
        var tail := InsertClaim(b, sorted[1..]);
        assert ([sorted[0]] + tail)[1..] == tail;
      } else {
        assert [a] + ([b] + sorted) == [a, b] + sorted;
      }
    } else {
      assert [a] + [b] == [a, b] + sorted;
    }
  }

  function InsertPair(a: Claim, b: Claim, sorted: seq<Claim>): seq<Claim> {
    if sorted == [] || CompareClaims(b, sorted[0]) <= 0 then [a, b] + sorted
    else [sorted[0]] + InsertPair(a, b, sorted[1..])
  }

  lemma {:induction false} InsertPairDiffers(a: Claim, b: Claim, sorted: seq<Claim>)
    requires a != b && CompareClaims(a, b) == 0
    ensures InsertPair(a, b, sorted) != InsertPair(b, a, sorted)
  {
    if sorted == [] {
      assert InsertPair(a, b, sorted)[0] == a && InsertPair(b, a, sorted)[0] == b;
    } else {
      CompareClaimsOrder(a, b, sorted[0]);
      CompareClaimsOrder(b, a, sorted[0]);
      CompareClaimsOrder(a, b, a);
      if CompareClaims(b, sorted[0]) <= 0 {
        assert InsertPair(a, b, sorted)[0] == a && InsertPair(b, a, sorted)[0] == b;
      } else {
        InsertPairDiffers(a, b, sorted[1..]);
        assert InsertPair(a, b, sorted)[1..] == InsertPair(a, b, sorted[1..]);
        assert InsertPair(b, a, sorted)[1..] == InsertPair(b, a, sorted[1..]);
      }
    }
  }

  lemma SplitOne(claims: seq<Claim>, a: Claim) returns (rest: seq<Claim>)
    requires a in claims
    ensures multiset(claims) == multiset(rest) + multiset{a}
  {
    var i :| 0 <= i < |claims| && claims[i] == a;
    rest := claims[..i] + claims[i + 1..];
    assert claims == claims[..i] + [a] + claims[i + 1..];
  }

  // Two different elements of a sequence, and the rest of it.
  lemma SplitTwo(claims: seq<Claim>, a: Claim, b: Claim) returns (rest: seq<Claim>)
    requires a in claims && b in claims && a != b
    ensures multiset(claims) == multiset([a, b] + rest)
  {
    var without := SplitOne(claims, a);
    assert b in multiset(claims) && b in multiset(without);
    rest := SplitOne(without, b);
    assert multiset([a, b] + rest) == multiset([a, b]) + multiset(rest);
  }

  // The canonical form ignores the order of the claims exactly when ties are equalities.
  lemma ReorderingInvariantIff(claims: seq<Claim>)
    ensures ReorderingInvariant(claims) <==> TiesAreEqual(claims)
  {
    if TiesAreEqual(claims) {
      forall p: seq<Claim> | multiset(p) == multiset(claims)
        ensures CanonicalizeClaims(p) == CanonicalizeClaims(claims)
      {
        SameCanonical(claims, p);
      }
    } else {
      var a, b :| a in claims && b in claims && CompareClaims(a, b) == 0 && a != b;
      var rest := SplitTwo(claims, a, b);
      NotInvariant(claims, a, b, rest);
    }
  }

  lemma SwapFirst(a: Claim, b: Claim, rest: seq<Claim>)
    ensures multiset([b, a] + rest) == multiset([a, b] + rest)
  {
    assert multiset([b, a]) == multiset([a, b]);
  }

  lemma NotInvariant(claims: seq<Claim>, a: Claim, b: Claim, rest: seq<Claim>)
    requires a != b && CompareClaims(a, b) == 0
    requires multiset(claims) == multiset([a, b] + rest)
    ensures !ReorderingInvariant(claims)
  {
    TwoOrdersDiffer(a, b, rest);
    SwapFirst(a, b, rest);
  }

  lemma SameCanonical(claims: seq<Claim>, p: seq<Claim>)
    requires TiesAreEqual(claims) && multiset(p) == multiset(claims)
    ensures CanonicalizeClaims(p) == CanonicalizeClaims(claims)
  {
    CanonicalSorted(claims);
    CanonicalSorted(p);
    var c := CanonicalizeClaims(claims);
    forall x | x in c
      ensures x in claims
    {
      assert x in multiset(c);
    }
    forall x, y | x in c && y in c && CompareClaims(x, y) <= 0 && CompareClaims(y, x) <= 0
      ensures x == y
    {
      CompareClaimsOrder(x, y, x);
    }
    SortedUnique((x, y) => CompareClaims(x, y) <= 0, c, CanonicalizeClaims(p));
  }

  lemma TwoOrdersDiffer(a: Claim, b: Claim, rest: seq<Claim>)
    requires a != b && CompareClaims(a, b) == 0
    ensures CanonicalizeClaims([a, b] + rest) != CanonicalizeClaims([b, a] + rest)
  {
    CompareClaimsOrder(a, b, a);
    var r := CanonicalizeClaims(rest);
    var p, q := [a, b] + rest, [b, a] + rest;
    assert p[1..][1..] == rest && q[1..][1..] == rest;
    InsertTie(a, b, r);
    InsertTie(b, a, r);
    InsertPairDiffers(a, b, r);
  }

  // Identities a resolver may report: never the empty string.
  ghost predicate NormalIdentity(claim: Claim) {
    claim.PathClaim? ==> claim.realKey != Some("") && claim.inodeKey != Some("")
  }

  // The claims a resolution keeps never hold an exclusive access, and identities are not empty.
  ghost predicate NormalForm(r: Resolution) {
    r.Claims? ==> forall c | c in r.claims :: c.access != Exclusive && NormalIdentity(c)
  }

  // Claims that tie and hold no empty identity are equal.
  lemma NormalTie(x: Claim, y: Claim)
    requires CompareClaims(x, y) == 0 && NormalIdentity(x) && NormalIdentity(y)
    ensures x == y
  {
    CompareStringsOrder(x.key, y.key, x.key);
    CompareStringsOrder(RealKey(x), RealKey(y), RealKey(x));
    CompareStringsOrder(InodeKey(x), InodeKey(y), InodeKey(x));
  }

  lemma NormalFormReorders(r: Resolution)
    requires NormalForm(r) && r.Claims?
    ensures ReorderingInvariant(r.claims)
  {
    forall x, y | x in r.claims && y in r.claims && CompareClaims(x, y) == 0
      ensures x == y
    {
      NormalTie(x, y);
    }
    ReorderingInvariantIff(r.claims);
  }

  // Absent and empty identities tie, so their order shows in the canonical form.
  lemma EmptyIdentityExample()
    ensures var a := PathClaim("/x", Read, None, None); var b := PathClaim("/x", Read, Some(""), None);
            !ReorderingInvariant([a, b])
  {
    var a := PathClaim("/x", Read, None, None);
    var b := PathClaim("/x", Read, Some(""), None);
    assert CompareClaims(a, b) == 0;
    assert a in [a, b] && b in [a, b];
    ReorderingInvariantIff([a, b]);
  }

  // Conflicts look only at which claims are present.
  lemma ConflictIgnoresOrder(a: seq<Claim>, b: seq<Claim>, other: Resolution)
    requires multiset(a) == multiset(b)
    ensures ResolutionsConflict(Claims(a), other) == ResolutionsConflict(Claims(b), other)
  {
    assert forall c :: c in a <==> c in multiset(a);
    assert forall c :: c in b <==> c in multiset(b);
  }
}
