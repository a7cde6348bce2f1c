/** The canonical plan key (packages/agent/src/tool-dag-scheduler.ts, computePlanKey). */
module PlanKey {
  import opened Sequences
  import opened Wrappers
  import opened Claims
  import opened DagScheduler
  import opened DagProperties

  // ----- JSON strings (section 7 of RFC 8259), as JSON.stringify writes them

  function HexDigit(n: nat): char
    requires n < 16
  {
    "0123456789abcdef"[n]
  }

  function EscapeChar(c: char): string {
    if c == '"' then ['\\', '"']
    else if c == '\\' then ['\\', '\\']
    else if c == '\U{8}' then ['\\', 'b']
    else if c == '\U{9}' then ['\\', 't']
    else if c == '\U{A}' then ['\\', 'n']
    else if c == '\U{C}' then ['\\', 'f']
    else if c == '\U{D}' then ['\\', 'r']
    else if c < ' ' then ['\\', 'u', '0', '0', HexDigit(c as int / 16), HexDigit(c as int % 16)]
    else [c]
  }

  function EscapeBody(s: string): string {
    if s == [] then [] else EscapeChar(s[0]) + EscapeBody(s[1..])
  }

  function Quote(s: string): string {
    "\"" + EscapeBody(s) + "\""
  }

  function HexValue(c: char): Option<nat> {
    if '0' <= c <= '9' then Some((c as int) - ('0' as int))
    else if 'a' <= c <= 'f' then Some((c as int) - ('a' as int) + 10)
    else None
  }

  // Reads one possibly escaped character of a string body.
  function ReadChar(s: string): Option<(char, string)> {
    if s == [] || s[0] == '"' || s[0] < ' ' then None
    else if s[0] != '\\' then Some((s[0], s[1..]))
    else if |s| < 2 then None
    else
      match s[1]
      case '"' => Some(('"', s[2..]))
      case '\\' => Some(('\\', s[2..]))
      case 'b' => Some(('\U{8}', s[2..]))
      case 't' => Some(('\U{9}', s[2..]))
      case 'n' => Some(('\U{A}', s[2..]))
      case 'f' => Some(('\U{C}', s[2..]))
      case 'r' => Some(('\U{D}', s[2..]))
      case 'u' =>
        if |s| < 6 || s[2] != '0' || s[3] != '0' then None
        else
          (match (HexValue(s[4]), HexValue(s[5]))
           case (Some(h), Some(l)) => Some(((16 * h + l) as char, s[6..]))
           case _ => None)
      case _ => None
  }

  function ReadBody(s: string): Option<(string, string)>
    decreases |s|
  {
    if s == [] then None
    else if s[0] == '"' then Some(("", s[1..]))
    else
      match ReadChar(s)
      case None => None
      case Some((c, rest)) =>
        if |rest| >= |s| then None
        else
          match ReadBody(rest)
          case None => None
          case Some((body, tail)) => Some(([c] + body, tail))
  }

  // Reads one quoted string off the front.
  function ReadString(s: string): Option<(string, string)> {
    if s == [] || s[0] != '"' then None else ReadBody(s[1..])
  }

  lemma HexRoundTrip(n: nat)
    requires n < 16
    ensures HexValue(HexDigit(n)) == Some(n)
  {
    var digits := "0123456789abcdef";
    assert n < 10 ==> digits[n] == ((n + 48) as char);
    assert n >= 10 ==> digits[n] == ((n + 87) as char);
  }

  lemma ReadUnicode(c: char, rest: string)
    requires c < ' '
    ensures ReadChar(['\\', 'u', '0', '0', HexDigit(c as int / 16), HexDigit(c as int % 16)] + rest) == Some((c, rest))
  {
    var high, low := c as int / 16, c as int % 16;
    HexRoundTrip(high);
    HexRoundTrip(low);
    var s := ['\\', 'u', '0', '0', HexDigit(high), HexDigit(low)] + rest;
    assert s[0] == '\\' && s[1] == 'u' && s[2] == '0' && s[3] == '0' && s[4] == HexDigit(high) && s[5] == HexDigit(low);
    assert s[6..] == rest;
    assert (16 * high + low) as char == c;
  }

  lemma ReadEscaped(c: char, rest: string)
    ensures ReadChar(EscapeChar(c) + rest) == Some((c, rest))
    ensures EscapeChar(c) != [] && EscapeChar(c)[0] != '"'
  {
    var e := EscapeChar(c);
    var s := e + rest;
    assert s[|e|..] == rest && s[0] == e[0];
    if |e| == 2 {
      assert s[1] == e[1];
    } else if |e| == 6 {
      ReadUnicode(c, rest);
    }
  }

  lemma {:induction false} ReadEscapedBody(s: string, rest: string)
    ensures ReadBody(EscapeBody(s) + "\"" + rest) == Some((s, rest))
  {
    var t := EscapeBody(s) + "\"" + rest;
    if s == [] {
      assert t == "\"" + rest;
      assert t[1..] == rest;
    } else {
      var next := EscapeBody(s[1..]) + "\"" + rest;
      ReadEscaped(s[0], next);
      assert t == EscapeChar(s[0]) + next;
      assert t[0] == EscapeChar(s[0])[0];
      ReadEscapedBody(s[1..], rest);
      assert [s[0]] + s[1..] == s;
    }
  }

  // Quoting is read back exactly, whatever follows.
  lemma QuoteRoundTrip(s: string, rest: string)
    ensures ReadString(Quote(s) + rest) == Some((s, rest))
  {
    ReadEscapedBody(s, rest);
    var t := Quote(s) + rest;
    assert t[1..] == EscapeBody(s) + "\"" + rest;
  }

  lemma QuotePrefixFree(a: string, b: string, x: string, y: string)
    requires Quote(a) + x == Quote(b) + y
    ensures a == b && x == y
  {
    QuoteRoundTrip(a, x);
    QuoteRoundTrip(b, y);
  }

  // ----- Claims

  function KindName(claim: Claim): string {
    match claim
    case PathClaim(_, _, _, _) => "path"
    case NamedClaim(Global, _, _) => "global"
    case NamedClaim(Network, _, _) => "network"
    case NamedClaim(Session, _, _) => "session"
    case NamedClaim(Terminal, _, _) => "terminal"
  }

  function AccessName(access: Access): string {
    match access
    case Exclusive => "exclusive"
    case Read => "read"
    case Write => "write"
  }

  // The words claims are ordered by, first to last.
  function Words(claim: Claim): seq<string> {
    [KindName(claim), claim.key, AccessName(claim.access), RealKey(claim), InodeKey(claim)]
  }

  // The first words that differ decide.
  function CompareWords(a: seq<string>, b: seq<string>): int
    requires |a| == |b|
  {
    if a == [] then 0
    else if a[0] != b[0] then (if StringLess(a[0], b[0]) then -1 else 1)
    else CompareWords(a[1..], b[1..])
  }

  lemma {:induction false} NamesInOrder(a: Claim, b: Claim)
    ensures KindRank(a) == KindRank(b) <==> KindName(a) == KindName(b)
    ensures KindRank(a) < KindRank(b) <==> KindName(a) != KindName(b) && StringLess(KindName(a), KindName(b))
    ensures AccessRank(a.access) == AccessRank(b.access) <==> AccessName(a.access) == AccessName(b.access)
    ensures AccessRank(a.access) < AccessRank(b.access) <==>
            AccessName(a.access) != AccessName(b.access) && StringLess(AccessName(a.access), AccessName(b.access))
  {
  }

  // Claims are ordered by the words of their kind, key, access and identities.
  lemma ClaimsInWordOrder(a: Claim, b: Claim)
    ensures CompareClaims(a, b) == CompareWords(Words(a), Words(b))
  {
    NamesInOrder(a, b);
    NamesInOrder(b, a);
    var u, v := Words(a), Words(b);
    CompareHead(u, v);
    CompareHead(u[1..], v[1..]);
    CompareHead(u[2..], v[2..]);
    CompareHead(u[3..], v[3..]);
    CompareHead(u[4..], v[4..]);
    assert u[1..][1..] == u[2..] && u[2..][1..] == u[3..] && u[3..][1..] == u[4..] && u[4..][1..] == [];
    assert v[1..][1..] == v[2..] && v[2..][1..] == v[3..] && v[3..][1..] == v[4..] && v[4..][1..] == [];
  }

  lemma CompareHead(u: seq<string>, v: seq<string>)
    requires |u| == |v| && u != []
    ensures CompareWords(u, v) == Then(CompareStrings(u[0], v[0]), CompareWords(u[1..], v[1..]))
  {
  }

  function OptionalField(field: string, value: Option<string>): string {
    match value
    case None => ""
    case Some(v) => field + Quote(v)
  }

  const REAL_KEY_LABEL := ",\"realKey\":"
  const INODE_KEY_LABEL := ",\"inodeKey\":"

  function IdentityFields(claim: Claim): string {
    match claim
    case PathClaim(_, _, realKey, inodeKey) =>
      OptionalField(REAL_KEY_LABEL, realKey) + OptionalField(INODE_KEY_LABEL, inodeKey)
    case NamedClaim(_, _, _) => ""
  }

  function EncodeClaim(claim: Claim): string {
    "{\"kind\":" + Quote(KindName(claim)) + ",\"key\":" + Quote(claim.key) + ",\"access\":"
    + Quote(AccessName(claim.access)) + IdentityFields(claim) + "}"
  }

  function EncodeClaimList(claims: seq<Claim>): string {
    if claims == [] then ""
    else if |claims| == 1 then EncodeClaim(claims[0])
    else EncodeClaim(claims[0]) + "," + EncodeClaimList(claims[1..])
  }

  function EncodeClaims(claims: seq<Claim>): string {
    "[" + EncodeClaimList(claims) + "]"
  }

  // What the key is about: per call, nothing for an exclusive call, else its canonical claims.
  function CanonicalSequence(entries: seq<ResolvedClaimEntry>): (r: seq<Option<seq<Claim>>>)
    ensures |r| == |entries|
    ensures forall i | 0 <= i < |entries| ::
              r[i] == if entries[i].resolution.ExclusiveCall? then None else Some(entries[i].canonicalClaims)
  {
    seq(|entries|, i requires 0 <= i < |entries| =>
      if entries[i].resolution.ExclusiveCall? then None else Some(entries[i].canonicalClaims))
  }

  // The canonical claims of one resolution, and of a batch.
  function CanonicalCall(r: Resolution): Option<seq<Claim>> {
    if r.ExclusiveCall? then None else Some(CanonicalizeClaims(r.claims))
  }

  function CanonicalClaims(rs: seq<Resolution>): (r: seq<Option<seq<Claim>>>)
    ensures |r| == |rs| && forall i | 0 <= i < |rs| :: r[i] == CanonicalCall(rs[i])
  {
    seq(|rs|, i requires 0 <= i < |rs| => CanonicalCall(rs[i]))
  }

  lemma SequenceOfResolutions(entries: seq<ResolvedClaimEntry>)
    requires WellFormed(entries)
    ensures CanonicalSequence(entries) == CanonicalClaims(Resolutions(entries))
  {
    forall i | 0 <= i < |entries|
      ensures CanonicalSequence(entries)[i] == CanonicalClaims(Resolutions(entries))[i]
    {
      assert entries[i] in entries;
    }
  }

  function EncodeCall(call: Option<seq<Claim>>): string {
    match call
    case None => "E,"
    case Some(claims) => "C" + EncodeClaims(claims) + ","
  }

  function EncodeSequence(calls: seq<Option<seq<Claim>>>): string {
    if calls == [] then "" else EncodeCall(calls[0]) + EncodeSequence(calls[1..])
  }

  method ComputePlanKey(entries: seq<ResolvedClaimEntry>) returns (key: string)
    ensures key == EncodeSequence(CanonicalSequence(entries))
  {
    key := "";
    ghost var calls := CanonicalSequence(entries);
    for i := 0 to |entries|
      invariant key + EncodeSequence(calls[i..]) == EncodeSequence(calls)
    {
      assert calls[i..][1..] == calls[i + 1..];
      ConcatAssoc(key, EncodeCall(calls[i]), EncodeSequence(calls[i + 1..]));
      if entries[i].resolution.ExclusiveCall? {
        key := key + "E,";
      } else {
        key := key + ("C" + EncodeClaims(entries[i].canonicalClaims) + ",");
      }
    }
    assert calls[|entries|..] == [];
  }

  // ----- The key determines the canonical claim sequence

  lemma Cancel(p: string, x: string, y: string)
    requires p + x == p + y
    ensures x == y
  {
    assert (p + x)[|p|..] == x && (p + y)[|p|..] == y;
  }

  // Reads a field off the front if its field is there.
  function ReadField(field: string, s: string): (Option<string>, string) {
    if |field| <= |s| && s[..|field|] == field then
      (match ReadString(s[|field|..])
       case None => (None, s)
       case Some((v, rest)) => (Some(v), rest))
    else (None, s)
  }

  lemma ReadFieldRoundTrip(field: string, value: Option<string>, rest: string)
    requires |rest| < |field| || rest[..|field|] != field
    ensures ReadField(field, OptionalField(field, value) + rest) == (value, rest)
  {
    match value
    case None => assert "" + rest == rest;
    case Some(v) =>
      QuoteRoundTrip(v, rest);
      ConcatAssoc(field, Quote(v), rest);
      var s := field + (Quote(v) + rest);
      assert s[..|field|] == field && s[|field|..] == Quote(v) + rest;
  }

  // What follows the identity fields of a claim never looks like one of them.
  lemma AfterFields(inodeKey: Option<string>, x: string)
    ensures var rest := OptionalField(INODE_KEY_LABEL, inodeKey) + ("}" + x);
            |rest| < |REAL_KEY_LABEL| || rest[..|REAL_KEY_LABEL|] != REAL_KEY_LABEL
    ensures var rest := "}" + x; |rest| < |INODE_KEY_LABEL| || rest[..|INODE_KEY_LABEL|] != INODE_KEY_LABEL
  {
    var rest := OptionalField(INODE_KEY_LABEL, inodeKey) + ("}" + x);
    assert inodeKey.None? ==> rest[0] == '}';
    assert inodeKey.Some? ==> rest[2] == 'i';
    if |rest| >= |REAL_KEY_LABEL| {
      assert rest[..|REAL_KEY_LABEL|][0] == rest[0] && rest[..|REAL_KEY_LABEL|][2] == rest[2];
      assert REAL_KEY_LABEL[0] == ',' && REAL_KEY_LABEL[2] == 'r';
    }
    var tail := "}" + x;
    if |tail| >= |INODE_KEY_LABEL| {
      assert tail[..|INODE_KEY_LABEL|][0] == '}' && INODE_KEY_LABEL[0] == ',';
    }
  }

  lemma ReadIdentity(claim: Claim, x: string)
    requires claim.PathClaim?
    ensures var first := ReadField(REAL_KEY_LABEL, IdentityFields(claim) + ("}" + x));
            first.0 == claim.realKey && ReadField(INODE_KEY_LABEL, first.1) == (claim.inodeKey, "}" + x)
  {
    var inode := OptionalField(INODE_KEY_LABEL, claim.inodeKey);
    AfterFields(claim.inodeKey, x);
    ConcatAssoc(OptionalField(REAL_KEY_LABEL, claim.realKey), inode, "}" + x);
    ReadFieldRoundTrip(REAL_KEY_LABEL, claim.realKey, inode + ("}" + x));
    ReadFieldRoundTrip(INODE_KEY_LABEL, claim.inodeKey, "}" + x);
  }

  lemma IdentityPrefixFree(a: Claim, b: Claim, x: string, y: string)
    requires a.PathClaim? == b.PathClaim?
    requires IdentityFields(a) + ("}" + x) == IdentityFields(b) + ("}" + y)
    ensures x == y
    ensures a.PathClaim? ==> a.realKey == b.realKey && a.inodeKey == b.inodeKey
  {
    if a.PathClaim? {
      ReadIdentity(a, x);
      ReadIdentity(b, y);
    }
    assert "" + ("}" + x) == "}" + x && "" + ("}" + y) == "}" + y;
    Cancel("}", x, y);
  }

  // The encoding of one claim with the text after it, as nested pieces.
  function ClaimTail(claim: Claim, x: string): string {
    "{\"kind\":" + (Quote(KindName(claim)) + (",\"key\":" + (Quote(claim.key)
    + (",\"access\":" + (Quote(AccessName(claim.access)) + (IdentityFields(claim) + ("}" + x)))))))
  }

  lemma EncodeClaimTail(claim: Claim, x: string)
    ensures EncodeClaim(claim) + x == ClaimTail(claim, x)
  {
    var s1 := "{\"kind\":";
    var s2 := s1 + Quote(KindName(claim));
    var s3 := s2 + ",\"key\":";
    var s4 := s3 + Quote(claim.key);
    var s5 := s4 + ",\"access\":";
    var s6 := s5 + Quote(AccessName(claim.access));
    var s7 := s6 + IdentityFields(claim);
    var t7 := "}" + x;
    var t6 := IdentityFields(claim) + t7;
    var t5 := Quote(AccessName(claim.access)) + t6;
    var t4 := ",\"access\":" + t5;
    var t3 := Quote(claim.key) + t4;
    var t2 := ",\"key\":" + t3;
    ConcatAssoc(s7, "}", x);
    ConcatAssoc(s6, IdentityFields(claim), t7);
    ConcatAssoc(s5, Quote(AccessName(claim.access)), t6);
    ConcatAssoc(s4, ",\"access\":", t5);
    ConcatAssoc(s3, Quote(claim.key), t4);
    ConcatAssoc(s2, ",\"key\":", t3);
    ConcatAssoc(s1, Quote(KindName(claim)), t2);
  }

  lemma ClaimTailPrefixFree(a: Claim, b: Claim, x: string, y: string)
    requires ClaimTail(a, x) == ClaimTail(b, y)
    ensures a == b && x == y
  {
    var a6 := IdentityFields(a) + ("}" + x);
    var b6 := IdentityFields(b) + ("}" + y);
    var a4, b4 := ",\"access\":" + (Quote(AccessName(a.access)) + a6), ",\"access\":" + (Quote(AccessName(b.access)) + b6);
    var a2, b2 := ",\"key\":" + (Quote(a.key) + a4), ",\"key\":" + (Quote(b.key) + b4);
    Cancel("{\"kind\":", Quote(KindName(a)) + a2, Quote(KindName(b)) + b2);
    QuotePrefixFree(KindName(a), KindName(b), a2, b2);
    Cancel(",\"key\":", Quote(a.key) + a4, Quote(b.key) + b4);
    QuotePrefixFree(a.key, b.key, a4, b4);
    Cancel(",\"access\":", Quote(AccessName(a.access)) + a6, Quote(AccessName(b.access)) + b6);
    QuotePrefixFree(AccessName(a.access), AccessName(b.access), a6, b6);
    KindNameInjective(a, b);
    AccessNameInjective(a.access, b.access);
    IdentityPrefixFree(a, b, x, y);
  }

  lemma KindNameInjective(a: Claim, b: Claim)
    requires KindName(a) == KindName(b)
    ensures a.PathClaim? == b.PathClaim? && (a.NamedClaim? ==> a.kind == b.kind)
  {
    assert KindName(a)[0] == KindName(b)[0];
  }

  lemma AccessNameInjective(a: Access, b: Access)
    requires AccessName(a) == AccessName(b)
    ensures a == b
  {
    assert AccessName(a)[0] == AccessName(b)[0];
  }

  lemma ClaimPrefixFree(a: Claim, b: Claim, x: string, y: string)
    requires EncodeClaim(a) + x == EncodeClaim(b) + y
    ensures a == b && x == y
  {
    EncodeClaimTail(a, x);
    EncodeClaimTail(b, y);
    ClaimTailPrefixFree(a, b, x, y);
  }

  // What follows the first claim of a list.
  function AfterFirst(claims: seq<Claim>, x: string): string
    requires claims != []
  {
    if |claims| == 1 then "]" + x else "," + (EncodeClaimList(claims[1..]) + ("]" + x))
  }

  lemma ListTail(claims: seq<Claim>, x: string)
    ensures EncodeClaimList(claims) + ("]" + x) ==
            if claims == [] then "]" + x else EncodeClaim(claims[0]) + AfterFirst(claims, x)
  {
    if |claims| > 1 {
      var first, rest := EncodeClaim(claims[0]), EncodeClaimList(claims[1..]);
      ConcatAssoc(first + ",", rest, "]" + x);
      ConcatAssoc(first, ",", rest + ("]" + x));
    }
  }

  lemma ClaimStart(claim: Claim, x: string)
    ensures EncodeClaim(claim) + x != [] && (EncodeClaim(claim) + x)[0] == '{'
  {
    EncodeClaimTail(claim, x);
  }

  lemma AfterFirstSplit(a: seq<Claim>, b: seq<Claim>, x: string, y: string)
    requires a != [] && b != [] && AfterFirst(a, x) == AfterFirst(b, y)
    ensures |a| == 1 ==> |b| == 1 && x == y
    ensures |a| > 1 ==> |b| > 1 && EncodeClaimList(a[1..]) + ("]" + x) == EncodeClaimList(b[1..]) + ("]" + y)
  {
    assert AfterFirst(a, x)[0] == AfterFirst(b, y)[0];
    if |a| == 1 {
      Cancel("]", x, y);
    } else {
      Cancel(",", EncodeClaimList(a[1..]) + ("]" + x), EncodeClaimList(b[1..]) + ("]" + y));
    }
  }

  // Both lists are empty, or they start with the same claim and what follows it agrees.
  lemma ListHeads(a: seq<Claim>, b: seq<Claim>, x: string, y: string)
    requires EncodeClaimList(a) + ("]" + x) == EncodeClaimList(b) + ("]" + y)
    ensures (a == []) == (b == [])
    ensures a == [] ==> x == y
    ensures a != [] ==> a[0] == b[0] && AfterFirst(a, x) == AfterFirst(b, y)
  {
    ListTail(a, x);
    ListTail(b, y);
    if a != [] {
      ClaimStart(a[0], AfterFirst(a, x));
    }
    if b != [] {
      ClaimStart(b[0], AfterFirst(b, y));
    }
    if a == [] {
      Cancel("]", x, y);
    } else {
      ClaimPrefixFree(a[0], b[0], AfterFirst(a, x), AfterFirst(b, y));
    }
  }

  lemma {:induction false} ListPrefixFree(a: seq<Claim>, b: seq<Claim>, x: string, y: string)
    requires EncodeClaimList(a) + ("]" + x) == EncodeClaimList(b) + ("]" + y)
    ensures a == b && x == y
    decreases |a|
  {
    ListHeads(a, b, x, y);
    if a != [] {
      AfterFirstSplit(a, b, x, y);
      if |a| > 1 {
        ListPrefixFree(a[1..], b[1..], x, y);
      }
      SameParts(a, b);
    }
  }

  lemma CallTail(call: Option<seq<Claim>>, x: string)
    ensures EncodeCall(call) + x ==
            match call
            case None => "E" + ("," + x)
            case Some(claims) => "C" + ("[" + (EncodeClaimList(claims) + ("]" + ("," + x))))
  {
    match call
    case None => assert "E," == "E" + ",";
    case Some(claims) =>
      var body := EncodeClaimList(claims);
      ConcatAssoc("C" + EncodeClaims(claims), ",", x);
      ConcatAssoc("C", EncodeClaims(claims), "," + x);
      ConcatAssoc("[" + body, "]", "," + x);
      ConcatAssoc("[", body, "]" + ("," + x));
  }

  lemma CallPrefixFree(a: Option<seq<Claim>>, b: Option<seq<Claim>>, x: string, y: string)
    requires EncodeCall(a) + x == EncodeCall(b) + y
    ensures a == b && x == y
  {
    CallTail(a, x);
    CallTail(b, y);
    assert (EncodeCall(a) + x)[0] == (EncodeCall(b) + y)[0];
    if a.None? {
      Cancel("E", "," + x, "," + y);
      Cancel(",", x, y);
    } else {
      var la, lb := EncodeClaimList(a.value) + ("]" + ("," + x)), EncodeClaimList(b.value) + ("]" + ("," + y));
      Cancel("C", "[" + la, "[" + lb);
      Cancel("[", la, lb);
      ListPrefixFree(a.value, b.value, "," + x, "," + y);
      Cancel(",", x, y);
    }
  }

  lemma {:induction false} SequenceInjective(a: seq<Option<seq<Claim>>>, b: seq<Option<seq<Claim>>>)
    requires EncodeSequence(a) == EncodeSequence(b)
    ensures a == b
    decreases |a|
  {
    if a != [] {
      CallTail(a[0], EncodeSequence(a[1..]));
    }
    if b != [] {
      CallTail(b[0], EncodeSequence(b[1..]));
    }
    if a != [] && b != [] {
      CallPrefixFree(a[0], b[0], EncodeSequence(a[1..]), EncodeSequence(b[1..]));
      SequenceInjective(a[1..], b[1..]);
      SameParts(a, b);
    }
  }

  // Plan keys are equal exactly when the canonical claim sequences are.
  lemma PlanKeyExact(a: seq<ResolvedClaimEntry>, b: seq<ResolvedClaimEntry>)
    ensures EncodeSequence(CanonicalSequence(a)) == EncodeSequence(CanonicalSequence(b))
            <==> CanonicalSequence(a) == CanonicalSequence(b)
  {
    if EncodeSequence(CanonicalSequence(a)) == EncodeSequence(CanonicalSequence(b)) {
      SequenceInjective(CanonicalSequence(a), CanonicalSequence(b));
    }
  }

  // Permuting normal-form claims inside calls changes neither the key nor any level.
  lemma PlanIgnoresClaimOrder(a: seq<ResolvedClaimEntry>, b: seq<ResolvedClaimEntry>)
    requires WellFormed(a) && WellFormed(b) && |a| == |b|
    requires forall i | 0 <= i < |a| :: NormalForm(a[i].resolution) && SameClaims(a[i].resolution, b[i].resolution)
    ensures EncodeSequence(CanonicalSequence(a)) == EncodeSequence(CanonicalSequence(b))
    ensures forall i | 0 <= i < |a| :: Level(Resolutions(a), i) == Level(Resolutions(b), i)
  {
    forall i | 0 <= i < |a|
      ensures CanonicalSequence(a)[i] == CanonicalSequence(b)[i]
      ensures Level(Resolutions(a), i) == Level(Resolutions(b), i)
    {
      assert a[i] in a && b[i] in b;
      if a[i].resolution.Claims? {
        NormalFormReorders(a[i].resolution);
      }
      LevelsIgnoreClaimOrder(Resolutions(a), Resolutions(b), i);
    }
    assert CanonicalSequence(a) == CanonicalSequence(b);
  }

  // ----- Canonical claims decide the levels

  lemma SameCanonicalSameClaims(a: Resolution, b: Resolution)
    requires CanonicalCall(a) == CanonicalCall(b)
    ensures SameClaims(a, b)
  {
    if a.Claims? {
      CanonicalSorted(a.claims);
      CanonicalSorted(b.claims);
    }
  }

  lemma {:induction false} SameMembers(rs: seq<Resolution>, qs: seq<Resolution>, n: nat, l: nat)
    requires n <= |rs| == |qs| && forall i | 0 <= i < n :: Level(rs, i) == Level(qs, i)
    ensures Members(rs, n, l) == Members(qs, n, l) && LevelCount(rs, n) == LevelCount(qs, n)
  {
    if n > 0 {
      SameMembers(rs, qs, n - 1, l);
    }
  }

  lemma CanonicalDecidesLevels(rs: seq<Resolution>, qs: seq<Resolution>)
    requires CanonicalClaims(rs) == CanonicalClaims(qs)
    ensures Levels(rs) == Levels(qs)
  {
    forall i | 0 <= i < |rs|
      ensures SameClaims(rs[i], qs[i])
    {
      assert CanonicalClaims(rs)[i] == CanonicalClaims(qs)[i];
      SameCanonicalSameClaims(rs[i], qs[i]);
    }
    forall i | 0 <= i < |rs|
      ensures Level(rs, i) == Level(qs, i)
    {
      LevelsIgnoreClaimOrder(rs, qs, i);
    }
    SameMembers(rs, qs, |rs|, 0);
    forall l | 0 <= l < |Levels(rs)|
      ensures Levels(rs)[l] == Levels(qs)[l]
    {
      SameMembers(rs, qs, |rs|, l);
    }
  }

  // scheduleDagLevels: resolve, assign levels, apply the width cap, compute the key.
  method ScheduleDagLevels(resolutions: seq<Resolution>, cap: Cap) returns (levels: seq<seq<nat>>, planKey: string)
    ensures levels == CapLevels(Levels(resolutions), cap)
    ensures planKey == EncodeSequence(CanonicalClaims(resolutions))
    ensures forall other: seq<ResolvedClaimEntry>, mine: seq<ResolvedClaimEntry> |
              WellFormed(mine) && Resolutions(mine) == resolutions && planKey == EncodeSequence(CanonicalSequence(other)) ::
              CanonicalSequence(other) == CanonicalSequence(mine)
  {
    var entries := ResolveBatchClaims(resolutions);
    var baseLevels := AssignDagLevels(entries);
    assert baseLevels == Levels(resolutions) by {
      forall l | 0 <= l < |baseLevels|
        ensures baseLevels[l] == Members(resolutions, |resolutions|, l)
      {
        SourceIndicesId(entries, Members(resolutions, |resolutions|, l));
      }
    }
    levels := ApplyConcurrencyCap(baseLevels, cap);
    planKey := ComputePlanKey(entries);
    SequenceOfResolutions(entries);
    forall other: seq<ResolvedClaimEntry>, mine: seq<ResolvedClaimEntry> |
      WellFormed(mine) && Resolutions(mine) == resolutions && planKey == EncodeSequence(CanonicalSequence(other))
      ensures CanonicalSequence(other) == CanonicalSequence(mine)
    {
      PlanKeyExact(entries, other);
      SameResolutionsSameSequence(entries, mine);
    }
  }

  lemma SameResolutionsSameSequence(a: seq<ResolvedClaimEntry>, b: seq<ResolvedClaimEntry>)
    requires WellFormed(a) && WellFormed(b) && Resolutions(a) == Resolutions(b)
    ensures CanonicalSequence(a) == CanonicalSequence(b)
  {
    forall i | 0 <= i < |a|
      ensures CanonicalSequence(a)[i] == CanonicalSequence(b)[i]
    {
      assert a[i] in a && b[i] in b;
      assert Resolutions(a)[i] == Resolutions(b)[i];
    }
  }
}
