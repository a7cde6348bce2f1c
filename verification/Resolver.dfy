/** From tool calls to normal-form claims: path keys, custom claims and the fail-closed rules
    (packages/agent/src/tool-resource-claims.ts, builtin-tool-resource-claims.ts). */
module Resolver {
  import opened Wrappers
  import opened Text
  import opened Paths
  import opened Claims
  import opened DagScheduler
  import opened DagProperties
  import Waves

  // ----- Path keys

  function NormalizeLeadingSlashes(raw: string): string {
    var n := NormalizePathSlashes(raw);
    if StartsWith(n, "///") then "/" + DropSlashes(n) else n
  }

  predicate StartsOnDrive(s: string) {
    HasDrivePrefix(s) && |s| >= 3 && s[2] == '/'
  }

  predicate IsAnchored(s: string) {
    StartsWith(s, "/") || StartsOnDrive(s)
  }

  // The path a raw path names before canonicalization, seen from a canonical working directory.
  function Resolved(normalized: string, canonicalCwd: string): string {
    if StartsOnDrive(normalized) then normalized
    else if StartsWith(normalized, "/") then
      if StartsOnDrive(canonicalCwd) then canonicalCwd[..2] + normalized else normalized
    else JoinPathSegments(canonicalCwd, normalized)
  }

  function ResolveCanonicalPathKey(raw: string, cwd: string): Option<string> {
    var normalized := NormalizeLeadingSlashes(raw);
    if IsBlank(raw) || StartsWith(normalized, "//") || (HasDrivePrefix(normalized) && !StartsOnDrive(normalized)) then None
    else
      match CanonicalizeLexicalPath(cwd)
      case None => None
      case Some(canonicalCwd) =>
        if !IsAnchored(canonicalCwd) then None
        else
          match CanonicalizeLexicalPath(Resolved(normalized, canonicalCwd))
          case None => None
          case Some(canonical) => if IsAnchored(canonical) then Some(canonical) else None
  }

  // ----- Keys reported by a platform resolver

  datatype Reported = Absent | NotAString | Str(s: string)

  datatype Answer = Threw | NotAnObject | Keys(lexicalKey: Reported, realKey: Reported, inodeKey: Reported)

  function UntilSlash(s: string): string {
    if s == "" || s[0] == '/' then "" else [s[0]] + UntilSlash(s[1..])
  }

  // A UNC path after its two slashes: server, share and a suffix without line terminators.
  function CanonicalUnc(rest: string): Option<string> {
    var server := UntilSlash(rest);
    var afterServer := DropSlashes(DropPrefix(rest, |server|));
    var share := UntilSlash(afterServer);
    var suffix := DropSlashes(DropPrefix(afterServer, |share|));
    if server == "" || share == "" || (exists c | c in suffix :: IsLineTerminator(c)) then None
    else
      var root := "//" + Lower(server) + "/" + Lower(share);
      if suffix == "" then Some(root)
      else
        match CanonicalizeLexicalPath(suffix)
        case None => None
        case Some(canonical) => Some(if canonical == "" then root else root + "/" + canonical)
  }

  function DropPrefix(s: string, n: nat): string {
    if n <= |s| then s[n..] else ""
  }

  function CanonicalizeResolvedPathKey(raw: string): (r: Option<string>)
    ensures r.Some? ==> r.value != ""
  {
    var normalized := NormalizeLeadingSlashes(raw);
    if IsBlank(raw) then None
    else if StartsWith(normalized, "//") then CanonicalUnc(normalized[2..])
    else
      match CanonicalizeLexicalPath(normalized)
      case None => None
      case Some(canonical) =>
        if IsDriveSlash(canonical) then Some(Lower(canonical[..2]) + canonical[2..])
        else if StartsWith(canonical, "/") then Some(canonical)
        else None
  }

  predicate NeedsIdentity(key: string) {
    StartsWith(key, "//") || (|key| >= 3 && 'a' <= key[0] <= 'z' && key[1] == ':' && key[2] == '/')
  }

  // The claim a resolver's answer gives, None when it is not to be trusted.
  function ClaimFromAnswer(answer: Answer, access: Access): (r: Option<Claim>)
    ensures r.Some? ==> r.value.PathClaim? && r.value.access == access && NormalIdentity(r.value) && r.value.key != ""
    ensures r.Some? && NeedsIdentity(r.value.key) ==> r.value.realKey.Some? || r.value.inodeKey.Some?
  {
    if !answer.Keys? || !answer.lexicalKey.Str? || answer.realKey.NotAString? || answer.inodeKey.NotAString? then None
    else
      var lexical := CanonicalizeResolvedPathKey(answer.lexicalKey.s);
      var realKey := if answer.realKey.Absent? then None else CanonicalizeResolvedPathKey(answer.realKey.s);
      var inodeKey := if answer.inodeKey.Absent? then None else Some(answer.inodeKey.s);
      if lexical.None? || (answer.realKey.Str? && realKey.None?) || inodeKey == Some("") then None
      else if NeedsIdentity(lexical.value) && realKey.None? && inodeKey.None? then None
      else Some(PathClaim(lexical.value, access, realKey, inodeKey))
  }

  // ----- Options and single path claims

  datatype RegisteredTool = RegisteredTool(name: string, executionMode: Option<Waves.Policy>, customClaims: bool)

  datatype Options = Options(
    cwd: string, toolPolicies: map<string, Waves.Policy>, registeredTools: seq<RegisteredTool>,
    strictExtensionClaims: bool, resourceKeyResolver: Option<string -> Answer>)

  function PathClaimWithIdentity(raw: Option<string>, access: Access, options: Options): (r: Option<Claim>)
    ensures r.Some? ==> r.value.PathClaim? && r.value.access == access && NormalIdentity(r.value)
  {
    if raw.None? || IsBlank(raw.value) then None
    else
      match options.resourceKeyResolver
      case Some(resolver) => ClaimFromAnswer(resolver(raw.value), access)
      case None =>
        match ResolveCanonicalPathKey(raw.value, options.cwd)
        case None => None
        case Some(key) => Some(PathClaim(key, access, None, None))
  }

  function AsResolution(claim: Option<Claim>): Resolution {
    if claim.None? then ExclusiveCall else Claims([claim.value])
  }

  // ----- Custom claims

  // One element of what an extension's resolver returned; kinds and accesses are raw strings.
  datatype Candidate = NotARecord | Candidate(kind: string, key: Option<string>, access: string)

  datatype CustomValue = ResolverThrew | ExclusiveWord | NotAnArray | Candidates(candidates: seq<Candidate>)

  function NamedKindOf(kind: string): Option<NamedKind> {
    if kind == "session" then Some(Session)
    else if kind == "terminal" then Some(Terminal)
    else if kind == "network" then Some(Network)
    else if kind == "global" then Some(Global)
    else None
  }

  function AccessOf(access: string): Option<Access> {
    if access == "read" then Some(Read)
    else if access == "write" then Some(Write)
    else if access == "exclusive" then Some(Exclusive)
    else None
  }

  // The claim one candidate asks for, None when it is malformed or cannot be resolved.
  function ClaimOf(c: Candidate, options: Options): (r: Option<Claim>)
    ensures r.Some? ==> NormalIdentity(r.value)
  {
    if c.NotARecord? || c.key.None? || IsBlank(c.key.value) then None
    else if c.kind == "path" then
      if AccessOf(c.access) == Some(Read) || AccessOf(c.access) == Some(Write) then
        PathClaimWithIdentity(c.key, AccessOf(c.access).value, options)
      else None
    else if NamedKindOf(c.kind).None? || AccessOf(c.access).None? then None
    else Some(NamedClaim(NamedKindOf(c.kind).value, c.key.value, AccessOf(c.access).value))
  }

  // A candidate that leaves its call schedulable beside others.
  predicate Shareable(c: Candidate, options: Options) {
    var claim := ClaimOf(c, options);
    claim.Some? && claim.value.access != Exclusive
  }

  predicate AllShareable(value: CustomValue, options: Options) {
    && value.Candidates? && value.candidates != []
    && forall i | 0 <= i < |value.candidates| :: Shareable(value.candidates[i], options)
  }

  function NormalizedClaims(value: CustomValue, options: Options): (r: Resolution)
    ensures NormalForm(r)
    ensures r.ExclusiveCall? <==> !AllShareable(value, options)
  {
    if !AllShareable(value, options) then ExclusiveCall
    else
      Claims(seq(|value.candidates|, i requires 0 <= i < |value.candidates| && Shareable(value.candidates[i], options) =>
        ClaimOf(value.candidates[i], options).value))
  }

  // normalizeCustomClaims: the claims in order, or an exclusive call as soon as anything is amiss.
  method NormalizeCustomClaims(value: CustomValue, options: Options) returns (r: Resolution)
    ensures r == NormalizedClaims(value, options)
  {
    if !value.Candidates? || |value.candidates| == 0 {
      return ExclusiveCall;
    }
    var claims: seq<Claim> := [];
    var hasExclusiveAccess := false;
    for k := 0 to |value.candidates|
      invariant |claims| == k
      invariant forall i | 0 <= i < k :: ClaimOf(value.candidates[i], options) == Some(claims[i])
      invariant hasExclusiveAccess <==> exists i | 0 <= i < k :: !Shareable(value.candidates[i], options)
    {
      var candidate := value.candidates[k];
      var claim := ClaimOf(candidate, options);
      if claim.None? {
        assert !Shareable(value.candidates[k], options);
        return ExclusiveCall;
      }
      claims := claims + [claim.value];
      if claim.value.access == Exclusive {
        assert !Shareable(value.candidates[k], options);
        hasExclusiveAccess := true;
      }
    }
    r := if hasExclusiveAccess then ExclusiveCall else Claims(claims);
  }

  // ----- Whole calls

  predicate IsSearchPathTool(name: string) {
    name in {"grep", "find", "ls", "search_files"}
  }

  predicate IsBuiltinPathClaimTool(name: string) {
    Waves.IsPathScopedTool(name) || IsSearchPathTool(name)
  }

  function FindRegistered(name: string, tools: seq<RegisteredTool>): (r: Option<RegisteredTool>)
    ensures r.Some? ==> r.value in tools && r.value.name == name
    ensures r.None? ==> forall t | t in tools :: t.name != name
  {
    if tools == [] then None
    else if tools[0].name == name then Some(tools[0])
    else FindRegistered(name, tools[1..])
  }

  function ResolveToolPolicy(name: string, options: Options): Option<Waves.Policy> {
    var tool := FindRegistered(name, options.registeredTools);
    if tool.Some? && tool.value.executionMode.Some? then tool.value.executionMode
    else if name in options.toolPolicies then Some(options.toolPolicies[name])
    else None
  }

  // What a call may never share a level for.
  predicate ForcedAlone(name: string, options: Options) {
    Waves.IsNeverParallel(name) || name == "bash" || ResolveToolPolicy(name, options) == Some(Waves.Sequential)
  }

  function BuiltinRawPath(name: string, path: Option<string>, cwd: string): Option<string> {
    if Waves.IsPathScopedTool(name) then path
    else if !IsSearchPathTool(name) then None
    else if path.Some? && !IsBlank(path.value) then path
    else Some(cwd)
  }

  function BuiltinPathAccess(name: string): Access {
    if name == "read" || IsSearchPathTool(name) then Read else Write
  }

  // The key of the path a built-in tool works on.
  function PathKeyOf(call: Waves.ToolCallShape, options: Options): Option<string> {
    if call.arguments.NotAnObject? then None
    else
      var raw := BuiltinRawPath(call.name, call.arguments.path, options.cwd);
      if raw.None? then None else ResolveCanonicalPathKey(raw.value, options.cwd)
  }

  // A tool without claims of its own that may share a level: safe by name or admitted by policy.
  predicate AdmittedWithoutClaims(name: string, options: Options) {
    Waves.IsParallelSafe(name) || (ResolveToolPolicy(name, options) == Some(Waves.Parallel) && !options.strictExtensionClaims)
  }

  // Nothing but a single claim on its key for a path tool, read or write by the tool's name; an
  // exclusive call where the arguments, the policy, the key or the tool do not admit it.
  function ResolveToolClaims(call: Waves.ToolCallShape, options: Options): (r: Resolution)
    ensures NormalForm(r)
    ensures r.Claims? <==>
            && call.arguments.Object? && !ForcedAlone(call.name, options)
            && if IsBuiltinPathClaimTool(call.name) then PathKeyOf(call, options).Some? else AdmittedWithoutClaims(call.name, options)
    ensures r.Claims? && IsBuiltinPathClaimTool(call.name) ==>
              r.claims == [PathClaim(PathKeyOf(call, options).value, BuiltinPathAccess(call.name), None, None)]
    ensures r.Claims? && !IsBuiltinPathClaimTool(call.name) ==> r.claims == []
  {
    if call.arguments.NotAnObject? || ForcedAlone(call.name, options) then ExclusiveCall
    else if IsBuiltinPathClaimTool(call.name) then
      var raw := BuiltinRawPath(call.name, call.arguments.path, options.cwd);
      var key := if raw.None? then None else ResolveCanonicalPathKey(raw.value, options.cwd);
      if key.None? then ExclusiveCall else Claims([PathClaim(key.value, BuiltinPathAccess(call.name), None, None)])
    else if Waves.IsParallelSafe(call.name) then Claims([])
    else if ResolveToolPolicy(call.name, options) == Some(Waves.Parallel) && !options.strictExtensionClaims then Claims([])
    else ExclusiveCall
  }

  // The tool's extension names its claims.
  predicate HasExtension(name: string, options: Options) {
    var tool := FindRegistered(name, options.registeredTools);
    tool.Some? && tool.value.customClaims
  }

  // The platform resolver names the claim of a path tool.
  predicate AsksPlatform(call: Waves.ToolCallShape, options: Options) {
    && options.resourceKeyResolver.Some? && IsBuiltinPathClaimTool(call.name) && call.arguments.Object?
    && !Waves.IsNeverParallel(call.name) && ResolveToolPolicy(call.name, options) != Some(Waves.Sequential)
  }

  // resolveToolClaimsForCall; `custom` is what the registered tool's own resolver answers.
  function ResolveToolClaimsForCall(call: Waves.ToolCallShape, custom: CustomValue, options: Options): (r: Resolution)
    ensures NormalForm(r)
    ensures call.arguments.NotAnObject? || ForcedAlone(call.name, options) ==> r.ExclusiveCall?
  {
    if !HasExtension(call.name, options) then
      if AsksPlatform(call, options) then
        AsResolution(PathClaimWithIdentity(BuiltinRawPath(call.name, call.arguments.path, options.cwd),
                                           BuiltinPathAccess(call.name), options))
      else ResolveToolClaims(call, options)
    else if call.arguments.NotAnObject? || ForcedAlone(call.name, options) then ExclusiveCall
    else NormalizedClaims(custom, options)
  }

  // The claims an admitted call gets: one per candidate of its extension, in order; or the one claim
  // of the platform's answer for its path; or those of its name alone.
  lemma AdmittedClaims(call: Waves.ToolCallShape, custom: CustomValue, options: Options)
    requires ResolveToolClaimsForCall(call, custom, options).Claims?
    ensures var claims := ResolveToolClaimsForCall(call, custom, options).claims;
            if HasExtension(call.name, options) then
              && call.arguments.Object? && !ForcedAlone(call.name, options)
              && AllShareable(custom, options) && |claims| == |custom.candidates|
              && forall i | 0 <= i < |claims| :: ClaimOf(custom.candidates[i], options) == Some(claims[i])
            else if AsksPlatform(call, options) then
              |claims| == 1 && AnsweredFor(call, options, claims[0])
            else Claims(claims) == ResolveToolClaims(call, options)
  {
  }

  // The claim is the one the platform resolver's answer for the call's path gives.
  ghost predicate AnsweredFor(call: Waves.ToolCallShape, options: Options, claim: Claim) {
    && AsksPlatform(call, options)
    && var raw := BuiltinRawPath(call.name, call.arguments.path, options.cwd);
       && raw.Some? && !IsBlank(raw.value)
       && ClaimFromAnswer(options.resourceKeyResolver.value(raw.value), BuiltinPathAccess(call.name)) == Some(claim)
  }

  // Exactly when a call is not admitted.
  lemma ExclusiveIff(call: Waves.ToolCallShape, custom: CustomValue, options: Options)
    ensures ResolveToolClaimsForCall(call, custom, options).ExclusiveCall? <==>
            if HasExtension(call.name, options) then
              call.arguments.NotAnObject? || ForcedAlone(call.name, options) || !AllShareable(custom, options)
            else if AsksPlatform(call, options) then forall claim :: !AnsweredFor(call, options, claim)
            else ResolveToolClaims(call, options).ExclusiveCall?
  {
    if !HasExtension(call.name, options) && AsksPlatform(call, options) {
      var raw := BuiltinRawPath(call.name, call.arguments.path, options.cwd);
      if raw.Some? && !IsBlank(raw.value) {
        var claim := ClaimFromAnswer(options.resourceKeyResolver.value(raw.value), BuiltinPathAccess(call.name));
        assert claim.Some? ==> AnsweredFor(call, options, claim.value);
      }
    }
  }

  function ResolveBatch(calls: seq<Waves.ToolCallShape>, customs: seq<CustomValue>, options: Options): (rs: seq<Resolution>)
    requires |calls| == |customs|
    ensures |rs| == |calls|
    ensures forall i | 0 <= i < |rs| :: rs[i] == ResolveToolClaimsForCall(calls[i], customs[i], options)
  {
    seq(|calls|, i requires 0 <= i < |calls| => ResolveToolClaimsForCall(calls[i], customs[i], options))
  }

  // The scheduler's exactness and minimality hold of every batch the resolver can produce.
  lemma ResolvedBatchesAreExact(calls: seq<Waves.ToolCallShape>, customs: seq<CustomValue>, options: Options, slot: seq<nat>, i: nat)
    requires |calls| == |customs| && i < |calls|
    requires RespectsOrder(ResolveBatch(calls, customs, options), slot)
    ensures Normal(ResolveBatch(calls, customs, options))
    ensures Level(ResolveBatch(calls, customs, options), i) <= slot[i]
    ensures forall r | r in ResolveBatch(calls, customs, options) && r.Claims? :: ReorderingInvariant(r.claims)
  {
    var rs := ResolveBatch(calls, customs, options);
    forall r | r in rs
      ensures NormalForm(r)
    {
      var k :| 0 <= k < |rs| && rs[k] == r;
    }
    LevelMinimal(rs, slot, i);
    forall r | r in rs && r.Claims?
      ensures ReorderingInvariant(r.claims)
    {
      NormalFormReorders(r);
    }
  }

  // ----- Path keys are canonical, and naming a file by its key changes nothing

  lemma NormalizedRaw(raw: string)
    ensures '\\' !in NormalizeLeadingSlashes(raw)
  {
    DropSlashesFacts(NormalizePathSlashes(raw));
  }

  // What is canonicalized lies on a drive exactly when the path or the directory does.
  lemma ResolvedAnchor(normalized: string, canonicalCwd: string)
    requires IsAnchored(canonicalCwd) && '\\' !in normalized && '\\' !in canonicalCwd
    requires normalized != "" && (HasDrivePrefix(normalized) ==> StartsOnDrive(normalized))
    ensures var r := Resolved(normalized, canonicalCwd);
            && NormalizePathSlashes(r) == r
            && (StartsOnDrive(normalized) || StartsOnDrive(canonicalCwd) ==> StartsOnDrive(r))
            && (!StartsOnDrive(normalized) && !StartsOnDrive(canonicalCwd) ==> StartsWith(r, "/"))
  {
    NormalizeId(normalized);
    NormalizeId(canonicalCwd);
    DropTrailingSlashesFacts(canonicalCwd);
    NormalizeId(Resolved(normalized, canonicalCwd));
  }

  lemma {:induction false} DropTrailingSlashesFacts(s: string)
    ensures var d := DropTrailingSlashes(s); |d| <= |s| && d == s[..|d|]
    ensures forall i | |DropTrailingSlashes(s)| <= i < |s| :: s[i] == '/'
  {
    if s != [] && s[|s| - 1] == '/' {
      DropTrailingSlashesFacts(s[..|s| - 1]);
    }
  }

  lemma AnchoredForm(r: string)
    requires NormalizePathSlashes(r) == r && IsAnchored(r) && CanonicalizeLexicalPath(r).Some?
    ensures var c := CanonicalizeLexicalPath(r).value;
            && CanonicalizeLexicalPath(c) == Some(c) && '\\' !in c && c != ""
            && NormalizeLeadingSlashes(c) == c && !StartsWith(c, "//") && !IsBlank(c)
            && (IsDriveSlash(c) || StartsWith(c, "/"))
            && (StartsOnDrive(r) ==> StartsOnDrive(c)) && (!StartsOnDrive(r) ==> StartsWith(c, "/") && !HasDrivePrefix(c))
  {
    var c := CanonicalizeLexicalPath(r).value;
    CanonicalForms(r);
    if IsDriveAbsolute(r) {
      var names :| DriveForm(c, r[..2], names);
      DriveFormFixed(c, r[..2], names);
      NormalizeClean(names);
      assert c[0] == r[0];
    } else {
      var names :| RootedForm(c, names);
      RootedFormFixed(c, names);
      NormalizeClean(names);
      assert c[0] == '/';
    }
    NormalizeId(c);
    assert c[0] in c && !IsSpace(c[0]);
  }

  // A key is canonical and resolves to itself from the same directory, so every spelling of a file
  // shares the key of its canonical name.
  lemma KeyIsFixed(raw: string, cwd: string)
    requires ResolveCanonicalPathKey(raw, cwd).Some?
    ensures var key := ResolveCanonicalPathKey(raw, cwd).value;
            && CanonicalizeLexicalPath(key) == Some(key) && IsAnchored(key)
            && (IsDriveSlash(key) || StartsWith(key, "/")) && !StartsWith(key, "//")
            && ResolveCanonicalPathKey(key, cwd) == Some(key)
  {
    var normalized := NormalizeLeadingSlashes(raw);
    var canonicalCwd := CanonicalizeLexicalPath(cwd).value;
    NormalizedRaw(raw);
    NonBlankNormalized(raw);
    CwdIsNormalized(cwd);
    ResolvedAnchor(normalized, canonicalCwd);
    var r := Resolved(normalized, canonicalCwd);
    AnchoredForm(r);
    var key := CanonicalizeLexicalPath(r).value;
    assert Resolved(key, canonicalCwd) == key;
  }

  lemma NonBlankNormalized(raw: string)
    requires !IsBlank(raw)
    ensures NormalizeLeadingSlashes(raw) != ""
  {
  }

  lemma CwdIsNormalized(cwd: string)
    requires CanonicalizeLexicalPath(cwd).Some?
    ensures '\\' !in CanonicalizeLexicalPath(cwd).value
  {
    var c := CanonicalizeLexicalPath(cwd).value;
    var n := NormalizePathSlashes(cwd);
    CanonicalForms(cwd);
    if IsDriveAbsolute(n) {
      var names :| DriveForm(c, n[..2], names);
      NormalizeClean(names);
    } else if StartsWith(n, "/") {
      var names :| RootedForm(c, names);
      NormalizeClean(names);
    } else {
      var names :| RootlessForm(c, names);
      NormalizeClean(names);
    }
  }

  // Two spellings of one file conflict as soon as one of the calls writes it.
  lemma SpellingsConflict(a: string, b: string, left: Access, right: Access, options: Options)
    requires options.resourceKeyResolver.None? && (left == Write || right == Write)
    requires ResolveCanonicalPathKey(a, options.cwd).Some?
    requires b == ResolveCanonicalPathKey(a, options.cwd).value
    ensures ResolutionsConflict(AsResolution(PathClaimWithIdentity(Some(a), left, options)),
                                AsResolution(PathClaimWithIdentity(Some(b), right, options)))
  {
    KeyIsFixed(a, options.cwd);
    var r := PathClaimWithIdentity(Some(b), right, options);
    if r.Some? {
      var x, y := PathClaim(b, left, None, None), PathClaim(b, right, None, None);
      SamePathConflicts(x, y);
      assert x in [x] && y in [y];
    }
  }
}
