/** What a call claims and which wave it may join, read off a table of the tools' names
    (packages/agent/src/builtin-tool-resource-claims.ts:18-230, packages/agent/src/parallel-tool-batch.ts:3-117). */
module ToolTable {
  import opened Wrappers
  import opened Text
  import opened Paths
  import opened Claims
  import opened Resolver
  import opened Places
  import Waves

  // ----- The table

  datatype Role = ReadsPath | WritesPath | SearchesPath | RunsAlone | NeedsNothing | Unknown

  function RoleOf(name: string): Role {
    if name == "read" then ReadsPath
    else if name == "write" || name == "edit" then WritesPath
    else if name == "grep" || name == "find" || name == "ls" || name == "search_files" then SearchesPath
    else if name == "bash" || name == "clarify" then RunsAlone
    else if name in {"session_search", "skill_view", "skills_list", "vision_analyze", "web_extract", "web_search"} then NeedsNothing
    else Unknown
  }

  // ----- Policies

  // The k-th tool is the first one registered under the name.
  ghost predicate FirstNamed(tools: seq<RegisteredTool>, name: string, k: nat) {
    k < |tools| && tools[k].name == name && forall j | 0 <= j < k :: tools[j].name != name
  }

  // The first tool registered under the name gives the policy, and where it gives none the table does.
  ghost predicate HasPolicy(name: string, o: Options, policy: Waves.Policy) {
    || (exists k: nat :: FirstNamed(o.registeredTools, name, k) && o.registeredTools[k].executionMode == Some(policy))
    || ((forall k: nat :: FirstNamed(o.registeredTools, name, k) ==> o.registeredTools[k].executionMode.None?)
        && name in o.toolPolicies && o.toolPolicies[name] == policy)
  }

  // The first tool registered under the name answers for its own claims.
  ghost predicate ClaimsItself(name: string, o: Options) {
    exists k: nat :: FirstNamed(o.registeredTools, name, k) && o.registeredTools[k].customClaims
  }

  lemma {:induction false} FirstFound(name: string, tools: seq<RegisteredTool>) returns (k: nat)
    requires FindRegistered(name, tools).Some?
    ensures FirstNamed(tools, name, k) && tools[k] == FindRegistered(name, tools).value
  {
    if tools[0].name == name {
      k := 0;
    } else {
      k := FirstFound(name, tools[1..]);
      k := k + 1;
      assert forall j | 0 < j < k :: tools[j] == tools[1..][j - 1];
    }
  }

  lemma OnlyFirst(tools: seq<RegisteredTool>, name: string, k: nat)
    requires FirstNamed(tools, name, k)
    ensures FindRegistered(name, tools).Some? && forall j: nat :: FirstNamed(tools, name, j) ==> j == k
  {
    assert tools[k] in tools;
  }

  lemma PolicyIff(name: string, o: Options, policy: Waves.Policy)
    ensures ResolveToolPolicy(name, o) == Some(policy) <==> HasPolicy(name, o, policy)
    ensures HasExtension(name, o) <==> ClaimsItself(name, o)
  {
    if FindRegistered(name, o.registeredTools).Some? {
      var k := FirstFound(name, o.registeredTools);
      OnlyFirst(o.registeredTools, name, k);
    } else {
      assert forall k: nat | k < |o.registeredTools| :: o.registeredTools[k] in o.registeredTools;
    }
  }

  // ----- What a call claims

  // The one claim on a path, none at all when it has no key.
  function OnPath(raw: Option<string>, access: Access, o: Options): Resolution {
    if raw.None? || IsBlank(raw.value) then ExclusiveCall
    else if o.resourceKeyResolver.Some? then
      var claim := ClaimFromAnswer(o.resourceKeyResolver.value(raw.value), access);
      if claim.None? then ExclusiveCall else Claims([claim.value])
    else
      var key := ResolveCanonicalPathKey(raw.value, o.cwd);
      if key.None? then ExclusiveCall else Claims([PathClaim(key.value, access, None, None)])
  }

  // What the table says of a call that does not have to run alone.
  ghost function TableClaims(call: Waves.ToolCallShape, o: Options): Resolution
    requires call.arguments.Object?
  {
    var path := call.arguments.path;
    match RoleOf(call.name)
    case ReadsPath => OnPath(path, Read, o)
    case WritesPath => OnPath(path, Write, o)
    case SearchesPath => OnPath(if path.Some? && !IsBlank(path.value) then path else Some(o.cwd), Read, o)
    case RunsAlone => ExclusiveCall
    case NeedsNothing => Claims([])
    case Unknown => if HasPolicy(call.name, o, Waves.Parallel) && !o.strictExtensionClaims then Claims([]) else ExclusiveCall
  }

  lemma RolesOfNames(name: string)
    ensures Waves.IsPathScopedTool(name) <==> RoleOf(name) == ReadsPath || RoleOf(name) == WritesPath
    ensures IsSearchPathTool(name) <==> RoleOf(name) == SearchesPath
    ensures Waves.IsNeverParallel(name) || name == "bash" <==> RoleOf(name) == RunsAlone
    ensures Waves.IsParallelSafe(name) <==> RoleOf(name) in {ReadsPath, SearchesPath, NeedsNothing}
  {
  }

  // A call of a tool that does not answer for itself claims what the table says, unless it has to run
  // alone: a read or a write of its path, a read of what it searches, or nothing.
  lemma ClaimsByTable(call: Waves.ToolCallShape, custom: CustomValue, o: Options)
    requires !ClaimsItself(call.name, o)
    ensures ResolveToolClaimsForCall(call, custom, o) ==
            if call.arguments.NotAnObject? || HasPolicy(call.name, o, Waves.Sequential) then ExclusiveCall else TableClaims(call, o)
  {
    RolesOfNames(call.name);
    PolicyIff(call.name, o, Waves.Sequential);
    PolicyIff(call.name, o, Waves.Parallel);
  }

  // A tool that answers for itself is exclusive where it would run alone.
  lemma OwnClaims(call: Waves.ToolCallShape, custom: CustomValue, o: Options)
    requires ClaimsItself(call.name, o)
    ensures ResolveToolClaimsForCall(call, custom, o) ==
            if call.arguments.NotAnObject? || RoleOf(call.name) == RunsAlone || HasPolicy(call.name, o, Waves.Sequential) then ExclusiveCall
            else NormalizedClaims(custom, o)
  {
    PolicyIff(call.name, o, Waves.Sequential);
  }

  // ----- Which wave a call may join

  // Waves sort calls by the same table: alone, on its path, or beside anything.
  lemma WavesByTable(call: Waves.ToolCallShape, w: Waves.Options)
    ensures var kind := Waves.Classify(call, w);
            if call.arguments.NotAnObject? || (call.name in w.policies && w.policies[call.name] == Waves.Sequential) then kind.Solo?
            else
              match RoleOf(call.name)
              case ReadsPath => ScopedByPath(call, kind)
              case WritesPath => ScopedByPath(call, kind)
              case SearchesPath => kind.Safe?
              case RunsAlone => kind.Solo?
              case NeedsNothing => kind.Safe?
              case Unknown =>
                if (call.name in w.policies && w.policies[call.name] == Waves.Parallel) || call.name in w.allowUnknown then kind.Safe?
                else kind.Solo?
  {
    RolesOfNames(call.name);
  }

  // The call is scoped when it names a path, and alone otherwise.
  ghost predicate ScopedByPath(call: Waves.ToolCallShape, kind: Waves.Kind)
    requires call.arguments.Object?
  {
    if call.arguments.path.Some? && !IsBlank(call.arguments.path.value) then kind.PathScoped? else kind.Solo?
  }

  // ----- Single claims

  // A word for an access.
  ghost predicate SaysAccess(word: string, access: Access) {
    match access
    case Read => word == "read"
    case Write => word == "write"
    case Exclusive => word == "exclusive"
  }

  ghost predicate SaysKind(word: string, kind: NamedKind) {
    match kind
    case Session => word == "session"
    case Terminal => word == "terminal"
    case Network => word == "network"
    case Global => word == "global"
  }

  // The claim a candidate asks for: of a path read or written, as its key is found, or of a named
  // resource with its own key.
  lemma CandidateIff(c: Candidate, o: Options, claim: Claim)
    ensures ClaimOf(c, o) == Some(claim) <==>
            && c.Candidate? && c.key.Some? && !IsBlank(c.key.value) && SaysAccess(c.access, claim.access)
            && if claim.PathClaim? then c.kind == "path" && claim.access != Exclusive && OnPath(c.key, claim.access, o) == Claims([claim])
               else c.kind != "path" && SaysKind(c.kind, claim.kind) && claim.key == c.key.value
  {
    assert [claim][0] == claim;
  }

  // The claim an answer gives: its keys made canonical, an inode key as it is; refused unless every
  // key that is there can be used, and on a share or a drive unless the file is identified.
  lemma AnswerIff(answer: Answer, access: Access, claim: Claim)
    ensures ClaimFromAnswer(answer, access) == Some(claim) <==>
            && answer.Keys? && claim.PathClaim? && claim.access == access
            && answer.lexicalKey.Str? && CanonicalizeResolvedPathKey(answer.lexicalKey.s) == Some(claim.key)
            && (match answer.realKey
                case Absent => claim.realKey.None?
                case NotAString => false
                case Str(s) => claim.realKey.Some? && CanonicalizeResolvedPathKey(s) == claim.realKey)
            && (match answer.inodeKey
                case Absent => claim.inodeKey.None?
                case NotAString => false
                case Str(s) => s != "" && claim.inodeKey == Some(s))
            && (OnShareOrDrive(claim.key) ==> claim.realKey.Some? || claim.inodeKey.Some?)
  {
    DriveKey(CanonicalKey(answer));
  }

  function CanonicalKey(answer: Answer): string {
    if answer.Keys? && answer.lexicalKey.Str? then
      var key := CanonicalizeResolvedPathKey(answer.lexicalKey.s);
      if key.Some? then key.value else ""
    else ""
  }

  lemma DriveKey(key: string)
    ensures NeedsIdentity(key) <==> OnShareOrDrive(key)
  {
    if NeedsIdentity(key) && !StartsWith(key, "//") {
      assert key == key[..2] + "/" + key[3..] && IsDrive(key[..2]);
    }
  }

  ghost predicate OnShareOrDrive(key: string) {
    StartsWith(key, "//") || (exists drive, rest :: IsDrive(drive) && key == drive + "/" + rest)
  }

  ghost predicate IsDrive(drive: string) {
    |drive| == 2 && 'a' <= drive[0] <= 'z' && drive[1] == ':'
  }

  // ----- Canonical keys of answers

  function Slashes(k: nat): (r: string)
    ensures |r| == k && forall i | 0 <= i < k :: r[i] == '/'
  {
    seq(k, i => '/')
  }

  lemma {:induction false} DropAll(k: nat, rest: string)
    requires rest == "" || rest[0] != '/'
    ensures DropSlashes(Slashes(k) + rest) == rest
  {
    if k > 0 {
      assert (Slashes(k) + rest)[0] == '/' && (Slashes(k) + rest)[1..] == Slashes(k - 1) + rest;
      DropAll(k - 1, rest);
    } else {
      assert Slashes(0) + rest == rest;
    }
  }

  // Three leading slashes or more are one; two name a share.
  lemma LeadingSlashes(k: nat, rest: string)
    requires '\\' !in rest && (rest == "" || rest[0] != '/')
    ensures NormalizeLeadingSlashes(Slashes(k) + rest) == if k >= 3 then "/" + rest else Slashes(k) + rest
  {
    var raw := Slashes(k) + rest;
    NormalizeId(raw);
    DropAll(k, rest);
    if k >= 3 {
      assert raw[..3] == "///";
    } else {
      assert |raw| > k ==> raw[k] == rest[0];
    }
  }

  // The place with its drive in lower case.
  function LowerDrive(p: Place): Place {
    if p.OnDrive? then OnDrive(Lower(p.drive), p.names) else p
  }

  lemma LowerDriveForm(c: string, drive: string, names: seq<string>)
    requires DriveForm(c, drive, names)
    ensures IsDriveSlash(c) && DriveForm(Lower(c[..2]) + c[2..], Lower(drive), names)
    ensures !StartsWith(Lower(c[..2]) + c[2..], "/")
  {
    var rest, lower := Join(names, '/'), Lower(drive);
    DriveFormFixed(c, drive, names);
    DriveTail(c, drive, rest);
    LowerLetter(drive[0]);
    DriveText(lower, rest);
    LowerForm(lower + "/" + rest, lower, names);
  }

  lemma LowerForm(c: string, drive: string, names: seq<string>)
    requires |drive| == 2 && IsLetter(drive[0]) && drive[1] == ':' && CleanNames(names) && c == drive + "/" + Join(names, '/')
    requires forall ch | ch in Join(names, '/') :: !IsLineTerminator(ch)
    ensures DriveForm(c, drive, names)
  {
  }

  lemma DriveTail(c: string, drive: string, rest: string)
    requires |drive| == 2 && c == drive + "/" + rest
    ensures c[..2] == drive && c[2..] == "/" + rest
  {
  }

  lemma LowerLetter(c: char)
    requires IsLetter(c)
    ensures IsLetter(LowerChar(c)) && LowerChar(c) != '/'
  {
  }

  lemma DriveText(drive: string, rest: string)
    requires |drive| == 2 && drive[0] != '/'
    ensures drive + ("/" + rest) == drive + "/" + rest && !StartsWith(drive + ("/" + rest), "/")
  {
    assert (drive + ("/" + rest))[..1] == [drive[0]];
  }

  // Off a share, an answer's key is the place it names, on a lower-case drive or under the root; other
  // places give none.
  lemma AnswerKeyPlace(raw: string, p: Place)
    requires !IsBlank(raw) && !StartsWith(NormalizeLeadingSlashes(raw), "//") && IsPlace(NormalizeLeadingSlashes(raw), p)
    ensures CanonicalizeResolvedPathKey(raw).Some? <==> p.Rooted? || p.OnDrive?
    ensures CanonicalizeResolvedPathKey(raw).Some? ==> IsPlace(CanonicalizeResolvedPathKey(raw).value, LowerDrive(p))
  {
    var n := NormalizeLeadingSlashes(raw);
    match p
    case OnDrive(drive, names) =>
      var c := CanonicalizeLexicalPath(n).value;
      LowerDriveForm(c, drive, names);
      DriveFormFixed(Lower(c[..2]) + c[2..], Lower(drive), names);
    case Rooted(names) =>
      RootedFormFixed(CanonicalizeLexicalPath(n).value, names);
      NotOnShare(CanonicalizeLexicalPath(n).value, names);
    case Rootless(names) => RootlessParts(CanonicalizeLexicalPath(n).value, names);
    case _ =>
  }

  lemma NotOnShare(c: string, names: seq<string>)
    requires RootedForm(c, names)
    ensures !StartsWith(c, "//") && !IsDriveSlash(c)
  {
    JoinChars(names);
    if names != [] {
      assert CleanName(names[0]) && names[0][0] in names[0];
      assert c[1] == Join(names, '/')[0];
    }
  }

  lemma {:induction false} UntilSlashStops(name: string, rest: string)
    requires '/' !in name
    ensures UntilSlash(name + "/" + rest) == name
  {
    if name != "" {
      assert (name + "/" + rest)[1..] == name[1..] + "/" + rest;
      UntilSlashStops(name[1..], rest);
    } else {
      assert (name + "/" + rest)[0] == '/';
    }
  }

  // A name of a server or a share.
  ghost predicate HostName(name: string) {
    name != "" && '/' !in name && '\\' !in name
  }

  // On a share, the key is the path spelled out with server and share in lower case.
  lemma ShareKeyText(server: string, share: string, names: seq<string>)
    requires HostName(server) && HostName(share) && CleanNames(names) && names != []
    requires !HasDrivePrefix(Join(names, '/')) && forall c | c in Join(names, '/') :: !IsLineTerminator(c)
    ensures CanonicalizeResolvedPathKey("//" + server + "/" + share + "/" + Join(names, '/'))
         == Some("//" + Lower(server) + "/" + Lower(share) + "/" + Join(names, '/'))
  {
    var path := Join(names, '/');
    var rest := server + "/" + (share + "/" + path);
    assert "//" + server + "/" + share + "/" + path == "//" + rest;
    NormalizeClean(names);
    ShareRaw("//" + rest, rest, server);
    UncText(server, share, names, path);
  }

  lemma UncText(server: string, share: string, names: seq<string>, path: string)
    requires HostName(server) && HostName(share) && CleanNames(names) && names != [] && path == Join(names, '/')
    requires !HasDrivePrefix(path) && forall c | c in path :: !IsLineTerminator(c)
    ensures CanonicalUnc(server + "/" + (share + "/" + path)) == Some("//" + Lower(server) + "/" + Lower(share) + "/" + path)
  {
    var afterServer := share + "/" + path;
    var rest := server + "/" + afterServer;
    JoinChars(names);
    assert CleanName(names[0]) && names[0][0] in names[0];
    UntilSlashStops(server, afterServer);
    UntilSlashStops(share, path);
    assert rest[|server|..] == "/" + afterServer && afterServer[|share|..] == "/" + path;
    DropOneSlash(afterServer);
    DropOneSlash(path);
    RootlessFormFixed(path, names);
  }

  lemma DropOneSlash(s: string)
    requires s != "" && s[0] != '/'
    ensures DropSlashes("/" + s) == s
  {
    assert ("/" + s)[1..] == s;
  }

  lemma ShareRaw(raw: string, rest: string, server: string)
    requires raw == "//" + rest && '\\' !in rest && HostName(server) && server <= rest
    ensures NormalizeLeadingSlashes(raw) == raw && raw[2..] == rest && StartsWith(raw, "//") && !IsBlank(raw)
  {
    NormalizeId(raw);
    assert raw[2] == server[0] && server[0] in server;
    assert raw[0] in raw && raw[0] == '/';
  }

  // ----- Keys without a platform resolver

  // A canonical path on a drive is its own key from anywhere.
  lemma DriveKeyItself(path: string, drive: string, names: seq<string>, cwd: string)
    requires DriveForm(path, drive, names) && CanonicalizeLexicalPath(cwd).Some? && IsAnchored(CanonicalizeLexicalPath(cwd).value)
    ensures ResolveCanonicalPathKey(path, cwd) == Some(path)
  {
    DriveFormFixed(path, drive, names);
    NormalizeClean(names);
    NormalizeId(path);
    assert path[0] == drive[0] && drive[0] != '/' && path[0] in path && !IsSpace(path[0]);
    NotSlash(path);
  }

  lemma NotSlash(path: string)
    requires path != "" && path[0] != '/'
    ensures !StartsWith(path, "/") && !StartsWith(path, "//") && !StartsWith(path, "///")
  {
  }

  // A canonical rooted path is its own key from under the root, and lies on the drive from a drive.
  lemma RootedKeyItself(path: string, names: seq<string>, cwd: string)
    requires RootedForm(path, names) && CanonicalizeLexicalPath(cwd).Some?
    requires exists there :: RootedForm(CanonicalizeLexicalPath(cwd).value, there)
    ensures ResolveCanonicalPathKey(path, cwd) == Some(path)
  {
    var there :| RootedForm(CanonicalizeLexicalPath(cwd).value, there);
    RootedFormFixed(CanonicalizeLexicalPath(cwd).value, there);
    RootedFormFixed(path, names);
    NotOnShare(path, names);
    NormalizeClean(names);
    NormalizeId(path);
    assert path[0] == '/' && path[0] in path && !IsSpace('/');
    TwoSlashes(path);
  }

  lemma TwoSlashes(path: string)
    ensures StartsWith(path, "///") ==> StartsWith(path, "//")
  {
    assert |path| >= 3 ==> path[..3][..2] == path[..2];
  }
}
