# Verified model of the agent runtime

This project models the parts of the repository that decide what runs, in which order, and what is
recorded about it, and proves properties of that model in Dafny. Check everything with
`dafny verify dfyconfig.toml`.

| Part of the system | Modules |
|---|---|
| dag-v2 tool scheduler: claims, levels, dependency graph, width cap, plan key, memo | Paths, Claims, Resolver, DagScheduler, DagProperties, Traces, Places, ToolTable, PlanKey, PlanRequest, Numerals, ScheduleMemo, MemoSchedule |
| waves-v1 tool scheduler, and its waves against the claims | Waves, WaveClaims |
| transcript inspection and repair | Transcript, Ordering, Inspector, Repair |
| tool-batch executors and the agent loop | Executor, DagExecutor, AgentLoop |
| one tool call: timeout race, finalization, envelope | ToolTimeout |
| chunked Kimi Delta Attention | Kda |
| JSONC stripper | Jsonc |
| proxy stream decoder | Proxy |
| Work Packet state machine and adjudication | Packet |
| three-valued claim evaluation | Evaluation, Facts, Stability |
| escaped prompt envelopes | Envelope |
| shared: options, sequences, splitting and trimming text | Wrappers, Sequences, Text |

Code that updates state step by step is a method or a class here (the level records, the inspector's
counters, the JSONC byte buffer, the memo, the timeout race, the partial message of the proxy, the
executors), proved against a specification function; the lemmas are about those functions.

Main results, hardest first:

- **Plans are serializable.** Running the capped levels in order, with the steps of a level's calls
  interleaved in any way, reaches the state of source order whenever steps of non-conflicting calls
  commute (`DagProperties.PlanSerializable`). For resolved claims each level is the length of the
  longest conflict path, so no assignment that respects the order is better at any call
  (`LevelIsLongestPath`, `LevelMinimal`), and every batch the resolver can produce qualifies
  (`Resolver.ResolvedBatchesAreExact`).
- **The chunk-parallel attention form is the recurrence** for every length, chunk size and start
  state (`Kda.KdaChunk`), and for given decays on all inputs exactly when no decay is below `eps` and
  `eps` is at most 1 or the chunk size divides the length (`Kda.FormsAgreeIff`).
- **Conflicts are about places.** Two claims conflict exactly when one writes and they share an inode
  key or have keys or real keys on one path, so a symbolic or hard link and its target are never on
  one level (`Places.ClaimsConflictIff`, `Places.LinksAreOrdered`), and what a call claims is read off
  a table of the tools (`ToolTable.ClaimsByTable`).
- **What starts together is independent.** Every executor appends to a log what it starts. On the
  dag-v2 path the log of a batch holds exactly the calls that start, each once, in groups without
  conflicts under the final claims, with conflicts in source order
  (`DagExecutor.ExecuteToolCallsDagLevels`); on the waves-v1 paths no group clashes under the emitted
  arguments (`AgentLoop.WaveGroupsClear`), and when such calls conflict under their claims is
  characterised (`WaveClaims.WaveMatesConflictIff`).
- **The agent loop keeps every turn end inside the transcript language** on every order of settling,
  blocking, termination, unsettled timeout and abort, goes on after a turn exactly when nothing stops
  it there and something asks for more (`AgentLoop.RunLoop`, `AgentLoop.ChainGrows`), and never
  beside a call still running or after an abort it has read (`AgentLoop.PassedIsSettled`); each
  executor leaves one result per call in source order, with the call's own text and disposition or
  closed for a stated reason, and says exactly why it stopped.
- **Inspection and repair decide the language**: `ok` is membership, and repair succeeds exactly on
  the transcripts that results alone can complete (`Transcript.InspectorExact`,
  `Repair.RepairTranscriptIntegrity`).
- **The memo key says exactly what a request asks apart from the ids of its calls**
  (`PlanRequest.KeyExact`), it determines the plan exactly when no extension looks at the ids
  (`PlanRequest.KeyDeterminesPlanIff`), and the memo serves such plans, least recently used first out
  (`ScheduleMemo.DagScheduleCache.Schedule`).
- **The greedy wave partition is minimal** (`Waves.GreedyIsMinimal`), **plan keys are exact**
  (`PlanKey.PlanKeyExact`), **the JSONC pass is the lexer** (`Jsonc.PassIsLexer`), **chunking a proxy
  stream does not matter** (`Proxy.StreamProxy`), **the recorded evidence of a claim reproduces its
  result** (`Evaluation.EvidenceSuffices`), and **the packet bound is tight**
  (`Packet.TransitionBound`, `Packet.BoundAttained`).

Where a tempting statement fails, the code is modelled as it is, a lemma gives an input, and the
exact condition is proved:

- canonicalization is not idempotent on some rootless inputs (`Paths.RootlessDriveExample`,
  `Paths.CanonicalIdempotent`);
- the level check and the pairwise check differ on an exclusive claim beside a call without claims
  (`DagProperties.NotNormalExample`, `DagProperties.LevelCheckExact`);
- claim order matters when an identity is the empty string (`Claims.EmptyIdentityExample`,
  `Claims.ReorderingInvariantIff`);
- wave-mates can conflict under their claims (`WaveClaims.SearchBesideWriteExample`,
  `WaveClaims.WaveMatesConflictIff`), and hooks can make them clash (`WaveClaims.HooksKeepClear`);
- the memo can serve the plan of another batch (`PlanRequest.StalePlanExample`,
  `PlanRequest.KeyDeterminesPlanIff`), although the source takes plans to be functions of the key;
- the chunk form departs from the recurrence where a decay is clamped or the padding decays
  (`Kda.ProbeTellsClamped`, `Kda.ProbeTellsPadding`, `Kda.FormsAgreeIff`);
- stripping JSONC is not idempotent (`Jsonc.CascadeExample`, `Jsonc.StripTwice`);
- a new observation can undo the satisfaction of a negated condition (`Evaluation.NegationNotMonotone`);
  for conditions whose leaves are about different kinds, which observation never does is exact
  (`Stability.NeverUndoesIff`), and for all others one direction holds (`Evaluation.SatisfactionKept`).

## Model

| member | source | states |
|---|---|---|
| Paths.CollapsePathSegments | packages/agent/src/path-segments.ts:30-42 | the pop-and-push loop walks the directory tree from the root, null above it |
| Paths.CollapseDriveSegments | packages/agent/src/path-segments.ts:57-66 | the drive loop is the same walk with climbing above the root ignored |
| Paths.CanonicalForms | packages/agent/src/path-segments.ts:51-79 | a canonical path is a drive, rooted or rootless list of clean names: no empty, `.` or `..` segment |
| Paths.CanonicalIdempotent | packages/agent/src/path-segments.ts:51-79 | canonicalizing again changes nothing if and only if the input does not read as a refused drive path: rootless, without a drive prefix, its first surviving segment beginning like a drive and not just the drive of further names on one line |
| Paths.FixedUnlessDriveText | packages/agent/src/path-segments.ts:51-79 | the same in terms of the result: it begins like a drive but is no drive path |
| Paths.WalkKeepsSurvivors | packages/agent/src/path-segments.ts:30-42 | the names a walk keeps are exactly the segments no later `..` takes back, by depth |
| Paths.CanonicalIdempotentRooted | packages/agent/src/path-segments.ts:51-79 | rooted and drive-absolute inputs are always idempotent |
| Paths.RootlessDriveExample | packages/agent/src/path-segments.ts:51-79 | `./C:x` canonicalizes to `C:x`, which is refused |
| Paths.WalkRefused | packages/agent/src/path-segments.ts:30-42 | a walk is refused exactly when some prefix pops more than it holds |
| Paths.RootedRefused | packages/agent/src/path-segments.ts:51-79 | a rooted POSIX path is null exactly when some prefix climbs above the root |
| Paths.OverlapReflexive | packages/agent/src/path-segments.ts:107-129 | every path overlaps itself |
| Paths.OverlapSymmetric | packages/agent/src/path-segments.ts:107-129 | overlap is symmetric |
| Paths.RootedOverlap | packages/agent/src/path-segments.ts:107-129 | rooted POSIX paths overlap exactly when one is a case-folded prefix of the other |
| Claims.ClaimsConflictSymmetric | packages/agent/src/tool-resource-claims.ts:146-155 | claim conflict is symmetric |
| Claims.ResolutionsConflictSymmetric | packages/agent/src/tool-resource-claims.ts:157-165 | call conflict is symmetric |
| Claims.SamePathConflicts | packages/agent/src/builtin-tool-resource-claims.ts:203-238 | two claims on one path conflict as soon as one writes |
| Places.KeysOverlapIff | packages/agent/src/builtin-tool-resource-claims.ts:207-228 | two keys overlap exactly when the places they name are near: on one share, drive or root one list of names is, up to ASCII case, a prefix of the other; a share is apart from all else, drives from each other, and a place not known in full may be anywhere else |
| Places.ClaimsConflictIff | packages/agent/src/builtin-tool-resource-claims.ts:203-238 | two claims conflict exactly when one is exclusive, or one writes and they are of one named resource, or paths with one inode key or with a key or real key each that are near |
| Places.LinksAreOrdered | packages/agent/src/tool-dag-scheduler.ts:142-171 | calls whose claims share an inode key or a real key, one of them writing, are on different levels in source order |
| Claims.CompareClaimsOrder | packages/agent/src/tool-resource-claims.ts:116-127 | the comparison is a total preorder |
| PlanKey.ClaimsInWordOrder | packages/agent/src/tool-resource-claims.ts:116-127 | claims compare by the words of kind, key, access, real key and inode key, the first that differ deciding |
| Claims.CanonicalSorted | packages/agent/src/tool-resource-claims.ts:129-144 | the canonical form is a sorted permutation of the claims |
| Claims.ReorderingInvariantIff | packages/agent/src/tool-resource-claims.ts:116-144 | the canonical form ignores the claims' order exactly when claims that compare equal are equal |
| Claims.NormalFormReorders | packages/agent/src/tool-resource-claims.ts:116-144 | claims without empty identities always qualify |
| Claims.EmptyIdentityExample | packages/agent/src/tool-resource-claims.ts:116-127 | an absent and an empty identity compare equal, so order can matter |
| Claims.ConflictIgnoresOrder | packages/agent/src/tool-resource-claims.ts:157-165 | permuting a call's claims changes no conflict |
| Resolver.ClaimFromAnswer | packages/agent/src/builtin-tool-resource-claims.ts:118-170 | an accepted platform identity is never empty, and UNC or drive keys always carry one |
| Resolver.KeyIsFixed | packages/agent/src/builtin-tool-resource-claims.ts:54-83 | a path key is canonical and anchored and resolves to itself from the same directory |
| Resolver.SpellingsConflict | packages/agent/src/builtin-tool-resource-claims.ts:141-170 | a spelling of a path conflicts with its canonical name when one of the calls writes |
| Resolver.NormalizedClaims | packages/agent/src/tool-resource-claims.ts:48-74 | custom claims are in normal form, and the call is exclusive exactly when a candidate is malformed, unresolvable or exclusive, or there is none |
| Resolver.NormalizeCustomClaims | packages/agent/src/tool-resource-claims.ts:48-74 | the accumulating loop with its early returns computes that resolution, claims in order |
| Resolver.FindRegistered | packages/agent/src/builtin-tool-resource-claims.ts:23-28 | the found tool is registered under the name, and none is missed |
| Resolver.ResolveToolClaims | packages/agent/src/builtin-tool-resource-claims.ts:184-201 | exactly the tools and arguments admitted get claims: a path tool the one claim on its key with the access of its name, any other none; the result is in normal form |
| Resolver.ResolveToolClaimsForCall | packages/agent/src/tool-resource-claims.ts:77-114 | every resolution is in normal form, and a forced-alone or malformed call is exclusive whatever its own resolver answers |
| Resolver.AdmittedClaims | packages/agent/src/tool-resource-claims.ts:77-114 | an admitted call gets one claim per candidate of its extension in order, or the claim of the platform answer for its path, or the built-in claims |
| Resolver.ExclusiveIff | packages/agent/src/tool-resource-claims.ts:77-114 | a call is exclusive exactly when its arguments, policy, extension or platform answer do not admit it |
| ToolTable.PolicyIff | packages/agent/src/builtin-tool-resource-claims.ts:23-48 | the first tool registered under a name gives its policy and whether it answers for its claims, and where it gives no policy the table does |
| ToolTable.ClaimsByTable | packages/agent/src/builtin-tool-resource-claims.ts:18-201 | a call of a tool that does not answer for itself gets what a table of the tool names says: a read or a write of its path, a read of what it searches, nothing, or an exclusive call |
| ToolTable.OwnClaims | packages/agent/src/tool-resource-claims.ts:77-114 | a tool that answers for itself gets its answer unless its name, policy or arguments force the call alone |
| ToolTable.CandidateIff | packages/agent/src/tool-resource-claims.ts:44-74 | the claim a candidate asks for, by the words of its kind and access and its key |
| ToolTable.AnswerIff | packages/agent/src/builtin-tool-resource-claims.ts:118-170 | a platform answer is accepted exactly when every key that is there can be used and a share or drive is identified, and the claim has its canonical lexical and real key and its inode key |
| ToolTable.AnswerKeyPlace | packages/agent/src/builtin-tool-resource-claims.ts:99-116 | off a share the canonical key of an answer is the place it names, its drive in lower case, and none exactly for places neither rooted nor on a drive |
| ToolTable.ShareKeyText | packages/agent/src/builtin-tool-resource-claims.ts:99-108 | on a share the key is the path spelled out with server and share in lower case |
| ToolTable.LeadingSlashes | packages/agent/src/builtin-tool-resource-claims.ts:54-57 | three leading slashes or more count as one, fewer are kept |
| ToolTable.DriveKeyItself | packages/agent/src/builtin-tool-resource-claims.ts:59-83 | a canonical path on a drive is its own key from any directory |
| ToolTable.RootedKeyItself | packages/agent/src/builtin-tool-resource-claims.ts:59-83 | a canonical rooted path is its own key from any rooted directory |
| Resolver.ResolvedBatchesAreExact | packages/agent/src/tool-resource-claims.ts:48-114 | every resolved batch meets the conditions of the exactness and minimality results |
| DagScheduler.ResolveBatchClaims | packages/agent/src/tool-dag-scheduler.ts:72-83 | one entry per call in source order with its canonical claims |
| DagScheduler.RejectsExactly | packages/agent/src/tool-dag-scheduler.ts:95-134 | the split read/write scan of a level rejects a call exactly when some member conflicts with it |
| DagScheduler.TargetLevel | packages/agent/src/tool-dag-scheduler.ts:142-160 | the inner loop finds the level one past the latest conflict |
| DagScheduler.DagLevel.Place | packages/agent/src/tool-dag-scheduler.ts:160-170 | a placed call adds its index, its claims by access and its exclusiveness to its level's records |
| DagScheduler.PlaceCall | packages/agent/src/tool-dag-scheduler.ts:155-170 | placing a call leaves every other level's records as they were |
| DagScheduler.AssignDagLevels | packages/agent/src/tool-dag-scheduler.ts:142-171 | every level holds exactly the calls whose level is one past their latest earlier conflict, ascending |
| DagScheduler.MembersExactly | packages/agent/src/tool-dag-scheduler.ts:142-171 | a level's list is the ascending list of exactly its calls |
| DagScheduler.LevelCountBound | packages/agent/src/tool-dag-scheduler.ts:142-171 | the number of levels is one more than the deepest level |
| DagProperties.LevelCheckExact | packages/agent/src/tool-dag-scheduler.ts:111-134 | the level check equals the pairwise check except for an exclusive claim list beside an empty one |
| DagProperties.NormalLevelCheck | packages/agent/src/tool-dag-scheduler.ts:111-134 | in normal form the two checks agree |
| DagProperties.LevelsRespectConflicts | packages/agent/src/tool-dag-scheduler.ts:142-171 | a later conflicting call is on a later level |
| DagProperties.LevelMatesIndependent | packages/agent/src/tool-dag-scheduler.ts:142-171 | calls of one level never conflict, for any claims |
| DagProperties.AssignDagDependencies | packages/agent/src/tool-dag-scheduler.ts:192-204 | a call depends on exactly the earlier calls it conflicts with, ascending |
| DagProperties.GraphNoDeeper | packages/agent/src/tool-dag-scheduler.ts:142-204 | no path of the graph is longer than its last call's level allows |
| DagProperties.LevelIsLongestPath | packages/agent/src/tool-dag-scheduler.ts:142-204 | in normal form a level is the length of a longest dependency path ending at the call |
| DagProperties.NotNormalExample | packages/agent/src/tool-dag-scheduler.ts:111-134 | without normal form a level can be deeper than the graph |
| DagProperties.LevelMinimal | packages/agent/src/tool-dag-scheduler.ts:142-171 | no order-respecting assignment puts any call earlier |
| DagProperties.LevelCountMinimal | packages/agent/src/tool-dag-scheduler.ts:142-171 | no order-respecting assignment uses fewer levels |
| DagProperties.LevelsAttainMinimum | packages/agent/src/tool-dag-scheduler.ts:142-171 | the levels respect the order themselves, so both bounds are attained |
| DagProperties.LevelsIgnoreClaimOrder | packages/agent/src/tool-dag-scheduler.ts:142-171 | permuting claims inside calls changes no level |
| DagProperties.ApplyConcurrencyCap | packages/agent/src/tool-dag-scheduler.ts:210-226 | levels are cut into contiguous slices of the integer width, or left whole for an unusable cap |
| DagProperties.CapFacts | packages/agent/src/tool-dag-scheduler.ts:210-226 | the cap keeps every call in its order, bounds the width and makes no empty level |
| DagProperties.CapOrigins | packages/agent/src/tool-dag-scheduler.ts:210-226 | every slice comes from one level, and slices come in level order |
| DagProperties.CapWidth | packages/agent/src/tool-dag-scheduler.ts:210-226 | without a positive finite cap nothing is cut; with one a slice holds one call or no more calls than the cap, and one that another slice of its level follows has no room for one more |
| DagProperties.ConflictOrderSerializable | packages/agent/src/tool-dag-scheduler.ts:111-171 | any run that finishes a call before a later conflicting one starts ends as source order does |
| DagProperties.PlanSerializable | packages/agent/src/tool-dag-scheduler.ts:111-226 | running the capped levels in order with any interleaving inside a level ends as source order does |
| DagProperties.DependencyRunSerializable | packages/agent/src/tool-dag-scheduler.ts:173-204 | so does any run that follows the dependency graph |
| Traces.SameResult | packages/agent/src/tool-dag-scheduler.ts:1-24 | two traces of the same events that order dependent ones alike end in the same state |
| PlanKey.QuoteRoundTrip | packages/agent/src/tool-resource-claims.ts:129-144 | a JSON-quoted string (section 7 of RFC 8259) is read back exactly, whatever follows |
| PlanKey.ComputePlanKey | packages/agent/src/tool-dag-scheduler.ts:235-245 | the key is the encoding of the canonical claim sequence |
| PlanKey.SequenceInjective | packages/agent/src/tool-dag-scheduler.ts:235-245 | the encoding is injective |
| PlanKey.PlanKeyExact | packages/agent/src/tool-dag-scheduler.ts:228-245 | plan keys are equal exactly when the canonical claim sequences are |
| PlanKey.PlanIgnoresClaimOrder | packages/agent/src/tool-dag-scheduler.ts:142-245 | permuting normal-form claims inside calls changes neither key nor levels |
| PlanKey.ScheduleDagLevels | packages/agent/src/tool-dag-scheduler.ts:253-261 | a schedule is the capped levels with a key that no other claim sequence has |
| PlanKey.CanonicalDecidesLevels | packages/agent/src/tool-dag-scheduler.ts:142-171 | batches with the same canonical claims have the same levels |
| PlanRequest.StringifyInjective | packages/agent/src/agent-loop.ts:909-916 | different JSON values have different texts |
| PlanRequest.KeyExact | packages/agent/src/agent-loop.ts:900-917 | two requests share a memo key exactly when calls agree in name and arguments, and directory, strictness, policies, registered tools and cap agree; call ids are not looked at, and an absent cap and one that is no finite number are the same |
| PlanRequest.PlansEqualIff | packages/agent/src/tool-dag-scheduler.ts:253-261 | given the cap, requests have equal plans exactly when their calls resolve to equal canonical claims |
| PlanRequest.KeyDeterminesPlan | packages/agent/src/agent-loop.ts:888-917 | requests with one key have one plan when no extension claims something else for another call id |
| PlanRequest.KeyDeterminesPlanIff | packages/agent/src/agent-loop.ts:888-917 | with given options, the key determines the plan of every batch exactly when no extension that is asked claims something else for another call id |
| PlanRequest.ShapeReads | packages/agent/src/builtin-tool-resource-claims.ts:85-89 | scheduling looks at the name of a call and the text of the first field named `path` |
| PlanRequest.ResolvedUnder | packages/agent/src/agent-loop.ts:980-993 | calls are resolved under the request's own directory, tools, strictness, platform resolver and policies |
| Numerals.NumberIsRead | packages/agent/src/agent-loop.ts:900-917 | a printed cap is read as the number it spells: sign, digits, fraction and power of ten |
| PlanRequest.StalePlanExample | packages/agent/src/agent-loop.ts:900-943 | with an extension that reads the ids, two calls that need a level each share the key of a pair that runs side by side |
| ScheduleMemo.CopyLevels | packages/agent/src/agent-loop.ts:919-955 | a copy has the same levels in fresh arrays |
| ScheduleMemo.HitKeepsLast | packages/agent/src/agent-loop.ts:935-943 | moving a used key to the end keeps the last keys by use |
| ScheduleMemo.MissKeepsLast | packages/agent/src/agent-loop.ts:944-955 | adding a key drops the least recently used one of a full cache |
| ScheduleMemo.HitKeeps | packages/agent/src/agent-loop.ts:935-943 | after a hit the entries are again the plans used last, each with its value |
| ScheduleMemo.MissKeeps | packages/agent/src/agent-loop.ts:944-955 | so they are after a miss, with the oldest entry dropped from a full cache |
| ScheduleMemo.SourcePlan | packages/agent/src/agent-loop.ts:926-943 | the plan held under a key is that of the request it was computed for, and equals the own plan of every request with the key when no extension looks at the ids |
| ScheduleMemo.DagScheduleCache.Hit | packages/agent/src/agent-loop.ts:937-943 | a hit returns a copy of the held plan and makes its entry the most recent |
| ScheduleMemo.DagScheduleCache.Miss | packages/agent/src/agent-loop.ts:944-955 | a miss keeps a copy of the new plan, evicting the oldest entry when full |
| ScheduleMemo.DagScheduleCache.Schedule | packages/agent/src/agent-loop.ts:926-955 | a request gets the plan of the earlier request held under its key, else its own, and always its own when no extension looks at the ids; in arrays the cache does not hold, with the last keys by use kept, and nothing exactly when aborted without a held plan |
| ScheduleMemo.AtMostLimit | packages/agent/src/agent-loop.ts:891-892 | the memo never holds more than 64 plans |
| MemoSchedule.ScheduleThroughMemo | packages/agent/src/agent-loop.ts:926-993 | the scheduling step through the memo answers as a fresh schedule of the batch's own claims when no extension looks at the call ids, whatever the memo holds |
| Waves.JoinAllowed | packages/agent/src/parallel-tool-batch.ts:128-168 | the overlap scan admits a call exactly when it clashes with no call of the wave |
| Waves.PartitionToolBatchWaves | packages/agent/src/parallel-tool-batch.ts:128-168 | contiguous non-empty waves covering 0..n-1, solo calls alone, no overlapping paths, each wave as long as it can be |
| Waves.GreedyStaysAhead | packages/agent/src/parallel-tool-batch.ts:128-168 | after any number of waves no allowed partition has covered more calls |
| Waves.GreedyIsMinimal | packages/agent/src/parallel-tool-batch.ts:128-168 | no contiguous allowed partition has fewer waves |
| Waves.CappedWaves | packages/agent/src/agent-loop.ts:812-827 | capping waves keeps them an allowed partition |
| ToolTable.WavesByTable | packages/agent/src/parallel-tool-batch.ts:82-117 | waves sort calls by the same table: alone, on their path, or beside anything |
| WaveClaims.ScopeIsWide | packages/agent/src/builtin-tool-resource-claims.ts:54-83 | a scope path the waves look at is at least as wide as the key the claims hold, unless it is spelled with a tilde or behind a relative directory |
| WaveClaims.TildeIsHome | packages/agent/src/parallel-tool-batch.ts:58-79 | a path that begins with a tilde clashes with the same calls as the rest of it under the home directory |
| WaveClaims.PathCallsConflict | packages/agent/src/tool-resource-claims.ts:157-165 | two built-in path calls conflict exactly when their keys overlap and one writes |
| WaveClaims.WaveMatesConflictIff | packages/agent/src/parallel-tool-batch.ts:98-163 | two calls waves would run together conflict under their claims exactly when one fails closed, a search meets the path of a write or edit, or two path calls one of which writes meet only as the claims spell them |
| WaveClaims.OfOneWave | packages/agent/src/parallel-tool-batch.ts:128-168 | the same for any two calls of a wave |
| WaveClaims.SearchBesideWriteExample | packages/agent/src/parallel-tool-batch.ts:98-163 | `grep /a` and `write /a` share a wave and conflict under their claims |
| WaveClaims.HooksKeepClear | packages/agent/src/agent-loop.ts:851-886 | hooks leave every batch free of clashes inside its waves exactly when they map every pair that does not clash to such a pair |
| Transcript.BlocksAreComplete | packages/agent/src/tool-transcript-integrity.ts:77-171 | the block grammar and the message-by-message automaton describe the same transcripts |
| Transcript.CountIssuesKinds | packages/agent/src/tool-transcript-integrity.ts:77-131 | the counting pass is silent but for missing results exactly when ids are distinct and every result has a call |
| Ordering.CountedNames | packages/agent/src/tool-transcript-integrity.ts:77-131 | issues about calls carry the name under their id, issues about results none |
| Ordering.NameIsFirst | packages/agent/src/tool-transcript-integrity.ts:84-93 | the name under an id is that of the first call with it |
| Transcript.ScanIsPrefix | packages/agent/src/tool-transcript-integrity.ts:133-168 | the ordering pass, with its early breaks, is silent exactly on prefixes of complete transcripts |
| Ordering.PendingIsOpen | packages/agent/src/tool-transcript-integrity.ts:133-168 | while the ordering pass is silent, what it keeps pending is the unanswered calls of the last message that emits any |
| Ordering.ScanNamesOpen | packages/agent/src/tool-transcript-integrity.ts:133-168 | when it speaks it stops at the first message out of order: a result of a known call that is not open, which alone it names, or another message while calls are open, all of which it names in call order |
| Transcript.OnlyMissingIff | packages/agent/src/tool-transcript-integrity.ts:77-171 | only missing results are reported exactly for distinct-id prefixes of the language |
| Transcript.InspectorExact | packages/agent/src/tool-transcript-integrity.ts:77-171 | no issue is reported exactly for transcripts of plain messages and answered blocks with distinct call ids |
| Inspector.InspectTranscriptIntegrity | packages/agent/src/tool-transcript-integrity.ts:77-171 | the counting maps, reporting loops and scan produce exactly those issues, and ok is membership |
| Inspector.Account | packages/agent/src/tool-transcript-integrity.ts:77-101 | the maps count every call and result id and hold each call's name |
| Inspector.ScanOrder | packages/agent/src/tool-transcript-integrity.ts:133-168 | the pending map and results flag report the first ordering violations |
| Repair.RepairableIff | packages/agent/src/tool-transcript-integrity.ts:210-231 | results alone can complete a transcript exactly when only missing results are reported |
| Repair.CompleteTail | packages/agent/src/tool-transcript-integrity.ts:232-274 | completion finds the last assistant message and appends a result for each of its unanswered calls; its later refusals cannot fire |
| Repair.CompletedIsValid | packages/agent/src/tool-transcript-integrity.ts:232-274 | the completed transcript is valid |
| Repair.RepairTranscriptIntegrity | packages/agent/src/tool-transcript-integrity.ts:210-274 | repair succeeds exactly on completable transcripts, returns a valid one, and refuses naming another issue |
| Repair.RepairAppendsInCallOrder | packages/agent/src/tool-transcript-integrity.ts:180-274 | it appends exactly one result per unanswered call, in call order, with the call's id and name and the given reason, as aborted |
| Repair.RepairIdempotent | packages/agent/src/tool-transcript-integrity.ts:210-274 | repairing again changes nothing |
| Repair.PlanFailureTermination | packages/agent/src/agent-loop.ts:93-131 | a failure turn, empty and stopped as aborted or as an error, is added only over a closed transcript, whose closing results name the reason, and is refused exactly when results cannot close it |
| Executor.AbortSignal.Aborted | packages/agent/src/agent-loop.ts:421-450 | an abort may be seen at any reading and is never taken back |
| Executor.CloseUnresolvedToolBatch | packages/agent/src/agent-loop.ts:1567-1595 | one closing result per call id not answered yet, with the call's id and name, the given reason and disposition, committed in call order |
| Executor.UnresolvedRest | packages/agent/src/agent-loop.ts:1567-1595 | after answering a prefix of distinct calls the unresolved ones are the rest |
| Executor.ExecuteToolCallsSequential | packages/agent/src/agent-loop.ts:1225-1285 | own results in order up to the first call left running by a timeout, after which every later call is skipped for that reason; an own result has the call's id and name and the text and disposition of its planning or authorization when that fails and of its settlement otherwise; the flags are those of the calls that ran; each call that can start is logged alone |
| Executor.ExecuteToolCallsParallel | packages/agent/src/agent-loop.ts:1287-1349 | own results, field by field, in source order for every prepared call, exact stop and terminate flags, and one logged group of the calls that start |
| Executor.ExecuteToolCallsInWaves | packages/agent/src/agent-loop.ts:851-886 | own results, field by field, wave by wave, then one skip per call, with its reason, after the first wave whose calls all asked for termination or one of which is left running; the log holds exactly the calls that ran and start, each group inside one wave |
| Executor.PlanCovers | packages/agent/src/tool-dag-scheduler.ts:142-226 | the capped plan holds every position exactly once |
| Executor.PlanOrdersConflicts | packages/agent/src/tool-dag-scheduler.ts:142-226 | conflicting positions are in different slices, in source order |
| DagExecutor.SchedulePlannedDagLevels | packages/agent/src/agent-loop.ts:964-1008 | unless aborted the candidate levels are the capped plan of the planned calls' claims with the unplannable calls folded in; they schedule every call once, planned conflicts on levels in source order |
| DagExecutor.AuthorizeLevel | packages/agent/src/agent-loop.ts:1143-1185 | every call of a level is finalized at once or runnable, unless aborted |
| DagExecutor.LevelGroupsSafe | packages/agent/src/agent-loop.ts:1114-1216 | rescheduled sublevels start independent calls only, each once, conflicting ones in source order |
| DagExecutor.GroupsOrderConflicts | packages/agent/src/agent-loop.ts:1114-1140 | conflicting calls of a level run in different sublevels, in source order |
| DagExecutor.PlannedAcrossLevels | packages/agent/src/agent-loop.ts:964-1216 | calls whose planned claims conflict start in source order across levels |
| DagExecutor.RunDagLevelCalls | packages/agent/src/agent-loop.ts:1143-1216 | a level yields every call's outcome unless stopped or aborted; the log grows by exactly the calls that started, in groups without conflicts under the final claims, conflicting calls in source order, each group after a reading of the abort that found none; no group follows one with an unsettled timeout, and the level stops for that exactly when one was logged and the abort not seen |
| DagExecutor.TerminatesExactly | packages/agent/src/agent-loop.ts:1062-1065 | the outcomes of a level ask for termination exactly when some call of it has an outcome and every such outcome asks for it |
| DagExecutor.BuildMessages | packages/agent/src/agent-loop.ts:1075-1109 | one message per call in source order: its own result, field by field, or one that closes it as aborted or for the reason of the skip |
| DagExecutor.ExecuteToolCallsDagLevels | packages/agent/src/agent-loop.ts:1022-1109 | on the candidate levels one result per call in source order, its own field by field or one that closes it with its reason; the log holds exactly the calls that can start and report their own result, each once, no group with a conflict under the final claims, final conflicts of a level and planned conflicts across levels in source order; nothing starts after an unsettled timeout or an abort seen, no level runs after one whose outcomes all ask for termination, and unless the abort is seen both flags are exact and all levels before the stop ran in full |
| AgentLoop.ConsumeAssistantStream | packages/agent/src/agent-loop.ts:721-784 | with at most one start the partial is replaced by the final message, which is emitted once; each further start leaves a stale partial |
| AgentLoop.PlainTurns | packages/agent/src/agent-loop.ts:349-361 | queued user messages keep a transcript valid or invalid as it was |
| AgentLoop.TurnCloses | packages/agent/src/agent-loop.ts:405-450 | an unambiguous assistant message and one result per call keep the transcript valid |
| AgentLoop.CloseRunOnTerminalStop | packages/agent/src/agent-loop.ts:364-388 | a provider stop leaves one closing result per emitted call in all three records, aborted or skipped with its reason as the provider stopped |
| AgentLoop.ExecuteToolCalls | packages/agent/src/agent-loop.ts:789-841 | whichever executor is configured, answers are in source order, own results field by field, and complete unless aborted, what started together and why the batch stopped are as that scheduler has it, and the flags are those of the report |
| AgentLoop.WaveGroupsClear | packages/agent/src/agent-loop.ts:812-886 | on the waves-v1 paths calls logged as started together never clash under their emitted arguments |
| AgentLoop.RunToolBatchForTurn | packages/agent/src/agent-loop.ts:421-450 | every call ends with exactly one result, its own field by field or one that closes it, in source order; the run ends here exactly when the abort is seen at the last reading, and otherwise more calls and the stop of the run are what the executed batch reports |
| AgentLoop.RunTurn | packages/agent/src/agent-loop.ts:495-560 | a request is refused exactly on an invalid transcript; a turn adds the queued messages, the provider's message and one result per call, and ends valid; it ends the run exactly for a stopped provider or an abort seen, and its other flags are those of its batch |
| AgentLoop.RunLoop | packages/agent/src/agent-loop.ts:476-598 | the transcript grows turn by turn, each over exactly the messages queued for it, valid at every turn end; the run goes on after a turn exactly when the provider answered, the batch saw no abort and left no call running, neither caller nor budget ends it, and the batch or a queue asks for more; its transcript is the last turn end unless a request or turn was refused; all three records grow alike, within maxTurns |
| AgentLoop.PassedIsSettled | packages/agent/src/agent-loop.ts:421-450 | after a turn with calls that the run passes, no call of it is left running, all results are the executor's own, and the abort has not happened |
| AgentLoop.AbortEndsRun | packages/agent/src/agent-loop.ts:433-441 | once the abort has happened by the end of a turn, no later turn with calls is passed |
| AgentLoop.ChainGrows | packages/agent/src/agent-loop.ts:476-598 | every turn end is valid, extends the transcript the run began with and is a prefix of every later one |
| AgentLoop.OutcomeFacts | packages/agent/src/agent-loop.ts:476-598 | a run over a non-empty script refuses a request exactly when it began with an invalid transcript, and a run from a valid one ends valid unless a turn was refused |
| AgentLoop.OutcomeExtends | packages/agent/src/agent-loop.ts:476-598 | however a run ends, its transcript extends the last turn end |
| ToolTimeout.ResolveToolTimeoutMs | packages/agent/src/tool-timeout.ts:72-89 | the first level present decides: its value when finite and positive, else no timer, whatever the later levels say |
| ToolTimeout.DecideConcat | packages/agent/src/tool-timeout.ts:141-261 | the first effective event decides and later ones change nothing |
| ToolTimeout.FirstDecides | packages/agent/src/tool-timeout.ts:141-261 | the first event that counts decides: a settlement with its own outcome, a set timer as a timeout, a parent abort as an abort; and nothing else does |
| ToolTimeout.Race.OnTimer | packages/agent/src/tool-timeout.ts:204-211 | a timer firing decides only an undecided race, with the child aborted after the cause |
| ToolTimeout.Race.OnParentAbort | packages/agent/src/tool-timeout.ts:183-188 | a parent abort decides only an undecided race |
| ToolTimeout.Race.OnRealSettled | packages/agent/src/tool-timeout.ts:225-256 | a settlement decides an undecided race, and a late one is only audited, at most once |
| ToolTimeout.RunToolCallWithTimeout | packages/agent/src/tool-timeout.ts:141-261 | on every order of events one result is committed, decided by the first event, with at most one audit event |
| ToolTimeout.DispositionsAllowed | packages/agent/src/types.ts:592-639 | a tool's own result has completed or failed, a call that never started is failed, blocked, skipped or aborted, a started one the runtime closed failed, aborted or timed out, and only a timeout carries its duration; each of these can occur |
| ToolTimeout.DecidedResult | packages/agent/src/tool-timeout.ts:141-261 | what a race commits is consistent with its terminal cause |
| ToolTimeout.FinalizeExecutedToolCall | packages/agent/src/tool-execution-boundary.ts:129-223 | finalization never makes the envelope constructor throw, and every case is given: a terminal cause or an abort before or during the hook decides the disposition, a malformed payload or a throwing hook is a synthetic failure, a hook without a patch changes nothing and one with a patch changes what it names |
| ToolTimeout.CommittedIsOwn | packages/agent/src/tool-execution-boundary.ts:205-223 | what is committed is the call's own result, and the call asks for the end of the turns when its tool does |
| ToolTimeout.StopsBatchIff | packages/agent/src/tool-timeout-settlement.ts:7-16 | a call stops its batch exactly when the timer decided its race and the tool has not settled |
| Kda.KdaRecurrent | research/kda-kimi-linear/kda.py:29-55 | from the given state, or from zero without one, the loop computes the recurrence's outputs and state |
| Kda.SolveTriangular | research/kda-kimi-linear/kda.py:117-124 | forward substitution satisfies every row of the unit-triangular system |
| Kda.SolutionUnique | research/kda-kimi-linear/kda.py:117-124 | the system has no other solution |
| Kda.SolvedDelta | research/kda-kimi-linear/kda.py:96-124 | row n of the system is the delta the recurrence writes at position n |
| Kda.ChunkStep | research/kda-kimi-linear/kda.py:89-138 | one recurrence step on the gated carried state is the next gated carried state |
| Kda.ChunkOutputExact | research/kda-kimi-linear/kda.py:125-131 | inter- plus intra-chunk output is the query against the state after that position |
| Kda.ChunkPrefix | research/kda-kimi-linear/kda.py:89-138 | after any number of positions state and outputs are the recurrence's |
| Kda.RunChunk | research/kda-kimi-linear/kda.py:117-135 | one iteration computes the recurrence over its chunk |
| Kda.RunChunks | research/kda-kimi-linear/kda.py:111-138 | the carry across chunks computes the recurrence over the padded sequence |
| Kda.PaddingDecays | research/kda-kimi-linear/kda.py:58-67 | padded positions write nothing and only decay the state by their clamped decay |
| Kda.NoPaddedDecay | research/kda-kimi-linear/kda.py:58-92 | for eps at most 1, and without padding, they leave the state alone |
| Kda.PaddedRun | research/kda-kimi-linear/kda.py:58-84 | padding adds outputs that the final cut removes, and to the state only its clamped decay |
| Kda.KdaChunk | research/kda-kimi-linear/kda.py:70-138 | from the given state, or from zero without one, for every eps the outputs are those of the recurrence over the clamped decay and the state has also been through the clamped padding; both are the recurrence's when no decay is below eps and eps is at most 1 or the chunk size divides the length |
| Kda.FormsAgreeIff | research/kda-kimi-linear/kda.py:58-138 | for given decays the two forms agree on all queries, keys, values, rates and start states exactly when no decay is below eps and eps is at most 1 or the chunk size divides the length |
| Kda.ProbeTellsClamped | research/kda-kimi-linear/kda.py:89-92 | a query that reads a clamped channel gets different outputs from the two forms |
| Kda.ProbeTellsPadding | research/kda-kimi-linear/kda.py:58-92 | with eps above 1 and padding the two forms end in different states |
| Jsonc.PassIsLexer | packages/initcheck/jsonc.go:14-71 | the byte-by-byte comment pass is the token-by-token lexer |
| Jsonc.RenderFacts | packages/initcheck/jsonc.go:14-71 | each byte is kept or blanked, and line breaks and string bytes are kept |
| Jsonc.CommentPassIdempotent | packages/initcheck/jsonc.go:14-71 | the pass keeps the length, leaves no comment outside strings, and changes nothing when run again |
| Jsonc.ErrorIffUnclosed | packages/initcheck/jsonc.go:46-62 | the error is reported exactly for an unterminated block comment |
| Jsonc.StripComments | packages/initcheck/jsonc.go:14-66 | the in-place pass over the byte array computes it |
| Jsonc.StripCommasAt | packages/initcheck/jsonc.go:73-104 | exactly the commas outside strings whose next significant byte closes are blanked |
| Jsonc.ClosesIff | packages/initcheck/jsonc.go:96-108 | a comma is trailing when a closing brace or bracket comes after nothing but spaces, tabs and line breaks |
| Jsonc.CommaPassTwice | packages/initcheck/jsonc.go:73-104 | running the comma pass twice changes more exactly when commas cascade |
| Jsonc.StripTwice | packages/initcheck/jsonc.go:14-104 | the stripped text holds no comment, and stripping it again changes more exactly when commas cascade in the text without comments |
| Jsonc.CascadeExample | packages/initcheck/jsonc.go:73-104 | `[1,,]` cascades |
| Jsonc.StripTrailingCommas | packages/initcheck/jsonc.go:73-104 | the in-place pass with its look-ahead computes it |
| Jsonc.StripJSONC | packages/initcheck/jsonc.go:14-71 | same length, comments then trailing commas removed, error exactly when the lexer fails |
| Jsonc.StrippedAt | packages/initcheck/jsonc.go:14-104 | position by position: kept or blanked, line breaks and string literals untouched |
| Proxy.BlocksAreDeltas | packages/agent/src/proxy.ts:238-352 | every block is its last start and what followed: text and signature, or id, name, partial text and parsed arguments of a tool call, also after its end; and a run throws exactly at a misplaced delta or end |
| Proxy.EndReportsDeltas | packages/agent/src/proxy.ts:266-308 | an end event reports exactly what was streamed since the start |
| Proxy.FinishedTool | packages/agent/src/proxy.ts:310-349 | a finished tool call is the one its start named, with the arguments all its deltas spell, and its end event reports exactly that call |
| Proxy.EmittedAreEchoes | packages/agent/src/proxy.ts:238-367 | each event is answered as its block stands |
| Proxy.EndsAsToldLast | packages/agent/src/proxy.ts:351-362 | stop reason, usage and error message are those of the last event that gave them |
| Proxy.ChunkLines | packages/agent/src/proxy.ts:188-191 | splitting the buffered tail with a chunk completes the text's lines |
| Proxy.ConsumeIsRun | packages/agent/src/proxy.ts:190-205 | lines are consumed without error exactly when none is malformed and no event is misplaced, and then message and pushed events are those of their events |
| Proxy.PaddedPayload | packages/agent/src/proxy.ts:192-194 | space around a payload does not count |
| Proxy.CarriageReturn | packages/agent/src/proxy.ts:192-194 | nor does a carriage return at the end of a line |
| Proxy.Partial.ProcessProxyEvent | packages/agent/src/proxy.ts:238-367 | one event's effect on the shared partial message, what it emits, and when it throws |
| Proxy.StreamProxy | packages/agent/src/proxy.ts:174-233 | events and final message depend on the text read before an abort only, not on its chunking, with the unterminated tail dropped; an error or an abort ends the stream with its reason and message, and nothing else does |
| Proxy.EncodedLines | packages/agent/src/proxy.ts:190-205 | a server's lines decode back to its payloads, and an unterminated rest adds nothing |
| Packet.ApplyTransition | packages/adaptorch-wpl/src/state-machine.ts:49-66 | a transition applies exactly when the table has it, moves the state, appends one entry with both states, time and cause, and keeps the log legal and chained |
| Packet.EveryRunIsLogged | packages/adaptorch-wpl/src/state-machine.ts:16-66 | every run from DRAFTED keeps a legal chained log within the bound |
| Packet.TransitionBound | packages/adaptorch-wpl/src/state-machine.ts:16-66 | at most 10 + 10r + 2f transitions |
| Packet.BoundAttained | packages/adaptorch-wpl/src/state-machine.ts:16-66 | for all r and f some run attains the bound |
| Packet.ClosedIsTheOnlyEnd | packages/adaptorch-wpl/src/state-machine.ts:16-75 | a state has no successor exactly when it is CLOSED |
| Packet.ReduceReasonCodes | packages/adaptorch-wpl/src/adjudicator-registry.ts:66-71 | the reduction is a member no worse one is beside |
| Packet.CountActionSpans | packages/adaptorch-wpl/src/adjudicator.ts:196-208 | marked action spans, or all spans when none is marked |
| Packet.CountErrors | packages/adaptorch-wpl/src/adjudicator.ts:176-188 | the number of error spans, positive exactly when there is one |
| Packet.CollectProblems | packages/adaptorch-wpl/src/adjudicator.ts:292-330 | the pushed codes are exactly the failed checks' codes |
| Packet.AdjudicateRun | packages/adaptorch-wpl/src/adjudicator.ts:220-359 | the verdict of every fetch outcome, with the worst problem as the code of a contradiction |
| Packet.ReduceVerdicts | packages/adaptorch-wpl/src/adjudicator.ts:362-374 | the record verdict is the worst of its runs' |
| Packet.Adjudicate | packages/adaptorch-wpl/src/adjudicator.ts:383-445 | one judged verdict per run in order, reduced to the worst verdict and its runs' worst code |
| Packet.ProjectedMovesAreLegal | packages/adaptorch-wpl/src/loop.ts:136-267 | every projected and decided next state is a legal move, and a failed adjudication is reviewed again while attempts remain and escalates without |
| Packet.EscalatesExactly | packages/adaptorch-wpl/src/loop.ts:136-244 | a record escalates exactly for a verifier error, a scope violation, or indeterminate runs with nothing worse |
| Packet.ScopeViolationEscalates | packages/adaptorch-wpl/src/loop.ts:136-244 | a scope violation of one run escalates whatever the other runs and the budget are |
| Packet.ConfirmedExactly | packages/adaptorch-wpl/src/loop.ts:136-244 | a packet is confirmed exactly when every run is, and otherwise, unless it escalates, queued again exactly while budget remains and closed exactly without |
| Packet.ReroutesExactly | packages/adaptorch-wpl/src/loop.ts:50-195 | another topology is asked for exactly when a run drifted again, in schema or content, and none was out of scope or failed to verify |
| Evaluation.MatchReflexive | packages/protocol/src/evaluation.ts:37-53 | every value matches itself |
| Evaluation.MatchTransitive | packages/protocol/src/evaluation.ts:37-53 | matching composes |
| Evaluation.MatchAntisymmetric | packages/protocol/src/evaluation.ts:37-53 | values that match each other are equal |
| Facts.MatchExactly | packages/protocol/src/evaluation.ts:37-53 | primitives match when equal, arrays item by item at equal length, and an object exactly when its restriction to the expected names matches |
| Facts.FieldMoreKeepsMatch | packages/protocol/src/evaluation.ts:37-53 | a field more, added to any object at any depth, never loses a match |
| Facts.LeafExactly | packages/protocol/src/evaluation.ts:59-76 | a leaf is inconclusive with nothing of its kind in scope, satisfied by what matches and violated otherwise, and names in order what satisfies it or what is in scope |
| Facts.AllExactly | packages/protocol/src/evaluation.ts:84-91 | all is satisfied when every child is and violated when one is, and names exactly what its children name, once |
| Facts.AnyExactly | packages/protocol/src/evaluation.ts:92-100 | any is satisfied when a child is and violated when every one is, and names exactly what its children name, once |
| Facts.UniqueInOrder | packages/protocol/src/evaluation.ts:55-57 | names are kept in the order of their first places |
| Evaluation.DoubleNegation | packages/protocol/src/evaluation.ts:77-83 | double negation keeps result and evidence |
| Evaluation.DeMorgan | packages/protocol/src/evaluation.ts:77-100 | De Morgan holds in three values, evidence included |
| Evaluation.SatisfactionMonotone | packages/protocol/src/evaluation.ts:59-100 | satisfaction of a condition with positive leaves survives more observations and weaker facts or scopes |
| Evaluation.SatisfactionKept | packages/protocol/src/evaluation.ts:59-100 | a satisfied condition stays satisfied as long as no leaf in negative position gains its first support |
| Evaluation.NegatedLeafKeeps | packages/protocol/src/evaluation.ts:59-83 | a satisfied negation of a leaf stays satisfied exactly while no observation supports the leaf |
| Stability.NeverUndoesIff | packages/protocol/src/evaluation.ts:59-100 | for a condition whose leaves are about different kinds, adding an observation never undoes satisfaction exactly when it supports no leaf in negative position |
| Stability.NothingUndoesIff | packages/protocol/src/evaluation.ts:59-100 | no observation at all can undo it exactly when every leaf is in positive position |
| Evaluation.NegationNotMonotone | packages/protocol/src/evaluation.ts:77-83 | under a negation a new observation can undo satisfaction |
| Evaluation.EvidenceSuffices | packages/protocol/src/evaluation.ts:59-100 | evaluating over the named observations alone gives the same result and names |
| Evaluation.ValidateWaivers | packages/protocol/src/evaluation.ts:108-135 | waivers are accepted exactly when each applies and no claim has two, mapped by claim |
| Evaluation.VerdictExact | packages/protocol/src/evaluation.ts:137-143 | fail and pass in terms of unwaived required claims, both ways |
| Evaluation.WaiversNeverLower | packages/protocol/src/evaluation.ts:108-143 | more waivers never lower the verdict |
| Evaluation.PassIsStable | packages/protocol/src/evaluation.ts:59-184 | a pass whose required claims are positive stays a pass as observations arrive |
| Evaluation.PassKept | packages/protocol/src/evaluation.ts:59-184 | a pass stays a pass as observations arrive that give no negative leaf of a required claim its first support |
| Facts.PassKeepsRicher | packages/protocol/src/evaluation.ts:59-184 | a pass whose required claims are positive stays a pass as the observations' facts gain fields |
| Facts.LastClaimCounts | packages/protocol/src/evaluation.ts:108-111 | of claims with one id the last counts |
| Evaluation.EvaluateTask | packages/protocol/src/evaluation.ts:146-184 | one result per claim with its evidence and waiver, and the verdict, or an error exactly for foreign records or bad waivers |
| Envelope.UnescapeEscape | packages/promptguard/escape.go:11-32 | escaping is inverted by reading the predefined entities back |
| Envelope.EscapeFree | packages/promptguard/escape.go:11-32 | escaped text holds no tag character, and an escaped attribute no quote |
| Envelope.WriteEnvelopes | packages/promptguard/envelope.go:53-59 | the loop appends one envelope per document |
| Envelope.RenderContext | packages/promptguard/envelope.go:24-51 | whatever the documents hold, a reader gets the parent and the project documents back, each in order |
| Envelope.ReaderRecovers | packages/promptguard/envelope.go:24-59 | reading inverts rendering of both groups |

## Left out

- Kda: one batch, head and value column over exact reals; the columns of the state are independent, and rounding and torch are not part of this model. `exp(cumsum(log))` is a running product.
- Paths: case folding is ASCII only; the UNC and drive rules are those of the code.
- PlanKey.QuoteRoundTrip: strings of Unicode scalar values only, ordered by code point; lone surrogates, which the source can quote, have no Dafny character.
- ScheduleMemo: what the extensions answer is one function per run of tool name, arguments, directory and call id, as the source's comment on the key assumes; replacing a tool's closure during a run is not modelled.
- PlanRequest: argument values are JSON values with numbers as their printed text, so -0 is 0 and fields without a value do not occur.
- DagExecutor: levels come from a fresh schedule; the memo serves exactly that schedule when no extension looks at the call ids (`MemoSchedule.ScheduleThroughMemo`), and with one that does a level may run by the plan of an earlier batch with the same names and arguments.
- AgentLoop.RunLoop: queues inject user messages only, and `prepareNextTurn` does not replace the context; `transformContext`, context conversion, model routing and API keys are not part of this model.
- AgentLoop.ConsumeAssistantStream: a provider that starts twice leaves a stale partial; a well-formed turn of the loop has at most one start.
- AgentLoop: emit callbacks and hooks that throw, and the failure stream around the loop, apart from the plan of its termination.
- Executor: the environment is a script of planning, authorization and settlement answers; timers, promises and microtask order are not modelled, and concurrency is which calls are started together.
- Waves: the home directory is put in place of a tilde as it is; a `$` in it has no special meaning.
- WaveClaims: both schedulers are taken to see one directory and one set of policies, and claims are the built-in ones, without platform resolver or extension.
- Resolver: the platform resolver's answer and an extension's own claims are parameters; file identity lookup is not part of this model.
- ToolTimeout.RunToolCallWithTimeout: events that happen in one tick are taken in the order the race sees them; updates and listeners are left out.
- ToolTimeout.FinalizeExecutedToolCall: payload text and validity only; snapshots, freezing and reason strings are left out.
- Transcript: messages are immutable values with the fields the inspector reads.
- Proxy: decoding bytes to text, the request and JSON parsing are parameters; events refer to the message by value, not by the shared object.
- Packet: status strings, payload shapes, action-name patterns and evidence references are reduced to what the branches test; the adjudication timeout and augmented payloads are left out.
- Evaluation: parsed input only, and facts named like members of `Object.prototype` are not looked up there.
- Jsonc: the parse of the stripped text is left out.
- Fuzzy matching, provenance digests, the agent's message queue and event reducer, and the deciding of thinking levels are not modelled.
- Prompt scanning, policy walls, hashing, signatures, file walking, CLI, migrations, package management, terminal UI, model catalogs and HTTP clients.
