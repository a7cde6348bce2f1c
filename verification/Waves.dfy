/** The waves-v1 scheduler: a greedy contiguous partition
    (packages/agent/src/parallel-tool-batch.ts). */
module Waves {
  import opened Wrappers
  import opened Paths
  import opened Text
  import opened DagProperties

  // Members of NEVER_PARALLEL_TOOLS, PARALLEL_SAFE_TOOLS and PATH_SCOPED_TOOLS.
  predicate IsNeverParallel(name: string) {
    name == "clarify"
  }

  predicate IsParallelSafe(name: string) {
    name in {
      "grep", "find", "ls", "read", "search_files", "session_search", "skill_view", "skills_list",
      "vision_analyze", "web_extract", "web_search"
    }
  }

  predicate IsPathScopedTool(name: string) {
    name in {"read", "write", "edit"}
  }

  datatype Policy = Sequential | Parallel

  // The argument value of a call, as far as scheduling looks at it.
  datatype Arguments = NotAnObject | Object(path: Option<string>)

  datatype ToolCallShape = ToolCallShape(name: string, arguments: Arguments)

  datatype Options = Options(cwd: string, home: string, policies: map<string, Policy>, allowUnknown: set<string>)

  datatype Kind = Solo | Safe | PathScoped(path: string)

  function ExtractParallelScopePath(name: string, path: Option<string>, options: Options): Option<string> {
    if !IsPathScopedTool(name) || path.None? || IsBlank(path.value) then None
    else
      var raw := path.value;
      var expanded := NormalizePathSlashes(if raw != "" && raw[0] == '~' then options.home + raw[1..] else raw);
      if expanded != "" && expanded[0] == '/' then Some(expanded) else Some(JoinPathSegments(options.cwd, expanded))
  }

  // classifyToolCall, with a path-scoped call that names no path counted as a solo call.
  function Classify(call: ToolCallShape, options: Options): Kind {
    var name := call.name;
    if IsNeverParallel(name) then Solo
    else if name in options.policies && options.policies[name] == Sequential then Solo
    else if call.arguments.NotAnObject? then Solo
    else if name == "bash" then Solo
    else if IsPathScopedTool(name) then
      (match ExtractParallelScopePath(name, call.arguments.path, options)
       case None => Solo
       case Some(p) => PathScoped(p))
    else if IsParallelSafe(name) then Safe
    else if (name in options.policies && options.policies[name] == Parallel) || name in options.allowUnknown then Safe
    else Solo
  }

  function Kinds(calls: seq<ToolCallShape>, options: Options): (r: seq<Kind>)
    ensures |r| == |calls| && forall i | 0 <= i < |calls| :: r[i] == Classify(calls[i], options)
  {
    seq(|calls|, i requires 0 <= i < |calls| => Classify(calls[i], options))
  }

  // ----- Waves

  // Two calls that may not share a wave.
  predicate Clash(a: Kind, b: Kind) {
    a.Solo? || b.Solo? || (a.PathScoped? && b.PathScoped? && PathSegmentsOverlap(a.path, b.path))
  }

  lemma ClashSymmetric(a: Kind, b: Kind)
    ensures Clash(a, b) == Clash(b, a)
  {
    if a.PathScoped? && b.PathScoped? {
      OverlapSymmetric(a.path, b.path);
    }
  }

  // A wave is a single call, or calls of which no two clash.
  ghost predicate Allowed(kinds: seq<Kind>, wave: seq<nat>) {
    && (forall i | 0 <= i < |wave| :: wave[i] < |kinds|)
    && forall i, j | 0 <= i < j < |wave| :: !Clash(kinds[wave[i]], kinds[wave[j]])
  }

  function Range(lo: nat, hi: nat): (r: seq<nat>)
    requires lo <= hi
    ensures |r| == hi - lo && forall i | 0 <= i < |r| :: r[i] == lo + i
  {
    seq(hi - lo, i requires 0 <= i => lo + i)
  }

  // Non-empty waves whose concatenation is 0, 1, ..., n - 1: a contiguous partition.
  ghost predicate Partition(waves: seq<seq<nat>>, n: nat) {
    Concat(waves) == Range(0, n) && forall k | 0 <= k < |waves| :: waves[k] != []
  }

  ghost predicate AllAllowed(kinds: seq<Kind>, waves: seq<seq<nat>>) {
    forall k | 0 <= k < |waves| :: Allowed(kinds, waves[k])
  }

  // No wave could have taken the first call of the next one.
  ghost predicate Greedy(kinds: seq<Kind>, waves: seq<seq<nat>>) {
    forall k | 0 < k < |waves| :: waves[k] != [] && !Allowed(kinds, waves[k - 1] + [waves[k][0]])
  }

  function PathsOf(kinds: seq<Kind>, wave: seq<nat>): seq<string>
    requires forall i | 0 <= i < |wave| :: wave[i] < |kinds|
  {
    if wave == [] then []
    else
      var init, last := wave[..|wave| - 1], wave[|wave| - 1];
      PathsOf(kinds, init) + (if kinds[last].PathScoped? then [kinds[last].path] else [])
  }

  lemma {:induction false} PathsOfMembers(kinds: seq<Kind>, wave: seq<nat>)
    requires forall i | 0 <= i < |wave| :: wave[i] < |kinds|
    ensures forall p :: p in PathsOf(kinds, wave) <==>
                        exists i | 0 <= i < |wave| :: kinds[wave[i]] == PathScoped(p)
  {
    if wave != [] {
      var init := wave[..|wave| - 1];
      PathsOfMembers(kinds, init);
      forall p
        ensures p in PathsOf(kinds, wave) <==> exists i | 0 <= i < |wave| :: kinds[wave[i]] == PathScoped(p)
      {
        if i :| 0 <= i < |wave| && kinds[wave[i]] == PathScoped(p) {
          assert i < |init| ==> kinds[init[i]] == PathScoped(p);
        }
        if p in PathsOf(kinds, init) {
          var i :| 0 <= i < |init| && kinds[init[i]] == PathScoped(p);
          assert kinds[wave[i]] == PathScoped(p);
        }
      }
    }
  }

  ghost predicate NoSolo(kinds: seq<Kind>, wave: seq<nat>) {
    forall i | 0 <= i < |wave| :: wave[i] < |kinds| && !kinds[wave[i]].Solo?
  }

  // Joining a wave without solo calls is allowed exactly when the call is not solo and its path
  // overlaps no path of the wave.
  lemma {:induction false} JoinAllowed(kinds: seq<Kind>, wave: seq<nat>, x: nat)
    requires Allowed(kinds, wave) && NoSolo(kinds, wave) && x < |kinds|
    ensures Allowed(kinds, wave + [x]) <==>
            wave == [] || (!kinds[x].Solo? && (kinds[x].PathScoped? ==>
                forall p | p in PathsOf(kinds, wave) :: !PathSegmentsOverlap(kinds[x].path, p)))
  {
    PathsOfMembers(kinds, wave);
    var grown := wave + [x];
    forall i | 0 <= i < |wave|
      ensures Clash(kinds[wave[i]], kinds[x]) == Clash(kinds[x], kinds[wave[i]])
    {
      ClashSymmetric(kinds[wave[i]], kinds[x]);
    }
    if Allowed(kinds, grown) && wave != [] {
      assert !Clash(kinds[grown[0]], kinds[grown[|wave|]]);
      if kinds[x].PathScoped? {
        forall p | p in PathsOf(kinds, wave)
          ensures !PathSegmentsOverlap(kinds[x].path, p)
        {
          var i :| 0 <= i < |wave| && kinds[wave[i]] == PathScoped(p);
          assert !Clash(kinds[grown[i]], kinds[grown[|wave|]]);
        }
      }
    }
    if !kinds[x].Solo? && (kinds[x].PathScoped? ==>
           forall p | p in PathsOf(kinds, wave) :: !PathSegmentsOverlap(kinds[x].path, p)) {
      forall i | 0 <= i < |wave|
        ensures !Clash(kinds[x], kinds[wave[i]])
      {
        if kinds[wave[i]].PathScoped? {
          assert kinds[wave[i]] == PathScoped(kinds[wave[i]].path);
        }
      }
    }
  }

  lemma SoloBlocks(kinds: seq<Kind>, wave: seq<nat>, x: nat)
    requires wave != [] && x < |kinds| && wave[0] < |kinds| && (kinds[x].Solo? || kinds[wave[0]].Solo?)
    ensures !Allowed(kinds, wave + [x])
  {
    var grown := wave + [x];
    assert Clash(kinds[grown[0]], kinds[grown[|wave|]]);
  }

  // The invariant of the partition loop.
  ghost predicate Progress(kinds: seq<Kind>, waves: seq<seq<nat>>, wave: seq<nat>, wavePaths: seq<string>, index: nat) {
    && index <= |kinds|
    && Concat(waves) + wave == Range(0, index)
    && (forall k | 0 <= k < |waves| :: waves[k] != [])
    && AllAllowed(kinds, waves) && Allowed(kinds, wave) && NoSolo(kinds, wave)
    && wavePaths == PathsOf(kinds, wave)
    && Greedy(kinds, waves)
    && (waves != [] ==>
          if wave != [] then !Allowed(kinds, waves[|waves| - 1] + [wave[0]])
          else waves[|waves| - 1][0] < |kinds| && kinds[waves[|waves| - 1][0]].Solo?)
  }

  lemma {:induction false} ConcatOne(waves: seq<seq<nat>>, wave: seq<nat>)
    ensures Concat(waves + [wave]) == Concat(waves) + wave
  {
    ConcatAppend(waves, [wave]);
    assert [wave][1..] == [] && wave + [] == wave;
  }

  // Adding one wave at the end of the closed ones.
  lemma {:induction false} AppendWave(kinds: seq<Kind>, waves: seq<seq<nat>>, wave: seq<nat>)
    requires wave != [] && Allowed(kinds, wave)
    requires (forall k | 0 <= k < |waves| :: waves[k] != []) && AllAllowed(kinds, waves) && Greedy(kinds, waves)
    requires waves != [] ==> !Allowed(kinds, waves[|waves| - 1] + [wave[0]])
    ensures var all := waves + [wave];
            (forall k | 0 <= k < |all| :: all[k] != []) && AllAllowed(kinds, all) && Greedy(kinds, all)
            && Concat(all) == Concat(waves) + wave
  {
    ConcatOne(waves, wave);
  }

  // closeWave, then a wave of the one solo call.
  lemma {:induction false} PushSolo(kinds: seq<Kind>, waves: seq<seq<nat>>, wave: seq<nat>, wavePaths: seq<string>, index: nat)
    requires Progress(kinds, waves, wave, wavePaths, index) && index < |kinds| && kinds[index].Solo?
    ensures Progress(kinds, (if wave != [] then waves + [wave] else waves) + [[index]], [], [], index + 1)
  {
    if wave != [] {
      AppendWave(kinds, waves, wave);
      SoloBlocks(kinds, wave, index);
      SoloWave(kinds, waves + [wave], index);
    } else {
      assert Concat(waves) + [] == Concat(waves);
      if waves != [] {
        SoloBlocks(kinds, waves[|waves| - 1], index);
      }
      SoloWave(kinds, waves, index);
    }
  }

  lemma {:induction false} SoloWave(kinds: seq<Kind>, closed: seq<seq<nat>>, index: nat)
    requires index < |kinds| && kinds[index].Solo? && Concat(closed) == Range(0, index)
    requires (forall k | 0 <= k < |closed| :: closed[k] != []) && AllAllowed(kinds, closed) && Greedy(kinds, closed)
    requires closed != [] ==> !Allowed(kinds, closed[|closed| - 1] + [index])
    ensures Progress(kinds, closed + [[index]], [], [], index + 1)
  {
    AppendWave(kinds, closed, [index]);
    assert Range(0, index + 1) == Range(0, index) + [index];
    var all := closed + [[index]];
    assert Concat(all) + [] == Concat(all);
  }

  // The last closeWave.
  lemma {:induction false} CloseLast(kinds: seq<Kind>, waves: seq<seq<nat>>, wave: seq<nat>, wavePaths: seq<string>)
    requires Progress(kinds, waves, wave, wavePaths, |kinds|)
    ensures var all := if wave != [] then waves + [wave] else waves;
            Partition(all, |kinds|) && AllAllowed(kinds, all) && Greedy(kinds, all)
  {
    if wave != [] {
      AppendWave(kinds, waves, wave);
    } else {
      assert Concat(waves) + [] == Concat(waves);
    }
  }

  // closeWave because of an overlap, then a new wave of the one call.
  lemma {:induction false} StartWave(kinds: seq<Kind>, waves: seq<seq<nat>>, wave: seq<nat>, wavePaths: seq<string>, index: nat)
    requires Progress(kinds, waves, wave, wavePaths, index) && index < |kinds| && !kinds[index].Solo?
    requires wave != [] && !Allowed(kinds, wave + [index])
    ensures Progress(kinds, waves + [wave], [index], PathsOf(kinds, [index]), index + 1)
  {
    ConcatOne(waves, wave);
    assert Range(0, index + 1) == Range(0, index) + [index];
  }

  // The call joins the current wave.
  lemma {:induction false} ExtendWave(kinds: seq<Kind>, waves: seq<seq<nat>>, wave: seq<nat>, wavePaths: seq<string>, index: nat)
    requires Progress(kinds, waves, wave, wavePaths, index) && index < |kinds| && !kinds[index].Solo?
    requires Allowed(kinds, wave + [index])
    ensures Progress(kinds, waves, wave + [index], PathsOf(kinds, wave + [index]), index + 1)
  {
    assert Range(0, index + 1) == Range(0, index) + [index];
    assert Concat(waves) + (wave + [index]) == Concat(waves) + wave + [index];
    if wave == [] && waves != [] {
      SoloBlocks(kinds, waves[|waves| - 1], index);
    }
  }

  lemma PathsOfNext(kinds: seq<Kind>, wave: seq<nat>, x: nat)
    requires (forall i | 0 <= i < |wave| :: wave[i] < |kinds|) && x < |kinds|
    ensures PathsOf(kinds, wave + [x]) == PathsOf(kinds, wave) + (if kinds[x].PathScoped? then [kinds[x].path] else [])
    ensures PathsOf(kinds, [x]) == if kinds[x].PathScoped? then [kinds[x].path] else []
  {
    assert (wave + [x])[..|wave|] == wave && [x][..0] == [];
  }

  // The body of the partition loop.
  method PlaceCall(waves: seq<seq<nat>>, wave: seq<nat>, wavePaths: seq<string>, index: nat, kind: Kind, ghost kinds: seq<Kind>)
    returns (waves': seq<seq<nat>>, wave': seq<nat>, wavePaths': seq<string>)
    requires Progress(kinds, waves, wave, wavePaths, index) && index < |kinds| && kind == kinds[index]
    ensures Progress(kinds, waves', wave', wavePaths', index + 1)
  {
    waves', wave', wavePaths' := waves, wave, wavePaths;
    JoinAllowed(kinds, wave, index);
    PathsOfNext(kinds, wave, index);
    match kind {
      case Solo =>
        PushSolo(kinds, waves, wave, wavePaths, index);
        waves' := (if |wave| > 0 then waves + [wave] else waves) + [[index]];
        wave', wavePaths' := [], [];
      case Safe =>
        ExtendWave(kinds, waves, wave, wavePaths, index);
        wave' := wave + [index];
      case PathScoped(scopedPath) =>
        if exists existing | existing in wavePaths :: PathSegmentsOverlap(scopedPath, existing) {
          StartWave(kinds, waves, wave, wavePaths, index);
          waves', wave', wavePaths' := waves + [wave], [index], [scopedPath];
        } else {
          ExtendWave(kinds, waves, wave, wavePaths, index);
          wave', wavePaths' := wave + [index], wavePaths + [scopedPath];
        }
    }
  }

  // partitionToolBatchWaves.
  method PartitionToolBatchWaves(calls: seq<ToolCallShape>, options: Options) returns (waves: seq<seq<nat>>)
    ensures Partition(waves, |calls|)
    ensures AllAllowed(Kinds(calls, options), waves)
    ensures Greedy(Kinds(calls, options), waves)
  {
    ghost var kinds := Kinds(calls, options);
    waves := [];
    var wave: seq<nat> := [];
    var wavePaths: seq<string> := [];
    assert Concat(waves) + wave == Range(0, 0);
    for index := 0 to |calls|
      invariant Progress(kinds, waves, wave, wavePaths, index)
    {
      var kind := Classify(calls[index], options);
      waves, wave, wavePaths := PlaceCall(waves, wave, wavePaths, index, kind, kinds);
    }
    CloseLast(kinds, waves, wave, wavePaths);
    if |wave| > 0 {
      waves := waves + [wave];
    }
  }

  // ----- No contiguous partition uses fewer waves

  function End(waves: seq<seq<nat>>, k: nat): nat
    requires k <= |waves|
  {
    |Concat(waves[..k])|
  }

  lemma {:induction false} EndStep(waves: seq<seq<nat>>, n: nat, k: nat)
    requires Partition(waves, n) && k < |waves|
    ensures End(waves, k) < End(waves, k + 1) == End(waves, k) + |waves[k]| <= n
    ensures waves[k] == Range(End(waves, k), End(waves, k + 1))
  {
    var a, w, b := waves[..k], waves[k], waves[k + 1..];
    assert waves[..k + 1] == a + [w] && waves == a + [w] + b;
    ConcatOne(a, w);
    ConcatAppend(a + [w], b);
    var whole := Concat(waves);
    assert whole == Concat(a) + w + Concat(b);
    forall i | 0 <= i < |w|
      ensures w[i] == End(waves, k) + i
    {
      assert w[i] == whole[|Concat(a)| + i];
    }
  }

  lemma {:induction false} AllowedSub(kinds: seq<Kind>, big: seq<nat>, offset: nat, small: seq<nat>)
    requires Allowed(kinds, big) && offset + |small| <= |big| && small == big[offset..offset + |small|]
    ensures Allowed(kinds, small)
  {
    assert forall i | 0 <= i < |small| :: small[i] == big[offset + i];
  }

  // After any number of waves the greedy partition has covered at least as many calls.
  lemma {:induction false} GreedyStaysAhead(kinds: seq<Kind>, greedy: seq<seq<nat>>, other: seq<seq<nat>>, n: nat, k: nat)
    requires Partition(greedy, n) && Greedy(kinds, greedy)
    requires Partition(other, n) && AllAllowed(kinds, other)
    requires k <= |greedy| && k <= |other|
    ensures End(other, k) <= End(greedy, k)
    decreases k
  {
    if k > 0 {
      GreedyStaysAhead(kinds, greedy, other, n, k - 1);
      EndStep(greedy, n, k - 1);
      EndStep(other, n, k - 1);
      if k < |greedy| {
        EndStep(greedy, n, k);
        if End(other, k) > End(greedy, k) {
          var from, to := End(greedy, k - 1), End(greedy, k);
          var blocked := greedy[k - 1] + [greedy[k][0]];
          var offset := from - End(other, k - 1);
          assert blocked == Range(from, to + 1);
          assert other[k - 1][offset..offset + |blocked|] == blocked;
          AllowedSub(kinds, other[k - 1], offset, blocked);
        }
      } else {
        assert greedy[..k] == greedy;
      }
    }
  }

  // The greedy partition uses the minimum number of waves.
  lemma {:induction false} GreedyIsMinimal(kinds: seq<Kind>, greedy: seq<seq<nat>>, other: seq<seq<nat>>, n: nat)
    requires Partition(greedy, n) && Greedy(kinds, greedy)
    requires Partition(other, n) && AllAllowed(kinds, other)
    ensures |greedy| <= |other|
  {
    if |other| < |greedy| {
      GreedyStaysAhead(kinds, greedy, other, n, |other|);
      assert other[..|other|] == other;
      EndStep(greedy, n, |other|);
    }
  }

  // Splitting waves by the width cap keeps the waves allowed and in order.
  lemma {:induction false} CappedWaves(kinds: seq<Kind>, waves: seq<seq<nat>>, cap: Cap, n: nat)
    requires Partition(waves, n) && AllAllowed(kinds, waves)
    ensures Partition(CapLevels(waves, cap), n) && AllAllowed(kinds, CapLevels(waves, cap))
  {
    CapFacts(waves, cap);
    var capped := CapLevels(waves, cap);
    assert forall k | 0 <= k < |capped| :: capped[k] in capped;
    CapAllowed(kinds, waves, cap);
  }

  lemma {:induction false} ChunksAllowed(kinds: seq<Kind>, wave: seq<nat>, w: nat)
    requires Allowed(kinds, wave) && w >= 1
    ensures AllAllowed(kinds, Chunks(wave, w))
    decreases |wave|
  {
    if |wave| > w {
      AllowedSub(kinds, wave, 0, wave[..w]);
      AllowedSub(kinds, wave, w, wave[w..]);
      ChunksAllowed(kinds, wave[w..], w);
    }
  }

  lemma {:induction false} CapAllowed(kinds: seq<Kind>, waves: seq<seq<nat>>, cap: Cap)
    requires AllAllowed(kinds, waves)
    ensures AllAllowed(kinds, CapLevels(waves, cap))
    decreases |waves|
  {
    if IntegerCap(cap).Some? && waves != [] {
      ChunksAllowed(kinds, waves[0], IntegerCap(cap).value);
      CapAllowed(kinds, waves[1..], cap);
    }
  }
}
