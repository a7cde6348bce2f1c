/** The scheduling step of the dag-v2 executor as it goes through the per-run memo
    (packages/agent/src/agent-loop.ts:926-955, 980-993, 1109-1131). */
module MemoSchedule {
  import opened Wrappers
  import ScheduleMemo
  import PlanRequest
  import DagProperties
  import DagScheduler

  // The levels a request's own claims get.
  ghost function OwnLevels(answers: PlanRequest.Answers, request: PlanRequest.Request): seq<seq<nat>> {
    DagProperties.CapLevels(DagScheduler.Levels(PlanRequest.ResolutionsOf(answers, request)),
                            PlanRequest.CapOf(request.options.maxConcurrency))
  }

  // scheduleDagLevelsMemo after the reading of the abort: with no extension that looks at the call ids
  // it answers as DagExecutor.ScheduleUnlessAborted does for the claims of the request's calls,
  // whatever the memo holds, so what is proved of the executor holds of batches served from it.
  method ScheduleThroughMemo(cache: ScheduleMemo.DagScheduleCache, request: PlanRequest.Request, aborted: bool)
    returns (plan: Option<seq<seq<nat>>>)
    requires cache.Valid()
    modifies cache
    ensures cache.Valid() && (plan.None? ==> aborted)
    ensures plan.Some? && PlanRequest.IgnoresIds(cache.answers, request.options) ==> plan.value == OwnLevels(cache.answers, request)
  {
    var held := cache.Schedule(request, aborted);
    if held.None? {
      return None;
    }
    plan := Some(ScheduleMemo.LevelValues(held.value.levels));
  }
}
