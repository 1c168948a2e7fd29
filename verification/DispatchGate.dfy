/**
 * The `dispatch` hook both policies share: walk the shared queue in its
 * order and move the first task that passes the eligibility/core-limit gate
 * and may run on the idle CPU; the walk stops after the first move.
 * The queue's order and the kernel's answer to each move request are
 * inputs (`queue`, `accepted`).
 */
module DispatchGate {
  import opened Machine
  import opened BaseScheduler
  import opened Wrappers

  /** Ordinary tasks may use `cpu` only when a core limit is set (not -1) and `cpu` is below it. */
  predicate CanScheduleNonKThreads(setting: SchedulerSetting, cpu: nat): (r: bool)
    ensures setting.cores == U32_ALL_ONES ==> !r
    ensures setting.cores != U32_ALL_ONES ==> (r <==> cpu < setting.cores as int)
  {
    setting.cores != U32_ALL_ONES && setting.cores as int > cpu
  }

  /** The gate a queued task must pass to be moved onto `cpu`. */
  predicate MayMove(p: Task, setting: SchedulerSetting, cpu: nat, nrCpuIds: u32): (r: bool)
    ensures r ==> cpu in p.cpusAllowed
    ensures HasConstraints(p, nrCpuIds) ==> (r <==> cpu in p.cpusAllowed)
    ensures !HasConstraints(p, nrCpuIds) ==> (r <==> cpu in p.cpusAllowed && CanScheduleNonKThreads(setting, cpu))
  {
    (HasConstraints(p, nrCpuIds) || CanScheduleNonKThreads(setting, cpu)) && cpu in p.cpusAllowed
  }

  /**
   * tryDispatching: a task whose CPU mask excludes `cpu` is not moved;
   * otherwise the kernel's move request decides (`kernelMoves`).
   */
  function TryDispatching(p: Task, cpu: nat, kernelMoves: bool): (moved: bool)
    ensures moved ==> cpu in p.cpusAllowed
    ensures cpu !in p.cpusAllowed ==> !moved
  {
    if cpu !in p.cpusAllowed then false else kernelMoves
  }

  /**
   * The dispatch walk. The result is the position of the one task moved,
   * if any: it passed the gate and the kernel moved it, and no earlier
   * task did both.
   */
  method DispatchFromSharedQueue(queue: seq<Task>, accepted: seq<bool>, setting: SchedulerSetting,
                                 cpu: nat, nrCpuIds: u32)
    returns (moved: Option<nat>)
    requires |accepted| == |queue|
    ensures moved.Some? ==> moved.value < |queue|
    ensures moved.Some? ==> MayMove(queue[moved.value], setting, cpu, nrCpuIds) && accepted[moved.value]
    ensures forall j | 0 <= j < |queue| && (moved.Some? ==> j < moved.value) ::
      !(MayMove(queue[j], setting, cpu, nrCpuIds) && accepted[j])
  {
    var canScheduleNonKThreads := setting.cores != U32_ALL_ONES && setting.cores as int > cpu;
    var i := 0;
    while i < |queue|
      invariant 0 <= i <= |queue|
      invariant forall j | 0 <= j < i :: !(MayMove(queue[j], setting, cpu, nrCpuIds) && accepted[j])
    {
      var p := queue[i];
      if (HasConstraints(p, nrCpuIds) || canScheduleNonKThreads) && TryDispatching(p, cpu, accepted[i]) {
        return Some(i);
      }
      i := i + 1;
    }
    return None;
  }

  /** With cores == -1 no ordinary task passes the gate: only constrained tasks are moved. */
  lemma NoCoreLimitMovesOnlyConstrained(p: Task, setting: SchedulerSetting, cpu: nat, nrCpuIds: u32)
    requires setting.cores == U32_ALL_ONES
    ensures MayMove(p, setting, cpu, nrCpuIds) <==> HasConstraints(p, nrCpuIds) && cpu in p.cpusAllowed
  {
  }
}
