/**
 * The virtual-time policy: each task carries a virtual time that grows by
 * its run time divided by its weight; a global clock `vtimeNow` follows
 * the virtual times of started tasks forward; an enqueued task's virtual
 * time is clamped to at most one default slice behind the clock. All
 * comparisons of virtual times are wrap-around comparisons on unsigned
 * 64-bit values. Hooks are modelled one at a time (the unsynchronised
 * cross-CPU update of the clock is not).
 */
module VTime {
  import opened Machine
  import opened Wrappers
  import opened BaseScheduler
  import opened TaskStats
  import opened DispatchGate

  /** The kernel's default slice, SCX_SLICE_DFL: 20 ms in nanoseconds. */
  const SCX_SLICE_DFL: u64 := 20_000_000

  /**
   * isSmaller: `a` comes before `b` when the 64-bit difference a - b, read
   * as a signed value, is negative.
   */
  predicate IsSmaller(a: u64, b: u64): (r: bool)
    ensures r <==> Sub64(a, b) as int >= TWO_63
    ensures r ==> a != b
  {
    Signed64(Sub64(a, b)) < 0
  }

  /** No value comes before itself. */
  lemma IsSmallerIrreflexive(a: u64)
    ensures !IsSmaller(a, a)
  {
  }

  /** For values less than 2^63 apart, isSmaller is the ordinary order. */
  lemma IsSmallerNearby(a: u64, b: u64)
    requires Abs(a as int - b as int) < TWO_63
    ensures IsSmaller(a, b) <==> a < b
  {
  }

  /** Across the wrap-around, the largest value comes before 0. */
  lemma IsSmallerWraps()
    ensures IsSmaller(U64_MAX, 0) && !IsSmaller(0, U64_MAX)
  {
  }

  /**
   * isSmaller is asymmetric except for two values exactly 2^63 apart, each
   * of which comes before the other.
   */
  lemma IsSmallerAsymmetric(a: u64, b: u64)
    ensures IsSmaller(a, b) && IsSmaller(b, a) <==> Sub64(a, b) as int == TWO_63
  {
  }

  /**
   * The vtime a task is enqueued with: its own, or, when that is before
   * `vtimeNow - slice`, that floor.
   */
  function ClampVtime(vtime: u64, vtimeNow: u64, slice: u64): (r: u64)
    ensures !IsSmaller(r, Sub64(vtimeNow, slice))
    ensures !IsSmaller(vtime, Sub64(vtimeNow, slice)) ==> r == vtime
    ensures r == vtime || r == Sub64(vtimeNow, slice)
  {
    var floor := Sub64(vtimeNow, slice);
    if IsSmaller(vtime, floor) then floor else vtime
  }

  /**
   * With the clock at 1 000 000 and a 20 000 slice, a task at 500 000 is
   * enqueued at 980 000. With the real 20 ms slice and a clock of 1 ms, the
   * floor wraps around and the same task keeps its own vtime.
   */
  lemma ClampExamples()
    ensures ClampVtime(500_000, 1_000_000, 20_000) == 980_000
    ensures ClampVtime(500_000, 1_000_000, SCX_SLICE_DFL) == 500_000
  {
  }

  /** The clock after a task with virtual time `vtime` starts running. */
  function AdvanceClock(clock: u64, vtime: u64): (r: u64)
    ensures !IsSmaller(r, vtime)
    ensures r == clock || (r == vtime && IsSmaller(clock, vtime))
    ensures Sub64(vtime, clock) as int != TWO_63 ==> !IsSmaller(r, clock)
  {
    if IsSmaller(clock, vtime) then vtime else clock
  }

  /** The clock after tasks with the given virtual times start, one after another. */
  function ClockAfter(clock: u64, vtimes: seq<u64>): u64
    decreases |vtimes|
  {
    if vtimes == [] then clock else ClockAfter(AdvanceClock(clock, vtimes[0]), vtimes[1..])
  }

  /**
   * While all virtual times stay below 2^63 (no wrap-around), the clock is
   * the running maximum: no smaller than its start and than every started
   * task's virtual time, and equal to one of them.
   */
  lemma {:induction false} ClockIsRunningMaximum(clock: u64, vtimes: seq<u64>)
    requires clock as int < TWO_63
    requires forall i | 0 <= i < |vtimes| :: vtimes[i] as int < TWO_63
    ensures clock <= ClockAfter(clock, vtimes)
    ensures forall i | 0 <= i < |vtimes| :: vtimes[i] <= ClockAfter(clock, vtimes)
    ensures ClockAfter(clock, vtimes) == clock || ClockAfter(clock, vtimes) in vtimes
    decreases |vtimes|
  {
    if vtimes != [] {
      var next := AdvanceClock(clock, vtimes[0]);
      IsSmallerNearby(clock, vtimes[0]);
      assert next == Max(clock as int, vtimes[0] as int) as u64;
      assert forall i | 0 <= i < |vtimes[1..]| :: vtimes[1..][i] == vtimes[i + 1];
      ClockIsRunningMaximum(next, vtimes[1..]);
      forall i | 0 <= i < |vtimes|
        ensures vtimes[i] <= ClockAfter(clock, vtimes)
      {
        if i > 0 {
          assert vtimes[i] == vtimes[1..][i - 1];
        }
      }
    }
  }

  /**
   * The virtual time a task is charged for running `runtimeNs` at weight
   * `weight`: runtimeNs / weight more, rounded down (eBPF division, so a
   * zero weight would charge nothing; the kernel's weights are positive).
   */
  function ChargeVtime(vtime: u64, runtimeNs: u64, weight: u32): (r: u64)
    ensures vtime as int + runtimeNs as int < TWO_64 ==> vtime <= r
    ensures weight == 1 ==> r == Add64(vtime, runtimeNs)
    ensures weight == 0 ==> r == vtime
  {
    Add64(vtime, Div64(runtimeNs, weight as u64))
  }

  class VTimeScheduler {
    var setting: SchedulerSetting
    var taskStats: map<u32, TaskStat>
    var vtimeNow: u64

    constructor ()
      ensures setting == INITIAL_SETTING && taskStats == map[] && vtimeNow == 0
    {
      setting := INITIAL_SETTING;
      taskStats := map[];
      vtimeNow := 0;
    }

    /** getTaskStat: the same lookup-or-create as the FIFO policy's. */
    method GetTaskStat(p: Task, nrCpuIds: u32, stored: bool) returns (stat: Option<TaskStat>)
      modifies this
      ensures taskStats == AfterLookup(old(taskStats), p, nrCpuIds, stored)
      ensures stat == if p.tgid in taskStats then Some(taskStats[p.tgid]) else None
      ensures setting == old(setting) && vtimeNow == old(vtimeNow)
    {
      var id := p.tgid;
      if id !in taskStats {
        var created := TaskStat(ReadComm(p.comm), 0, 0, false, 0, HasConstraints(p, nrCpuIds));
        if stored {
          taskStats := taskStats[id := created];
        }
      }
      stat := if id in taskStats then Some(taskStats[id]) else None;
    }

    /**
     * enqueue: the slice and virtual time that task is inserted with. The
     * slice is always the default one (a scaled slice is computed by the
     * hook but never used); the virtual time is clamped.
     */
    method Enqueue(p: Task) returns (slice: u64, vtime: u64)
      ensures slice == SCX_SLICE_DFL
      ensures !IsSmaller(vtime, Sub64(vtimeNow, SCX_SLICE_DFL))
      ensures !IsSmaller(p.dsqVtime, Sub64(vtimeNow, SCX_SLICE_DFL)) ==> vtime == p.dsqVtime
      ensures vtime == p.dsqVtime || vtime == Sub64(vtimeNow, SCX_SLICE_DFL)
    {
      vtime := p.dsqVtime;
      if IsSmaller(vtime, Sub64(vtimeNow, SCX_SLICE_DFL)) {
        vtime := Sub64(vtimeNow, SCX_SLICE_DFL);
      }
      slice := SCX_SLICE_DFL;
    }

    /** dispatch: the same gate and walk as the FIFO policy's. */
    method Dispatch(cpu: nat, queue: seq<Task>, accepted: seq<bool>, nrCpuIds: u32) returns (moved: Option<nat>)
      requires |accepted| == |queue|
      ensures moved.Some? ==> moved.value < |queue|
      ensures moved.Some? ==> MayMove(queue[moved.value], setting, cpu, nrCpuIds) && accepted[moved.value]
      ensures forall j | 0 <= j < |queue| && (moved.Some? ==> j < moved.value) ::
        !(MayMove(queue[j], setting, cpu, nrCpuIds) && accepted[j])
    {
      moved := DispatchFromSharedQueue(queue, accepted, setting, cpu, nrCpuIds);
    }

    /**
     * running: move the clock forward to that task's virtual time when the
     * clock is before it, then update that task's record as the FIFO policy
     * does.
     */
    method Running(p: Task, now: u64, nrCpuIds: u32, stored: bool)
      modifies this
      ensures vtimeNow == AdvanceClock(old(vtimeNow), p.dsqVtime)
      ensures !IsSmaller(vtimeNow, p.dsqVtime)
      ensures var m := AfterLookup(old(taskStats), p, nrCpuIds, stored);
        taskStats == if p.tgid in m then m[p.tgid := MarkRunning(m[p.tgid], now)] else m
      ensures setting == old(setting)
    {
      var vtime := p.dsqVtime;
      if IsSmaller(vtimeNow, vtime) {
        vtimeNow := vtime;
      }
      var stat := GetTaskStat(p, nrCpuIds, stored);
      if stat.Some? {
        var s := stat.value;
        s := s.(currentlyRunning := true);
        s := s.(dispatches := Add64(s.dispatches, 1));
        s := s.(lastStartNs := now);
        taskStats := taskStats[p.tgid := s];
      }
    }

    /**
     * stopping: with a record present, mark it not running, add the elapsed
     * time to its runtime and charge that task elapsed / weight virtual time;
     * with none, neither the table nor that task changes.
     */
    method Stopping(p: Task, runnable: bool, now: u64, nrCpuIds: u32, stored: bool) returns (q: Task)
      modifies this
      ensures var m := AfterLookup(old(taskStats), p, nrCpuIds, stored);
        if p.tgid in m then
          && taskStats == m[p.tgid := MarkStopping(m[p.tgid], now)]
          && q == p.(dsqVtime := ChargeVtime(p.dsqVtime, Sub64(now, m[p.tgid].lastStartNs), p.weight))
        else
          taskStats == old(taskStats) && q == p
      ensures setting == old(setting) && vtimeNow == old(vtimeNow)
    {
      q := p;
      var stat := GetTaskStat(p, nrCpuIds, stored);
      if stat.None? {
        return;
      }
      var s := stat.value;
      s := s.(currentlyRunning := false);
      var runtimeNs := Sub64(now, s.lastStartNs);
      s := s.(runtimeNs := Add64(s.runtimeNs, runtimeNs));
      taskStats := taskStats[p.tgid := s];
      q := q.(dsqVtime := Add64(q.dsqVtime, Div64(runtimeNs, p.weight as u64)));
    }

    /** enable: a task becoming schedulable starts at the current clock. */
    method Enable(p: Task) returns (q: Task)
      ensures q == p.(dsqVtime := vtimeNow)
    {
      q := p.(dsqVtime := vtimeNow);
    }

    /** setSetting: replace the whole setting. */
    method SetSetting(newSetting: SchedulerSetting)
      modifies this
      ensures setting == newSetting && taskStats == old(taskStats) && vtimeNow == old(vtimeNow)
    {
      setting := newSetting;
    }
  }
}
