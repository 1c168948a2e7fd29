/**
 * The FIFO round-robin policy: one shared queue in arrival order, a fixed
 * or queue-depth-scaled slice, and the statistics table updated by the
 * `running` and `stopping` hooks. Each hook runs to completion before the
 * next (sequential semantics); kernel time, the queue depth, the queue's
 * contents and the kernel's answers are inputs.
 */
module Fifo {
  import opened Machine
  import opened Wrappers
  import opened BaseScheduler
  import opened TaskStats
  import opened DispatchGate

  /** The id of the shared dispatch queue. */
  const SHARED_DSQ_ID: int := 0

  /**
   * The slice given to an enqueued task: the configured length, divided by
   * the number of queued tasks when scaling is on (eBPF division, so an
   * empty queue gives 0).
   */
  function SliceFor(setting: SchedulerSetting, queued: nat): (slice: u32)
    ensures slice <= setting.sliceLength
    ensures !setting.scaleSliceLength ==> slice == setting.sliceLength
    ensures setting.scaleSliceLength && queued > 0 ==>
      slice as int * queued <= setting.sliceLength as int < (slice as int + 1) * queued
    ensures setting.scaleSliceLength && queued == 0 ==> slice == 0
  {
    if setting.scaleSliceLength then Div32(setting.sliceLength, queued) else setting.sliceLength
  }

  /** A 5 ms slice scaled over five queued tasks is 1 ms; over an empty queue it is 0. */
  lemma ScaledSliceExample()
    ensures SliceFor(SchedulerSetting(5_000_000, 1, true), 5) == 1_000_000
    ensures SliceFor(SchedulerSetting(5_000_000, 1, false), 5) == 5_000_000
    ensures SliceFor(SchedulerSetting(5_000_000, 1, true), 0) == 0
  {
  }

  class FifoScheduler {
    var setting: SchedulerSetting
    var taskStats: map<u32, TaskStat>

    constructor ()
      ensures setting == INITIAL_SETTING && taskStats == map[]
    {
      setting := INITIAL_SETTING;
      taskStats := map[];
    }

    /**
     * getTaskStat: look that task's record up, creating a zeroed one when
     * there is none; `stored` is whether the table keeps an insertion.
     * The result is what the second lookup finds.
     */
    method GetTaskStat(p: Task, nrCpuIds: u32, stored: bool) returns (stat: Option<TaskStat>)
      modifies this
      ensures taskStats == AfterLookup(old(taskStats), p, nrCpuIds, stored)
      ensures stat == if p.tgid in taskStats then Some(taskStats[p.tgid]) else None
      ensures setting == old(setting)
    {
      var id := p.tgid;
      if id !in taskStats {
        var created := TaskStat(ReadComm(p.comm), 0, 0, false, 0, HasConstraints(p, nrCpuIds));
        if stored {
          taskStats := taskStats[id := created];
        }
      }
      stat := if id in taskStats then Some(taskStats[id]) else None;
    }

    /** enqueue: the slice that task is inserted into the shared queue with. */
    method Enqueue(p: Task, queued: nat) returns (slice: u32)
      ensures slice == SliceFor(setting, queued)
    {
      slice := setting.sliceLength;
      if setting.scaleSliceLength {
        slice := Div32(slice, queued);
      }
    }

    /** dispatch: move at most one task from the shared queue onto `cpu`. */
    method Dispatch(cpu: nat, queue: seq<Task>, accepted: seq<bool>, nrCpuIds: u32) returns (moved: Option<nat>)
      requires |accepted| == |queue|
      ensures moved.Some? ==> moved.value < |queue|
      ensures moved.Some? ==> MayMove(queue[moved.value], setting, cpu, nrCpuIds) && accepted[moved.value]
      ensures forall j | 0 <= j < |queue| && (moved.Some? ==> j < moved.value) ::
        !(MayMove(queue[j], setting, cpu, nrCpuIds) && accepted[j])
    {
      moved := DispatchFromSharedQueue(queue, accepted, setting, cpu, nrCpuIds);
    }

    /**
     * running: with a record present, mark it running, count one dispatch
     * and stamp the start time; with none, nothing but the lookup happens.
     */
    method Running(p: Task, now: u64, nrCpuIds: u32, stored: bool)
      modifies this
      ensures var m := AfterLookup(old(taskStats), p, nrCpuIds, stored);
        taskStats == if p.tgid in m then m[p.tgid := MarkRunning(m[p.tgid], now)] else m
      ensures p.tgid !in taskStats ==> taskStats == old(taskStats)
      ensures setting == old(setting)
    {
      var stat := GetTaskStat(p, nrCpuIds, stored);
      if stat.Some? {
        var s := stat.value;
        s := s.(currentlyRunning := true);
        s := s.(dispatches := Add64(s.dispatches, 1));
        s := s.(lastStartNs := now);
        taskStats := taskStats[p.tgid := s];
      }
    }

    /**
     * stopping: with a record present, mark it not running and add the time
     * since its start to its runtime; with none, nothing changes.
     */
    method Stopping(p: Task, runnable: bool, now: u64, nrCpuIds: u32, stored: bool)
      modifies this
      ensures var m := AfterLookup(old(taskStats), p, nrCpuIds, stored);
        taskStats == if p.tgid in m then m[p.tgid := MarkStopping(m[p.tgid], now)] else m
      ensures p.tgid !in taskStats ==> taskStats == old(taskStats)
      ensures setting == old(setting)
    {
      var stat := GetTaskStat(p, nrCpuIds, stored);
      if stat.Some? {
        var s := stat.value;
        s := s.(currentlyRunning := false);
        s := s.(runtimeNs := Add64(s.runtimeNs, Sub64(now, s.lastStartNs)));
        taskStats := taskStats[p.tgid := s];
      }
    }

    /** setSetting: replace the whole setting. */
    method SetSetting(newSetting: SchedulerSetting)
      modifies this
      ensures setting == newSetting && taskStats == old(taskStats)
    {
      setting := newSetting;
    }
  }

  /**
   * A client of the hooks: a task's first `running` then `stopping` leaves
   * one dispatch and the elapsed time in its fresh record.
   */
  method RunOnce(fifo: FifoScheduler, p: Task, t1: u64, t2: u64, nrCpuIds: u32)
    requires p.tgid !in fifo.taskStats
    requires t1 <= t2
    modifies fifo
    ensures p.tgid in fifo.taskStats
    ensures fifo.taskStats[p.tgid].dispatches == 1
    ensures fifo.taskStats[p.tgid].runtimeNs == t2 - t1
    ensures !fifo.taskStats[p.tgid].currentlyRunning
    ensures fifo.taskStats[p.tgid].ignored == HasConstraints(p, nrCpuIds)
  {
    fifo.Running(p, t1, nrCpuIds, true);
    fifo.Stopping(p, false, t2, nrCpuIds, true);
  }
}
