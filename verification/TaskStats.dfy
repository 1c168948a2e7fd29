/**
 * The statistics table as both policies use it: lookup-or-create keyed by
 * task-group id, and the record updates made by the `running` and
 * `stopping` hooks. The table is a map; an insertion the kernel map
 * refuses (or a record evicted at once) is the `stored == false` case.
 */
module TaskStats {
  import opened Machine
  import opened BaseScheduler

  /**
   * The command as a bounded kernel-string read leaves it in the record's
   * buffer: at most COMM_LENGTH - 1 bytes, the rest being the terminator.
   */
  function ReadComm(src: seq<u8>): (r: Comm)
    ensures |r| < COMM_LENGTH
    ensures r <= src
    ensures |src| < COMM_LENGTH ==> r == src
  {
    if |src| < COMM_LENGTH then src else src[..COMM_LENGTH - 1]
  }

  /** The record getTaskStat creates for a task seen for the first time. */
  function NewTaskStat(p: Task, nrCpuIds: u32): (s: TaskStat)
    ensures s.dispatches == 0 && s.runtimeNs == 0 && s.lastStartNs == 0
    ensures !s.currentlyRunning
    ensures s.ignored == HasConstraints(p, nrCpuIds)
    ensures s.comm <= p.comm
  {
    TaskStat(ReadComm(p.comm), 0, 0, false, 0, HasConstraints(p, nrCpuIds))
  }

  /**
   * The table after getTaskStat(p): a record is created only when none
   * exists for p's task-group id, and no existing record is touched.
   */
  function AfterLookup(m: map<u32, TaskStat>, p: Task, nrCpuIds: u32, stored: bool): (r: map<u32, TaskStat>)
    ensures forall id | id in m :: id in r && r[id] == m[id]
    ensures r.Keys <= m.Keys + {p.tgid}
    ensures p.tgid in r <==> p.tgid in m || stored
    ensures p.tgid in r && p.tgid !in m ==> r[p.tgid] == NewTaskStat(p, nrCpuIds)
  {
    if p.tgid in m || !stored then m else m[p.tgid := NewTaskStat(p, nrCpuIds)]
  }

  /** The record update of the `running` hook at kernel time `now`. */
  function MarkRunning(s: TaskStat, now: u64): (r: TaskStat)
    ensures r.currentlyRunning && r.lastStartNs == now
    ensures r.dispatches as int == (s.dispatches as int + 1) % TWO_64
    ensures r.comm == s.comm && r.runtimeNs == s.runtimeNs && r.ignored == s.ignored
  {
    s.(currentlyRunning := true, dispatches := Add64(s.dispatches, 1), lastStartNs := now)
  }

  /** The record update of the `stopping` hook at kernel time `now`. */
  function MarkStopping(s: TaskStat, now: u64): (r: TaskStat)
    ensures !r.currentlyRunning
    ensures s.lastStartNs <= now ==>
      r.runtimeNs as int == (s.runtimeNs as int + (now as int - s.lastStartNs as int)) % TWO_64
    ensures r.comm == s.comm && r.dispatches == s.dispatches && r.lastStartNs == s.lastStartNs
    ensures r.ignored == s.ignored
  {
    s.(currentlyRunning := false, runtimeNs := Add64(s.runtimeNs, Sub64(now, s.lastStartNs)))
  }

  /**
   * A `running` at t1 followed by a `stopping` at t2 charges t2 - t1 to the
   * runtime and one dispatch, leaves that task not running, and changes
   * neither the name nor the `ignored` flag; without wrap-around both
   * counters grow.
   */
  lemma RunningThenStopping(s: TaskStat, t1: u64, t2: u64)
    ensures var r := MarkStopping(MarkRunning(s, t1), t2);
      && r.runtimeNs == Add64(s.runtimeNs, Sub64(t2, t1))
      && r.dispatches == Add64(s.dispatches, 1)
      && !r.currentlyRunning && r.lastStartNs == t1
      && r.comm == s.comm && r.ignored == s.ignored
    ensures var r := MarkStopping(MarkRunning(s, t1), t2);
      t1 <= t2 && s.runtimeNs as int + (t2 - t1) as int < TWO_64 && s.dispatches < U64_MAX ==>
        && r.runtimeNs as int == s.runtimeNs as int + (t2 - t1) as int
        && r.dispatches as int == s.dispatches as int + 1
        && r.runtimeNs >= s.runtimeNs && r.dispatches > s.dispatches
  {
  }

  /** A run of a task: started at `start`, stopped at `stop` (kernel times). */
  datatype Run = Run(start: u64, stop: u64)

  /** The record after the runs, each a `running` then a `stopping` hook. */
  function AfterRuns(s: TaskStat, runs: seq<Run>): TaskStat
    decreases |runs|
  {
    if runs == [] then s
    else AfterRuns(MarkStopping(MarkRunning(s, runs[0].start), runs[0].stop), runs[1..])
  }

  /** The total run time of the runs, as exact (unbounded) nanoseconds. */
  function TotalRunTime(runs: seq<Run>): int
    decreases |runs|
  {
    if runs == [] then 0 else (runs[0].stop as int - runs[0].start as int) + TotalRunTime(runs[1..])
  }

  predicate Ordered(runs: seq<Run>)
  {
    forall i | 0 <= i < |runs| :: runs[i].start <= runs[i].stop
  }

  /**
   * After any sequence of running/stopping pairs with start <= stop, the
   * runtime counter equals its initial value plus the sum of the pairs'
   * durations, and the dispatch counter grew by the number of pairs (both
   * modulo 2^64, the counters being unsigned 64-bit).
   */
  lemma {:induction false} RuntimeIsSumOfRuns(s: TaskStat, runs: seq<Run>)
    requires Ordered(runs)
    ensures AfterRuns(s, runs).runtimeNs as int == (s.runtimeNs as int + TotalRunTime(runs)) % TWO_64
    ensures AfterRuns(s, runs).dispatches as int == (s.dispatches as int + |runs|) % TWO_64
    decreases |runs|
  {
    if runs != [] {
      var s1 := MarkStopping(MarkRunning(s, runs[0].start), runs[0].stop);
      var d := runs[0].stop as int - runs[0].start as int;
      assert Ordered(runs[1..]) by {
        forall i | 0 <= i < |runs[1..]| ensures runs[1..][i].start <= runs[1..][i].stop {
          assert runs[1..][i] == runs[i + 1];
        }
      }
      RuntimeIsSumOfRuns(s1, runs[1..]);
      assert Sub64(runs[0].stop, runs[0].start) as int == d;
      assert s1.runtimeNs as int == (s.runtimeNs as int + d) % TWO_64;
      assert s1.dispatches as int == (s.dispatches as int + 1) % TWO_64;
      ModAddAbsorb(s.runtimeNs as int + d, TotalRunTime(runs[1..]));
      ModAddAbsorb(s.dispatches as int + 1, |runs| - 1);
    }
  }

  lemma ModAddAbsorb(a: int, b: int)
    ensures (a % TWO_64 + b) % TWO_64 == (a + b) % TWO_64
  {
    var q := a / TWO_64;
    assert a == q * TWO_64 + a % TWO_64;
    assert a + b == (a % TWO_64 + b) + q * TWO_64;
  }

  /**
   * Without wrap-around, every single step of such a sequence leaves both
   * counters no smaller than before.
   */
  lemma {:induction false} CountersNeverDecrease(s: TaskStat, runs: seq<Run>, k: nat)
    requires Ordered(runs)
    requires k < |runs|
    requires s.runtimeNs as int + TotalRunTime(runs) < TWO_64
    requires s.dispatches as int + |runs| < TWO_64
    ensures AfterRuns(s, runs[..k + 1]).runtimeNs >= AfterRuns(s, runs[..k]).runtimeNs
    ensures AfterRuns(s, runs[..k + 1]).dispatches > AfterRuns(s, runs[..k]).dispatches
  {
    var before := runs[..k];
    var after := runs[..k + 1];
    assert Ordered(before) && Ordered(after);
    RuntimeIsSumOfRuns(s, before);
    RuntimeIsSumOfRuns(s, after);
    TotalRunTimePrefix(runs, k);
    TotalRunTimeSplit(runs, k + 1);
    TotalRunTimeBounds(runs[k + 1..]);
    TotalRunTimeBounds(before);
    var x := s.runtimeNs as int;
    var tb, ta := TotalRunTime(before), TotalRunTime(after);
    assert tb <= ta && x + ta < TWO_64;
    ModSmall(x + tb);
    ModSmall(x + ta);
    ModSmall(s.dispatches as int + k);
    ModSmall(s.dispatches as int + k + 1);
  }

  lemma ModSmall(a: int)
    requires 0 <= a < TWO_64
    ensures a % TWO_64 == a
  {
  }

  lemma {:induction false} TotalRunTimeBounds(runs: seq<Run>)
    requires Ordered(runs)
    ensures TotalRunTime(runs) >= 0
    decreases |runs|
  {
    if runs != [] {
      assert Ordered(runs[1..]) by {
        forall i | 0 <= i < |runs[1..]| ensures runs[1..][i].start <= runs[1..][i].stop {
          assert runs[1..][i] == runs[i + 1];
        }
      }
      TotalRunTimeBounds(runs[1..]);
    }
  }

  lemma {:induction false} TotalRunTimeSplit(runs: seq<Run>, k: nat)
    requires k <= |runs|
    ensures TotalRunTime(runs) == TotalRunTime(runs[..k]) + TotalRunTime(runs[k..])
    decreases k
  {
    if k > 0 {
      TotalRunTimeSplit(runs[1..], k - 1);
      assert runs[1..][..k - 1] == runs[..k][1..];
      assert runs[1..][k - 1..] == runs[k..];
    }
  }

  lemma TotalRunTimePrefix(runs: seq<Run>, k: nat)
    requires k < |runs|
    ensures TotalRunTime(runs[..k + 1]) == TotalRunTime(runs[..k]) + (runs[k].stop as int - runs[k].start as int)
  {
    TotalRunTimeSplit(runs[..k + 1], k);
    assert runs[..k + 1][..k] == runs[..k];
    assert runs[..k + 1][k..] == [runs[k]];
    assert [runs[k]][1..] == [];
  }
}
