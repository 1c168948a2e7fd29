/**
 * The ranking engine: per process, a tracker of the run-time and dispatch
 * deltas between consecutive samples of the statistics table, the last
 * `keptStats` of them in a sliding window and their running sum; a
 * process whose run-time delta repeats is dropped. The engine keeps one
 * tracker per process that passes the filter and answers "most run",
 * "most dispatched" and per-process questions.
 */
module Scoring {
  import opened Machine
  import opened BaseScheduler
  import opened Collections
  import opened Ranking
  import opened Processes

  /** One window entry: the run time (ns) and dispatches of one interval. */
  datatype SingleStat = SingleStat(runtimeNs: int, dispatches: int)

  /** Componentwise sum. */
  function Plus(a: SingleStat, b: SingleStat): SingleStat
  {
    SingleStat(a.runtimeNs + b.runtimeNs, a.dispatches + b.dispatches)
  }

  /** Componentwise difference. */
  function Minus(a: SingleStat, b: SingleStat): SingleStat
  {
    SingleStat(a.runtimeNs - b.runtimeNs, a.dispatches - b.dispatches)
  }

  /** The componentwise sum of a window, added up from its oldest entry. */
  function SumStats(window: seq<SingleStat>): SingleStat
    decreases |window|
  {
    if window == [] then SingleStat(0, 0)
    else Plus(SumStats(window[..|window| - 1]), window[|window| - 1])
  }

  /** The sum is the oldest entry plus the sum of the rest. */
  lemma {:induction false} SumStatsFirst(window: seq<SingleStat>)
    requires window != []
    ensures SumStats(window) == Plus(window[0], SumStats(window[1..]))
    decreases |window|
  {
    if |window| > 1 {
      var init := window[..|window| - 1];
      SumStatsFirst(init);
      assert init[1..] == window[1..][..|window[1..]| - 1];
    }
  }

  /**
   * Java's long subtraction of two unsigned 64-bit counters: both read as
   * signed 64-bit values, the difference wrapping around.
   */
  function LongSub(a: u64, b: u64): (r: int)
    ensures -TWO_63 <= r < TWO_63
    ensures -TWO_63 <= a as int - b as int < TWO_63 ==> r == a as int - b as int
  {
    Signed64(Sub64(a, b))
  }

  /** The state of a ProcessInfo besides its pid and window size. */
  datatype Tracker = Tracker(
    lastStat: TaskStat,
    window: seq<SingleStat>,
    combined: SingleStat,
    changedRuntime: bool,
    changedDispatches: bool,
    runtimeDiff: int,
    dispatchesDiff: int,
    invalid: bool)

  /** A fresh tracker: the first sample, an empty window, zero sums and diffs, no flag set. */
  function NewTracker(stat: TaskStat): (r: Tracker)
    ensures r.lastStat == stat && r.window == [] && r.combined == SumStats(r.window)
    ensures r.runtimeDiff == 0 && r.dispatchesDiff == 0 && !r.changedRuntime && !r.changedDispatches
    ensures !r.invalid
  {
    Tracker(stat, [], SingleStat(0, 0), false, false, 0, 0, false)
  }

  /**
   * What every tracker keeps: the running sum is the sum of the window,
   * the window holds at most `kept` entries (none when `kept` is not
   * positive), and each changed-flag says its diff is positive.
   */
  ghost predicate Consistent(t: Tracker, kept: int)
  {
    && t.combined == SumStats(t.window)
    && |t.window| <= Max(kept, 0)
    && (t.changedRuntime <==> t.runtimeDiff > 0)
    && (t.changedDispatches <==> t.dispatchesDiff > 0)
  }

  /** A fresh tracker is consistent. */
  lemma NewTrackerConsistent(stat: TaskStat, kept: int)
    ensures Consistent(NewTracker(stat), kept)
  {
  }

  /**
   * The window after one more delta: appended at the end, and the oldest
   * entry removed when that makes it longer than `kept`.
   */
  function Slide(window: seq<SingleStat>, d: SingleStat, kept: int): (r: seq<SingleStat>)
    ensures |window| <= Max(kept, 0) ==> |r| <= Max(kept, 0)
    ensures |window| < kept ==> r == window + [d]
    ensures kept > 0 ==> r != [] && r[|r| - 1] == d
  {
    var w := window + [d];
    if |w| > kept then w[1..] else w
  }

  /** The window after a series of deltas, starting from an empty one. */
  function Slides(ds: seq<SingleStat>, kept: int): seq<SingleStat>
    decreases |ds|
  {
    if ds == [] then [] else Slide(Slides(ds[..|ds| - 1], kept), ds[|ds| - 1], kept)
  }

  /** The window always holds exactly the latest min(n, kept) deltas, oldest first. */
  lemma {:induction false} SlidesKeepLatest(ds: seq<SingleStat>, kept: int)
    ensures Slides(ds, kept) == ds[|ds| - Min(|ds|, Max(kept, 0))..]
    decreases |ds|
  {
    if ds != [] {
      var init := ds[..|ds| - 1];
      SlidesKeepLatest(init, kept);
      var k := Max(kept, 0);
      var before := init[|init| - Min(|init|, k)..];
      assert before + [ds[|ds| - 1]] == ds[|init| - Min(|init|, k)..];
    }
  }

  /**
   * ProcessInfo.update: when the new run-time delta equals the stored one,
   * the tracker is marked invalid with zero diffs and cleared flags, and
   * nothing else changes; otherwise the diffs and flags are recomputed, the
   * delta enters the window and the running sum, and the sample becomes
   * the last one.
   */
  function Advance(t: Tracker, s: TaskStat, kept: int): (r: Tracker)
    ensures r.invalid <==> t.invalid || LongSub(s.runtimeNs, t.lastStat.runtimeNs) == t.runtimeDiff
    ensures Consistent(t, kept) ==> Consistent(r, kept)
  {
    var runtimeDiff := LongSub(s.runtimeNs, t.lastStat.runtimeNs);
    if t.runtimeDiff == runtimeDiff then
      t.(runtimeDiff := 0, dispatchesDiff := 0, changedDispatches := false, changedRuntime := false, invalid := true)
    else
      var dispatchesDiff := LongSub(s.dispatches, t.lastStat.dispatches);
      var d := SingleStat(runtimeDiff, dispatchesDiff);
      var w := t.window + [d];
      var combined := if |w| > kept then Minus(t.combined, w[0]) else t.combined;
      SlideSum(t.window, t.combined, d, kept);
      Tracker(s, Slide(t.window, d, kept), Plus(combined, d), runtimeDiff > 0, dispatchesDiff > 0,
              runtimeDiff, dispatchesDiff, t.invalid)
  }

  /** Advance on a new run-time delta, spelled out field by field. */
  lemma AdvanceChanged(t: Tracker, s: TaskStat, kept: int)
    requires LongSub(s.runtimeNs, t.lastStat.runtimeNs) != t.runtimeDiff
    ensures var d := SingleStat(LongSub(s.runtimeNs, t.lastStat.runtimeNs), LongSub(s.dispatches, t.lastStat.dispatches));
      var w := t.window + [d];
      Advance(t, s, kept) == Tracker(s, Slide(t.window, d, kept),
        Plus(if |w| > kept then Minus(t.combined, w[0]) else t.combined, d),
        d.runtimeNs > 0, d.dispatches > 0, d.runtimeNs, d.dispatches, t.invalid)
  {
  }

  /** The running sum after one slide is the sum of the new window. */
  lemma SlideSum(window: seq<SingleStat>, combined: SingleStat, d: SingleStat, kept: int)
    ensures var w := window + [d];
      combined == SumStats(window) ==>
      Plus(if |w| > kept then Minus(combined, w[0]) else combined, d) == SumStats(Slide(window, d, kept))
  {
    var w := window + [d];
    assert w[..|w| - 1] == window;
    if |w| > kept {
      SumStatsFirst(w);
    }
  }

  /**
   * A repeated run-time delta invalidates the tracker and leaves its
   * sample, window and running sum as they were.
   */
  lemma RepeatInvalidates(t: Tracker, s: TaskStat, kept: int)
    requires LongSub(s.runtimeNs, t.lastStat.runtimeNs) == t.runtimeDiff
    ensures var r := Advance(t, s, kept);
      && r.invalid
      && r.runtimeDiff == 0 && r.dispatchesDiff == 0
      && !r.changedRuntime && !r.changedDispatches
      && r.lastStat == t.lastStat && r.window == t.window && r.combined == t.combined
  {
  }

  /**
   * A fresh tracker whose next sample shows an unchanged run time is
   * invalidated: its stored delta is 0 and so is the new one.
   */
  lemma IdleNewcomerInvalid(stat: TaskStat, s: TaskStat, kept: int)
    requires s.runtimeNs == stat.runtimeNs
    ensures Advance(NewTracker(stat), s, kept).invalid
  {
  }

  /**
   * A valid sample records new minus last as the diffs, sets each flag
   * exactly when its diff is positive, appends the delta to the window,
   * dropping exactly the oldest entry when the window overflows, and
   * makes the sample the last one.
   */
  lemma ValidSampleRecorded(t: Tracker, s: TaskStat, kept: int)
    requires LongSub(s.runtimeNs, t.lastStat.runtimeNs) != t.runtimeDiff
    requires 0 < kept
    ensures var r := Advance(t, s, kept);
      var d := SingleStat(LongSub(s.runtimeNs, t.lastStat.runtimeNs), LongSub(s.dispatches, t.lastStat.dispatches));
      && r.lastStat == s
      && r.runtimeDiff == d.runtimeNs && r.dispatchesDiff == d.dispatches
      && (r.changedRuntime <==> d.runtimeNs > 0) && (r.changedDispatches <==> d.dispatches > 0)
      && (|t.window| < kept ==> r.window == t.window + [d])
      && (|t.window| == kept ==> r.window == t.window[1..] + [d])
  {
    var d := SingleStat(LongSub(s.runtimeNs, t.lastStat.runtimeNs), LongSub(s.dispatches, t.lastStat.dispatches));
    if |t.window| == kept {
      assert (t.window + [d])[1..] == t.window[1..] + [d];
    }
  }

  /** The per-process record of the engine. */
  class ProcessInfo {
    const pid: int
    const keptStats: int
    var lastStat: TaskStat
    var lastStats: seq<SingleStat>
    var combinedStat: SingleStat
    var changedRuntimeSinceLastCheck: bool
    var changedDispatchesSinceLastCheck: bool
    var runtimeDiff: int
    var dispatchesDiff: int
    var invalid: bool

    /** The fields as a tracker value. */
    function State(): Tracker
      reads this
    {
      Tracker(lastStat, lastStats, combinedStat, changedRuntimeSinceLastCheck, changedDispatchesSinceLastCheck,
              runtimeDiff, dispatchesDiff, invalid)
    }

    ghost predicate Valid()
      reads this
    {
      Consistent(State(), keptStats)
    }

    constructor (pid: int, keptStats: int, lastStat: TaskStat)
      ensures this.pid == pid && this.keptStats == keptStats
      ensures State() == NewTracker(lastStat)
      ensures Valid()
    {
      this.pid := pid;
      this.keptStats := keptStats;
      this.lastStat := lastStat;
      lastStats := [];
      combinedStat := SingleStat(0, 0);
      changedRuntimeSinceLastCheck := false;
      changedDispatchesSinceLastCheck := false;
      runtimeDiff := 0;
      dispatchesDiff := 0;
      invalid := false;
    }

    /** update: take the next sample of the process's statistics. */
    method Update(newStat: TaskStat)
      requires Valid()
      modifies this
      ensures State() == Advance(old(State()), newStat, keptStats)
      ensures Valid()
    {
      if runtimeDiff == LongSub(newStat.runtimeNs, lastStat.runtimeNs) {
        runtimeDiff := 0;
        dispatchesDiff := 0;
        changedDispatchesSinceLastCheck := false;
        changedRuntimeSinceLastCheck := false;
        invalid := true;
        return;
      }
      Record(newStat);
    }

    /**
     * The part of update after a new run-time delta: the diffs, flags,
     * window, sum and last sample, computed from the old fields and then
     * stored.
     */
    method Record(newStat: TaskStat)
      requires LongSub(newStat.runtimeNs, lastStat.runtimeNs) != runtimeDiff
      modifies this
      ensures State() == Advance(old(State()), newStat, keptStats)
    {
      ghost var t := State();
      var rd := LongSub(newStat.runtimeNs, lastStat.runtimeNs);
      var dd := LongSub(newStat.dispatches, lastStat.dispatches);
      var window := lastStats + [SingleStat(rd, dd)];
      var combined := combinedStat;
      if |window| > keptStats {
        var removed := window[0];
        window := window[1..];
        combined := SingleStat(combined.runtimeNs - removed.runtimeNs, combined.dispatches - removed.dispatches);
      }
      combined := SingleStat(combined.runtimeNs + rd, combined.dispatches + dd);
      ghost var d := SingleStat(rd, dd);
      assert window == Slide(t.window, d, keptStats);
      assert combined == Plus(if |t.window + [d]| > keptStats then Minus(t.combined, (t.window + [d])[0]) else t.combined, d);
      AdvanceChanged(t, newStat, keptStats);
      runtimeDiff, dispatchesDiff := rd, dd;
      changedRuntimeSinceLastCheck, changedDispatchesSinceLastCheck := rd > 0, dd > 0;
      lastStats, combinedStat, lastStat := window, combined, newStat;
    }
  }

  /** Whether the process table knows the process and its command. */
  predicate HasCommand(table: ProcessTable, pid: int)
  {
    pid in table.commands && table.commands[pid].Some?
  }

  /**
   * update(pid, stat) on the trackers: a process without a command loses
   * its tracker; an untracked one gets a fresh tracker seeded with the
   * sample; a tracked one advances and is dropped if that invalidates it.
   * No other process's tracker changes, and consistent, valid trackers
   * stay so.
   */
  function AfterPidUpdate(infos: map<int, Tracker>, pid: int, stat: TaskStat, hasCommand: bool, kept: int)
    : (r: map<int, Tracker>)
    ensures forall q | q != pid :: (q in r <==> q in infos) && (q in r ==> r[q] == infos[q])
    ensures !hasCommand ==> pid !in r
    ensures hasCommand && pid !in infos ==> pid in r && r[pid] == NewTracker(stat)
    ensures hasCommand && pid in infos ==>
      (pid in r <==> !Advance(infos[pid], stat, kept).invalid) &&
      (pid in r ==> r[pid] == Advance(infos[pid], stat, kept))
    ensures (forall q | q in infos :: Consistent(infos[q], kept) && !infos[q].invalid) ==>
      forall q | q in r :: Consistent(r[q], kept) && !r[q].invalid
  {
    if !hasCommand then infos - {pid}
    else if pid !in infos then
      NewTrackerConsistent(stat, kept);
      infos[pid := NewTracker(stat)]
    else
      var t := Advance(infos[pid], stat, kept);
      if t.invalid then infos - {pid} else infos[pid := t]
  }

  /** A map that agrees with `before` except that `pid` advanced (or left, if that invalidated it) is update(pid, stat)'s result. */
  lemma AdvancedEntry(before: map<int, Tracker>, pid: int, stat: TaskStat, kept: int, after: map<int, Tracker>)
    requires pid in before
    requires var t := Advance(before[pid], stat, kept);
      after.Keys == if t.invalid then before.Keys - {pid} else before.Keys
    requires forall q | q in after && q != pid :: after[q] == before[q]
    requires pid in after ==> after[pid] == Advance(before[pid], stat, kept)
    ensures after == AfterPidUpdate(before, pid, stat, true, kept)
  {
    var t := Advance(before[pid], stat, kept);
    var expected := if t.invalid then before - {pid} else before[pid := t];
    assert after.Keys == expected.Keys;
    forall q | q in after ensures after[q] == expected[q] {
    }
  }

  /** The trackers after visiting the sampled processes in `order`, updating those the filter accepts. */
  function Sweep(infos: map<int, Tracker>, order: seq<int>, stats: map<int, TaskStat>, filtered: set<int>,
                 table: ProcessTable, kept: int): (r: map<int, Tracker>)
    requires forall i | 0 <= i < |order| :: order[i] in stats
    ensures r.Keys <= infos.Keys + Members(order)
    decreases |order|
  {
    if order == [] then infos
    else
      var before := Sweep(infos, order[..|order| - 1], stats, filtered, table, kept);
      var pid := order[|order| - 1];
      if pid in filtered then AfterPidUpdate(before, pid, stats[pid], HasCommand(table, pid), kept)
      else before
  }

  /** Extending the visited prefix by one process applies that process's update alone. */
  lemma SweepStep(infos: map<int, Tracker>, order: seq<int>, i: nat, stats: map<int, TaskStat>,
                  filtered: set<int>, table: ProcessTable, kept: int)
    requires i < |order| && forall j | 0 <= j < |order| :: order[j] in stats
    ensures var before := Sweep(infos, order[..i], stats, filtered, table, kept);
      Sweep(infos, order[..i + 1], stats, filtered, table, kept)
        == if order[i] in filtered then AfterPidUpdate(before, order[i], stats[order[i]], HasCommand(table, order[i]), kept)
           else before
  {
    assert order[..i + 1][..i] == order[..i];
  }

  /** The trackers of the processes in `keep` (removeIf over the key set). */
  function Prune(infos: map<int, Tracker>, keep: set<int>): (r: map<int, Tracker>)
    ensures r.Keys == infos.Keys * keep
    ensures forall p | p in r :: r[p] == infos[p]
  {
    map p | p in infos && p in keep :: infos[p]
  }

  /**
   * update(stats, filter) as a whole, with the sampled processes visited
   * once each: a process the filter rejects keeps its tracker exactly
   * when it was sampled; a process the filter accepts ends as one
   * update(pid, stat) leaves it; and no unsampled process stays tracked.
   * The iteration order does not matter.
   */
  lemma {:induction false} SweepEffect(infos: map<int, Tracker>, order: seq<int>, stats: map<int, TaskStat>,
                                       filtered: set<int>, table: ProcessTable, kept: int)
    requires Distinct(order) && Members(order) == stats.Keys
    ensures var r := Prune(Sweep(infos, order, stats, filtered, table, kept), stats.Keys);
      && r.Keys <= stats.Keys
      && (forall p | p in stats && p !in filtered :: (p in r <==> p in infos) && (p in r ==> r[p] == infos[p]))
      && (forall p | p in stats && p in filtered ::
            var u := AfterPidUpdate(infos, p, stats[p], HasCommand(table, p), kept);
            (p in r <==> p in u) && (p in r ==> r[p] == u[p]))
  {
    SweepLocal(infos, order, stats, filtered, table, kept);
  }

  /** Each step of the sweep touches only the process it visits. */
  lemma {:induction false} SweepLocal(infos: map<int, Tracker>, order: seq<int>, stats: map<int, TaskStat>,
                                      filtered: set<int>, table: ProcessTable, kept: int)
    requires Distinct(order) && forall i | 0 <= i < |order| :: order[i] in stats
    ensures var r := Sweep(infos, order, stats, filtered, table, kept);
      && (forall p | p !in order || p !in filtered :: (p in r <==> p in infos) && (p in r ==> r[p] == infos[p]))
      && (forall p | p in order && p in filtered ::
            var u := AfterPidUpdate(infos, p, stats[p], HasCommand(table, p), kept);
            (p in r <==> p in u) && (p in r ==> r[p] == u[p]))
    decreases |order|
  {
    if order != [] {
      var init := order[..|order| - 1];
      var last := order[|order| - 1];
      assert Distinct(init);
      assert order == init + [last];
      assert last !in init;
      SweepLocal(infos, init, stats, filtered, table, kept);
    }
  }

  /** The engine: the window size and one tracker per followed process. */
  class ScoredProcesses {
    const keptStats: int
    var processInfos: map<int, ProcessInfo>

    /** Each tracker belongs to its key, shares the window size, is consistent and not invalid. */
    ghost predicate Valid()
      reads this, processInfos.Values
    {
      forall p | p in processInfos ::
        && processInfos[p].pid == p
        && processInfos[p].keptStats == keptStats
        && processInfos[p].Valid()
        && !processInfos[p].invalid
    }

    /** The trackers as values. */
    ghost function States(): map<int, Tracker>
      reads this, processInfos.Values
    {
      map p | p in processInfos :: processInfos[p].State()
    }

    constructor (keptStats: int)
      ensures this.keptStats == keptStats && processInfos == map[]
      ensures Valid()
    {
      this.keptStats := keptStats;
      processInfos := map[];
    }

    /** update(pid, stat): the command lookup is answered by the process table. */
    method UpdatePid(pid: int, newStat: TaskStat, table: ProcessTable)
      requires Valid()
      modifies this, if pid in processInfos then {processInfos[pid]} else {}
      ensures Valid()
      ensures States() == AfterPidUpdate(old(States()), pid, newStat, HasCommand(table, pid), keptStats)
      ensures forall p | p in processInfos :: (p in old(processInfos) && processInfos[p] == old(processInfos)[p]) || fresh(processInfos[p])
    {
      if !HasCommand(table, pid) {
        Forget(pid);
        return;
      }
      if pid !in processInfos {
        Track(pid, newStat);
      } else {
        Sample(pid, newStat);
      }
    }

    /** processInfos.remove(pid). */
    method Forget(pid: int)
      requires Valid()
      modifies this
      ensures Valid()
      ensures processInfos == old(processInfos) - {pid}
      ensures States() == old(States()) - {pid}
    {
      processInfos := processInfos - {pid};
    }

    /** processInfos.put(pid, new ProcessInfo(pid, keptStats, newStat)) for an untracked process. */
    method Track(pid: int, newStat: TaskStat)
      requires Valid() && pid !in processInfos
      modifies this
      ensures Valid()
      ensures pid in processInfos && fresh(processInfos[pid])
      ensures processInfos == old(processInfos)[pid := processInfos[pid]]
      ensures States() == old(States())[pid := NewTracker(newStat)]
    {
      var info := new ProcessInfo(pid, keptStats, newStat);
      processInfos := processInfos[pid := info];
    }

    /** processInfos.get(pid).update(newStat), then remove the tracker if that invalidated it. */
    method Sample(pid: int, newStat: TaskStat)
      requires Valid() && pid in processInfos
      modifies this, processInfos[pid]
      ensures Valid()
      ensures processInfos == old(processInfos) || processInfos == old(processInfos) - {pid}
      ensures States() == AfterPidUpdate(old(States()), pid, newStat, true, keptStats)
    {
      var info := processInfos[pid];
      ghost var before := States();
      ghost var infos := processInfos;
      info.Update(newStat);
      forall q | q in infos && q != pid
        ensures infos[q].State() == before[q] && infos[q].Valid() && !infos[q].invalid
      {
        assert infos[q].pid == q;
      }
      if info.invalid {
        processInfos := processInfos - {pid};
      }
      ghost var after := States();
      assert after.Keys == if info.invalid then before.Keys - {pid} else before.Keys;
      forall q | q in after && q != pid ensures after[q] == before[q] {
        assert processInfos[q] == infos[q];
      }
      AdvancedEntry(before, pid, newStat, keptStats, after);
    }

    /**
     * update(stats, filter): visit the sampled processes in the table's
     * iteration order `order`, update those the filter contains, then
     * drop the trackers of processes no longer sampled.
     */
    method Update(stats: map<int, TaskStat>, order: seq<int>, filter: ProcessSet, table: ProcessTable)
      requires Valid()
      requires Distinct(order) && Members(order) == stats.Keys
      modifies this, processInfos.Values
      ensures Valid()
      ensures States() == Prune(Sweep(old(States()), order, stats, filter.filteredIds, table, keptStats), stats.Keys)
    {
      ghost var start := States();
      var availablePids: set<int> := {};
      for i := 0 to |order|
        invariant Valid()
        invariant availablePids == Members(order[..i])
        invariant States() == Sweep(start, order[..i], stats, filter.filteredIds, table, keptStats)
        invariant forall p | p in processInfos :: (p in old(processInfos) && processInfos[p] == old(processInfos)[p]) || fresh(processInfos[p])
      {
        var pid := order[i];
        var stat := stats[pid];
        if filter.Contains(pid) {
          UpdatePid(pid, stat, table);
        }
        availablePids := availablePids + {pid};
        PrefixMembers(order, i);
        SweepStep(start, order, i, stats, filter.filteredIds, table, keptStats);
      }
      assert order[..|order|] == order;
      Retain(availablePids);
    }

    /** processInfos.keySet().removeIf(pid -> !keep.contains(pid)). */
    method Retain(keep: set<int>)
      requires Valid()
      modifies this
      ensures Valid()
      ensures States() == Prune(old(States()), keep)
    {
      processInfos := map p | p in processInfos && p in keep :: processInfos[p];
    }

    /** The combined run time of each tracked process. */
    function RuntimeScores(): (score: map<int, int>)
      reads this, processInfos.Values
      ensures score.Keys == processInfos.Keys
    {
      map p | p in processInfos :: processInfos[p].combinedStat.runtimeNs
    }

    /** The combined dispatches of each tracked process. */
    function DispatchScores(): (score: map<int, int>)
      reads this, processInfos.Values
      ensures score.Keys == processInfos.Keys
    {
      map p | p in processInfos :: processInfos[p].combinedStat.dispatches
    }

    /**
     * getMostRunProcessesSortedDescendingly: `count` tracked processes (or
     * all, when fewer) with the largest combined run time, largest first;
     * none left out ran longer than one returned. `order` is the map's
     * iteration order, which decides ties.
     */
    function MostRunProcesses(order: seq<int>, count: nat): (r: seq<int>)
      reads this, processInfos.Values
      requires Distinct(order) && Members(order) == processInfos.Keys
      ensures |r| == Min(count, |processInfos|)
      ensures Distinct(r) && forall i | 0 <= i < |r| :: r[i] in processInfos
      ensures forall i, j | 0 <= i < j < |r| ::
        processInfos[r[i]].combinedStat.runtimeNs >= processInfos[r[j]].combinedStat.runtimeNs
      ensures forall p, i | p in processInfos && p !in r && 0 <= i < |r| ::
        processInfos[p].combinedStat.runtimeNs <= processInfos[r[i]].combinedStat.runtimeNs
    {
      var score := RuntimeScores();
      TopKIsRanking(order, score, count);
      MembersCount(order);
      TopK(order, score, count)
    }

    /** getMostDispatchedProcessesSortedDescendingly: the same ranking by combined dispatches. */
    function MostDispatchedProcesses(order: seq<int>, count: nat): (r: seq<int>)
      reads this, processInfos.Values
      requires Distinct(order) && Members(order) == processInfos.Keys
      ensures |r| == Min(count, |processInfos|)
      ensures Distinct(r) && forall i | 0 <= i < |r| :: r[i] in processInfos
      ensures forall i, j | 0 <= i < j < |r| ::
        processInfos[r[i]].combinedStat.dispatches >= processInfos[r[j]].combinedStat.dispatches
      ensures forall p, i | p in processInfos && p !in r && 0 <= i < |r| ::
        processInfos[p].combinedStat.dispatches <= processInfos[r[i]].combinedStat.dispatches
    {
      var score := DispatchScores();
      TopKIsRanking(order, score, count);
      MembersCount(order);
      TopK(order, score, count)
    }

    /** changedRuntimeSinceLastCheck(pid): false when untracked; for a tracked process, whether its run time grew in the last interval. */
    function ChangedRuntimeSinceLastCheck(pid: int): (r: bool)
      reads this, processInfos.Values
      ensures pid !in processInfos ==> !r
      ensures Valid() && pid in processInfos ==> (r <==> processInfos[pid].runtimeDiff > 0)
    {
      pid in processInfos && processInfos[pid].changedRuntimeSinceLastCheck
    }

    /** changedDispatchesSinceLastCheck(pid): the same for the dispatch count. */
    function ChangedDispatchesSinceLastCheck(pid: int): (r: bool)
      reads this, processInfos.Values
      ensures pid !in processInfos ==> !r
      ensures Valid() && pid in processInfos ==> (r <==> processInfos[pid].dispatchesDiff > 0)
    {
      pid in processInfos && processInfos[pid].changedDispatchesSinceLastCheck
    }

    /** getRuntimeInTimeSlice(pid): 0 when untracked, else the last run-time delta; positive exactly when the runtime flag is set. */
    function RuntimeInTimeSlice(pid: int): (r: int)
      reads this, processInfos.Values
      ensures pid !in processInfos ==> r == 0
      ensures Valid() ==> (r > 0 <==> ChangedRuntimeSinceLastCheck(pid))
    {
      if pid in processInfos then processInfos[pid].runtimeDiff else 0
    }

    /**
     * getDispatchesInTimeSlice(pid): 0 when untracked, else the last
     * dispatch delta narrowed to a Java int; a delta that fits is returned
     * as is.
     */
    function DispatchesInTimeSlice(pid: int): (r: int)
      reads this, processInfos.Values
      ensures -TWO_31 <= r < TWO_31
      ensures pid !in processInfos ==> r == 0
      ensures Valid() && 0 <= DispatchesDiffOf(pid) < TWO_31 ==> (r > 0 <==> ChangedDispatchesSinceLastCheck(pid))
    {
      if pid in processInfos then ToInt32(processInfos[pid].dispatchesDiff) else 0
    }

    /** The stored dispatch delta of a process, 0 when untracked. */
    function DispatchesDiffOf(pid: int): int
      reads this, processInfos.Values
    {
      if pid in processInfos then processInfos[pid].dispatchesDiff else 0
    }
  }
}
