# sound-of-scheduling, modelled in Dafny

sound-of-scheduling plugs two CPU-scheduling policies into the Linux
kernel's extensible scheduler class. Its userspace side ranks processes by
how much they run, and plays the ranking as music. This project models the
core of both halves and proves properties of the model.

- **Policies** (modules `BaseScheduler`, `TaskStats`, `DispatchGate`, `Fifo`, `VTime`):
  - the settings record and the per-task statistics record;
  - the eligibility rule `hasConstraints`;
  - the lookup-or-create access to the statistics table;
  - the FIFO policy's slice scaling;
  - the shared `dispatch` walk with its core limit;
  - the `running`/`stopping` counter updates;
  - the virtual-time policy: its wrap-around comparison, the clamp on enqueue, the forward-moving global clock and the weighted charge on stop.

  Unsigned 64- and 32-bit arithmetic is modelled explicitly in module
  `Machine`: wrap-around, the signed reinterpretation `(long)`, Java's
  truncating division and narrowing casts, and eBPF division, where x / 0 is 0.
- **Ranking engine** (modules `Scoring`, `Ranking`):
  - the per-process tracker. It computes the run-time and dispatch deltas between samples, keeps a sliding window of the last `keptStats` deltas and their running sum, and invalidates the tracker on a repeated run-time delta.
  - the engine's map of trackers, updated per pid and per snapshot, with the filter applied and vanished pids dropped;
  - the descending, capped "most run" and "most dispatched" rankings;
  - the per-pid queries.

  A `ProcessInfo` is a class whose fields `update` changes in place. Its
  fields are also viewed as a `Tracker` value, so its behaviour is stated
  by the function `Advance`.
- **Process filter** (module `Processes`): the processes whose command
  contains a filter word, plus all their descendants. The recursive walk is
  proved to compute the least set holding the matches that is closed under
  "child of".
- **Music** (modules `Scales`, `Music`):
  - the scales, generated into an array octave by octave and filtered to the playable range;
  - the note allocator, which keeps notes injective, returns the notes of vanished processes to the pool and hands newcomers the free notes nearest the scale's centre;
  - the loudness and velocity formulas.

Kernel services become parameters:
- the clock reading `now`;
- whether the table keeps an insertion (`stored`);
- the kernel's answer to a move request (`accepted`);
- the queue depth `queued`;
- the number of CPU ids `nrCpuIds`;
- the queue's contents in their order.

The operating system's process table is a snapshot value (`ProcessTable`).
A Java `HashMap`'s iteration order is an `order` parameter.

### Points where the code's behaviour is easy to misread

The model follows the code in each case.

- **Empty queue when scaling.** The FIFO `enqueue` (FIFOScheduler.java:64-66) divides the slice length by `scx_bpf_dsq_nr_queued` with no guard against a zero depth. eBPF division by zero yields 0, so the slice is then 0 (`Fifo.SliceFor`, `Fifo.ScaledSliceExample`).
- **Core limit of -1.** The command-line option documents -1 as "all cores" (Main.java:45-46). The `dispatch` gate (FIFOScheduler.java:82) lets ordinary tasks through only when `cores != -1`, so with -1 only constrained tasks are ever moved (`DispatchGate.NoCoreLimitMovesOnlyConstrained`). Main.java:109 passes its arguments as (cores, slice, scale) to the record (sliceLength, cores, scaleSliceLength); Main.java is not part of this model, whose hooks take the record as given.
- **Invalidation.** `ProcessInfo.update` (ScoredProcesses.java:38) compares any run-time delta, zero included, with the stored one, which starts at 0. So a newly tracked process whose run time does not change at its next sample is dropped (`Scoring.IdleNewcomerInvalid`).
- **`MusicToNote.update`.** Its comment (MusicPlayer.java:48) promises "the notes that changed owners". It returns the removed *processes* (MusicPlayer.java:55), and `Music.MusicToNote.Update` states that.
- **Virtual-time slice.** The virtual-time `enqueue` computes a scaled slice but inserts it with the default slice (VTimeScheduler.java:72-75, 86). `VTime.VTimeScheduler.Enqueue` returns the default slice.

## Model

Source cells are paths in the repository with line ranges.

| member | source | states |
|---|---|---|
| Machine.Add64 | src/main/java/me/bechberger/sos/scheduler/FIFOScheduler.java:97 | unsigned 64-bit addition: the exact sum when it fits, the sum minus 2^64 otherwise |
| Machine.Sub64 | src/main/java/me/bechberger/sos/scheduler/FIFOScheduler.java:108 | unsigned 64-bit subtraction: the exact difference when non-negative, plus 2^64 otherwise |
| Machine.Div64 | src/main/java/me/bechberger/sos/scheduler/VTimeScheduler.java:151 | eBPF unsigned division: the floor quotient (q*b <= a < (q+1)*b), never above the dividend, and 0 for a zero divisor |
| Machine.Div32 | src/main/java/me/bechberger/sos/scheduler/FIFOScheduler.java:65 | the same for the 32-bit slice length divided by a queue depth |
| Machine.Signed64 | src/main/java/me/bechberger/sos/scheduler/VTimeScheduler.java:62 | the `(long)` reading of a u64: in the signed range, negative exactly when the top bit is set, congruent modulo 2^64 |
| Machine.JavaDiv | src/main/java/me/bechberger/sos/music/MusicPlayer.java:144 | Java's truncating division: equal to floor division for a non-negative dividend and positive divisor, non-negative when the signs agree |
| Machine.JavaDivTruncates | src/main/java/me/bechberger/sos/music/MusicPlayer.java:177 | Java's division truncates toward zero: the quotient's magnitude is the floor of \|a\| / \|b\| and a non-zero quotient is negative exactly when the signs differ |
| Machine.ToInt32 | src/main/java/me/bechberger/sos/ScoredProcesses.java:80 | the `(int)` narrowing cast: in the int range, congruent modulo 2^32, the identity on values that fit |
| BaseScheduler.HasConstraints | src/main/java/me/bechberger/sos/scheduler/BaseScheduler.java:53-56 | a task is unconstrained exactly when it is not a kernel thread and may run on every CPU id |
| BaseScheduler.KThreadBitConstrains | src/main/java/me/bechberger/sos/scheduler/BaseScheduler.java:55 | setting the kernel-thread flag makes any task constrained, whatever its other flags |
| TaskStats.ReadComm | src/main/java/me/bechberger/sos/scheduler/FIFOScheduler.java:49 | the bounded string read leaves a prefix of the command of fewer than 40 bytes, the whole command when it is that short |
| TaskStats.NewTaskStat | src/main/java/me/bechberger/sos/scheduler/FIFOScheduler.java:44-49 | a created record has zero counters, is not running, snapshots the eligibility rule in `ignored` and holds a prefix of the command |
| TaskStats.MarkRunning | src/main/java/me/bechberger/sos/scheduler/FIFOScheduler.java:95-99 | the record becomes running, starts at `now`, and counts one more dispatch modulo 2^64; name, run time and `ignored` are kept |
| TaskStats.MarkStopping | src/main/java/me/bechberger/sos/scheduler/FIFOScheduler.java:105-109 | the record stops running and, when its start is not after `now`, its run time grows by the elapsed time modulo 2^64; everything else is kept |
| TaskStats.AfterLookup | src/main/java/me/bechberger/sos/scheduler/FIFOScheduler.java:40-54 | lookup-or-create: existing records are untouched, only that task's own id can be added, exactly when it was absent and the table kept it, and then with a fresh record |
| TaskStats.RunningThenStopping | src/main/java/me/bechberger/sos/scheduler/FIFOScheduler.java:91-110 | a running/stopping pair charges the elapsed time and one dispatch, leaves that task not running and keeps its name and `ignored` flag; without wrap-around both counters grow |
| TaskStats.RuntimeIsSumOfRuns | src/main/java/me/bechberger/sos/scheduler/FIFOScheduler.java:91-110 | after any series of runs the runtime counter is its start plus the total run time, and the dispatch counter its start plus the number of runs, modulo 2^64 |
| TaskStats.CountersNeverDecrease | src/main/java/me/bechberger/sos/scheduler/FIFOScheduler.java:91-110 | while no counter overflows, each further run leaves the runtime no smaller and the dispatch count strictly larger |
| DispatchGate.CanScheduleNonKThreads | src/main/java/me/bechberger/sos/scheduler/FIFOScheduler.java:82 | with cores == -1 ordinary tasks never pass; otherwise they pass exactly on CPUs numbered below `cores` |
| DispatchGate.MayMove | src/main/java/me/bechberger/sos/scheduler/FIFOScheduler.java:82-85 | a task passes only onto a CPU in its mask; a constrained task passes exactly then, an unconstrained one only when the core limit also admits that CPU |
| DispatchGate.TryDispatching | src/main/java/me/bechberger/sos/scheduler/FIFOScheduler.java:70-78 | a task is moved only onto a CPU in its mask; a CPU outside the mask never gets it |
| DispatchGate.DispatchFromSharedQueue | src/main/java/me/bechberger/sos/scheduler/FIFOScheduler.java:80-89 | the queue entry moved, if any, is the first in queue order that passes the gate and that the kernel accepts; with none moved, no task qualified |
| DispatchGate.NoCoreLimitMovesOnlyConstrained | src/main/java/me/bechberger/sos/scheduler/FIFOScheduler.java:82 | with cores == -1 a task passes the gate exactly when it is constrained and may use the CPU |
| Fifo.SliceFor | src/main/java/me/bechberger/sos/scheduler/FIFOScheduler.java:61-68 | the slice is never above the configured length; unscaled it is that length; scaled it is the floor of length / depth, and 0 for an empty queue |
| Fifo.ScaledSliceExample | src/main/java/me/bechberger/sos/scheduler/FIFOScheduler.java:63-66 | a 5 ms slice over five queued tasks is 1 ms, unscaled it stays 5 ms, over an empty queue it is 0 |
| Fifo.FifoScheduler.constructor | src/main/java/me/bechberger/sos/scheduler/FIFOScheduler.java:33-36 | the policy starts from the setting (1 ns, 1 core, scaling on) and an empty table |
| Fifo.FifoScheduler.GetTaskStat | src/main/java/me/bechberger/sos/scheduler/FIFOScheduler.java:38-54 | the table becomes the lookup-or-create result and the returned record is what it now holds for that task |
| Fifo.FifoScheduler.Enqueue | src/main/java/me/bechberger/sos/scheduler/FIFOScheduler.java:61-68 | that task is queued with the slice `SliceFor` prescribes |
| Fifo.FifoScheduler.Dispatch | src/main/java/me/bechberger/sos/scheduler/FIFOScheduler.java:80-89 | the dispatch walk under the current setting: first eligible, accepted task, or none |
| Fifo.FifoScheduler.Running | src/main/java/me/bechberger/sos/scheduler/FIFOScheduler.java:91-100 | after the lookup, that task's record (if any) is marked running with one more dispatch and the start time; nothing else changes |
| Fifo.FifoScheduler.Stopping | src/main/java/me/bechberger/sos/scheduler/FIFOScheduler.java:102-110 | after the lookup, that task's record (if any) is marked stopped and charged the time since its start; nothing else changes |
| Fifo.FifoScheduler.SetSetting | src/main/java/me/bechberger/sos/scheduler/FIFOScheduler.java:112-115 | the setting is replaced whole and the table kept |
| Fifo.RunOnce | src/main/java/me/bechberger/sos/scheduler/FIFOScheduler.java:91-110 | a new task's first running/stopping pair leaves a record with one dispatch, the elapsed time, not running, and the eligibility snapshot |
| VTime.IsSmaller | src/main/java/me/bechberger/sos/scheduler/VTimeScheduler.java:61-63 | `a` comes before `b` exactly when a - b modulo 2^64 has its top bit set, and never for equal values |
| VTime.IsSmallerIrreflexive | src/main/java/me/bechberger/sos/scheduler/VTimeScheduler.java:59-63 | no virtual time comes before itself |
| VTime.IsSmallerNearby | src/main/java/me/bechberger/sos/scheduler/VTimeScheduler.java:59-63 | for values less than 2^63 apart the wrap-around comparison is the ordinary order |
| VTime.IsSmallerWraps | src/main/java/me/bechberger/sos/scheduler/VTimeScheduler.java:59-63 | across the wrap, the largest u64 comes before 0 and not the reverse |
| VTime.IsSmallerAsymmetric | src/main/java/me/bechberger/sos/scheduler/VTimeScheduler.java:59-63 | two values each come before the other exactly when they are 2^63 apart |
| VTime.ClampVtime | src/main/java/me/bechberger/sos/scheduler/VTimeScheduler.java:77-85 | the enqueued virtual time is never before clock - slice, equals that task's own when that is not before it, and is always one of the two |
| VTime.ClampExamples | src/main/java/me/bechberger/sos/scheduler/VTimeScheduler.java:83-85 | a task far behind the clock is lifted to clock - slice; with a clock smaller than the slice the floor wraps and that task keeps its own time |
| VTime.AdvanceClock | src/main/java/me/bechberger/sos/scheduler/VTimeScheduler.java:118-121 | after a task starts, the clock is not before that task's virtual time; it is unchanged or moves to that time only when it was before it; it never moves back except across a 2^63 gap |
| VTime.ClockIsRunningMaximum | src/main/java/me/bechberger/sos/scheduler/VTimeScheduler.java:111-121 | without wrap-around the clock after a series of starts is the maximum of its start and every started virtual time |
| VTime.ChargeVtime | src/main/java/me/bechberger/sos/scheduler/VTimeScheduler.java:148-151 | the charge never lowers the virtual time when no wrap occurs; at weight 1 it adds the full run time; at weight 0 (eBPF division) nothing |
| VTime.VTimeScheduler.constructor | src/main/java/me/bechberger/sos/scheduler/VTimeScheduler.java:34-57 | the policy starts from the initial setting, an empty table and clock 0 |
| VTime.VTimeScheduler.GetTaskStat | src/main/java/me/bechberger/sos/scheduler/VTimeScheduler.java:39-55 | the lookup-or-create of the table, leaving the setting and clock unchanged |
| VTime.VTimeScheduler.Enqueue | src/main/java/me/bechberger/sos/scheduler/VTimeScheduler.java:70-87 | that task is queued with the default slice and its virtual time clamped to at most one slice behind the clock |
| VTime.VTimeScheduler.Dispatch | src/main/java/me/bechberger/sos/scheduler/VTimeScheduler.java:99-108 | the same dispatch walk as the FIFO policy |
| VTime.VTimeScheduler.Running | src/main/java/me/bechberger/sos/scheduler/VTimeScheduler.java:110-129 | the clock advances to that task's virtual time when it was before it and ends not before it; the record is updated as in the FIFO policy |
| VTime.VTimeScheduler.Stopping | src/main/java/me/bechberger/sos/scheduler/VTimeScheduler.java:131-153 | with a record, it is marked stopped and charged the elapsed time, and that task is charged elapsed / weight virtual time; without one, neither table nor task changes |
| VTime.VTimeScheduler.Enable | src/main/java/me/bechberger/sos/scheduler/VTimeScheduler.java:155-158 | a newly enabled task starts at the current clock |
| VTime.VTimeScheduler.SetSetting | src/main/java/me/bechberger/sos/scheduler/VTimeScheduler.java:160-163 | the setting is replaced whole; table and clock are kept |
| Ranking.SortDescending | src/main/java/me/bechberger/sos/ScoredProcesses.java:124-125 | the sort returns a permutation of its input with scores never increasing |
| Ranking.TopK | src/main/java/me/bechberger/sos/ScoredProcesses.java:122-129 | the capped list has min(count, n) entries, all scored, with scores never increasing |
| Ranking.TopKIsRanking | src/main/java/me/bechberger/sos/ScoredProcesses.java:122-129 | the capped ranking holds min(count, n) distinct tracked processes, highest score first, and nothing left out scores above anything kept |
| Scoring.LongSub | src/main/java/me/bechberger/sos/ScoredProcesses.java:46-47 | Java's long difference of two counters lies in the long range and is the exact difference whenever that fits |
| Scoring.NewTracker | src/main/java/me/bechberger/sos/ScoredProcesses.java:29-35 | a fresh tracker holds the seed sample, an empty window whose sum it stores, zero diffs, cleared flags, and is valid |
| Scoring.NewTrackerConsistent | src/main/java/me/bechberger/sos/ScoredProcesses.java:29-35 | a fresh tracker keeps the window invariant: running sum equals window sum, window within size, flags agree with diffs |
| Scoring.Slide | src/main/java/me/bechberger/sos/ScoredProcesses.java:50-54 | the window after a delta ends with it, keeps within its size bound, and simply grows while below it |
| Scoring.SlidesKeepLatest | src/main/java/me/bechberger/sos/ScoredProcesses.java:50-54 | after any series of deltas the window is exactly the latest min(n, keptStats) of them, oldest first |
| Scoring.Advance | src/main/java/me/bechberger/sos/ScoredProcesses.java:37-57 | a sample invalidates the tracker exactly when its run-time delta repeats the stored one; every sample preserves the window invariant |
| Scoring.RepeatInvalidates | src/main/java/me/bechberger/sos/ScoredProcesses.java:38-45 | a repeated delta marks the tracker invalid with zero diffs and cleared flags, and keeps its sample, window and sum |
| Scoring.IdleNewcomerInvalid | src/main/java/me/bechberger/sos/ScoredProcesses.java:29-45 | a new tracker whose next sample has the same run time is invalidated |
| Scoring.ValidSampleRecorded | src/main/java/me/bechberger/sos/ScoredProcesses.java:46-56 | a changed delta records new - last as the diffs, sets each flag exactly when its diff is positive, appends the delta (dropping exactly the oldest on overflow) and stores the sample |
| Scoring.ProcessInfo.constructor | src/main/java/me/bechberger/sos/ScoredProcesses.java:29-35 | a new record holds the seed sample, an empty window and zero sums and diffs, and is consistent |
| Scoring.ProcessInfo.Update | src/main/java/me/bechberger/sos/ScoredProcesses.java:37-57 | the fields become `Advance` of the old ones, and the record stays consistent |
| Scoring.ProcessInfo.Record | src/main/java/me/bechberger/sos/ScoredProcesses.java:46-56 | on a changed delta, the fields become `Advance` of the old ones |
| Scoring.AfterPidUpdate | src/main/java/me/bechberger/sos/ScoredProcesses.java:94-108 | update(pid): no other tracker changes; no command drops the pid; an untracked pid gets a fresh tracker; a tracked one advances and is dropped exactly when invalidated; consistent valid trackers stay so |
| Scoring.AdvancedEntry | src/main/java/me/bechberger/sos/ScoredProcesses.java:101-107 | a map that differs from the old one only by the pid's tracker advancing, or leaving when that invalidates it, is update(pid)'s result |
| Scoring.Sweep | src/main/java/me/bechberger/sos/ScoredProcesses.java:110-118 | the snapshot loop tracks no pid that was neither tracked before nor visited |
| Scoring.Prune | src/main/java/me/bechberger/sos/ScoredProcesses.java:119 | the kept trackers are exactly those of the kept pids, unchanged |
| Scoring.SweepEffect | src/main/java/me/bechberger/sos/ScoredProcesses.java:110-120 | update(stats, filter): only sampled pids remain tracked; a sampled pid outside the filter keeps its tracker; one inside ends as update(pid) leaves it, whatever the iteration order |
| Scoring.SweepLocal | src/main/java/me/bechberger/sos/ScoredProcesses.java:110-118 | each visit of the snapshot loop changes only the visited pid's tracker |
| Scoring.ScoredProcesses.constructor | src/main/java/me/bechberger/sos/ScoredProcesses.java:88-92 | a new engine tracks nothing and keeps the given window size |
| Scoring.ScoredProcesses.UpdatePid | src/main/java/me/bechberger/sos/ScoredProcesses.java:94-108 | the trackers become `AfterPidUpdate` of the old ones, the engine stays valid, and every record is the old object or fresh |
| Scoring.ScoredProcesses.Forget | src/main/java/me/bechberger/sos/ScoredProcesses.java:95-97 | the pid's tracker is removed and no other changes |
| Scoring.ScoredProcesses.Track | src/main/java/me/bechberger/sos/ScoredProcesses.java:99-100 | an untracked pid gets a fresh record seeded with the sample; no other tracker changes |
| Scoring.ScoredProcesses.Sample | src/main/java/me/bechberger/sos/ScoredProcesses.java:101-107 | the tracked pid's record advances and is dropped exactly when invalidated, as `AfterPidUpdate` says |
| Scoring.ScoredProcesses.Update | src/main/java/me/bechberger/sos/ScoredProcesses.java:110-120 | the trackers become the sweep over the snapshot in iteration order, pruned to the sampled pids; the engine stays valid |
| Scoring.ScoredProcesses.Retain | src/main/java/me/bechberger/sos/ScoredProcesses.java:119 | only the trackers of kept pids remain, unchanged |
| Scoring.ScoredProcesses.MostRunProcesses | src/main/java/me/bechberger/sos/ScoredProcesses.java:122-129 | min(count, tracked) distinct tracked pids by descending combined run time; none left out ran longer than one returned |
| Scoring.ScoredProcesses.MostDispatchedProcesses | src/main/java/me/bechberger/sos/ScoredProcesses.java:131-138 | the same ranking by combined dispatches |
| Scoring.ScoredProcesses.ChangedRuntimeSinceLastCheck | src/main/java/me/bechberger/sos/ScoredProcesses.java:140-142 | false for an untracked pid; for a tracked one, true exactly when its last run-time delta is positive |
| Scoring.ScoredProcesses.ChangedDispatchesSinceLastCheck | src/main/java/me/bechberger/sos/ScoredProcesses.java:144-146 | false for an untracked pid; for a tracked one, true exactly when its last dispatch delta is positive |
| Scoring.ScoredProcesses.RuntimeInTimeSlice | src/main/java/me/bechberger/sos/ScoredProcesses.java:148-150 | 0 for an untracked pid; positive exactly when the run-time flag is set |
| Scoring.ScoredProcesses.DispatchesInTimeSlice | src/main/java/me/bechberger/sos/ScoredProcesses.java:152-154 | an int; 0 for an untracked pid; for a delta that fits an int, positive exactly when the dispatch flag is set |
| Processes.Contains | src/main/java/me/bechberger/sos/util/ProcessSet.java:30 | `String.contains`: the empty word is always contained, and a contained word is no longer than the command |
| Processes.ContainsOnlyAt | src/main/java/me/bechberger/sos/util/ProcessSet.java:30 | a contained word is the slice of the command at some position |
| Processes.ContainsAt | src/main/java/me/bechberger/sos/util/ProcessSet.java:30 | conversely, the slice of the command at any position is contained in it |
| Processes.ContainsExamples | src/main/java/me/bechberger/sos/util/ProcessSet.java:30 | a command contains itself and the empty word |
| Processes.Matching | src/main/java/me/bechberger/sos/util/ProcessSet.java:26-31 | a listed process is a start process exactly when its command, "" when unknown, contains some filter word |
| Processes.GetAllChildProcesses | src/main/java/me/bechberger/sos/util/ProcessSet.java:42-48 | the walk adds every child of the parent, leaves the set closed under children except for walks still under way, and adds only descendants |
| Processes.Descendants | src/main/java/me/bechberger/sos/util/ProcessSet.java:32-37 | the walks from the start processes yield the least set closed under children that holds each start process's children |
| Processes.MatchedAndDescendants | src/main/java/me/bechberger/sos/util/ProcessSet.java:38-39 | the start processes with their descendants form the least closed set over the start processes |
| Processes.ProcessSet.constructor | src/main/java/me/bechberger/sos/util/ProcessSet.java:15-17 | a new filter keeps its words, holds no pids, and answers as for an empty process table |
| Processes.ProcessSet.Update | src/main/java/me/bechberger/sos/util/ProcessSet.java:19-40 | without words, every listed process; otherwise exactly the least set holding the matching processes and closed under children; later `contains` queries answer for this table |
| Processes.ProcessSet.Contains | src/main/java/me/bechberger/sos/util/ProcessSet.java:50-52 | membership in the filter: without words, exactly the processes of the last table; otherwise exactly the pids in every closed set over the matching processes |
| Scales.StepsValid | src/main/java/me/bechberger/sos/music/Scale.java:14-20 | every scale's steps start at 0 and ascend strictly within one octave |
| Scales.Scale.constructor | src/main/java/me/bechberger/sos/music/Scale.java:25-27 | the kept notes are the generated ones in the playable range; with valid steps they ascend strictly and are exactly the playable notes whose pitch class is a step |
| Scales.Scale.Length | src/main/java/me/bechberger/sos/music/Scale.java:48-50 | a valid scale has at least one note |
| Scales.Scale.Get | src/main/java/me/bechberger/sos/music/Scale.java:56-58 | the i-th note is a playable note of the scale, above every earlier note |
| Scales.Scale.Center | src/main/java/me/bechberger/sos/music/Scale.java:52-54 | the centre note is a playable note of the scale, above every note before position length/2 and below every note after it |
| Scales.Of | src/main/java/me/bechberger/sos/music/Scale.java:13-27 | every enum constant's scale is valid and holds exactly the playable notes whose pitch class is one of its steps |
| Scales.InRange | src/main/java/me/bechberger/sos/music/Scale.java:26 | the filter keeps exactly the playable notes of its input, and nothing else |
| Scales.GenerateScale | src/main/java/me/bechberger/sos/music/Scale.java:30-46 | the array of |steps| * octaves slots holds the octave-by-octave notes not above MAX_NOTE, followed by zeros; the write index never leaves the array |
| Scales.FillOctave | src/main/java/me/bechberger/sos/music/Scale.java:37-43 | one octave's pass appends that octave's notes not above MAX_NOTE and leaves the zero tail |
| Scales.SlotsRoom | src/main/java/me/bechberger/sos/music/Scale.java:33-36 | another octave's steps fit in the array while octaves remain |
| Scales.InRangeDropsZeros | src/main/java/me/bechberger/sos/music/Scale.java:26-33 | the unused zero slots of the array never reach the scale |
| Scales.KeptNotesAscending | src/main/java/me/bechberger/sos/music/Scale.java:25-46 | with valid steps the kept notes ascend strictly |
| Scales.KeptNoteMembership | src/main/java/me/bechberger/sos/music/Scale.java:25-46 | with valid steps a note is kept exactly when it is playable and its pitch class is a step |
| Scales.OctavesMembership | src/main/java/me/bechberger/sos/music/Scale.java:36-44 | the first k octaves hold exactly the notes below 12k, not above MAX_NOTE, whose pitch class is a step |
| Music.NoteSet | src/main/java/me/bechberger/sos/music/MusicPlayer.java:43-45 | the initial pool holds exactly the scale's notes, one per kept note |
| Music.Unassigned | src/main/java/me/bechberger/sos/music/MusicPlayer.java:57 | the newcomers are exactly the live processes without a note, without repetitions |
| Music.MusicToNote.constructor | src/main/java/me/bechberger/sos/music/MusicPlayer.java:39-46 | a new allocator assigns no note, pools every note of the scale, and is valid |
| Music.MusicToNote.Update | src/main/java/me/bechberger/sos/music/MusicPlayer.java:48-67 | afterwards exactly the live processes own notes, with no note shared; survivors keep theirs; the removed processes are returned; each newcomer holds a note at least as near the centre as any still free |
| Music.MusicToNote.Get | src/main/java/me/bechberger/sos/music/MusicPlayer.java:69-71 | a process's note is a scale note, not in the pool and owned by no other process |
| Music.Reassign | src/main/java/me/bechberger/sos/music/MusicPlayer.java:48-67 | update on values: the split of notes into owned and free is kept, the owners are the live processes, and survivors and newcomers are as in `Update` |
| Music.ReleaseDead | src/main/java/me/bechberger/sos/music/MusicPlayer.java:50-56 | every owner not live gives its note back to the pool and is reported; the others keep theirs |
| Music.TakeNearest | src/main/java/me/bechberger/sos/music/MusicPlayer.java:57-65 | each newcomer in turn takes a free note, ending with one no farther from the centre than any note left free; old owners keep theirs |
| Music.FreeNotesSuffice | src/main/java/me/bechberger/sos/music/MusicPlayer.java:57-63 | after the removals there are at least as many free notes as newcomers |
| Music.AllocateFresh | src/main/java/me/bechberger/sos/music/MusicPlayer.java:39-67 | a fresh allocator given distinct live processes assigns each a distinct note of the scale |
| Music.RuntimeLoudness | src/main/java/me/bechberger/sos/music/MusicPlayer.java:144 | the loudness of a non-negative run time lies in 0..127, and is 0 for no run time |
| Music.LoudnessSaturates | src/main/java/me/bechberger/sos/music/MusicPlayer.java:144 | running at least the whole interval gives full loudness 127 |
| Music.LoudnessMonotone | src/main/java/me/bechberger/sos/music/MusicPlayer.java:144 | more run time is never quieter |
| Music.MaxLoudness | src/main/java/me/bechberger/sos/music/MusicPlayer.java:135-146 | the running maximum is at least every loudness played, 0 or one of them, and at most 127 when they are |
| Music.MaxDispatches | src/main/java/me/bechberger/sos/music/MusicPlayer.java:172 | the maximum dispatch count is one of the counts and at least each, or 0 when there are none |
| Music.DispatchVelocity | src/main/java/me/bechberger/sos/music/MusicPlayer.java:177 | a process with no dispatches is silent, and velocities are never negative for non-negative inputs |
| Music.VelocityBounded | src/main/java/me/bechberger/sos/music/MusicPlayer.java:177 | a velocity lies between 0 and maxLoudness when the count is at most the maximum |
| Music.VelocityOfBusiest | src/main/java/me/bechberger/sos/music/MusicPlayer.java:177 | the process with the most dispatches is played at exactly maxLoudness |
| Music.VelocitiesBounded | src/main/java/me/bechberger/sos/music/MusicPlayer.java:172-177 | every dispatch note of an interval lies between 0 and the loudest run-time note |

## Left out

- Kernel plumbing is not modelled: `init` creating the shared queue, the BPF map and global-variable declarations, the kernel attachment, and the userspace loop.
- Concurrency: hooks run one at a time. The unsynchronised update of the virtual-time clock from several CPUs is not modelled.
- I/O: the MIDI synthesizer calls (`noteOn`, `noteOff`, program changes), console output, `Main`, the duration formatting and the instrument list. The player's orchestration (`updateRuntimeNotes`, `updateDispatchesNotes`) is modelled only through the formulas and the allocator it uses.
- TaskStats.AfterLookup: the table is unbounded. The LRU eviction of *other* records when the kernel table is full is not modelled; a refused or immediately evicted insertion is the `stored == false` case.
- TaskStats.NewTaskStat: `lastStartNs` of a new record is taken as 0; the hook does not set it, and the zero-initialised record is assumed.
- DispatchGate.DispatchFromSharedQueue: the queue's order is an input. For the virtual-time policy that is the kernel's virtual-time order, which is not modelled.
- Scoring.Advance: window sums and deltas are unbounded integers. The overflow of Java `long` sums is not modelled (only the first subtraction, `LongSub`, wraps).
- Scoring.ScoredProcesses.Update: the snapshot's iteration order is a parameter, since a `HashMap`'s order is unspecified. The command lookup through `ProcessHandle` is answered by a `ProcessTable` snapshot.
- Ranking.SortDescending: stability is not stated. Ties are broken by the unspecified iteration order, so only permutation and descending order are proved.
- Scoring.ScoredProcesses.MostRunProcesses: a negative `count` (for which Java's `limit` throws) is excluded by the `nat` type.
- Processes.ProcessSet.Update: pids are unbounded integers. The truncation of a long pid by `intValue` is not modelled.
- Music.MusicToNote.Update: requires distinct live processes, and no more of them than the scale has notes. Beyond that the source indexes past its list of free notes and throws. Ties in distance to the centre may be broken either way, as `HashSet` iteration leaves them.
- Music.TakeNearest: states that each newcomer's note is no farther from the centre than any note left free. It does not state the pairwise order the sorted list gives (MusicPlayer.java:60-64): an earlier newcomer's note no farther than a later one's. As a loop invariant, that order exceeds the proof-cost bound this model keeps to.
- Music.MusicToNote: `forEach` and `getProcesses` only expose the note map; the model reads the `noteMap` field directly.
- Music.RuntimeLoudness: `127 * runtime` is computed without the `long` overflow of very large run times.
- Music.DispatchVelocity: `maxLoudness * dispatches` is computed without `int` overflow.
- Music.MaxLoudness: the maximum over the notes switched on is taken over a sequence of loudnesses. The callback iteration over the note map is not modelled.
