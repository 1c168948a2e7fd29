/**
 * The data shared by both scheduling policies: the settings record, the
 * per-task statistics record kept in the kernel table, the slice of the
 * kernel's task structure the policies read, and the eligibility rule
 * `hasConstraints`.
 */
module BaseScheduler {
  import opened Machine

  /** Size of the command buffer of a statistics record. */
  const COMM_LENGTH: nat := 40

  /** The per-task flag the kernel sets on its own threads (PF_KTHREAD, bit 21). */
  const PF_KTHREAD: bv32 := 0x0020_0000

  /** A command name as stored in a statistics record. */
  type Comm = s: seq<u8> | |s| <= COMM_LENGTH witness []

  /**
   * Settings of a policy: the slice length in nanoseconds, the number of
   * cores ordinary tasks may use (an unsigned field, so -1 is 0xFFFFFFFF)
   * and whether the slice is divided by the queue depth. Immutable; a
   * policy replaces it as a whole.
   */
  datatype SchedulerSetting = SchedulerSetting(sliceLength: u32, cores: u32, scaleSliceLength: bool)

  /** The initial setting both policies start from: a 1 ns slice, one core, scaling on. */
  const INITIAL_SETTING: SchedulerSetting := SchedulerSetting(1, 1, true)

  /** One record of the statistics table, keyed by task-group id. */
  datatype TaskStat = TaskStat(
    comm: Comm,
    dispatches: u64,
    runtimeNs: u64,
    currentlyRunning: bool,
    lastStartNs: u64,
    ignored: bool)

  /**
   * What the policies read or write of a kernel task: its task-group id,
   * flags, how many CPUs it may use and which, its command name, its
   * virtual time and its scheduling weight.
   */
  datatype Task = Task(
    tgid: u32,
    flags: bv32,
    nrCpusAllowed: u32,
    cpusAllowed: set<nat>,
    comm: seq<u8>,
    dsqVtime: u64,
    weight: u32)

  /**
   * The eligibility rule: a kernel thread, or a task that may not run on
   * every CPU (`nrCpuIds` is the number of possible CPUs), is constrained
   * and exempt from the core limit.
   */
  predicate HasConstraints(p: Task, nrCpuIds: u32): (r: bool)
    ensures p.flags & PF_KTHREAD != 0 ==> r
    ensures p.nrCpusAllowed != nrCpuIds ==> r
    ensures !r <==> (p.flags & PF_KTHREAD == 0 && p.nrCpusAllowed == nrCpuIds)
  {
    (p.flags & PF_KTHREAD) != 0 || p.nrCpusAllowed != nrCpuIds
  }

  /** Setting the kernel-thread bit on any task makes it constrained, whatever its other flags. */
  lemma KThreadBitConstrains(p: Task, nrCpuIds: u32)
    ensures HasConstraints(p.(flags := p.flags | PF_KTHREAD), nrCpuIds)
  {
    assert (p.flags | PF_KTHREAD) & PF_KTHREAD == PF_KTHREAD;
  }
}
