/** The scheduler machine takes and frees its locks in single steps; that is what the nesting spin locks provide. */
module KernelLocks {
  import opened Options
  import opened Kernel
  import opened KernelInvariant
  import opened KernelSemSteps
  import opened KernelCpuSteps
  import opened KernelTheorems
  import SpinLock

  /** queue_lk moves as SpinLock.LocksAreAtomic says a spin lock moves, and its holder takes no trap. */
  lemma QueueLockIsSpinLock(s: State, c: CpuId, e: Event)
    requires Reachable(s) && Enabled(s, c, e)
    ensures SpinLock.LockStep(s.qlock, Do(s, c, e).qlock, c)
    ensures e.Trap? ==> s.qlock != Some(c)
  {
    ReachableInv(s);
    assert CpuOk(s, c);
    assert s.qlock == Some(c) <==> InSection(s, c);
    if IsCpuStep(e) { CpuStepShape(s, c, e); }
  }

  // The CPU on which the holder of a semaphore's lock runs
  ghost function HolderCpu(s: State, m: SemId): Option<CpuId>
    requires m < |s.sems|
  {
    if s.sems[m].lock.Some? && s.sems[m].lock.value in s.tasks && s.tasks[s.sems[m].lock.value].place.Current?
    then Some(s.tasks[s.sems[m].lock.value].place.cpu) else None
  }

  lemma HolderRuns(s: State, m: SemId)
    requires Inv(s) && m < |s.sems| && s.sems[m].lock.Some?
    ensures var t := s.sems[m].lock.value;
            t in s.tasks && Holds(s.tasks[t].pc, m) && t.Thread? && s.tasks[t].place.Current?
    ensures HolderCpu(s, m).Some? && HolderCpu(s, m).value < |s.cpus|
    ensures var k := s.cpus[HolderCpu(s, m).value]; k.pc.Exec? && k.current == s.sems[m].lock.value
  {
    var t := s.sems[m].lock.value;
    assert SemOk(s, m);
    assert s.sems[m].lock == Some(t) <==> Holds(s.tasks[t].pc, m);
    assert TaskOk(s, t);
  }

  /** One step of the task t on a lock: only a free lock is taken, and only its holder frees it. */
  predicate TaskLockStep(o: Option<Task>, o': Option<Task>, t: Task) {
    o' == o || (o.None? && o' == Some(t)) || (o == Some(t) && o'.None?)
  }

  lemma ChangeLock(s: State, s': State, t: Task, m: SemId, m': SemId)
    requires LocalChange(s, s', t, m) && m' < |s.sems|
    ensures TaskLockStep(s.sems[m'].lock, s'.sems[m'].lock, t)
  {
  }

  lemma LocalLock(s: State, c: CpuId, e: Event, m': SemId)
    requires Inv(s) && IsLocal(e) && Enabled(s, c, e) && m' < |s.sems|
    ensures m' < |Do(s, c, e).sems| && TaskLockStep(s.sems[m'].lock, Do(s, c, e).sems[m'].lock, s.cpus[c].current)
  {
    var t := s.cpus[c].current;
    var m := SemIndex(s.tasks[t].pc, e);
    LocalBefore(s, c, e);
    LocalStep(t, s.tasks[t], s.sems[m], m, e);
    LocalShape(s, t, m, Local(t, s.tasks[t], s.sems[m], e).0, Local(t, s.tasks[t], s.sems[m], e).1);
    ChangeLock(s, Do(s, c, e), t, m, m');
  }

  lemma OtherLock(s: State, c: CpuId, e: Event, m: SemId)
    requires Inv(s) && !IsLocal(e) && Enabled(s, c, e) && m < |s.sems|
    ensures m < |Do(s, c, e).sems| && Do(s, c, e).sems[m].lock == s.sems[m].lock
  {
    if IsCpuStep(e) { CpuStepShape(s, c, e); }
  }

  /** The lock of a semaphore is taken and freed by the running task only; the CPU of its holder runs that task's own
      code all the while and takes no trap. */
  lemma SemLockIsSpinLock(s: State, c: CpuId, e: Event, m: SemId)
    requires Reachable(s) && Enabled(s, c, e) && m < |s.sems|
    ensures m < |Do(s, c, e).sems| && TaskLockStep(s.sems[m].lock, Do(s, c, e).sems[m].lock, s.cpus[c].current)
    ensures s.sems[m].lock.Some? ==> HolderCpu(s, m).Some?
    ensures e.Trap? ==> HolderCpu(s, m) != Some(c)
  {
    ReachableInv(s);
    if IsLocal(e) { LocalLock(s, c, e, m); } else { OtherLock(s, c, e, m); }
    if s.sems[m].lock.Some? { HolderRuns(s, m); }
  }
}
