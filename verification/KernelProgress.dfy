/** No CPU of the kernel machine gets stuck: each can go on, or spins on a lock whose holder can and soon frees it. */
module KernelProgress {
  import opened Options
  import opened Kernel
  import opened KernelInvariant
  import opened KernelSemSteps
  import opened KernelCpuSteps
  import opened KernelTheorems
  import opened KernelRotation
  import opened KernelLocks

  // ---- what each CPU does next

  function TaskNext(r: TaskRec, sems: seq<Sem>): Event {
    match r.pc
    case Body => Trap(0)
    case Creating(_) => CreateLock
    case CreateLocked(_) => CreateEnqueue
    case WaitSpin(_) => WaitLock
    case WaitDec(_) => Decrement
    case WaitMark(_) => MarkWaiting
    case WaitLink(_) => LinkWaiter
    case WaitUnlock(_, _) => WaitRelease
    case WaitYield(_) => Trap(0)
    case WaitParked(_) => WaitReturn
    case SigSpin(_) => SigLock
    case SigInc(_) => Increment
    case SigPop(m) => if m < |sems| && sems[m].waiters != [] then PopWaiter else PopEmpty
    case SigUnlock(_, _) => SigRelease
    case SigWake(_, _) => Wake
  }

  predicate Runs(s: State, t: Task) {
    t in s.tasks && s.tasks[t].status.RUNNING?
  }

  /** The next step of CPU c; in a task's own code, which is not part of the model, an interrupt. */
  function NextOf(s: State, c: CpuId): Event
    requires c < |s.cpus| && s.cpus[c].current in s.tasks
  {
    var k := s.cpus[c];
    match k.pc
    case Exec => TaskNext(s.tasks[k.current], s.sems)
    case Saving(_) =>
      if k.last.None? || k.last.value !in s.tasks || s.tasks[k.last.value].status.IDLE? then SaveSkip else SaveLock
    case SaveLocked(_) => SaveEnqueue
    case Storing(_) => Store
    case Relabel => SetLast
    case WantQueue => SchedLock
    case Checking(next) =>
      if next >= |s.queue| then CheckMiss else if Runs(s, s.queue[next]) then CheckHit else CheckNext
    case Rotating(hand) => if Runs(s, hand) then Pick else Rotate
    case Returning => Resume
  }

  /** The step takes queue_lk, or the lock of a semaphore. */
  predicate TakesQueueLock(e: Event) {
    e.SaveLock? || e.SchedLock? || e.CreateLock?
  }

  predicate TakesSemLock(e: Event) {
    e.WaitLock? || e.SigLock?
  }

  /** c spins on a lock that is taken. */
  predicate Spins(s: State, c: CpuId)
    requires c < |s.cpus| && s.cpus[c].current in s.tasks
  {
    var e, pc := NextOf(s, c), s.tasks[s.cpus[c].current].pc;
    || (TakesQueueLock(e) && s.qlock.Some?)
    || (TakesSemLock(e) && SemOf(pc).Some? && SemOf(pc).value < |s.sems| && s.sems[SemOf(pc).value].lock.Some?)
  }

  lemma FieldsValid(s: State, c: CpuId)
    requires Inv(s) && c < |s.cpus|
    ensures ValidCpu(s, c)
  {
    assert CpuOk(s, c);
    var t := s.cpus[c].current;
    assert TaskOk(s, t) && WakerOk(s, t);
    forall u | u in s.queue ensures u in s.tasks { var i :| 0 <= i < |s.queue| && s.queue[i] == u; }
  }

  lemma HandlerGoesOn(s: State, c: CpuId)
    requires Inv(s) && c < |s.cpus| && ValidCpu(s, c) && !s.cpus[c].pc.Exec?
    ensures Enabled(s, c, NextOf(s, c)) <==> !Spins(s, c)
  {
    assert CpuOk(s, c);
  }

  lemma PlainTaskGoesOn(s: State, c: CpuId)
    requires Inv(s) && c < |s.cpus| && ValidCpu(s, c) && s.cpus[c].pc.Exec?
    requires var pc := s.tasks[s.cpus[c].current].pc; SemOf(pc).None? || pc.WaitYield? || pc.SigWake?
    ensures Enabled(s, c, NextOf(s, c)) <==> !Spins(s, c)
  {
  }

  lemma SemTaskGoesOn(s: State, c: CpuId)
    requires Inv(s) && c < |s.cpus| && ValidCpu(s, c) && s.cpus[c].pc.Exec?
    requires var pc := s.tasks[s.cpus[c].current].pc; SemOf(pc).Some? && !pc.WaitYield? && !pc.SigWake?
    ensures Enabled(s, c, NextOf(s, c)) <==> !Spins(s, c)
  {
    var t := s.cpus[c].current;
    var m := SemOf(s.tasks[t].pc).value;
    assert TaskOk(s, t);
    assert SemOk(s, m);
  }

  /** In every reachable state every CPU has its next step to take, unless it spins on a lock that is taken. */
  lemma GoesOn(s: State, c: CpuId)
    requires Reachable(s) && c < |s.cpus|
    ensures s.cpus[c].current in s.tasks && (Enabled(s, c, NextOf(s, c)) <==> !Spins(s, c))
  {
    ReachableInv(s);
    FieldsValid(s, c);
    var pc := s.tasks[s.cpus[c].current].pc;
    if !s.cpus[c].pc.Exec? { HandlerGoesOn(s, c); }
    else if SemOf(pc).None? || pc.WaitYield? || pc.SigWake? { PlainTaskGoesOn(s, c); }
    else { SemTaskGoesOn(s, c); }
  }

  /** A CPU that is after a lock, spinning or not, takes no trap. */
  lemma SeekerTakesNoTrap(s: State, c: CpuId, e: Event)
    requires Reachable(s) && c < |s.cpus| && s.cpus[c].current in s.tasks && e.Trap?
    requires TakesQueueLock(NextOf(s, c)) || TakesSemLock(NextOf(s, c))
    ensures !Enabled(s, c, e)
  {
    var pc := s.tasks[s.cpus[c].current].pc;
    assert s.cpus[c].pc.Exec? ==> pc.Creating? || pc.WaitSpin? || pc.SigSpin?;
  }

  // ---- who holds a lock that is taken goes on

  /** The holder of queue_lk does not spin and takes no trap: its next step works towards freeing the lock. */
  lemma QueueHolderGoesOn(s: State)
    requires Reachable(s) && s.qlock.Some?
    ensures var d := s.qlock.value;
            && d < |s.cpus| && s.cpus[d].current in s.tasks
            && !Spins(s, d) && Enabled(s, d, NextOf(s, d)) && !NextOf(s, d).Trap?
  {
    ReachableInv(s);
    var d := s.qlock.value;
    assert s.qlock == Some(d) <==> InSection(s, d);
    assert CpuOk(s, d);
    GoesOn(s, d);
  }

  /** So does the task that holds the lock of a semaphore, on the CPU it runs on. */
  lemma SemHolderGoesOn(s: State, m: SemId) returns (d: CpuId)
    requires Reachable(s) && m < |s.sems| && s.sems[m].lock.Some?
    ensures d < |s.cpus| && s.cpus[d].current == s.sems[m].lock.value && s.cpus[d].current in s.tasks
    ensures !Spins(s, d) && Enabled(s, d, NextOf(s, d)) && !NextOf(s, d).Trap?
  {
    ReachableInv(s);
    HolderRuns(s, m);
    d := HolderCpu(s, m).value;
    GoesOn(s, d);
  }

  /** No deadlock: whenever a CPU spins, another one holds the lock and can go on. */
  lemma NoDeadlock(s: State, c: CpuId) returns (d: CpuId)
    requires Reachable(s) && c < |s.cpus|
    ensures d < |s.cpus| && s.cpus[d].current in s.tasks && Enabled(s, d, NextOf(s, d))
    ensures s.cpus[c].current in s.tasks && (Spins(s, c) <==> d != c) && (d != c ==> !NextOf(s, d).Trap?)
  {
    GoesOn(s, c);
    if !Spins(s, c) {
      d := c;
    } else if TakesQueueLock(NextOf(s, c)) {
      QueueHolderGoesOn(s);
      d := s.qlock.value;
    } else {
      d := SemHolderGoesOn(s, SemOf(s.tasks[s.cpus[c].current].pc).value);
    }
  }

  // ---- and frees it after a bounded number of its own steps

  /** How many steps a task takes until it frees the lock of its semaphore. */
  function SemLeft(pc: TaskPc): nat {
    match pc
    case WaitDec(_) => 4
    case WaitMark(_) => 3
    case WaitLink(_) => 2
    case WaitUnlock(_, _) => 1
    case SigInc(_) => 3
    case SigPop(_) => 2
    case SigUnlock(_, _) => 1
    case _ => 0
  }

  // One step of the holder's code
  lemma HolderStep(u: Task, r: TaskRec, q: Sem, e: Event, m: SemId)
    requires Holds(r.pc, m) && q.lock == Some(u) && LocalEnabled(r, q, e)
    ensures 1 <= SemLeft(r.pc) <= 4
    ensures var (r', q') := Local(u, r, q, e);
            if SemLeft(r.pc) == 1 then q'.lock.None?
            else q'.lock == Some(u) && SemLeft(r'.pc) < SemLeft(r.pc)
  {
  }

  // The CPU whose current task holds the lock executes that task
  lemma HolderExecutes(s: State, c: CpuId, m: SemId)
    requires Inv(s) && m < |s.sems| && c < |s.cpus| && s.sems[m].lock == Some(s.cpus[c].current)
    ensures s.cpus[c].pc.Exec? && s.cpus[c].current in s.tasks && s.cpus[c].current.Thread?
    ensures Holds(s.tasks[s.cpus[c].current].pc, m)
  {
    HolderRuns(s, m);
    assert CpuOk(s, c);
  }

  // Its next step is one of the semaphore operation
  lemma HolderEvents(s: State, c: CpuId, e: Event, m: SemId)
    requires Enabled(s, c, e) && s.cpus[c].pc.Exec? && Holds(s.tasks[s.cpus[c].current].pc, m)
    ensures e.PopWaiter? || (IsLocal(e) && SemIndex(s.tasks[s.cpus[c].current].pc, e) == m)
  {
  }

  lemma LocalOutcome(s: State, c: CpuId, e: Event, m: SemId, u: Task)
    requires Enabled(s, c, e) && IsLocal(e) && u == s.cpus[c].current && SemIndex(s.tasks[u].pc, e) == m
    ensures m < |s.sems| && LocalEnabled(s.tasks[u], s.sems[m], e)
    ensures var after, s' := Local(u, s.tasks[u], s.sems[m], e), Do(s, c, e);
            m < |s'.sems| && u in s'.tasks && s'.tasks[u] == after.0 && s'.sems[m] == after.1
  {
  }

  lemma PopOutcome(s: State, c: CpuId, m: SemId, u: Task)
    requires Enabled(s, c, PopWaiter) && u == s.cpus[c].current && s.tasks[u].pc.sem == m
    requires s.sems[m].waiters != [] && Back(s.sems[m].waiters) != u
    ensures var s' := Do(s, c, PopWaiter);
            m < |s'.sems| && u in s'.tasks && s'.tasks[u].pc.SigUnlock? && s'.sems[m].lock == s.sems[m].lock
  {
  }

  /** From s to s' the task u, which held the lock of m, came closer to its release if the step was its own, freed it if
      that was its last, and stayed where it was otherwise. */
  predicate Closer(s: State, s': State, u: Task, m: SemId, own: bool) {
    && m < |s'.sems| && u in s.tasks && u in s'.tasks && 1 <= SemLeft(s.tasks[u].pc) <= 4
    && if !own then s'.sems[m].lock == Some(u) && s'.tasks[u].pc == s.tasks[u].pc
       else if SemLeft(s.tasks[u].pc) == 1 then s'.sems[m].lock.None?
       else s'.sems[m].lock == Some(u) && SemLeft(s'.tasks[u].pc) < SemLeft(s.tasks[u].pc)
  }

  lemma OwnRelease(s: State, c: CpuId, e: Event, m: SemId, u: Task)
    requires Inv(s) && Enabled(s, c, e) && m < |s.sems| && s.sems[m].lock == Some(u) && s.cpus[c].current == u
    ensures Closer(s, Do(s, c, e), u, m, true)
  {
    HolderExecutes(s, c, m);
    HolderEvents(s, c, e, m);
    if e.PopWaiter? {
      PopBefore(s, c);
      PopOutcome(s, c, m, u);
    } else {
      LocalOutcome(s, c, e, m, u);
      HolderStep(u, s.tasks[u], s.sems[m], e, m);
    }
  }

  // A step leaves every other task where it is in its code
  lemma OtherPcStays(s: State, c: CpuId, e: Event, u: Task)
    requires Inv(s) && Enabled(s, c, e) && u in s.tasks && u != s.cpus[c].current
    ensures u in Do(s, c, e).tasks && Do(s, c, e).tasks[u].pc == s.tasks[u].pc
  {
    if IsLocal(e) {
      LocalOthers(s, c, e, u);
    } else if e.PopWaiter? {
      PopOthers(s, c, u);
    } else if e.Wake? {
      WakeOthers(s, c, u);
    } else {
      CpuStepShape(s, c, e);
    }
  }

  lemma LocalOthers(s: State, c: CpuId, e: Event, u: Task)
    requires Enabled(s, c, e) && IsLocal(e) && u in s.tasks && u != s.cpus[c].current
    ensures u in Do(s, c, e).tasks && Do(s, c, e).tasks[u] == s.tasks[u]
  {
  }

  lemma PopOthers(s: State, c: CpuId, u: Task)
    requires Enabled(s, c, PopWaiter) && u in s.tasks && u != s.cpus[c].current
    ensures u in Do(s, c, PopWaiter).tasks && Do(s, c, PopWaiter).tasks[u].pc == s.tasks[u].pc
  {
  }

  lemma WakeOthers(s: State, c: CpuId, u: Task)
    requires Enabled(s, c, Wake) && u in s.tasks && u != s.cpus[c].current
    ensures u in Do(s, c, Wake).tasks && Do(s, c, Wake).tasks[u].pc == s.tasks[u].pc
  {
  }

  /** While a task keeps a semaphore's lock, each of its own steps brings the release closer, at most four in all, and
      no other step takes it further away; and only its own steps free it. */
  lemma SemReleaseComes(s: State, c: CpuId, e: Event, m: SemId, u: Task)
    requires Reachable(s) && Enabled(s, c, e) && m < |s.sems| && s.sems[m].lock == Some(u)
    ensures Closer(s, Do(s, c, e), u, m, s.cpus[c].current == u)
  {
    ReachableInv(s);
    if s.cpus[c].current == u { OwnRelease(s, c, e, m, u); } else { OthersKeepLock(s, c, e, m, u); }
  }

  lemma OthersKeepLock(s: State, c: CpuId, e: Event, m: SemId, u: Task)
    requires Reachable(s) && Inv(s) && Enabled(s, c, e) && m < |s.sems| && s.sems[m].lock == Some(u)
    requires s.cpus[c].current != u
    ensures Closer(s, Do(s, c, e), u, m, false)
  {
    HolderRuns(s, m);
    SemLockIsSpinLock(s, c, e, m);
    OtherPcStays(s, c, e, u);
    NotCloser(s, Do(s, c, e), u, m, s.cpus[c].current);
  }

  lemma NotCloser(s: State, s': State, u: Task, m: SemId, t: Task)
    requires m < |s.sems| && m < |s'.sems| && s.sems[m].lock == Some(u) && t != u
    requires TaskLockStep(s.sems[m].lock, s'.sems[m].lock, t)
    requires u in s.tasks && u in s'.tasks && s'.tasks[u].pc == s.tasks[u].pc && Holds(s.tasks[u].pc, m)
    ensures Closer(s, s', u, m, false)
  {
  }

  /** How many steps the holder of queue_lk takes at most until it frees it. */
  ghost function QueueLeft(s: State): nat
    requires s.qlock.Some? && s.qlock.value < |s.cpus|
  {
    match s.cpus[s.qlock.value].pc
    case Checking(next) => if next > |s.queue| then 1 else 2 * |s.queue| + 1 - next
    case Rotating(_) => TurnsLeft(s, Line(s)) + 1
    case _ => 1
  }

  // Steps of other CPUs
  lemma OthersKeepQueueLock(s: State, c: CpuId, e: Event, d: CpuId)
    requires Reachable(s) && Inv(s) && Enabled(s, c, e) && s.qlock == Some(d) && d < |s.cpus| && c != d
    ensures var s' := Do(s, c, e);
            s'.qlock == Some(d) && d < |s'.cpus| && s'.cpus[d] == s.cpus[d] && s'.queue == s.queue
  {
    QueueLockIsSpinLock(s, c, e);
    assert s.qlock == Some(c) <==> InSection(s, c);
    if IsCpuStep(e) { CpuStepShape(s, c, e); } else { SameCpus(s, c, e); }
  }

  lemma OthersLeave(s: State, c: CpuId, e: Event, d: CpuId)
    requires Reachable(s) && Inv(s) && Enabled(s, c, e) && s.qlock == Some(d) && d < |s.cpus| && c != d
    ensures Do(s, c, e).qlock == Some(d) && d < |Do(s, c, e).cpus| && QueueLeft(Do(s, c, e)) <= QueueLeft(s)
  {
    OthersKeepQueueLock(s, c, e, d);
    if s.cpus[d].pc.Rotating? { RotationProgress(s, c, e, d); }
  }

  // Steps of the holder
  predicate HolderStepOk(s: State, d: CpuId, e: Event, s': State)
    requires d < |s.cpus|
  {
    && d < |s'.cpus|
    && match s.cpus[d].pc
       case Checking(next) =>
         || s'.qlock.None?
         || (s'.qlock == Some(d) && s'.cpus[d].pc == Checking(next + 1) && s'.queue == s.queue && next < |s.queue|)
         || (e.CheckHit? && next < |s.queue|)
       case Rotating(_) => s'.qlock.None? || e.Rotate?
       case _ => s'.qlock.None?
  }

  lemma CheckingSteps(s: State, d: CpuId, e: Event)
    requires Enabled(s, d, e) && s.qlock == Some(d) && s.cpus[d].pc.Checking?
    ensures HolderStepOk(s, d, e, Do(s, d, e))
  {
    assert e.CheckNext? || e.CheckHit? || e.CheckMiss?;
  }

  lemma HolderSteps(s: State, d: CpuId, e: Event)
    requires Enabled(s, d, e) && s.qlock == Some(d) && InSection(s, d)
    ensures HolderStepOk(s, d, e, Do(s, d, e))
  {
    if s.cpus[d].pc.Checking? { CheckingSteps(s, d, e); }
    else { assert e.SaveEnqueue? || e.CreateEnqueue? || e.Rotate? || e.Pick?; }
  }

  lemma HitIsRotating(s: State, d: CpuId)
    requires Enabled(s, d, CheckHit) && s.qlock == Some(d)
    ensures var s' := Do(s, d, CheckHit);
            s'.qlock == Some(d) && d < |s'.cpus| && s'.cpus[d].pc.Rotating? && |s'.queue| + 1 == |s.queue|
  {
  }

  lemma TurnIsRotating(s: State, d: CpuId)
    requires Enabled(s, d, Rotate) && s.qlock == Some(d)
    ensures var s' := Do(s, d, Rotate); s'.qlock == Some(d) && d < |s'.cpus| && s'.cpus[d].pc.Rotating?
  {
  }

  // A rotation has fewer turns left than the line is long
  lemma RotatingLeft(s: State, d: CpuId)
    requires Inv(s) && s.qlock == Some(d) && d < |s.cpus| && s.cpus[d].pc.Rotating?
    ensures QueueLeft(s) <= |s.queue| + 1
  {
    assert CpuOk(s, d);
    TurnsPrefix(s, Line(s), []);
    assert Line(s) + [] == Line(s);
  }

  lemma HolderLeaves(s: State, d: CpuId, e: Event)
    requires Inv(s) && Enabled(s, d, e) && s.qlock == Some(d) && Inv(Do(s, d, e)) && d < |s.cpus|
    ensures var s' := Do(s, d, e);
            s'.qlock.None? || (s'.qlock == Some(d) && d < |s'.cpus| && QueueLeft(s') < QueueLeft(s))
  {
    assert s.qlock == Some(d) <==> InSection(s, d);
    assert CpuOk(s, d);
    HolderSteps(s, d, e);
    if e.CheckHit? {
      HitIsRotating(s, d);
      RotatingLeft(Do(s, d, e), d);
    } else if e.Rotate? {
      TurnIsRotating(s, d);
      RotationProgress(s, d, e, d);
    }
  }

  /** While a CPU keeps queue_lk, each of its own steps brings the release closer, no other step takes it further away,
      and only its own steps free it; twice as many as the queue is long and one more are enough. */
  lemma QueueReleaseComes(s: State, c: CpuId, e: Event, d: CpuId)
    requires Reachable(s) && Enabled(s, c, e) && s.qlock == Some(d)
    ensures var s' := Do(s, c, e);
            && d < |s.cpus| && d < |s'.cpus| && 1 <= QueueLeft(s) <= 2 * |s.queue| + 1
            && if c != d then s'.qlock == Some(d) && QueueLeft(s') <= QueueLeft(s)
               else s'.qlock.None? || (s'.qlock == Some(d) && QueueLeft(s') < QueueLeft(s))
  {
    ReachableInv(s);
    StepKeepsInv(s, c, e);
    CpuCount(s, c, e);
    if s.cpus[d].pc.Rotating? { RotatingLeft(s, d); }
    if c == d { HolderLeaves(s, d, e); } else { OthersLeave(s, c, e, d); }
  }

  // ---- the wait list is a stack

  lemma LocalList(t: Task, r: TaskRec, q: Sem, e: Event)
    requires LocalEnabled(r, q, e)
    ensures var w, w' := q.waiters, Local(t, r, q, e).1.waiters; w' == w || (e.LinkWaiter? && w' == w + [t])
  {
  }

  lemma OtherSemStays(s: State, c: CpuId, e: Event, m: SemId)
    requires Enabled(s, c, e) && IsLocal(e) && m < |s.sems| && m != SemIndex(s.tasks[s.cpus[c].current].pc, e)
    ensures m < |Do(s, c, e).sems| && Do(s, c, e).sems[m] == s.sems[m]
  {
  }

  lemma LocalWaiters(s: State, c: CpuId, e: Event, m: SemId)
    requires Enabled(s, c, e) && IsLocal(e) && m < |s.sems|
    ensures m < |Do(s, c, e).sems|
    ensures var w, w' := s.sems[m].waiters, Do(s, c, e).sems[m].waiters;
            w' == w || (e.LinkWaiter? && w' == w + [s.cpus[c].current])
  {
    var t := s.cpus[c].current;
    if m == SemIndex(s.tasks[t].pc, e) {
      LocalOutcome(s, c, e, m, t);
      LocalList(t, s.tasks[t], s.sems[m], e);
    } else {
      OtherSemStays(s, c, e, m);
    }
  }

  lemma PopWaiters(s: State, c: CpuId, m: SemId)
    requires Enabled(s, c, PopWaiter) && m < |s.sems|
    ensures var s', w := Do(s, c, PopWaiter), s.sems[m].waiters;
            m < |s'.sems| && (s'.sems[m].waiters == w || (w != [] && s'.sems[m].waiters == w[..|w| - 1]))
  {
  }

  lemma SignalTakes(s: State, c: CpuId, m: SemId)
    requires Inv(s) && Enabled(s, c, PopWaiter) && m < |s.sems| && s.tasks[s.cpus[c].current].pc == SigPop(m)
    ensures var s', w, t := Do(s, c, PopWaiter), s.sems[m].waiters, s.cpus[c].current;
            && w != [] && m < |s'.sems| && s'.sems[m].waiters == w[..|w| - 1]
            && t in s'.tasks && s'.tasks[t].pc == SigUnlock(m, Some(w[|w| - 1]))
  {
    PopBefore(s, c);
  }

  lemma WaitersMove(s: State, c: CpuId, e: Event, m: SemId)
    requires Inv(s) && Enabled(s, c, e) && m < |s.sems|
    ensures m < |Do(s, c, e).sems|
    ensures var w, w', t := s.sems[m].waiters, Do(s, c, e).sems[m].waiters, s.cpus[c].current;
            || w' == w || (e.LinkWaiter? && w' == w + [t])
            || (e.PopWaiter? && w != [] && w' == w[..|w| - 1])
  {
    if IsLocal(e) { LocalWaiters(s, c, e, m); }
    else if e.PopWaiter? { PopWaiters(s, c, m); }
    else if !e.Wake? { CpuStepShape(s, c, e); }
  }

  /** A wait that blocks puts its task at the end of the list, and a signal takes the task at the end to wake it; no
      other step changes the list. */
  lemma WaitListStep(s: State, c: CpuId, e: Event, m: SemId)
    requires Reachable(s) && Enabled(s, c, e) && m < |s.sems|
    ensures m < |Do(s, c, e).sems|
    ensures var w, w', t := s.sems[m].waiters, Do(s, c, e).sems[m].waiters, s.cpus[c].current;
            || w' == w || (e.LinkWaiter? && w' == w + [t])
            || (e.PopWaiter? && w != [] && w' == w[..|w| - 1])
    ensures e.PopWaiter? && s.tasks[s.cpus[c].current].pc == SigPop(m) ==>
              var s', w, t := Do(s, c, e), s.sems[m].waiters, s.cpus[c].current;
              w != [] && t in s'.tasks && s'.tasks[t].pc == SigUnlock(m, Some(w[|w| - 1]))
  {
    ReachableInv(s);
    WaitersMove(s, c, e, m);
    if e.PopWaiter? && s.tasks[s.cpus[c].current].pc == SigPop(m) { SignalTakes(s, c, m); }
  }

  // p + 1 tasks wait for semaphore m in every state of b
  ghost predicate Waited(b: seq<State>, m: SemId, p: nat) {
    forall i {:trigger b[i]} :: 0 <= i < |b| ==> m < |b[i].sems| && p < |b[i].sems[m].waiters|
  }

  lemma {:induction false} FirstStay(b: seq<State>, ev: seq<(CpuId, Event)>, m: SemId, p: nat)
    requires Run(b, ev) && Inv(b[0]) && Waited(b, m, p)
    ensures b[|b| - 1].sems[m].waiters[..p + 1] == b[0].sems[m].waiters[..p + 1]
  {
    if ev != [] {
      RunTail(b, ev);
      WaitersMove(b[0], ev[0].0, ev[0].1, m);
      FirstStay(b[1..], ev[1..], m, p);
    }
  }

  /** So the last to block is the first to be woken: while more than p tasks wait, the first p + 1 of them stay. */
  lemma LastBlockedFirstWoken(b: seq<State>, ev: seq<(CpuId, Event)>, m: SemId, p: nat)
    requires Run(b, ev) && Reachable(b[0]) && Waited(b, m, p)
    ensures b[|b| - 1].sems[m].waiters[..p + 1] == b[0].sems[m].waiters[..p + 1]
  {
    ReachableInv(b[0]);
    FirstStay(b, ev, m, p);
  }
}
