/**
 The multiprocessor scheduler and the semaphores of kmt.c as one state machine.

 Every CPU carries a program counter through `kmt_context_save` and `kmt_schedule`; every task
 carries a program counter through `kmt_create`, `kmt_sem_wait` and `kmt_sem_signal`, because those
 run on the task's own stack and can be preempted wherever interrupts are on.  A step is one
 access to shared state.  Accesses made under a lock are kept apart where a field they read can be
 written without that lock (a task's status), and are one step otherwise.
 */
module Kernel {
  import opened Options

  type CpuId = nat
  type SemId = nat

  datatype Task = Idle(cpu: CpuId) | Thread(id: nat)

  // TaskStatus; HEADER never leaves the list head, and DEAD is set by kmt_teardown only
  datatype Status = RUNNING | WAITING | IDLE

  /** Where a CPU is between a trap and the return from it. */
  datatype CpuPc =
    | Exec                   // outside the handlers: the current task's own code
    | Saving(ctx: nat)       // kmt_context_save, before line 208
    | SaveLocked(ctx: nat)   // line 300, queue_lk held, `last` not yet linked
    | Storing(ctx: nat)      // line 210; from here to line 217 `last` is stale
    | Relabel                // line 217
    | WantQueue              // line 220, spinning on queue_lk
    | Checking(next: nat)    // check_running_ulk, next position to look at
    | Rotating(hand: Task)   // lines 223-228, `transfer` is out of the queue
    | Returning              // line 239

  /** Where a task is inside the operations it calls. */
  datatype TaskPc =
    | Body                                      // its own code, interrupts on
    | Creating(made: nat)                       // kmt_create, task filled in, before line 78
    | CreateLocked(made: nat)                   // line 300, queue_lk held
    | WaitSpin(sem: SemId)                      // line 128
    | WaitDec(sem: SemId)                       // line 129, lock held
    | WaitMark(sem: SemId)                      // line 137, value went negative
    | WaitLink(sem: SemId)                      // lines 139-143
    | WaitUnlock(sem: SemId, blocked: bool)     // line 146
    | WaitYield(sem: SemId)                     // line 147, interrupts on again
    | WaitParked(sem: SemId)                    // inside the _yield() of line 147
    | SigSpin(sem: SemId)                       // line 151
    | SigInc(sem: SemId)                        // line 152, lock held
    | SigPop(sem: SemId)                        // lines 155-164
    | SigUnlock(sem: SemId, woken: Option<Task>)// line 166
    | SigWake(sem: SemId, wakee: Task)          // line 170, interrupts on again

  // Bookkeeping: which container holds a created task
  datatype Place = InQueue | Current(cpu: CpuId) | Last(cpu: CpuId) | Hand(cpu: CpuId) | Fresh(maker: Task) | Nowhere

  // Bookkeeping: who is responsible for waking a task
  datatype Waker = NoWaker | Itself(sem: SemId) | WaitList(sem: SemId) | Signaller(who: Task)

  datatype TaskRec = TaskRec(status: Status, context: Option<nat>, pc: TaskPc,
                               place: Place, waker: Waker, trapped: Option<nat>)

  datatype Cpu = Cpu(pc: CpuPc, current: Task, last: Option<Task>, loaded: Option<nat>)

  // waiters lists sem_head.next first and sem_head.prev last.  initial, signals, completed and
  // inside record the history: the value given to kmt_sem_init, the increments so far, the waits
  // that returned, and the tasks that have decremented value and not returned.
  datatype Sem = Sem(value: int, lock: Option<Task>, waiters: seq<Task>,
                     initial: int, signals: nat, completed: nat, inside: set<Task>)

  datatype State = State(cpus: seq<Cpu>, tasks: map<Task, TaskRec>, queue: seq<Task>,
                         qlock: Option<CpuId>, sems: seq<Sem>)

  datatype Event =
    | Trap(ctx: nat)
    | SaveSkip | SaveLock | SaveEnqueue | Store | SetLast
    | SchedLock | CheckNext | CheckHit | CheckMiss | Rotate | Pick | Resume
    | CreateBegin(made: nat, entry: nat) | CreateLock | CreateEnqueue
    | WaitBegin(sem: SemId) | WaitLock | Decrement | MarkWaiting | LinkWaiter | WaitRelease | WaitReturn
    | SigBegin(sem: SemId) | SigLock | Increment | PopEmpty | SigRelease
    | PopWaiter | Wake

  // ---- the fields a step reads

  ghost predicate ValidCpu(s: State, c: CpuId) {
    && c < |s.cpus|
    && s.cpus[c].current in s.tasks
    && (s.cpus[c].last.Some? ==> s.cpus[c].last.value in s.tasks)
    && (s.cpus[c].pc.Rotating? ==> s.cpus[c].pc.hand in s.tasks)
    && (forall t :: t in s.queue ==> t in s.tasks)
    && (var pc := s.tasks[s.cpus[c].current].pc;
        && (SemOf(pc).Some? ==> SemOf(pc).value < |s.sems|)
        && (pc.SigWake? ==> pc.wakee in s.tasks)
        && (pc.Creating? || pc.CreateLocked? ==> Thread(pc.made) in s.tasks))
  }

  function SemOf(pc: TaskPc): Option<SemId> {
    match pc
    case Body => None
    case Creating(_) => None
    case CreateLocked(_) => None
    case _ => Some(pc.sem)
  }

  // Interrupts are off inside kmt_create and from spin_lock to spin_unlock
  predicate Interruptible(pc: TaskPc) {
    pc.Body? || pc.WaitYield? || pc.WaitParked? || pc.SigWake?
  }

  function Max(a: int, b: int): int { if a < b then b else a }

  // ---- enabling conditions

  ghost predicate Enabled(s: State, c: CpuId, e: Event) {
    ValidCpu(s, c) &&
    var r := s.tasks[s.cpus[c].current];
    if Still(e) then StillEnabled(s, c, e)
    else if Relocates(e) then RelocateEnabled(s, c, e)
    else if MovesQueue(e) then QueueEnabled(s, c, e)
    else if e.PopWaiter? then
      s.cpus[c].pc.Exec? && r.pc.SigPop? && s.sems[r.pc.sem].waiters != [] && Back(s.sems[r.pc.sem].waiters) in s.tasks
    else if e.Wake? then s.cpus[c].pc.Exec? && r.pc.SigWake?
    else
      && s.cpus[c].pc.Exec? && s.cpus[c].current.Thread?
      && SemIndex(r.pc, e) < |s.sems| && LocalEnabled(r, s.sems[SemIndex(r.pc, e)], e)
  }

  /** Steps of the handlers and of kmt_create that move no task between containers. */
  predicate Still(e: Event) {
    || e.Trap? || e.SaveSkip? || e.SaveLock? || e.Store? || e.SchedLock? || e.CheckNext? || e.CheckMiss? || e.Resume?
    || e.CreateLock?
  }

  /** Steps that move a task and leave the queue alone. */
  predicate Relocates(e: Event) { e.SetLast? || e.Pick? || e.CreateBegin? }

  /** Steps that change the queue. */
  predicate MovesQueue(e: Event) { e.SaveEnqueue? || e.CreateEnqueue? || e.CheckHit? || e.Rotate? }

  ghost predicate StillEnabled(s: State, c: CpuId, e: Event)
    requires ValidCpu(s, c) && Still(e)
  {
    var k := s.cpus[c];
    var r := s.tasks[k.current];
    match e
    case Trap(_) => k.pc.Exec? && Interruptible(r.pc)
    case SaveSkip => k.pc.Saving? && (k.last.None? || s.tasks[k.last.value].status.IDLE?)
    case SaveLock => k.pc.Saving? && k.last.Some? && !s.tasks[k.last.value].status.IDLE? && s.qlock.None?
    case Store => k.pc.Storing?
    case SchedLock => k.pc.WantQueue? && s.qlock.None?
    case CheckNext => k.pc.Checking? && k.pc.next < |s.queue| && !s.tasks[s.queue[k.pc.next]].status.RUNNING?
    case CheckMiss => k.pc.Checking? && k.pc.next >= |s.queue| && Idle(c) in s.tasks
    case Resume => k.pc.Returning?
    case CreateLock => k.pc.Exec? && r.pc.Creating? && s.qlock.None?
  }

  ghost predicate RelocateEnabled(s: State, c: CpuId, e: Event)
    requires ValidCpu(s, c) && Relocates(e)
  {
    var k := s.cpus[c];
    match e
    case SetLast => k.pc.Relabel?
    case Pick => k.pc.Rotating? && s.tasks[k.pc.hand].status.RUNNING?
    case CreateBegin(n, _) => k.pc.Exec? && s.tasks[k.current].pc.Body? && Thread(n) !in s.tasks
  }

  ghost predicate QueueEnabled(s: State, c: CpuId, e: Event)
    requires ValidCpu(s, c) && MovesQueue(e)
  {
    var k := s.cpus[c];
    match e
    case SaveEnqueue => k.pc.SaveLocked? && k.last.Some?
    case CreateEnqueue => k.pc.Exec? && s.tasks[k.current].pc.CreateLocked?
    case CheckHit => k.pc.Checking? && k.pc.next < |s.queue| && s.tasks[s.queue[k.pc.next]].status.RUNNING?
    case Rotate => k.pc.Rotating? && !s.tasks[k.pc.hand].status.RUNNING?
  }

  /** Semaphore steps that touch the running task and one semaphore only. */
  predicate IsLocal(e: Event) {
    || e.WaitBegin? || e.WaitLock? || e.Decrement? || e.MarkWaiting? || e.LinkWaiter? || e.WaitRelease? || e.WaitReturn?
    || e.SigBegin? || e.SigLock? || e.Increment? || e.PopEmpty? || e.SigRelease?
  }

  function SemIndex(pc: TaskPc, e: Event): SemId {
    if e.WaitBegin? || e.SigBegin? then e.sem else if SemOf(pc).Some? then SemOf(pc).value else 0
  }

  predicate LocalEnabled(r: TaskRec, q: Sem, e: Event) {
    match e
    case WaitBegin(_) => r.pc.Body?
    case WaitLock => r.pc.WaitSpin? && q.lock.None?
    case Decrement => r.pc.WaitDec?
    case MarkWaiting => r.pc.WaitMark?
    case LinkWaiter => r.pc.WaitLink?
    case WaitRelease => r.pc.WaitUnlock?
    case WaitReturn => r.pc.WaitParked?
    case SigBegin(_) => r.pc.Body?
    case SigLock => r.pc.SigSpin? && q.lock.None?
    case Increment => r.pc.SigInc?
    case PopEmpty => r.pc.SigPop? && q.waiters == []
    case SigRelease => r.pc.SigUnlock?
    case _ => false
  }

  function Back<T>(q: seq<T>): T
    requires q != []
  {
    q[|q| - 1]
  }

  // ---- effects

  function SetPc(s: State, c: CpuId, pc: CpuPc): State
    requires c < |s.cpus|
  {
    s.(cpus := s.cpus[c := s.cpus[c].(pc := pc)])
  }

  function SetTask(s: State, t: Task, r: TaskRec): State {
    s.(tasks := s.tasks[t := r])
  }

  function SetSem(s: State, m: SemId, q: Sem): State
    requires m < |s.sems|
  {
    s.(sems := s.sems[m := q])
  }

  // Idle tasks are never queued, so the container bookkeeping leaves them out
  function Put(s: State, t: Task, p: Place): State
    requires t in s.tasks
  {
    if t.Thread? then SetTask(s, t, s.tasks[t].(place := p)) else s
  }

  ghost function Do(s: State, c: CpuId, e: Event): State
    requires Enabled(s, c, e)
  {
    if Still(e) then DoStill(s, c, e)
    else if Relocates(e) then DoRelocate(s, c, e)
    else if MovesQueue(e) then DoQueue(s, c, e)
    else if e.PopWaiter? then DoPop(s, c)
    else if e.Wake? then DoWake(s, c)
    else
      var t := s.cpus[c].current;
      var m := SemIndex(s.tasks[t].pc, e);
      var after := Local(t, s.tasks[t], s.sems[m], e);
      SetSem(SetTask(s, t, after.0), m, after.1)
  }

  ghost function DoStill(s: State, c: CpuId, e: Event): State
    requires ValidCpu(s, c) && Still(e) && StillEnabled(s, c, e)
  {
    var k := s.cpus[c];
    var t := k.current;
    var r := s.tasks[t];
    match e
    case Trap(ctx) =>
      var pc := if r.pc.WaitYield? then WaitParked(r.pc.sem) else r.pc;
      SetPc(SetTask(s, t, r.(trapped := Some(ctx), pc := pc)), c, Saving(ctx))
    case SaveSkip => SetPc(s, c, Storing(k.pc.ctx))
    case SaveLock => SetPc(s, c, SaveLocked(k.pc.ctx)).(qlock := Some(c))
    case Store => SetPc(SetTask(s, t, r.(context := Some(k.pc.ctx))), c, Relabel)
    case SchedLock => SetPc(s, c, Checking(0)).(qlock := Some(c))
    case CheckNext => SetPc(s, c, Checking(k.pc.next + 1))
    case CheckMiss => s.(cpus := s.cpus[c := k.(pc := Returning, current := Idle(c))], qlock := None)
    case Resume => s.(cpus := s.cpus[c := k.(pc := Exec, loaded := r.context)])
    case CreateLock => SetTask(s, t, r.(pc := CreateLocked(r.pc.made))).(qlock := Some(c))
  }

  ghost function DoRelocate(s: State, c: CpuId, e: Event): State
    requires ValidCpu(s, c) && Relocates(e) && RelocateEnabled(s, c, e)
  {
    var k := s.cpus[c];
    var t := k.current;
    match e
    case SetLast =>
      var s1 := Put(s, t, Last(c));
      s1.(cpus := s.cpus[c := k.(pc := WantQueue, last := Some(t))])
    case Pick =>
      var s1 := Put(s, k.pc.hand, Current(c));
      s1.(cpus := s.cpus[c := k.(pc := Returning, current := k.pc.hand)], qlock := None)
    case CreateBegin(n, entry) =>
      var made := TaskRec(RUNNING, Some(entry), Body, Fresh(t), NoWaker, Some(entry));
      SetTask(SetTask(s, Thread(n), made), t, s.tasks[t].(pc := Creating(n)))
  }

  ghost function DoQueue(s: State, c: CpuId, e: Event): State
    requires ValidCpu(s, c) && MovesQueue(e) && QueueEnabled(s, c, e)
  {
    var k := s.cpus[c];
    var t := k.current;
    var r := s.tasks[t];
    match e
    case SaveEnqueue =>
      SetPc(Put(s, k.last.value, InQueue), c, Storing(k.pc.ctx)).(queue := s.queue + [k.last.value], qlock := None)
    case CreateEnqueue =>
      var s1 := SetTask(s, t, r.(pc := Body));
      Put(s1, Thread(r.pc.made), InQueue).(queue := s.queue + [Thread(r.pc.made)], qlock := None)
    case CheckHit => SetPc(Put(s, s.queue[0], Hand(c)), c, Rotating(s.queue[0])).(queue := s.queue[1..])
    case Rotate =>
      var q := s.queue + [k.pc.hand];
      var s1 := Put(Put(s, k.pc.hand, InQueue), q[0], Hand(c));
      SetPc(s1, c, Rotating(q[0])).(queue := q[1..])
  }

  ghost function DoPop(s: State, c: CpuId): State
    requires Enabled(s, c, PopWaiter)
  {
    var t := s.cpus[c].current;
    var r := s.tasks[t];
    var q := s.sems[r.pc.sem];
    var w := Back(q.waiters);
    var s1 := SetTask(s, t, r.(pc := SigUnlock(r.pc.sem, Some(w))));
    SetSem(SetTask(s1, w, s1.tasks[w].(waker := Signaller(t))), r.pc.sem, q.(waiters := q.waiters[..|q.waiters| - 1]))
  }

  ghost function DoWake(s: State, c: CpuId): State
    requires Enabled(s, c, Wake)
  {
    var t := s.cpus[c].current;
    var r := s.tasks[t];
    var s1 := SetTask(s, t, r.(pc := Body));
    SetTask(s1, r.pc.wakee, s1.tasks[r.pc.wakee].(status := RUNNING, waker := NoWaker))
  }

  function Local(t: Task, r: TaskRec, q: Sem, e: Event): (TaskRec, Sem)
    requires LocalEnabled(r, q, e)
  {
    match e
    case WaitBegin(m) => (r.(pc := WaitSpin(m)), q)
    case WaitLock => (r.(pc := WaitDec(r.pc.sem)), q.(lock := Some(t)))
    case Decrement =>
      (r.(pc := if q.value - 1 < 0 then WaitMark(r.pc.sem) else WaitUnlock(r.pc.sem, false)),
       q.(value := q.value - 1, inside := q.inside + {t}))
    case MarkWaiting => (r.(status := WAITING, waker := Itself(r.pc.sem), pc := WaitLink(r.pc.sem)), q)
    case LinkWaiter =>
      (r.(waker := WaitList(r.pc.sem), pc := WaitUnlock(r.pc.sem, true)), q.(waiters := q.waiters + [t]))
    case WaitRelease =>
      if r.pc.blocked then (r.(pc := WaitYield(r.pc.sem)), q.(lock := None))
      else (r.(pc := Body), q.(lock := None, inside := q.inside - {t}, completed := q.completed + 1))
    case WaitReturn => (r.(pc := Body), q.(inside := q.inside - {t}, completed := q.completed + 1))
    case SigBegin(m) => (r.(pc := SigSpin(m)), q)
    case SigLock => (r.(pc := SigInc(r.pc.sem)), q.(lock := Some(t)))
    case Increment => (r.(pc := SigPop(r.pc.sem)), q.(value := q.value + 1, signals := q.signals + 1))
    case PopEmpty => (r.(pc := SigUnlock(r.pc.sem, None)), q)
    case SigRelease =>
      (r.(pc := if r.pc.woken.None? then Body else SigWake(r.pc.sem, r.pc.woken.value)), q.(lock := None))
  }

  ghost predicate Next(s: State, s': State) {
    exists c: CpuId, e: Event :: Enabled(s, c, e) && s' == Do(s, c, e)
  }

  /** The state kmt_init leaves: every CPU on its idle task, an empty queue, initialised semaphores. */
  ghost predicate Init(s: State) {
    && (forall c :: 0 <= c < |s.cpus| ==> s.cpus[c] == Cpu(Exec, Idle(c), None, None))
    && (forall t :: t in s.tasks <==> t.Idle? && t.cpu < |s.cpus|)
    && (forall t :: t in s.tasks ==> s.tasks[t] == TaskRec(IDLE, None, Body, Nowhere, NoWaker, None))
    && s.queue == [] && s.qlock.None?
    && (forall m :: 0 <= m < |s.sems| ==>
          s.sems[m] == Sem(s.sems[m].value, None, [], s.sems[m].value, 0, 0, {}))
  }

  ghost predicate Behavior(b: seq<State>) {
    && |b| > 0 && Init(b[0])
    && forall i :: 0 <= i < |b| - 1 ==> Next(b[i], b[i + 1])
  }

  ghost predicate Reachable(s: State) {
    exists b: seq<State> :: Behavior(b) && b[|b| - 1] == s
  }
}
