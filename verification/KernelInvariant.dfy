/** What every reachable state of the kernel machine satisfies. */
module KernelInvariant {
  import opened Options
  import opened Kernel

  // Between kmt.c:217 and the choice of a task, `current` repeats `last`
  predicate OwnsCurrent(pc: CpuPc) {
    !(pc.WantQueue? || pc.Checking? || pc.Rotating?)
  }

  // Between the enqueue of kmt.c:208 and line 217, `last` names a task the CPU no longer owns
  predicate OwnsLast(pc: CpuPc) {
    !(pc.Storing? || pc.Relabel?)
  }

  predicate Unsaved(pc: CpuPc) {
    pc.Saving? || pc.SaveLocked? || pc.Storing?
  }

  ghost predicate RunnableIn(s: State, q: seq<Task>) {
    exists i :: 0 <= i < |q| && q[i] in s.tasks && s.tasks[q[i]].status.RUNNING?
  }

  ghost predicate CpuOk(s: State, c: CpuId)
    requires c < |s.cpus|
  {
    var k := s.cpus[c];
    && Idle(c) in s.tasks
    && k.current in s.tasks
    && (k.current.Idle? ==> k.current.cpu == c)
    && (OwnsCurrent(k.pc) && k.current.Thread? ==> s.tasks[k.current].place == Current(c))
    && (!OwnsCurrent(k.pc) ==> k.last == Some(k.current))
    && (k.last.Some? ==> k.last.value in s.tasks)
    && (k.last.Some? && k.last.value.Idle? ==> k.last.value.cpu == c)
    && (OwnsLast(k.pc) && k.last.Some? && k.last.value.Thread? ==> s.tasks[k.last.value].place == Last(c))
    && (k.pc.SaveLocked? ==> k.last.Some? && k.last.value.Thread?)
    && (k.pc.Checking? ==> k.pc.next <= |s.queue|)
    && (k.pc.Rotating? ==> k.pc.hand in s.tasks && k.pc.hand.Thread? && s.tasks[k.pc.hand].place == Hand(c)
                           && RunnableIn(s, [k.pc.hand] + s.queue))
  }

  // The place a task is said to be in is where it is
  ghost predicate PlaceOk(s: State, t: Task)
    requires t in s.tasks
  {
    match s.tasks[t].place
    case Nowhere => t.Idle?
    case InQueue => t in s.queue
    case Current(c) => c < |s.cpus| && OwnsCurrent(s.cpus[c].pc) && s.cpus[c].current == t
    case Last(c) => c < |s.cpus| && OwnsLast(s.cpus[c].pc) && s.cpus[c].last == Some(t)
    case Hand(c) => c < |s.cpus| && s.cpus[c].pc == Rotating(t)
    case Fresh(u) =>
      u in s.tasks && t.Thread? && (s.tasks[u].pc == Creating(t.id) || s.tasks[u].pc == CreateLocked(t.id))
  }

  // t is executing its own code, outside any handler
  predicate Executing(s: State, t: Task)
    requires t in s.tasks
  {
    if t.Idle? then t.cpu < |s.cpus| && s.cpus[t.cpu].current == t && s.cpus[t.cpu].pc.Exec?
    else s.tasks[t].place.Current? && s.tasks[t].place.cpu < |s.cpus| && s.cpus[s.tasks[t].place.cpu].pc.Exec?
  }

  ghost predicate TaskOk(s: State, t: Task)
    requires t in s.tasks
  {
    var r := s.tasks[t];
    && (t.Idle? <==> r.status.IDLE?)
    && (t.Idle? ==> t.cpu < |s.cpus| && r.place.Nowhere? && SemOf(r.pc).None?)
    && PlaceOk(s, t)
    && (!Interruptible(r.pc) ==> Executing(s, t))
    && (r.place.Fresh? ==> r.pc.Body? && r.status.RUNNING?)
    && (r.pc.Creating? || r.pc.CreateLocked? ==>
         Thread(r.pc.made) in s.tasks && s.tasks[Thread(r.pc.made)].place == Fresh(t))
    && (SemOf(r.pc).Some? ==> SemOf(r.pc).value < |s.sems|)
  }

  ghost predicate QueueOk(s: State) {
    && (forall i :: 0 <= i < |s.queue| ==>
          s.queue[i] in s.tasks && s.queue[i].Thread? && s.tasks[s.queue[i]].place.InQueue?)
    && (forall i, j :: 0 <= i < j < |s.queue| ==> s.queue[i] != s.queue[j])
  }

  // c is between acquire and release of queue_lk
  predicate InSection(s: State, c: CpuId)
    requires c < |s.cpus|
  {
    var k := s.cpus[c];
    k.pc.SaveLocked? || k.pc.Checking? || k.pc.Rotating?
    || (k.pc.Exec? && k.current in s.tasks && s.tasks[k.current].pc.CreateLocked?)
  }

  ghost predicate LockOk(s: State) {
    && (s.qlock.Some? ==> s.qlock.value < |s.cpus|)
    && (forall c {:trigger InSection(s, c)} :: 0 <= c < |s.cpus| ==> (s.qlock == Some(c) <==> InSection(s, c)))
  }

  // ---- contexts

  ghost predicate CpuContextOk(s: State, c: CpuId)
    requires c < |s.cpus| && CpuOk(s, c)
  {
    var k := s.cpus[c];
    && (Unsaved(k.pc) ==> s.tasks[k.current].trapped == Some(k.pc.ctx))
    && (k.last.None? ==> k.current == Idle(c) && (k.pc.Exec? || k.pc.Saving? || k.pc.Storing? || k.pc.Relabel?))
    && (s.tasks[Idle(c)].context.None? <==> k.last.None? && !k.pc.Relabel?)
    && (k.pc.Exec? ==> k.loaded == s.tasks[k.current].trapped)
  }

  // t's registers are on its stack but `context` does not point there yet
  predicate Stale(s: State, t: Task)
    requires t in s.tasks
  {
    if t.Idle? then t.cpu < |s.cpus| && s.cpus[t.cpu].current == t && Unsaved(s.cpus[t.cpu].pc)
    else s.tasks[t].place.Current? && s.tasks[t].place.cpu < |s.cpus| && Unsaved(s.cpus[s.tasks[t].place.cpu].pc)
  }

  ghost predicate TaskContextOk(s: State, t: Task)
    requires t in s.tasks
  {
    && (!Stale(s, t) ==> s.tasks[t].context == s.tasks[t].trapped)
    && (t.Thread? ==> s.tasks[t].context.Some?)
  }

  // ---- semaphores

  predicate Holds(pc: TaskPc, m: SemId) {
    && (pc.WaitDec? || pc.WaitMark? || pc.WaitLink? || pc.WaitUnlock? || pc.SigInc? || pc.SigPop? || pc.SigUnlock?)
    && pc.sem == m
  }

  // value has been decremented by a wait that has not returned
  predicate Entered(pc: TaskPc, m: SemId) {
    && (pc.WaitMark? || pc.WaitLink? || pc.WaitUnlock? || pc.WaitYield? || pc.WaitParked?)
    && pc.sem == m
  }

  // The length the wait list has while the lock holder is at pc
  function ListLength(value: int, pc: Option<TaskPc>): int {
    if pc.Some? && (pc.value.WaitMark? || pc.value.WaitLink?) then -value - 1
    else if pc.Some? && pc.value.SigPop? then Max(0, 1 - value)
    else Max(0, -value)
  }

  // The lock names the task between acquire and release of sem->lk
  ghost predicate SemLockOk(s: State, m: SemId)
    requires m < |s.sems|
  {
    && (s.sems[m].lock.Some? ==> s.sems[m].lock.value in s.tasks)
    && (forall t {:trigger Holds(s.tasks[t].pc, m)} :: t in s.tasks ==>
          (s.sems[m].lock == Some(t) <==> Holds(s.tasks[t].pc, m)))
  }

  ghost predicate InsideOk(s: State, m: SemId)
    requires m < |s.sems|
  {
    && (forall t {:trigger t in s.sems[m].inside} :: t in s.sems[m].inside ==> t in s.tasks)
    && (forall t {:trigger Entered(s.tasks[t].pc, m)} :: t in s.tasks ==>
          (t in s.sems[m].inside <==> Entered(s.tasks[t].pc, m)))
    && s.sems[m].value == s.sems[m].initial + s.sems[m].signals - s.sems[m].completed - |s.sems[m].inside|
  }

  ghost predicate WaitersOk(s: State, m: SemId)
    requires m < |s.sems|
  {
    var w := s.sems[m].waiters;
    && (forall i {:trigger w[i]} :: 0 <= i < |w| ==> w[i] in s.tasks && s.tasks[w[i]].waker == WaitList(m))
    && (forall i, j {:trigger w[i], w[j]} :: 0 <= i < j < |w| ==> w[i] != w[j])
  }

  ghost predicate LengthOk(s: State, m: SemId)
    requires m < |s.sems| && SemLockOk(s, m)
  {
    var q := s.sems[m];
    q.initial >= 0 ==> |q.waiters| == ListLength(q.value, if q.lock.None? then None else Some(s.tasks[q.lock.value].pc))
  }

  ghost predicate SemOk(s: State, m: SemId)
    requires m < |s.sems|
  {
    SemLockOk(s, m) && InsideOk(s, m) && WaitersOk(s, m) && LengthOk(s, m)
  }

  function WokenBy(pc: TaskPc): Option<Task> {
    if pc.SigUnlock? then pc.woken else if pc.SigWake? then Some(pc.wakee) else None
  }

  ghost predicate WakerOk(s: State, t: Task)
    requires t in s.tasks
  {
    var r := s.tasks[t];
    && (r.status.WAITING? <==> !r.waker.NoWaker?)
    && (r.pc.WaitLink? <==> r.waker.Itself?)
    && (r.waker.Itself? ==> r.waker.sem == r.pc.sem)
    && (r.pc.WaitUnlock? && r.pc.blocked ==> r.waker == WaitList(r.pc.sem))
    && (r.waker.WaitList? ==> r.waker.sem < |s.sems| && t in s.sems[r.waker.sem].waiters
                              && Entered(r.pc, r.waker.sem) && (r.pc.WaitUnlock? ==> r.pc.blocked) && !r.pc.WaitMark?)
    && (r.waker.Signaller? ==>
         r.waker.who in s.tasks && WokenBy(s.tasks[r.waker.who].pc) == Some(t) && (r.pc.WaitYield? || r.pc.WaitParked?))
    && (WokenBy(r.pc).Some? ==> WokenBy(r.pc).value in s.tasks && s.tasks[WokenBy(r.pc).value].waker == Signaller(t))
  }

  // A task that runs inside its _yield() of line 147 has been woken
  ghost predicate ResumedOk(s: State, c: CpuId)
    requires c < |s.cpus|
  {
    var k := s.cpus[c];
    k.current in s.tasks && (k.pc.Exec? || k.pc.Returning?) && s.tasks[k.current].pc.WaitParked? ==>
      s.tasks[k.current].status.RUNNING?
  }

  // ---- all of it

  ghost predicate Placed(s: State) {
    && (forall c {:trigger CpuOk(s, c)} :: 0 <= c < |s.cpus| ==> CpuOk(s, c))
    && (forall t {:trigger TaskOk(s, t)} :: t in s.tasks ==> TaskOk(s, t))
    && QueueOk(s)
    && LockOk(s)
  }

  ghost predicate Saved(s: State)
    requires Placed(s)
  {
    && (forall c {:trigger CpuContextOk(s, c)} :: 0 <= c < |s.cpus| ==> CpuOk(s, c) && CpuContextOk(s, c))
    && (forall t {:trigger TaskContextOk(s, t)} :: t in s.tasks ==> TaskContextOk(s, t))
  }

  ghost predicate Woken(s: State) {
    && (forall m {:trigger SemOk(s, m)} :: 0 <= m < |s.sems| ==> SemOk(s, m))
    && (forall c {:trigger ResumedOk(s, c)} :: 0 <= c < |s.cpus| ==> ResumedOk(s, c))
    && (forall t {:trigger WakerOk(s, t)} :: t in s.tasks ==> WakerOk(s, t))
  }

  ghost predicate Inv(s: State) {
    Placed(s) && Saved(s) && Woken(s)
  }

  lemma InitEstablishes(s: State)
    requires Init(s)
    ensures Inv(s)
  {
  }
}
