/** Every semaphore step keeps the invariant. */
module KernelSemSteps {
  import opened Options
  import opened Kernel
  import opened KernelInvariant

  // ---- what scheduling sees of a semaphore step

  predicate MakerPc(pc: TaskPc) { pc.Creating? || pc.CreateLocked? }

  /** Only statuses and thread program counters differ; u, the task taking the step, is on a CPU. */
  ghost predicate SameSchedule(s: State, s': State, u: Task) {
    && s'.cpus == s.cpus && s'.queue == s.queue && s'.qlock == s.qlock && |s'.sems| == |s.sems|
    && s'.tasks.Keys == s.tasks.Keys
    && u in s.tasks && Executing(s, u)
    && (forall t {:trigger s'.tasks[t]} {:trigger s.tasks[t]} :: t in s.tasks ==>
          && s'.tasks[t].place == s.tasks[t].place
          && s'.tasks[t].context == s.tasks[t].context
          && s'.tasks[t].trapped == s.tasks[t].trapped
          && StatusMove(t, u, s.tasks[t].status, s'.tasks[t].status)
          && (s'.tasks[t].pc == s.tasks[t].pc ||
              (t == u && t.Thread? && PcMove(s.tasks[t].pc, s'.tasks[t].pc, |s.sems|))))
  }

  predicate StatusMove(t: Task, u: Task, before: Status, after: Status) {
    after == before || (t.Thread? && (after.RUNNING? || (t == u && after.WAITING?)))
  }

  predicate PcMove(before: TaskPc, after: TaskPc, sems: nat) {
    !MakerPc(before) && !MakerPc(after) && (SemOf(after).Some? ==> SemOf(after).value < sems)
  }

  lemma SameScheduleCpu(s: State, s': State, u: Task, c: CpuId)
    requires Placed(s) && SameSchedule(s, s', u) && c < |s.cpus|
    ensures CpuOk(s', c) && (s'.qlock == Some(c) <==> InSection(s', c))
  {
    assert CpuOk(s, c);
    assert s.qlock == Some(c) <==> InSection(s, c);
    if s.cpus[c].pc.Rotating? {
      var q := [s.cpus[c].pc.hand] + s.queue;
      var i :| 0 <= i < |q| && q[i] in s.tasks && s.tasks[q[i]].status.RUNNING?;
      assert s'.tasks[q[i]].status.RUNNING?;
    }
  }

  lemma SameSchedulePlaced(s: State, s': State, u: Task)
    requires Placed(s) && SameSchedule(s, s', u)
    ensures Placed(s')
  {
    assert TaskOk(s, u);
    forall c | 0 <= c < |s'.cpus| ensures CpuOk(s', c) && (s'.qlock == Some(c) <==> InSection(s', c)) {
      SameScheduleCpu(s, s', u, c);
    }
    forall t | t in s'.tasks ensures TaskOk(s', t) { assert TaskOk(s, t); }
  }

  lemma SameScheduleKeeps(s: State, s': State, u: Task)
    requires Placed(s) && Saved(s) && SameSchedule(s, s', u)
    ensures Placed(s') && Saved(s')
  {
    SameSchedulePlaced(s, s', u);
    forall c | 0 <= c < |s'.cpus| ensures CpuOk(s', c) && CpuContextOk(s', c) {
      assert CpuOk(s', c) && CpuContextOk(s, c);
    }
    forall t | t in s'.tasks ensures TaskContextOk(s', t) { assert TaskContextOk(s, t); }
  }

  // ---- steps that touch the running task and one semaphore

  /** The invariant as one task and one semaphore see it, the rest of the system held fixed. */
  ghost predicate Agree(t: Task, r: TaskRec, q: Sem, m: SemId) {
    && (q.lock == Some(t) <==> Holds(r.pc, m))
    && (t in q.inside <==> Entered(r.pc, m))
    && (t in q.waiters <==> r.waker == WaitList(m))
    && q.value == q.initial + q.signals - q.completed - |q.inside|
    && (q.initial >= 0 && (q.lock.None? || q.lock == Some(t)) ==>
          |q.waiters| == ListLength(q.value, if q.lock.None? then None else Some(r.pc)))
  }

  /** The part of WakerOk that mentions no other task. */
  ghost predicate OwnWaker(t: Task, r: TaskRec, m: SemId) {
    && (t.Idle? <==> r.status.IDLE?)
    && (r.status.WAITING? <==> !r.waker.NoWaker?)
    && (r.pc.WaitLink? <==> r.waker.Itself?)
    && (r.waker.Itself? ==> r.waker.sem == r.pc.sem)
    && (r.pc.WaitUnlock? && r.pc.blocked ==> r.waker == WaitList(r.pc.sem))
    && (r.waker.WaitList? ==> Entered(r.pc, r.waker.sem) && (r.pc.WaitUnlock? ==> r.pc.blocked) && !r.pc.WaitMark?)
    && (r.waker.Signaller? ==> r.pc.WaitYield? || r.pc.WaitParked?)
    && (SemOf(r.pc).Some? ==> SemOf(r.pc).value == m)
  }

  /** What a local step leaves alone. */
  ghost predicate LocalFrame(t: Task, r: TaskRec, q: Sem, r': TaskRec, q': Sem, m: SemId) {
    && r'.place == r.place && r'.context == r.context && r'.trapped == r.trapped
    && !MakerPc(r.pc) && !MakerPc(r'.pc) && !r'.pc.WaitParked?
    && WokenBy(r'.pc) == WokenBy(r.pc)
    && (r.waker == r'.waker || (!r.waker.WaitList? && !r.waker.Signaller? && !r'.waker.Signaller?))
    && (r'.waker.WaitList? ==> r'.waker.sem == m)
    && (q'.lock == q.lock || (q'.lock.None? && q.lock == Some(t)) || (q.lock.None? && q'.lock == Some(t)))
    && q'.inside - {t} == q.inside - {t}
    && (q'.waiters == q.waiters || q'.waiters == q.waiters + [t])
    && (q'.waiters != q.waiters ==> t !in q.waiters)
    && (q.lock.Some? && q.lock != Some(t) ==> q'.value == q.value && q'.waiters == q.waiters)
    && q'.initial == q.initial
  }

  ghost predicate LocalReady(t: Task, r: TaskRec, q: Sem, m: SemId, e: Event) {
    && IsLocal(e) && LocalEnabled(r, q, e) && m == SemIndex(r.pc, e) && t.Thread?
    && Agree(t, r, q, m) && OwnWaker(t, r, m)
    && (r.pc.WaitParked? ==> r.status.RUNNING?)
  }

  ghost predicate LocalDone(t: Task, r: TaskRec, q: Sem, m: SemId, e: Event)
    requires LocalEnabled(r, q, e)
  {
    var (r', q') := Local(t, r, q, e);
    Agree(t, r', q', m) && OwnWaker(t, r', m) && LocalFrame(t, r, q, r', q', m)
  }

  lemma LocalWaitStep(t: Task, r: TaskRec, q: Sem, m: SemId, e: Event)
    requires LocalReady(t, r, q, m, e)
    requires e.Decrement? || e.MarkWaiting? || e.LinkWaiter?
    ensures LocalDone(t, r, q, m, e)
  {
    assert |q.inside + {t}| == |q.inside| + if t in q.inside then 0 else 1;
    if e.LinkWaiter? { assert (q.waiters + [t])[|q.waiters|] == t; }
  }

  lemma TakeOut<T>(x: set<T>, t: T)
    requires t in x
    ensures |x - {t}| == |x| - 1
  {
  }

  lemma LocalReleaseStep(t: Task, r: TaskRec, q: Sem, m: SemId)
    requires LocalReady(t, r, q, m, WaitRelease)
    ensures LocalDone(t, r, q, m, WaitRelease)
  {
    TakeOut(q.inside, t);
  }

  lemma LocalReturnStep(t: Task, r: TaskRec, q: Sem, m: SemId)
    requires LocalReady(t, r, q, m, WaitReturn)
    ensures LocalDone(t, r, q, m, WaitReturn)
  {
    TakeOut(q.inside, t);
  }

  lemma LocalOtherStep(t: Task, r: TaskRec, q: Sem, m: SemId, e: Event)
    requires LocalReady(t, r, q, m, e)
    requires !e.Decrement? && !e.MarkWaiting? && !e.LinkWaiter? && !e.WaitRelease? && !e.WaitReturn?
    ensures LocalDone(t, r, q, m, e)
  {
  }

  lemma LocalStep(t: Task, r: TaskRec, q: Sem, m: SemId, e: Event)
    requires LocalReady(t, r, q, m, e)
    ensures LocalDone(t, r, q, m, e)
  {
    if e.Decrement? || e.MarkWaiting? || e.LinkWaiter? { LocalWaitStep(t, r, q, m, e); }
    else if e.WaitRelease? { LocalReleaseStep(t, r, q, m); }
    else if e.WaitReturn? { LocalReturnStep(t, r, q, m); }
    else { LocalOtherStep(t, r, q, m, e); }
  }

  ghost predicate LocalChange(s: State, s': State, t: Task, m: SemId) {
    && t in s.tasks && m < |s.sems| && s'.tasks.Keys == s.tasks.Keys && |s'.sems| == |s.sems| && s'.cpus == s.cpus
    && (forall u {:trigger s'.tasks[u]} {:trigger s.tasks[u]} :: u in s.tasks && u != t ==> s'.tasks[u] == s.tasks[u])
    && (forall m' {:trigger s'.sems[m']} :: 0 <= m' < |s.sems| && m' != m ==> s'.sems[m'] == s.sems[m'])
    && Agree(t, s'.tasks[t], s'.sems[m], m) && OwnWaker(t, s'.tasks[t], m)
    && LocalFrame(t, s.tasks[t], s.sems[m], s'.tasks[t], s'.sems[m], m)
    && (SemOf(s.tasks[t].pc).Some? ==> SemOf(s.tasks[t].pc).value == m)
  }

  lemma LocalChangeLock(s: State, s': State, t: Task, m: SemId, m': SemId)
    requires Woken(s) && LocalChange(s, s', t, m) && m' < |s.sems|
    ensures SemLockOk(s', m')
  {
    assert SemOk(s, m');
    forall u | u in s.tasks ensures s'.sems[m'].lock == Some(u) <==> Holds(s'.tasks[u].pc, m') {
      assert s.sems[m'].lock == Some(u) <==> Holds(s.tasks[u].pc, m');
    }
  }

  lemma LocalChangeInside(s: State, s': State, t: Task, m: SemId, m': SemId)
    requires Woken(s) && LocalChange(s, s', t, m) && m' < |s.sems|
    ensures InsideOk(s', m')
  {
    assert SemOk(s, m');
    forall u | u in s.tasks ensures u in s'.sems[m'].inside <==> Entered(s'.tasks[u].pc, m') {
      assert u in s.sems[m'].inside <==> Entered(s.tasks[u].pc, m');
      assert u != t ==> (u in s'.sems[m'].inside <==> u in s'.sems[m'].inside - {t});
    }
    assert forall u :: u in s'.sems[m'].inside ==> u == t || u in s'.sems[m'].inside - {t};
  }

  lemma LocalChangeLength(s: State, s': State, t: Task, m: SemId, m': SemId)
    requires Woken(s) && LocalChange(s, s', t, m) && m' < |s.sems| && SemLockOk(s', m')
    ensures LengthOk(s', m')
  {
    assert SemOk(s, m') && LengthOk(s, m');
    if s'.sems[m'].lock.Some? {
      var u := s'.sems[m'].lock.value;
      assert Holds(s'.tasks[u].pc, m');
      if u != t {
        assert s'.tasks[u] == s.tasks[u];
        assert Holds(s.tasks[u].pc, m');
      }
    }
  }

  lemma LocalChangeSems(s: State, s': State, t: Task, m: SemId)
    requires Woken(s) && LocalChange(s, s', t, m)
    ensures forall m' {:trigger SemOk(s', m')} :: 0 <= m' < |s'.sems| ==> SemOk(s', m')
  {
    forall m' | 0 <= m' < |s'.sems| ensures SemOk(s', m') {
      assert SemOk(s, m');
      LocalChangeLock(s, s', t, m, m');
      LocalChangeInside(s, s', t, m, m');
      LocalChangeLength(s, s', t, m, m');
      assert WaitersOk(s', m');
    }
  }

  lemma LocalChangeWakers(s: State, s': State, t: Task, m: SemId)
    requires Woken(s) && LocalChange(s, s', t, m)
    ensures forall u {:trigger WakerOk(s', u)} :: u in s'.tasks ==> WakerOk(s', u)
    ensures forall c {:trigger ResumedOk(s', c)} :: 0 <= c < |s'.cpus| ==> ResumedOk(s', c)
  {
    assert WakerOk(s, t);
    forall u | u in s'.tasks ensures WakerOk(s', u) { assert WakerOk(s, u); }
    forall c | 0 <= c < |s'.cpus| ensures ResumedOk(s', c) { assert ResumedOk(s, c); }
  }

  lemma LocalAgrees(s: State, t: Task, m: SemId)
    requires Woken(s) && t in s.tasks && m < |s.sems|
    ensures Agree(t, s.tasks[t], s.sems[m], m)
  {
    assert SemOk(s, m) && WakerOk(s, t);
    assert s.sems[m].lock == Some(t) <==> Holds(s.tasks[t].pc, m);
    assert t in s.sems[m].inside <==> Entered(s.tasks[t].pc, m);
  }

  lemma OwnWakerOf(s: State, t: Task, m: SemId)
    requires t in s.tasks && WakerOk(s, t) && TaskOk(s, t)
    requires SemOf(s.tasks[t].pc).Some? ==> SemOf(s.tasks[t].pc).value == m
    ensures OwnWaker(t, s.tasks[t], m)
  {
  }

  lemma RunsItself(s: State, c: CpuId, t: Task)
    requires c < |s.cpus| && CpuOk(s, c) && ResumedOk(s, c) && s.cpus[c].pc.Exec? && s.cpus[c].current == t && t.Thread?
    ensures Executing(s, t) && (s.tasks[t].pc.WaitParked? ==> s.tasks[t].status.RUNNING?)
  {
  }

  lemma LocalGuard(s: State, c: CpuId, e: Event)
    requires IsLocal(e) && Enabled(s, c, e)
    ensures s.cpus[c].pc.Exec? && s.cpus[c].current.Thread? && s.cpus[c].current in s.tasks
    ensures var r := s.tasks[s.cpus[c].current];
            SemIndex(r.pc, e) < |s.sems| && LocalEnabled(r, s.sems[SemIndex(r.pc, e)], e)
  {
  }

  lemma LocalBefore(s: State, c: CpuId, e: Event)
    requires Inv(s) && IsLocal(e) && Enabled(s, c, e)
    ensures var t := s.cpus[c].current;
            var m := SemIndex(s.tasks[t].pc, e);
            LocalReady(t, s.tasks[t], s.sems[m], m, e) && Executing(s, t)
  {
    var t := s.cpus[c].current;
    var m := SemIndex(s.tasks[t].pc, e);
    LocalGuard(s, c, e);
    assert CpuOk(s, c) && ResumedOk(s, c);
    assert TaskOk(s, t) && WakerOk(s, t);
    RunsItself(s, c, t);
    LocalAgrees(s, t, m);
    OwnWakerOf(s, t, m);
  }

  lemma LocalShape(s: State, t: Task, m: SemId, r': TaskRec, q': Sem)
    requires t in s.tasks && m < |s.sems|
    requires LocalFrame(t, s.tasks[t], s.sems[m], r', q', m) && OwnWaker(t, s.tasks[t], m)
    requires Agree(t, r', q', m) && OwnWaker(t, r', m)
    ensures LocalChange(s, SetSem(SetTask(s, t, r'), m, q'), t, m)
  {
  }

  lemma LocalMoves(t: Task, r: TaskRec, q: Sem, m: SemId, e: Event, sems: nat)
    requires IsLocal(e) && LocalEnabled(r, q, e) && LocalDone(t, r, q, m, e) && t.Thread?
    requires m == SemIndex(r.pc, e) && m < sems
    ensures var r' := Local(t, r, q, e).0; StatusMove(t, t, r.status, r'.status) && PcMove(r.pc, r'.pc, sems)
  {
  }

  lemma QuietShape(s: State, t: Task, m: SemId, r': TaskRec, q': Sem)
    requires t in s.tasks && m < |s.sems| && t.Thread? && Executing(s, t)
    requires LocalFrame(t, s.tasks[t], s.sems[m], r', q', m)
    requires StatusMove(t, t, s.tasks[t].status, r'.status) && PcMove(s.tasks[t].pc, r'.pc, |s.sems|)
    ensures SameSchedule(s, SetSem(SetTask(s, t, r'), m, q'), t)
  {
  }

  lemma LocalQuiet(s: State, c: CpuId, e: Event, t: Task, m: SemId)
    requires IsLocal(e) && Enabled(s, c, e) && t == s.cpus[c].current && m == SemIndex(s.tasks[t].pc, e)
    requires LocalDone(t, s.tasks[t], s.sems[m], m, e) && Executing(s, t)
    ensures SameSchedule(s, Do(s, c, e), t)
  {
    LocalMoves(t, s.tasks[t], s.sems[m], m, e, |s.sems|);
    QuietShape(s, t, m, Local(t, s.tasks[t], s.sems[m], e).0, Local(t, s.tasks[t], s.sems[m], e).1);
  }

  lemma LocalKeeps(s: State, c: CpuId, e: Event)
    requires Inv(s) && IsLocal(e) && Enabled(s, c, e)
    ensures Inv(Do(s, c, e))
  {
    var t := s.cpus[c].current;
    var m := SemIndex(s.tasks[t].pc, e);
    LocalBefore(s, c, e);
    LocalStep(t, s.tasks[t], s.sems[m], m, e);
    LocalShape(s, t, m, Local(t, s.tasks[t], s.sems[m], e).0, Local(t, s.tasks[t], s.sems[m], e).1);
    LocalQuiet(s, c, e, t, m);
    ChangeKeeps(s, Do(s, c, e), t, m);
  }

  lemma ChangeKeeps(s: State, s': State, t: Task, m: SemId)
    requires Inv(s) && LocalChange(s, s', t, m) && SameSchedule(s, s', t)
    ensures Inv(s')
  {
    LocalChangeSems(s, s', t, m);
    LocalChangeWakers(s, s', t, m);
    SameScheduleKeeps(s, s', t);
  }

  // ---- taking a waiter off the list

  ghost predicate Popped(s: State, s': State, t: Task, w: Task, m: SemId) {
    && t in s.tasks && w in s.tasks && t != w && m < |s.sems|
    && s.tasks[t].pc == SigPop(m) && s.sems[m].waiters != [] && w == Back(s.sems[m].waiters)
    && s'.tasks.Keys == s.tasks.Keys
    && s'.tasks[t] == s.tasks[t].(pc := SigUnlock(m, Some(w)))
    && s'.tasks[w] == s.tasks[w].(waker := Signaller(t))
    && (forall u {:trigger s'.tasks[u]} {:trigger s.tasks[u]} :: u in s.tasks && u != t && u != w ==>
          s'.tasks[u] == s.tasks[u])
    && |s'.sems| == |s.sems|
    && s'.sems[m] == s.sems[m].(waiters := s.sems[m].waiters[..|s.sems[m].waiters| - 1])
    && (forall m' {:trigger s'.sems[m']} :: 0 <= m' < |s.sems| && m' != m ==> s'.sems[m'] == s.sems[m'])
    && s'.cpus == s.cpus && s'.queue == s.queue && s'.qlock == s.qlock
  }

  lemma PoppedWakers(s: State, s': State, t: Task, w: Task, m: SemId)
    requires Woken(s) && Popped(s, s', t, w, m)
    ensures forall u {:trigger WakerOk(s', u)} :: u in s'.tasks ==> WakerOk(s', u)
  {
    var ws := s.sems[m].waiters;
    assert SemOk(s, m) && WakerOk(s, t) && WakerOk(s, w);
    assert Holds(s.tasks[t].pc, m);
    assert s.sems[m].lock == Some(w) <==> Holds(s.tasks[w].pc, m);
    forall u | u in s'.tasks ensures WakerOk(s', u) {
      assert WakerOk(s, u);
      if u != w && u in ws {
        var i :| 0 <= i < |ws| && ws[i] == u;
        assert ws[..|ws| - 1][i] == u;
      }
    }
  }

  lemma PoppedSem(s: State, s': State, t: Task, w: Task, m: SemId, m': SemId)
    requires Woken(s) && Popped(s, s', t, w, m) && m' < |s.sems|
    ensures SemOk(s', m')
  {
    assert SemOk(s, m) && WakerOk(s, w) && SemOk(s, m');
    assert Holds(s.tasks[t].pc, m);
    assert s.sems[m].waiters[|s.sems[m].waiters| - 1] == w;
    forall u | u in s.tasks
      ensures s'.sems[m'].lock == Some(u) <==> Holds(s'.tasks[u].pc, m')
      ensures u in s'.sems[m'].inside <==> Entered(s'.tasks[u].pc, m')
    {
      assert s.sems[m'].lock == Some(u) <==> Holds(s.tasks[u].pc, m');
      assert u in s.sems[m'].inside <==> Entered(s.tasks[u].pc, m');
    }
  }

  lemma PoppedSems(s: State, s': State, t: Task, w: Task, m: SemId)
    requires Woken(s) && Popped(s, s', t, w, m)
    ensures forall m' {:trigger SemOk(s', m')} :: 0 <= m' < |s'.sems| ==> SemOk(s', m')
  {
    forall m' | 0 <= m' < |s'.sems| ensures SemOk(s', m') { PoppedSem(s, s', t, w, m, m'); }
  }

  lemma PopBefore(s: State, c: CpuId)
    requires Inv(s) && Enabled(s, c, PopWaiter)
    ensures var t := s.cpus[c].current;
            var w := Back(s.sems[s.tasks[t].pc.sem].waiters);
            t.Thread? && t != w && Executing(s, t)
  {
    var t := s.cpus[c].current;
    var m := s.tasks[t].pc.sem;
    var w := Back(s.sems[m].waiters);
    assert w == s.sems[m].waiters[|s.sems[m].waiters| - 1];
    assert CpuOk(s, c) && TaskOk(s, t) && WakerOk(s, t) && SemOk(s, m) && WakerOk(s, w);
  }

  lemma PopShape(s: State, c: CpuId, t: Task, w: Task, m: SemId)
    requires Enabled(s, c, PopWaiter) && t == s.cpus[c].current
    requires m == s.tasks[t].pc.sem && w == Back(s.sems[m].waiters)
    requires t.Thread? && t != w && Executing(s, t)
    ensures Popped(s, Do(s, c, PopWaiter), t, w, m)
  {
  }

  lemma PopQuiet(s: State, s': State, t: Task, w: Task, m: SemId)
    requires Popped(s, s', t, w, m) && t.Thread? && Executing(s, t)
    ensures SameSchedule(s, s', t)
  {
  }

  lemma PopKeeps(s: State, c: CpuId)
    requires Inv(s) && Enabled(s, c, PopWaiter)
    ensures Inv(Do(s, c, PopWaiter))
  {
    var t := s.cpus[c].current;
    var m := s.tasks[t].pc.sem;
    PopBefore(s, c);
    PopShape(s, c, t, Back(s.sems[m].waiters), m);
    PopQuiet(s, Do(s, c, PopWaiter), t, Back(s.sems[m].waiters), m);
    PoppedKeeps(s, Do(s, c, PopWaiter), t, Back(s.sems[m].waiters), m);
  }

  lemma PoppedKeeps(s: State, s': State, t: Task, w: Task, m: SemId)
    requires Inv(s) && Popped(s, s', t, w, m) && SameSchedule(s, s', t)
    ensures Inv(s')
  {
    PoppedSems(s, s', t, w, m);
    PoppedWakers(s, s', t, w, m);
    SameScheduleKeeps(s, s', t);
    forall c | 0 <= c < |s'.cpus| ensures ResumedOk(s', c) { assert ResumedOk(s, c); }
  }

  // ---- making the waiter runnable

  ghost predicate WokeUp(s: State, s': State, t: Task, w: Task) {
    && t in s.tasks && w in s.tasks && t != w
    && s.tasks[t].pc.SigWake? && s.tasks[t].pc.wakee == w
    && s' == s.(tasks := s.tasks[t := s.tasks[t].(pc := Body)][w := s.tasks[w].(status := RUNNING, waker := NoWaker)])
  }

  lemma WokeUpSem(s: State, s': State, t: Task, w: Task, m: SemId)
    requires WokeUp(s, s', t, w) && m < |s.sems| && SemOk(s, m) && WakerOk(s, t) && WakerOk(s, w)
    ensures SemOk(s', m)
  {
    forall u | u in s.tasks
      ensures s'.sems[m].lock == Some(u) <==> Holds(s'.tasks[u].pc, m)
      ensures u in s'.sems[m].inside <==> Entered(s'.tasks[u].pc, m)
    {
      assert s.sems[m].lock == Some(u) <==> Holds(s.tasks[u].pc, m);
      assert u in s.sems[m].inside <==> Entered(s.tasks[u].pc, m);
    }
  }

  lemma WokeUpKeepsWoken(s: State, s': State, t: Task, w: Task)
    requires Woken(s) && WokeUp(s, s', t, w)
    ensures Woken(s')
  {
    assert WakerOk(s, t) && WakerOk(s, w);
    forall u | u in s'.tasks ensures WakerOk(s', u) { assert WakerOk(s, u); }
    forall c | 0 <= c < |s'.cpus| ensures ResumedOk(s', c) { assert ResumedOk(s, c); }
    forall m | 0 <= m < |s'.sems| ensures SemOk(s', m) {
      assert SemOk(s, m);
      WokeUpSem(s, s', t, w, m);
    }
  }

  lemma WakeBefore(s: State, c: CpuId)
    requires Inv(s) && Enabled(s, c, Wake)
    ensures var t := s.cpus[c].current;
            var w := s.tasks[t].pc.wakee;
            t.Thread? && w in s.tasks && w.Thread? && t != w && Executing(s, t)
  {
    var t := s.cpus[c].current;
    var w := s.tasks[t].pc.wakee;
    assert CpuOk(s, c) && TaskOk(s, t) && WakerOk(s, t) && WakerOk(s, w) && TaskOk(s, w);
  }

  lemma WakeShape(s: State, c: CpuId, t: Task, w: Task)
    requires Enabled(s, c, Wake) && t == s.cpus[c].current && w == s.tasks[t].pc.wakee
    requires t.Thread? && w in s.tasks && w.Thread? && t != w && Executing(s, t)
    ensures WokeUp(s, Do(s, c, Wake), t, w)
  {
  }

  lemma WakeQuiet(s: State, s': State, t: Task, w: Task)
    requires WokeUp(s, s', t, w) && t.Thread? && w.Thread? && Executing(s, t)
    ensures SameSchedule(s, s', t)
  {
  }

  lemma WakeKeeps(s: State, c: CpuId)
    requires Inv(s) && Enabled(s, c, Wake)
    ensures Inv(Do(s, c, Wake))
  {
    var t := s.cpus[c].current;
    var w := s.tasks[t].pc.wakee;
    WakeBefore(s, c);
    WakeShape(s, c, t, w);
    WakeQuiet(s, Do(s, c, Wake), t, w);
    WokeUpKeepsWoken(s, Do(s, c, Wake), t, w);
    SameScheduleKeeps(s, Do(s, c, Wake), t);
  }
}
