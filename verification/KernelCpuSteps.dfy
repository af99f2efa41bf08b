/** Every step of a handler, and every step of kmt_create, keeps the invariant. */
module KernelCpuSteps {
  import opened Options
  import opened Kernel
  import opened KernelInvariant

  // ---- what a step of one CPU leaves alone

  // A place that CPU c, or the task it runs, may change
  predicate Within(p: Place, c: CpuId, t: Task) {
    p.InQueue? || p == Current(c) || p == Last(c) || p == Hand(c) || p == Fresh(t)
  }

  // Semaphores do not tell these apart, except that a yielding task has parked
  predicate SamePc(before: TaskPc, after: TaskPc) {
    || before == after
    || (SemOf(before).None? && SemOf(after).None?)
    || (before.WaitYield? && after == WaitParked(before.sem))
  }

  ghost predicate SameWaits(s: State, s': State) {
    && s'.sems == s.sems && s.tasks.Keys <= s'.tasks.Keys
    && (forall t {:trigger s'.tasks[t]} {:trigger s.tasks[t]} :: t in s.tasks ==>
          && s'.tasks[t].status == s.tasks[t].status && s'.tasks[t].waker == s.tasks[t].waker
          && SamePc(s.tasks[t].pc, s'.tasks[t].pc))
    && (forall t {:trigger t in s'.tasks} :: t in s'.tasks && t !in s.tasks ==>
          s'.tasks[t].status.RUNNING? && s'.tasks[t].waker.NoWaker? && s'.tasks[t].pc.Body?)
  }

  /** Only CPU c and the places within its reach differ; the queue only under its lock. */
  ghost predicate CpuMove(s: State, s': State, c: CpuId) {
    && SameWaits(s, s')
    && c < |s.cpus| && |s'.cpus| == |s.cpus| && s.cpus[c].current in s.tasks
    && (forall d {:trigger s'.cpus[d]} :: 0 <= d < |s.cpus| && d != c ==> s'.cpus[d] == s.cpus[d])
    && (forall t {:trigger s'.tasks[t]} {:trigger s.tasks[t]} :: t in s.tasks ==>
          && (t != s.cpus[c].current ==>
                s'.tasks[t].pc == s.tasks[t].pc && s'.tasks[t].context == s.tasks[t].context &&
                s'.tasks[t].trapped == s.tasks[t].trapped)
          && (s'.tasks[t].place == s.tasks[t].place || Within(s.tasks[t].place, c, s.cpus[c].current)))
    && (forall t {:trigger t in s'.tasks} :: t in s'.tasks && t !in s.tasks ==>
          && t.Thread? && s'.tasks[t].trapped.Some?
          && s'.tasks[t] ==
             TaskRec(RUNNING, s'.tasks[t].trapped, Body, Fresh(s.cpus[c].current), NoWaker, s'.tasks[t].trapped))
    && (s'.queue == s.queue || InSection(s, c))
    && (s'.qlock == s.qlock || (s.qlock.None? && s'.qlock == Some(c)) || (s.qlock == Some(c) && s'.qlock.None?))
  }

  lemma OtherCpuPlaced(s: State, s': State, c: CpuId, d: CpuId)
    requires Placed(s) && CpuMove(s, s', c) && d < |s.cpus| && d != c
    ensures CpuOk(s', d)
  {
    assert CpuOk(s, c) && TaskOk(s, s.cpus[c].current) && CpuOk(s, d);
    assert s.qlock == Some(c) <==> InSection(s, c);
    assert s.qlock == Some(d) <==> InSection(s, d);
    assert s'.cpus[d] == s.cpus[d];
  }

  lemma OtherCpuLocked(s: State, s': State, c: CpuId, d: CpuId)
    requires Placed(s) && CpuMove(s, s', c) && d < |s.cpus| && d != c
    ensures s'.qlock == Some(d) <==> InSection(s', d)
  {
    assert CpuOk(s, c) && TaskOk(s, s.cpus[c].current) && CpuOk(s, d);
    assert s.qlock == Some(d) <==> InSection(s, d);
    assert s'.cpus[d] == s.cpus[d];
  }

  lemma OtherCpusPlaced(s: State, s': State, c: CpuId)
    requires Placed(s) && CpuMove(s, s', c)
    ensures forall d {:trigger CpuOk(s', d)} :: 0 <= d < |s.cpus| && d != c ==> CpuOk(s', d)
    ensures forall d {:trigger InSection(s', d)} :: 0 <= d < |s.cpus| && d != c ==>
              (s'.qlock == Some(d) <==> InSection(s', d))
  {
    forall d | 0 <= d < |s.cpus| && d != c ensures CpuOk(s', d) && (s'.qlock == Some(d) <==> InSection(s', d)) {
      OtherCpuPlaced(s, s', c, d);
      OtherCpuLocked(s, s', c, d);
    }
  }

  // Tasks outside the reach of the step
  predicate Untouched(s: State, s': State, c: CpuId, t: Task)
    requires t in s.tasks && t in s'.tasks && c < |s.cpus|
  {
    && t != s.cpus[c].current && s'.tasks[t].place == s.tasks[t].place
    && (s.tasks[t].place.InQueue? ==> t in s'.queue)
    && (Within(s.tasks[t].place, c, s.cpus[c].current) ==> s.tasks[t].place.InQueue?)
  }

  lemma UntouchedPlaced(s: State, s': State, c: CpuId, t: Task)
    requires Placed(s) && CpuMove(s, s', c) && t in s.tasks && Untouched(s, s', c, t)
    ensures TaskOk(s', t)
  {
    assert TaskOk(s, t) && CpuOk(s, c) && TaskOk(s, s.cpus[c].current);
    if s.tasks[t].pc.Creating? || s.tasks[t].pc.CreateLocked? {
      assert s.tasks[Thread(s.tasks[t].pc.made)].place == Fresh(t);
    }
  }

  lemma Reassemble(s: State, s': State, c: CpuId)
    requires Placed(s) && CpuMove(s, s', c)
    requires CpuOk(s', c) && (s'.qlock == Some(c) <==> InSection(s', c)) && QueueOk(s')
    requires forall t {:trigger TaskOk(s', t)} :: t in s'.tasks ==>
              TaskOk(s', t) || (t in s.tasks && Untouched(s, s', c, t))
    ensures Placed(s')
  {
    OtherCpusPlaced(s, s', c);
    forall t | t in s'.tasks ensures TaskOk(s', t) {
      if t in s.tasks && Untouched(s, s', c, t) { UntouchedPlaced(s, s', c, t); }
    }
  }

  // ---- the queue holds the tasks whose place says so

  ghost predicate QueueAgrees(s: State) {
    QueueOk(s) && forall t :: t in s.tasks && s.tasks[t].place.InQueue? ==> t in s.queue
  }

  lemma PlacedAgrees(s: State)
    requires Placed(s)
    ensures QueueAgrees(s)
  {
    forall t | t in s.tasks && s.tasks[t].place.InQueue? ensures t in s.queue { assert TaskOk(s, t); }
  }

  lemma AppendAgrees(s: State, t: Task, s': State)
    requires QueueAgrees(s) && t in s.tasks && t.Thread? && !s.tasks[t].place.InQueue?
    requires s'.queue == s.queue + [t] && s'.tasks.Keys == s.tasks.Keys && s'.tasks[t].place.InQueue?
    requires forall u {:trigger s'.tasks[u]} :: u in s.tasks && u != t ==> s'.tasks[u].place == s.tasks[u].place
    ensures QueueAgrees(s')
  {
    assert s'.queue[|s.queue|] == t;
    forall u | u in s'.tasks && s'.tasks[u].place.InQueue? ensures u in s'.queue {
      assert u != t ==> u in s.queue;
    }
  }

  lemma DropAgrees(s: State, s': State)
    requires QueueAgrees(s) && s.queue != []
    requires s'.queue == s.queue[1..] && s'.tasks.Keys == s.tasks.Keys && !s'.tasks[s.queue[0]].place.InQueue?
    requires forall u {:trigger s'.tasks[u]} :: u in s.tasks && u != s.queue[0] ==>
              s'.tasks[u].place == s.tasks[u].place
    ensures QueueAgrees(s')
  {
    forall u | u in s'.tasks && s'.tasks[u].place.InQueue? ensures u in s'.queue {
      var i :| 0 <= i < |s.queue| && s.queue[i] == u;
      assert s'.queue[i - 1] == u;
    }
  }

  // Rotating keeps the runnable task that check_running_ulk found
  lemma RotateWitness(s: State, c: CpuId)
    requires Placed(s) && Enabled(s, c, Rotate)
    ensures var s' := Do(s, c, Rotate);
            s'.cpus[c].pc.Rotating? && RunnableIn(s', [s'.cpus[c].pc.hand] + s'.queue)
    ensures s.queue != []
  {
    assert CpuOk(s, c);
    var s' := Do(s, c, Rotate);
    var before := [s.cpus[c].pc.hand] + s.queue;
    var after := [s'.cpus[c].pc.hand] + s'.queue;
    assert after == s.queue + [s.cpus[c].pc.hand];
    var i :| 0 <= i < |before| && before[i] in s.tasks && s.tasks[before[i]].status.RUNNING?;
    assert i > 0 && after[i - 1] == before[i];
    assert s'.tasks[after[i - 1]].status.RUNNING?;
  }

  lemma HitWitness(s: State, c: CpuId)
    requires Placed(s) && Enabled(s, c, CheckHit)
    ensures var s' := Do(s, c, CheckHit);
            s'.cpus[c].pc.Rotating? && RunnableIn(s', [s'.cpus[c].pc.hand] + s'.queue)
  {
    assert CpuOk(s, c);
    var s' := Do(s, c, CheckHit);
    var q := [s.queue[0]] + s.queue[1..];
    assert q == s.queue;
    assert s'.tasks[q[s.cpus[c].pc.next]].status.RUNNING?;
  }

  lemma EnqueueStep(s: State, c: CpuId, e: Event)
    requires Placed(s) && Enabled(s, c, e) && (e.SaveEnqueue? || e.CreateEnqueue?)
    ensures QueueAgrees(Do(s, c, e))
  {
    PlacedAgrees(s);
    var s' := Do(s, c, e);
    assert CpuOk(s, c) && TaskOk(s, s.cpus[c].current);
    if e.SaveEnqueue? { AppendAgrees(s, s.cpus[c].last.value, s'); }
    else { AppendAgrees(s, Thread(s.tasks[s.cpus[c].current].pc.made), s'); }
  }

  // ---- the step stays within reach of its CPU

  // Steps of the handlers that write no field of a task
  predicate OwnOnly(e: Event) { Still(e) && !e.Trap? && !e.Store? && !e.CreateLock? }

  lemma OwnShape(s: State, c: CpuId, e: Event)
    requires Placed(s) && Enabled(s, c, e) && OwnOnly(e)
    ensures CpuMove(s, Do(s, c, e), c) && Do(s, c, e).queue == s.queue
  {
    assert CpuOk(s, c);
    assert s.qlock == Some(c) <==> InSection(s, c);
  }

  lemma TrapShape(s: State, c: CpuId, e: Event)
    requires Placed(s) && Enabled(s, c, e) && e.Trap?
    ensures CpuMove(s, Do(s, c, e), c) && Do(s, c, e).queue == s.queue
  {
    assert CpuOk(s, c);
  }

  lemma StillShape(s: State, c: CpuId, e: Event)
    requires Placed(s) && Enabled(s, c, e) && (e.Store? || e.CreateLock?)
    ensures CpuMove(s, Do(s, c, e), c) && Do(s, c, e).queue == s.queue
  {
    assert CpuOk(s, c);
    assert s.qlock == Some(c) <==> InSection(s, c);
  }

  lemma LastShape(s: State, c: CpuId)
    requires Placed(s) && Enabled(s, c, SetLast)
    ensures CpuMove(s, Do(s, c, SetLast), c) && Do(s, c, SetLast).queue == s.queue
  {
    assert CpuOk(s, c);
  }

  lemma PickShape(s: State, c: CpuId)
    requires Placed(s) && Enabled(s, c, Pick)
    ensures CpuMove(s, Do(s, c, Pick), c) && Do(s, c, Pick).queue == s.queue
  {
    assert CpuOk(s, c);
    assert s.qlock == Some(c) <==> InSection(s, c);
  }

  lemma NewTaskShape(s: State, c: CpuId, e: Event)
    requires Placed(s) && Enabled(s, c, e) && e.CreateBegin?
    ensures CpuMove(s, Do(s, c, e), c) && Do(s, c, e).queue == s.queue
  {
    assert CpuOk(s, c);
  }

  lemma SaveShape(s: State, c: CpuId)
    requires Placed(s) && Enabled(s, c, SaveEnqueue)
    ensures CpuMove(s, Do(s, c, SaveEnqueue), c)
  {
    assert CpuOk(s, c);
    assert s.qlock == Some(c) <==> InSection(s, c);
  }

  /** What lines 222-223 do when a task of the queue is runnable. */
  ghost predicate TookFirst(s: State, s': State, c: CpuId) {
    && c < |s.cpus| && s.cpus[c].pc.Checking? && s.queue != [] && s.queue[0] in s.tasks && s.queue[0].Thread?
    && s' == s.(cpus := s.cpus[c := s.cpus[c].(pc := Rotating(s.queue[0]))], queue := s.queue[1..],
                tasks := s.tasks[s.queue[0] := s.tasks[s.queue[0]].(place := Hand(c))])
  }

  lemma HitIs(s: State, c: CpuId)
    requires Placed(s) && Enabled(s, c, CheckHit)
    ensures TookFirst(s, Do(s, c, CheckHit), c)
  {
  }

  lemma HitQueue(s: State, s': State, c: CpuId)
    requires Placed(s) && TookFirst(s, s', c)
    ensures QueueAgrees(s')
  {
    PlacedAgrees(s);
    DropAgrees(s, s');
  }

  lemma HitShape(s: State, s': State, c: CpuId)
    requires Placed(s) && TookFirst(s, s', c)
    ensures CpuMove(s, s', c)
  {
    assert CpuOk(s, c);
    assert s.qlock == Some(c) <==> InSection(s, c);
  }

  /** What lines 300-306 do inside kmt_create. */
  ghost predicate Created(s: State, s': State, c: CpuId) {
    && c < |s.cpus| && s.cpus[c].pc.Exec? && s.cpus[c].current in s.tasks && s'.sems == s.sems && s'.cpus == s.cpus
    && var t := s.cpus[c].current;
    && s.tasks[t].pc.CreateLocked?
    && var n := Thread(s.tasks[t].pc.made);
    && n in s.tasks && n != t && s'.queue == s.queue + [n] && s'.qlock.None?
    && s'.tasks == s.tasks[t := s.tasks[t].(pc := Body)][n := s.tasks[n].(place := InQueue)]
  }

  lemma CreateIs(s: State, c: CpuId)
    requires Placed(s) && Enabled(s, c, CreateEnqueue)
    ensures Created(s, Do(s, c, CreateEnqueue), c)
  {
    assert CpuOk(s, c) && TaskOk(s, s.cpus[c].current);
    assert TaskOk(s, Thread(s.tasks[s.cpus[c].current].pc.made));
  }

  lemma CreateShape(s: State, s': State, c: CpuId)
    requires Placed(s) && Created(s, s', c)
    ensures CpuMove(s, s', c)
  {
    assert CpuOk(s, c) && TaskOk(s, s.cpus[c].current);
    assert s.qlock == Some(c) <==> InSection(s, c);
  }

  /** What one turn of the loop of lines 224-228 does. */
  ghost predicate Rotated(s: State, s': State, c: CpuId) {
    && c < |s.cpus| && s.cpus[c].pc.Rotating? && s.queue != [] && s'.qlock == s.qlock && s'.sems == s.sems
    && var h, n := s.cpus[c].pc.hand, s.queue[0];
    && h in s.tasks && n in s.tasks && h != n
    && s'.cpus == s.cpus[c := s.cpus[c].(pc := Rotating(n))]
    && s'.queue == s.queue[1..] + [h]
    && s'.tasks == s.tasks[h := s.tasks[h].(place := InQueue)][n := s.tasks[n].(place := Hand(c))]
  }

  lemma RotateIs(s: State, c: CpuId)
    requires Placed(s) && Enabled(s, c, Rotate)
    ensures Rotated(s, Do(s, c, Rotate), c)
  {
    RotateWitness(s, c);
    assert CpuOk(s, c);
    assert (s.queue + [s.cpus[c].pc.hand])[0] == s.queue[0];
    assert (s.queue + [s.cpus[c].pc.hand])[1..] == s.queue[1..] + [s.cpus[c].pc.hand];
  }

  lemma RotateQueue(s: State, s': State, c: CpuId)
    requires Placed(s) && Rotated(s, s', c)
    ensures QueueAgrees(s')
  {
    PlacedAgrees(s);
    assert CpuOk(s, c);
    var h := s.cpus[c].pc.hand;
    var s1 := s.(tasks := s.tasks[h := s.tasks[h].(place := InQueue)], queue := s.queue + [h]);
    AppendAgrees(s, h, s1);
    DropAgrees(s1, s');
  }

  lemma RotateWaits(s: State, s': State, c: CpuId)
    requires Rotated(s, s', c)
    ensures SameWaits(s, s')
  {
  }

  lemma RotateShape(s: State, s': State, c: CpuId)
    requires Placed(s) && Rotated(s, s', c)
    ensures CpuMove(s, s', c)
  {
    RotateWaits(s, s', c);
    assert CpuOk(s, c) && TaskOk(s, s.queue[0]);
  }

  // ---- the CPU that took the step

  ghost predicate OwnCpuOk(s: State, c: CpuId)
    requires c < |s.cpus|
  {
    CpuOk(s, c) && (s.qlock == Some(c) <==> InSection(s, c))
  }

  lemma StillCpu(s: State, c: CpuId, e: Event)
    requires Placed(s) && Enabled(s, c, e) && Still(e)
    ensures OwnCpuOk(Do(s, c, e), c)
  {
    assert CpuOk(s, c) && TaskOk(s, s.cpus[c].current);
    assert s.qlock == Some(c) <==> InSection(s, c);
    if e.SaveLock? { assert TaskOk(s, s.cpus[c].last.value); }
  }

  lemma RelocateCpu(s: State, c: CpuId, e: Event)
    requires Placed(s) && Enabled(s, c, e) && Relocates(e)
    ensures OwnCpuOk(Do(s, c, e), c)
  {
    assert CpuOk(s, c) && TaskOk(s, s.cpus[c].current);
    assert s.qlock == Some(c) <==> InSection(s, c);
  }

  lemma SaveCpu(s: State, c: CpuId)
    requires Placed(s) && Enabled(s, c, SaveEnqueue)
    ensures OwnCpuOk(Do(s, c, SaveEnqueue), c)
  {
    assert CpuOk(s, c) && TaskOk(s, s.cpus[c].current);
    assert s.qlock == Some(c) <==> InSection(s, c);
  }

  lemma HitCpu(s: State, c: CpuId)
    requires Placed(s) && Enabled(s, c, CheckHit)
    ensures OwnCpuOk(Do(s, c, CheckHit), c)
  {
    assert CpuOk(s, c) && TaskOk(s, s.cpus[c].current);
    assert s.qlock == Some(c) <==> InSection(s, c);
    HitWitness(s, c);
  }

  lemma CreateCpu(s: State, c: CpuId)
    requires Placed(s) && Enabled(s, c, CreateEnqueue)
    ensures OwnCpuOk(Do(s, c, CreateEnqueue), c)
  {
    assert CpuOk(s, c) && TaskOk(s, s.cpus[c].current);
    assert s.qlock == Some(c) <==> InSection(s, c);
    assert TaskOk(s, Thread(s.tasks[s.cpus[c].current].pc.made));
  }

  lemma RotateCpu(s: State, c: CpuId)
    requires Placed(s) && Enabled(s, c, Rotate)
    ensures OwnCpuOk(Do(s, c, Rotate), c)
  {
    assert CpuOk(s, c);
    assert s.qlock == Some(c) <==> InSection(s, c);
    RotateWitness(s, c);
    assert (s.queue + [s.cpus[c].pc.hand])[0] == s.queue[0];
  }

  // ---- the tasks within its reach

  ghost predicate Settled(s: State, s': State, c: CpuId, t: Task)
    requires t in s'.tasks && c < |s.cpus|
  {
    TaskOk(s', t) || (t in s.tasks && Untouched(s, s', c, t))
  }

  lemma SavingTask(s: State, c: CpuId, e: Event, t: Task)
    requires Placed(s) && Enabled(s, c, e) && (e.SaveSkip? || e.SaveLock?) && t in s.tasks
    ensures Settled(s, Do(s, c, e), c, t)
  {
    assert CpuOk(s, c) && TaskOk(s, s.cpus[c].current) && TaskOk(s, t);
  }

  lemma OwnTask(s: State, c: CpuId, e: Event, t: Task)
    requires Placed(s) && Enabled(s, c, e) && OwnOnly(e) && !e.SaveSkip? && !e.SaveLock? && t in s.tasks
    ensures Settled(s, Do(s, c, e), c, t)
  {
    assert CpuOk(s, c) && TaskOk(s, s.cpus[c].current) && TaskOk(s, t);
  }

  lemma TrapTask(s: State, c: CpuId, e: Event, t: Task)
    requires Placed(s) && Enabled(s, c, e) && e.Trap? && t in s.tasks
    ensures Settled(s, Do(s, c, e), c, t)
  {
    assert CpuOk(s, c) && TaskOk(s, s.cpus[c].current) && TaskOk(s, t);
  }

  lemma StillTask(s: State, c: CpuId, e: Event, t: Task)
    requires Placed(s) && Enabled(s, c, e) && (e.Store? || e.CreateLock?) && t in s.tasks
    ensures Settled(s, Do(s, c, e), c, t)
  {
    assert CpuOk(s, c) && TaskOk(s, s.cpus[c].current) && TaskOk(s, t);
  }

  lemma LastTask(s: State, c: CpuId, t: Task)
    requires Placed(s) && Enabled(s, c, SetLast) && t in Do(s, c, SetLast).tasks
    ensures Settled(s, Do(s, c, SetLast), c, t)
  {
    assert CpuOk(s, c) && TaskOk(s, s.cpus[c].current) && TaskOk(s, t);
  }

  lemma PickTask(s: State, c: CpuId, t: Task)
    requires Placed(s) && Enabled(s, c, Pick) && t in Do(s, c, Pick).tasks
    ensures Settled(s, Do(s, c, Pick), c, t)
  {
    assert CpuOk(s, c) && TaskOk(s, s.cpus[c].current) && TaskOk(s, t);
  }

  lemma NewTask(s: State, c: CpuId, e: Event, t: Task)
    requires Placed(s) && Enabled(s, c, e) && e.CreateBegin? && t in Do(s, c, e).tasks
    ensures Settled(s, Do(s, c, e), c, t)
  {
    assert CpuOk(s, c) && TaskOk(s, s.cpus[c].current);
    if t in s.tasks { assert TaskOk(s, t); }
  }

  lemma SaveTask(s: State, c: CpuId, t: Task)
    requires Placed(s) && Enabled(s, c, SaveEnqueue) && t in s.tasks && QueueAgrees(Do(s, c, SaveEnqueue))
    ensures Settled(s, Do(s, c, SaveEnqueue), c, t)
  {
    assert CpuOk(s, c) && TaskOk(s, s.cpus[c].current) && TaskOk(s, t);
  }

  lemma HitTask(s: State, s': State, c: CpuId, t: Task)
    requires Placed(s) && TookFirst(s, s', c) && t in s.tasks && QueueAgrees(s')
    ensures Settled(s, s', c, t)
  {
    assert CpuOk(s, c) && TaskOk(s, s.cpus[c].current) && TaskOk(s, t) && TaskOk(s, s.queue[0]);
  }

  lemma CreateTask(s: State, s': State, c: CpuId, t: Task)
    requires Placed(s) && Created(s, s', c) && t in s.tasks && QueueAgrees(s')
    ensures Settled(s, s', c, t)
  {
    assert CpuOk(s, c) && TaskOk(s, s.cpus[c].current) && TaskOk(s, t);
    assert TaskOk(s, Thread(s.tasks[s.cpus[c].current].pc.made));
  }

  lemma RotateTask(s: State, s': State, c: CpuId, t: Task)
    requires Placed(s) && Rotated(s, s', c) && t in s.tasks && QueueAgrees(s')
    ensures Settled(s, s', c, t)
  {
    assert CpuOk(s, c) && TaskOk(s, s.cpus[c].current) && TaskOk(s, t);
    assert TaskOk(s, s.cpus[c].pc.hand) && TaskOk(s, s.queue[0]);
  }

  predicate IsCpuStep(e: Event) { Still(e) || Relocates(e) || MovesQueue(e) }

  lemma CpuStepShape(s: State, c: CpuId, e: Event)
    requires Placed(s) && Enabled(s, c, e) && IsCpuStep(e)
    ensures CpuMove(s, Do(s, c, e), c)
  {
    if OwnOnly(e) { OwnShape(s, c, e); }
    else if e.Trap? { TrapShape(s, c, e); }
    else if Still(e) { StillShape(s, c, e); }
    else if e.CreateBegin? { NewTaskShape(s, c, e); }
    else if e.SetLast? { LastShape(s, c); }
    else if e.Pick? { PickShape(s, c); }
    else if e.CreateEnqueue? { CreateIs(s, c); CreateShape(s, Do(s, c, e), c); }
    else if e.Rotate? { RotateIs(s, c); RotateShape(s, Do(s, c, e), c); }
    else if e.CheckHit? { HitIs(s, c); HitShape(s, Do(s, c, e), c); }
    else { SaveShape(s, c); }
  }

  lemma CpuStepCpu(s: State, c: CpuId, e: Event)
    requires Placed(s) && Enabled(s, c, e) && IsCpuStep(e)
    ensures c < |Do(s, c, e).cpus| && OwnCpuOk(Do(s, c, e), c)
  {
    if Still(e) { StillCpu(s, c, e); }
    else if Relocates(e) { RelocateCpu(s, c, e); }
    else if e.CreateEnqueue? { CreateCpu(s, c); }
    else if e.Rotate? { RotateCpu(s, c); }
    else if e.CheckHit? { HitCpu(s, c); }
    else { SaveCpu(s, c); }
  }

  lemma CpuStepQueue(s: State, c: CpuId, e: Event)
    requires Placed(s) && Enabled(s, c, e) && IsCpuStep(e)
    ensures MovesQueue(e) ==> QueueAgrees(Do(s, c, e))
    ensures e.Rotate? ==> s.queue != []
  {
    if e.Rotate? { RotateIs(s, c); RotateQueue(s, Do(s, c, e), c); }
    else if e.CheckHit? { HitIs(s, c); HitQueue(s, Do(s, c, e), c); }
    else if MovesQueue(e) { EnqueueStep(s, c, e); }
  }

  lemma CpuStepTask(s: State, c: CpuId, e: Event, t: Task)
    requires Placed(s) && Enabled(s, c, e) && IsCpuStep(e) && CpuMove(s, Do(s, c, e), c) && t in Do(s, c, e).tasks
    requires MovesQueue(e) ==> QueueAgrees(Do(s, c, e)) && t in s.tasks
    requires e.Rotate? ==> s.queue != []
    requires Still(e) ==> t in s.tasks
    ensures Settled(s, Do(s, c, e), c, t)
  {
    if e.SaveSkip? || e.SaveLock? { SavingTask(s, c, e, t); }
    else if OwnOnly(e) { OwnTask(s, c, e, t); }
    else if e.Trap? { TrapTask(s, c, e, t); }
    else if Still(e) { StillTask(s, c, e, t); }
    else if e.CreateBegin? { NewTask(s, c, e, t); }
    else if e.SetLast? { LastTask(s, c, t); }
    else if e.Pick? { PickTask(s, c, t); }
    else if e.CreateEnqueue? { CreateIs(s, c); CreateTask(s, Do(s, c, e), c, t); }
    else if e.Rotate? { RotateIs(s, c); RotateTask(s, Do(s, c, e), c, t); }
    else if e.CheckHit? { HitIs(s, c); HitTask(s, Do(s, c, e), c, t); }
    else { SaveTask(s, c, t); }
  }

  lemma SameKeys(s: State, c: CpuId, e: Event)
    requires Placed(s) && Enabled(s, c, e) && IsCpuStep(e) && !Relocates(e)
    ensures Do(s, c, e).tasks.Keys == s.tasks.Keys
  {
    assert CpuOk(s, c);
    if e.Rotate? { RotateWitness(s, c); }
  }

  lemma StillQueue(s: State, c: CpuId, e: Event)
    requires Placed(s) && Enabled(s, c, e) && Still(e)
    ensures QueueOk(Do(s, c, e))
  {
  }

  lemma RelocateQueue(s: State, c: CpuId, e: Event)
    requires Placed(s) && Enabled(s, c, e) && Relocates(e)
    ensures QueueOk(Do(s, c, e))
  {
    assert CpuOk(s, c) && TaskOk(s, s.cpus[c].current);
  }

  lemma CpuStepPlaced(s: State, c: CpuId, e: Event)
    requires Placed(s) && Enabled(s, c, e) && IsCpuStep(e)
    ensures Placed(Do(s, c, e))
  {
    var s' := Do(s, c, e);
    CpuStepShape(s, c, e);
    CpuStepCpu(s, c, e);
    CpuStepQueue(s, c, e);
    if !Relocates(e) { SameKeys(s, c, e); }
    if Still(e) { StillQueue(s, c, e); }
    if Relocates(e) { RelocateQueue(s, c, e); }
    forall t | t in s'.tasks ensures Settled(s, s', c, t) { CpuStepTask(s, c, e, t); }
    Reassemble(s, s', c);
  }

  // ---- contexts

  lemma OtherCpuSaved(s: State, s': State, c: CpuId, d: CpuId)
    requires Placed(s) && Saved(s) && CpuMove(s, s', c) && Placed(s') && d < |s.cpus| && d != c
    ensures CpuOk(s', d) && CpuContextOk(s', d)
  {
    assert CpuOk(s, c) && CpuOk(s', d) && CpuOk(s, d) && CpuContextOk(s, d);
    assert s'.cpus[d] == s.cpus[d];
  }

  lemma OtherTaskSaved(s: State, s': State, c: CpuId, t: Task)
    requires Placed(s) && Saved(s) && CpuMove(s, s', c) && t in s'.tasks && t != s.cpus[c].current
    ensures TaskContextOk(s', t)
  {
    assert CpuOk(s, c);
    if t in s.tasks { assert TaskOk(s, t) && TaskContextOk(s, t); }
  }

  lemma OthersSaved(s: State, s': State, c: CpuId)
    requires Placed(s) && Saved(s) && CpuMove(s, s', c) && Placed(s')
    ensures forall d {:trigger CpuContextOk(s', d)} :: 0 <= d < |s.cpus| && d != c ==>
              CpuOk(s', d) && CpuContextOk(s', d)
    ensures forall t {:trigger TaskContextOk(s', t)} :: t in s'.tasks && t != s.cpus[c].current ==> TaskContextOk(s', t)
  {
    forall d | 0 <= d < |s.cpus| && d != c ensures CpuOk(s', d) && CpuContextOk(s', d) { OtherCpuSaved(s, s', c, d); }
    forall t | t in s'.tasks && t != s.cpus[c].current ensures TaskContextOk(s', t) { OtherTaskSaved(s, s', c, t); }
  }

  lemma StillSaved(s: State, c: CpuId, e: Event)
    requires Placed(s) && Saved(s) && Enabled(s, c, e) && Still(e) && CpuOk(Do(s, c, e), c)
    ensures CpuContextOk(Do(s, c, e), c)
    ensures TaskContextOk(Do(s, c, e), s.cpus[c].current)
  {
    assert CpuOk(s, c) && CpuContextOk(s, c) && TaskContextOk(s, s.cpus[c].current) && TaskOk(s, s.cpus[c].current);
  }

  lemma RelocateSaved(s: State, c: CpuId, e: Event)
    requires Placed(s) && Saved(s) && Enabled(s, c, e) && Relocates(e) && CpuOk(Do(s, c, e), c)
    ensures CpuContextOk(Do(s, c, e), c)
    ensures TaskContextOk(Do(s, c, e), s.cpus[c].current)
  {
    assert CpuOk(s, c) && CpuContextOk(s, c) && TaskContextOk(s, s.cpus[c].current) && TaskOk(s, s.cpus[c].current);
  }

  lemma QueueSaved(s: State, c: CpuId, e: Event)
    requires Placed(s) && Saved(s) && Enabled(s, c, e) && MovesQueue(e) && !e.Rotate? && CpuOk(Do(s, c, e), c)
    ensures CpuContextOk(Do(s, c, e), c)
    ensures s.cpus[c].current in Do(s, c, e).tasks && TaskContextOk(Do(s, c, e), s.cpus[c].current)
  {
    assert CpuOk(s, c) && CpuContextOk(s, c) && TaskContextOk(s, s.cpus[c].current) && TaskOk(s, s.cpus[c].current);
  }

  lemma RotateSaved(s: State, c: CpuId)
    requires Placed(s) && Saved(s) && Enabled(s, c, Rotate) && CpuOk(Do(s, c, Rotate), c)
    requires s.cpus[c].current in Do(s, c, Rotate).tasks
    ensures CpuContextOk(Do(s, c, Rotate), c)
    ensures TaskContextOk(Do(s, c, Rotate), s.cpus[c].current)
  {
    RotateWitness(s, c);
    assert CpuOk(s, c) && CpuContextOk(s, c) && TaskContextOk(s, s.cpus[c].current) && TaskOk(s, s.cpus[c].current);
  }

  lemma CpuStepSaved(s: State, c: CpuId, e: Event)
    requires Placed(s) && Saved(s) && Enabled(s, c, e) && IsCpuStep(e) && Placed(Do(s, c, e))
    requires CpuMove(s, Do(s, c, e), c)
    ensures Saved(Do(s, c, e))
  {
    OthersSaved(s, Do(s, c, e), c);
    assert CpuOk(Do(s, c, e), c);
    if Still(e) { StillSaved(s, c, e); }
    else if Relocates(e) { RelocateSaved(s, c, e); }
    else if e.Rotate? { RotateSaved(s, c); }
    else { QueueSaved(s, c, e); }
  }

  // ---- what semaphores see

  lemma SameWaitsLock(s: State, s': State, m: SemId)
    requires SameWaits(s, s') && m < |s.sems| && SemOk(s, m)
    ensures SemLockOk(s', m)
  {
    forall u | u in s'.tasks ensures s'.sems[m].lock == Some(u) <==> Holds(s'.tasks[u].pc, m) {
      if u in s.tasks { assert s.sems[m].lock == Some(u) <==> Holds(s.tasks[u].pc, m); }
    }
  }

  lemma SameWaitsInside(s: State, s': State, m: SemId)
    requires SameWaits(s, s') && m < |s.sems| && SemOk(s, m)
    ensures InsideOk(s', m)
  {
    forall u | u in s'.tasks ensures u in s'.sems[m].inside <==> Entered(s'.tasks[u].pc, m) {
      if u in s.tasks { assert u in s.sems[m].inside <==> Entered(s.tasks[u].pc, m); }
    }
  }

  lemma SameWaitsSem(s: State, s': State, m: SemId)
    requires SameWaits(s, s') && m < |s.sems| && SemOk(s, m)
    ensures SemOk(s', m)
  {
    SameWaitsLock(s, s', m);
    SameWaitsInside(s, s', m);
    if s.sems[m].lock.Some? { assert Holds(s.tasks[s.sems[m].lock.value].pc, m); }
  }

  lemma SameWaitsWaker(s: State, s': State, t: Task)
    requires Woken(s) && SameWaits(s, s') && t in s'.tasks
    ensures WakerOk(s', t)
  {
    if t in s.tasks { assert WakerOk(s, t); }
  }

  lemma OthersResumed(s: State, s': State, c: CpuId, d: CpuId)
    requires Placed(s) && Woken(s) && CpuMove(s, s', c) && d < |s.cpus| && d != c
    ensures ResumedOk(s', d)
  {
    assert CpuOk(s, c) && CpuOk(s, d) && ResumedOk(s, d);
    assert s'.cpus[d] == s.cpus[d];
  }

  lemma StillResumed(s: State, c: CpuId, e: Event)
    requires Placed(s) && Woken(s) && Enabled(s, c, e) && Still(e)
    ensures ResumedOk(Do(s, c, e), c)
  {
    assert CpuOk(s, c) && ResumedOk(s, c) && TaskOk(s, s.cpus[c].current) && TaskOk(s, Idle(c));
  }

  lemma MovedResumed(s: State, c: CpuId, e: Event)
    requires Placed(s) && Woken(s) && Enabled(s, c, e) && (Relocates(e) || MovesQueue(e))
    ensures ResumedOk(Do(s, c, e), c)
  {
    assert CpuOk(s, c) && ResumedOk(s, c) && TaskOk(s, s.cpus[c].current);
  }

  lemma CpuStepKeeps(s: State, c: CpuId, e: Event)
    requires Inv(s) && Enabled(s, c, e) && IsCpuStep(e)
    ensures Inv(Do(s, c, e))
  {
    var s' := Do(s, c, e);
    CpuStepShape(s, c, e);
    CpuStepPlaced(s, c, e);
    CpuStepSaved(s, c, e);
    forall m | 0 <= m < |s'.sems| ensures SemOk(s', m) { assert SemOk(s, m); SameWaitsSem(s, s', m); }
    forall t | t in s'.tasks ensures WakerOk(s', t) { SameWaitsWaker(s, s', t); }
    forall d | 0 <= d < |s'.cpus| ensures ResumedOk(s', d) {
      if d != c { OthersResumed(s, s', c, d); }
      else if Still(e) { StillResumed(s, c, e); } else { MovedResumed(s, c, e); }
    }
  }
}
