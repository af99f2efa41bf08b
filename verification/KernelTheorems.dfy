/** What holds in every reachable state, and over every run, of the kernel machine. */
module KernelTheorems {
  import opened Options
  import opened Kernel
  import opened KernelInvariant
  import opened KernelSemSteps
  import opened KernelCpuSteps

  lemma StepKeepsInv(s: State, c: CpuId, e: Event)
    requires Inv(s) && Enabled(s, c, e)
    ensures Inv(Do(s, c, e))
  {
    if IsLocal(e) { LocalKeeps(s, c, e); }
    else if e.PopWaiter? { PopKeeps(s, c); }
    else if e.Wake? { WakeKeeps(s, c); }
    else { CpuStepKeeps(s, c, e); }
  }

  lemma NextKeepsInv(s: State, s': State)
    requires Inv(s) && Next(s, s')
    ensures Inv(s')
  {
    var c: CpuId, e: Event :| Enabled(s, c, e) && s' == Do(s, c, e);
    StepKeepsInv(s, c, e);
  }

  lemma {:induction false} BehaviorKeepsInv(b: seq<State>, i: nat)
    requires Behavior(b) && i < |b|
    ensures Inv(b[i])
  {
    if i == 0 {
      InitEstablishes(b[0]);
    } else {
      BehaviorKeepsInv(b, i - 1);
      assert Next(b[i - 1], b[i - 1 + 1]);
      NextKeepsInv(b[i - 1], b[i]);
    }
  }

  lemma ReachableInv(s: State)
    requires Reachable(s)
    ensures Inv(s)
  {
    var b: seq<State> :| Behavior(b) && b[|b| - 1] == s;
    BehaviorKeepsInv(b, |b| - 1);
  }

  // ---- every created task is in exactly one place

  datatype Spot = QueueSlot(i: nat) | CurrentOf(c: CpuId) | LastOf(c: CpuId) | HandOf(c: CpuId) | MadeBy(u: Task)

  /** Task t occupies the spot, read off the queue, the per-CPU fields and the creator's locals. */
  predicate At(s: State, t: Task, spot: Spot) {
    match spot
    case QueueSlot(i) => i < |s.queue| && s.queue[i] == t
    case CurrentOf(c) => c < |s.cpus| && OwnsCurrent(s.cpus[c].pc) && s.cpus[c].current == t
    case LastOf(c) => c < |s.cpus| && OwnsLast(s.cpus[c].pc) && s.cpus[c].last == Some(t)
    case HandOf(c) => c < |s.cpus| && s.cpus[c].pc == Rotating(t)
    case MadeBy(u) =>
      u in s.tasks && t.Thread? && (s.tasks[u].pc == Creating(t.id) || s.tasks[u].pc == CreateLocked(t.id))
  }

  lemma AtAgrees(s: State, t: Task, spot: Spot)
    requires Inv(s) && t in s.tasks && t.Thread? && At(s, t, spot)
    ensures match spot
            case QueueSlot(i) => s.tasks[t].place.InQueue?
            case CurrentOf(c) => s.tasks[t].place == Current(c)
            case LastOf(c) => s.tasks[t].place == Last(c)
            case HandOf(c) => s.tasks[t].place == Hand(c)
            case MadeBy(u) => s.tasks[t].place == Fresh(u)
  {
    match spot
    case QueueSlot(i) =>
    case CurrentOf(c) => assert CpuOk(s, c);
    case LastOf(c) => assert CpuOk(s, c);
    case HandOf(c) => assert CpuOk(s, c);
    case MadeBy(u) => assert TaskOk(s, u);
  }

  lemma ExactlyOneSpot(s: State, t: Task)
    requires Reachable(s) && t in s.tasks && t.Thread?
    ensures exists spot :: At(s, t, spot) && forall other :: At(s, t, other) ==> other == spot
  {
    ReachableInv(s);
    assert TaskOk(s, t);
    var spot :=
      match s.tasks[t].place
      case InQueue => (var i :| 0 <= i < |s.queue| && s.queue[i] == t; QueueSlot(i))
      case Current(c) => CurrentOf(c)
      case Last(c) => LastOf(c)
      case Hand(c) => HandOf(c)
      case Fresh(u) => MadeBy(u)
      case Nowhere => MadeBy(t);
    assert At(s, t, spot);
    AtAgrees(s, t, spot);
    forall other | At(s, t, other) ensures other == spot { AtAgrees(s, t, other); }
  }

  // ---- the stack race

  /** The task on whose stack CPU c executes: a handler stays on the stack it was entered on. */
  function StackOf(s: State, c: CpuId): Task
    requires c < |s.cpus|
  {
    var k := s.cpus[c];
    if k.pc.Returning? && k.last.Some? then k.last.value else k.current
  }

  lemma StackIsOwn(s: State, c: CpuId)
    requires Inv(s) && c < |s.cpus|
    ensures var t := StackOf(s, c);
            t == Idle(c) ||
            (t in s.tasks && t.Thread? && (s.tasks[t].place == Current(c) || s.tasks[t].place == Last(c)))
    ensures s.cpus[c].pc.Returning? ==>
              s.cpus[c].current == Idle(c)
              || (s.cpus[c].current in s.tasks && s.tasks[s.cpus[c].current].place == Current(c))
  {
    assert CpuOk(s, c);
  }

  /** No two CPUs share a stack, and the task under a CPU can be picked by no other CPU. */
  lemma NoStackRace(s: State, c: CpuId, d: CpuId)
    requires Reachable(s) && c < |s.cpus| && d < |s.cpus| && c != d
    ensures StackOf(s, c) != StackOf(s, d)
    ensures StackOf(s, c) !in s.queue
    ensures s.cpus[d].pc != Rotating(StackOf(s, c))
    ensures s.cpus[d].pc.Returning? ==> s.cpus[d].current != StackOf(s, c)
  {
    ReachableInv(s);
    StackIsOwn(s, c);
    StackIsOwn(s, d);
    assert CpuOk(s, d);
  }

  /** When a CPU has returned from a handler it runs on the registers of that task's latest trap. */
  lemma DispatchedContextIsLatest(s: State, c: CpuId)
    requires Reachable(s) && c < |s.cpus|
    ensures s.cpus[c].current in s.tasks
    ensures s.cpus[c].pc.Exec? ==> s.cpus[c].loaded == s.tasks[s.cpus[c].current].trapped
    ensures s.cpus[c].pc.Returning? ==>
              s.tasks[s.cpus[c].current].context.Some? &&
              s.tasks[s.cpus[c].current].context == s.tasks[s.cpus[c].current].trapped
  {
    ReachableInv(s);
    var t := s.cpus[c].current;
    assert CpuOk(s, c) && CpuContextOk(s, c) && TaskContextOk(s, t) && TaskOk(s, t);
  }

  /** The assertions of lines 194-205 hold whenever they are evaluated. */
  lemma SaveAssertionsHold(s: State, c: CpuId)
    requires Reachable(s) && c < |s.cpus| && s.cpus[c].pc.Saving?
    ensures var k := s.cpus[c];
            && k.current in s.tasks
            && if s.tasks[k.current].context.None?
               then k.current == Idle(c) && k.last.None? && s.tasks[k.current].status.IDLE?
               else k.last.Some?
  {
    ReachableInv(s);
    assert CpuOk(s, c) && CpuContextOk(s, c) && TaskContextOk(s, s.cpus[c].current) && TaskOk(s, s.cpus[c].current);
  }

  /** queue_lk keeps its promise: at most one CPU is between its acquire and its release. */
  lemma QueueLockExcludes(s: State, c: CpuId, d: CpuId)
    requires Reachable(s) && c < |s.cpus| && d < |s.cpus| && InSection(s, c) && InSection(s, d)
    ensures c == d && s.qlock == Some(c)
  {
    ReachableInv(s);
    assert s.qlock == Some(c) <==> InSection(s, c);
    assert s.qlock == Some(d) <==> InSection(s, d);
  }

  // ---- semaphores

  /** While the lock of a semaphore is free its list has exactly max(0, -value) distinct waiting tasks. */
  lemma WaitListLength(s: State, m: SemId)
    requires Reachable(s) && m < |s.sems| && s.sems[m].lock.None? && s.sems[m].initial >= 0
    ensures |s.sems[m].waiters| == Max(0, -s.sems[m].value)
    ensures forall i, j :: 0 <= i < j < |s.sems[m].waiters| ==> s.sems[m].waiters[i] != s.sems[m].waiters[j]
    ensures forall i :: 0 <= i < |s.sems[m].waiters| ==>
              s.sems[m].waiters[i] in s.tasks && s.tasks[s.sems[m].waiters[i]].status.WAITING?
  {
    ReachableInv(s);
    assert SemOk(s, m);
    forall i | 0 <= i < |s.sems[m].waiters|
      ensures s.sems[m].waiters[i] in s.tasks && s.tasks[s.sems[m].waiters[i]].status.WAITING?
    {
      assert WakerOk(s, s.sems[m].waiters[i]);
    }
  }

  /** In state s the list of semaphore m is as long as its value says, unless its lock is held. */
  predicate LengthLaw(s: State, m: SemId) {
    m < |s.sems| && s.sems[m].lock.None? ==> |s.sems[m].waiters| == Max(0, -s.sems[m].value)
  }

  // A run that starts with value v in semaphore m
  ghost predicate StartsWith(b: seq<State>, m: SemId, v: int) {
    Behavior(b) && m < |b[0].sems| && b[0].sems[m].value == v
  }

  lemma InitialStays(s: State, s': State, m: SemId)
    requires Inv(s) && Next(s, s') && m < |s.sems|
    ensures m < |s'.sems| && s'.sems[m].initial == s.sems[m].initial
  {
    var c: CpuId, e: Event :| Enabled(s, c, e) && s' == Do(s, c, e);
    if IsCpuStep(e) { CpuStepShape(s, c, e); }
  }

  lemma {:induction false} InitialIsFirst(b: seq<State>, m: SemId, i: nat)
    requires Behavior(b) && m < |b[0].sems| && i < |b|
    ensures m < |b[i].sems| && b[i].sems[m].initial == b[0].sems[m].value
  {
    if i == 0 {
      assert b[0].sems[m] == Sem(b[0].sems[m].value, None, [], b[0].sems[m].value, 0, 0, {});
    } else {
      InitialIsFirst(b, m, i - 1);
      BehaviorKeepsInv(b, i - 1);
      assert Next(b[i - 1], b[i - 1 + 1]);
      InitialStays(b[i - 1], b[i], m);
    }
  }

  /** kmt_sem_init accepts any value; the law holds throughout a run exactly when the value is not negative. */
  lemma LengthLawNeedsNonNegative(b: seq<State>, m: SemId, v: int)
    requires StartsWith(b, m, v)
    ensures (forall i :: 0 <= i < |b| ==> LengthLaw(b[i], m)) <==> v >= 0
  {
    if v >= 0 {
      forall i | 0 <= i < |b| ensures LengthLaw(b[i], m) {
        assert Behavior(b[..i + 1]) && b[..i + 1][|b[..i + 1]| - 1] == b[i];
        InitialIsFirst(b, m, i);
        if b[i].sems[m].lock.None? { WaitListLength(b[i], m); }
      }
    } else {
      assert b[0].sems[m] == Sem(v, None, [], v, 0, 0, {});
      assert !LengthLaw(b[0], m);
    }
  }

  datatype Keeper = Listed(m: SemId, i: nat) | MidWait | HeldBy(u: Task)

  /** Someone who will make t runnable: a wait list entry, t itself between lines 137 and 143, or a signaller before
      line 170. */
  predicate Keeps(s: State, t: Task, k: Keeper) {
    match k
    case Listed(m, i) => m < |s.sems| && i < |s.sems[m].waiters| && s.sems[m].waiters[i] == t
    case MidWait => t in s.tasks && s.tasks[t].pc.WaitLink?
    case HeldBy(u) => u in s.tasks && WokenBy(s.tasks[u].pc) == Some(t)
  }

  lemma KeepsAgrees(s: State, t: Task, k: Keeper)
    requires Inv(s) && t in s.tasks && Keeps(s, t, k)
    ensures match k
            case Listed(m, i) => s.tasks[t].waker == WaitList(m)
            case MidWait => s.tasks[t].waker.Itself?
            case HeldBy(u) => s.tasks[t].waker == Signaller(u)
  {
    match k
    case Listed(m, i) => assert SemOk(s, m);
    case MidWait => assert WakerOk(s, t);
    case HeldBy(u) => assert WakerOk(s, u);
  }

  /** No wakeup is lost: a task is WAITING exactly while one, and only one, party is bound to wake it. */
  lemma WaitingTaskHasOneKeeper(s: State, t: Task)
    requires Reachable(s) && t in s.tasks
    ensures s.tasks[t].status.WAITING? <==> exists k :: Keeps(s, t, k)
    ensures forall k, k' :: Keeps(s, t, k) && Keeps(s, t, k') ==> k == k'
  {
    ReachableInv(s);
    assert WakerOk(s, t);
    forall k, k' | Keeps(s, t, k) && Keeps(s, t, k') ensures k == k' {
      KeepsAgrees(s, t, k); KeepsAgrees(s, t, k');
      if k.Listed? { assert SemOk(s, k.m); }
    }
    if exists k :: Keeps(s, t, k) {
      var k :| Keeps(s, t, k);
      KeepsAgrees(s, t, k);
    }
    if s.tasks[t].status.WAITING? {
      match s.tasks[t].waker
      case Itself(_) => assert Keeps(s, t, MidWait);
      case WaitList(m) =>
        var i :| 0 <= i < |s.sems[m].waiters| && s.sems[m].waiters[i] == t;
        assert Keeps(s, t, Listed(m, i));
      case Signaller(u) => assert Keeps(s, t, HeldBy(u));
    }
  }

  lemma {:induction false} DistinctWithin<T>(q: seq<T>, x: set<T>)
    requires forall i :: 0 <= i < |q| ==> q[i] in x
    requires forall i, j :: 0 <= i < j < |q| ==> q[i] != q[j]
    ensures |q| <= |x|
  {
    if q != [] {
      var last := q[|q| - 1];
      DistinctWithin(q[..|q| - 1], x - {last});
    }
  }

  /** Units are conserved, and a wait returns only on a unit that was there: returns never exceed the initial value
      plus the signals. */
  lemma CompletedWaitsBounded(s: State, m: SemId)
    requires Reachable(s) && m < |s.sems|
    ensures s.sems[m].value + s.sems[m].completed + |s.sems[m].inside| == s.sems[m].initial + s.sems[m].signals
    ensures s.sems[m].initial >= 0 ==> s.sems[m].completed <= s.sems[m].initial + s.sems[m].signals
  {
    ReachableInv(s);
    assert SemOk(s, m);
    var q := s.sems[m];
    if q.initial >= 0 && q.value < 0 {
      var marking := q.lock.Some? && (s.tasks[q.lock.value].pc.WaitMark? || s.tasks[q.lock.value].pc.WaitLink?);
      var marked := if marking then {q.lock.value} else {};
      forall i | 0 <= i < |q.waiters| ensures q.waiters[i] in q.inside - marked {
        var w := q.waiters[i];
        assert WakerOk(s, w);
        assert w in q.inside <==> Entered(s.tasks[w].pc, m);
      }
      DistinctWithin(q.waiters, q.inside - marked);
      if marked != {} {
        var h := q.lock.value;
        assert q.lock == Some(h) <==> Holds(s.tasks[h].pc, m);
        assert h in q.inside <==> Entered(s.tasks[h].pc, m);
        assert |q.inside - marked| == |q.inside| - 1;
      }
    }
  }

  lemma ResumedRuns(s: State, c: CpuId)
    requires Inv(s) && Enabled(s, c, WaitReturn)
    ensures s.tasks[s.cpus[c].current].status.RUNNING?
  {
    assert ResumedOk(s, c) && CpuOk(s, c);
  }

  /** A blocked wait returns only after a signal took the task off the list and set it RUNNING. */
  lemma BlockedWaitReturnsWoken(s: State, c: CpuId)
    requires Reachable(s) && Enabled(s, c, WaitReturn)
    ensures s.tasks[s.cpus[c].current].status.RUNNING?
    ensures forall k :: !Keeps(s, s.cpus[c].current, k)
  {
    ReachableInv(s);
    ResumedRuns(s, c);
    WaitingTaskHasOneKeeper(s, s.cpus[c].current);
  }
}
