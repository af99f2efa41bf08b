/** The rotate loop of kmt_schedule: it ends, it keeps the order, and it starves no runnable task. */
module KernelRotation {
  import opened Options
  import opened Kernel
  import opened KernelInvariant
  import opened KernelSemSteps
  import opened KernelCpuSteps
  import opened KernelTheorems

  predicate IsRotating(s: State) {
    s.qlock.Some? && s.qlock.value < |s.cpus| && s.cpus[s.qlock.value].pc.Rotating?
  }

  /** The tasks in the order the rotate loop meets them: the one in hand, then the queue. */
  function Line(s: State): seq<Task> {
    if IsRotating(s) then [s.cpus[s.qlock.value].pc.hand] + s.queue else s.queue
  }

  function {:induction false} IndexIn(q: seq<Task>, t: Task): (i: nat)
    requires t in q
    ensures i < |q| && q[i] == t && t !in q[..i]
  {
    if q[0] == t then 0 else 1 + IndexIn(q[1..], t)
  }

  lemma IndexUnique(q: seq<Task>, t: Task, i: nat)
    requires i < |q| && q[i] == t && forall j :: 0 <= j < i ==> q[j] != t
    ensures t in q && IndexIn(q, t) == i
  {
    var k := IndexIn(q, t);
    assert forall j :: 0 <= j < k ==> q[..k][j] == q[j];
  }

  // ---- what each step does to the line

  lemma LineRotates(s: State, c: CpuId)
    requires Inv(s) && Enabled(s, c, Rotate)
    ensures Line(s) != [] && Line(Do(s, c, Rotate)) == Line(s)[1..] + [Line(s)[0]]
  {
    assert s.qlock == Some(c) <==> InSection(s, c);
    RotateIs(s, c);
    RotatedLine(s, Do(s, c, Rotate), c);
  }

  lemma RotatedLine(s: State, s': State, c: CpuId)
    requires Rotated(s, s', c) && s.qlock == Some(c)
    ensures Line(s) != [] && Line(s') == Line(s)[1..] + [Line(s)[0]]
  {
  }

  lemma LineLosesHead(s: State, c: CpuId)
    requires Inv(s) && Enabled(s, c, Pick)
    ensures Line(s) != [] && Line(Do(s, c, Pick)) == Line(s)[1..] && Do(s, c, Pick).cpus[c].current == Line(s)[0]
  {
    assert CpuOk(s, c);
    assert s.qlock == Some(c) <==> InSection(s, c);
  }

  lemma LineGrows(s: State, c: CpuId, e: Event) returns (t: Task)
    requires Inv(s) && Enabled(s, c, e) && (e.SaveEnqueue? || e.CreateEnqueue?)
    ensures Line(Do(s, c, e)) == Line(s) + [t]
  {
    assert CpuOk(s, c);
    assert s.qlock == Some(c) <==> InSection(s, c);
    t := if e.SaveEnqueue? then s.cpus[c].last.value else Thread(s.tasks[s.cpus[c].current].pc.made);
  }

  lemma HitLine(s: State, c: CpuId)
    requires Inv(s) && Enabled(s, c, CheckHit)
    ensures Line(Do(s, c, CheckHit)) == Line(s)
  {
    assert s.qlock == Some(c) <==> InSection(s, c);
  }

  // Steps of the handlers and of kmt_create that leave the queue alone
  predicate Quiet(e: Event) {
    Still(e) || e.SetLast? || e.CreateBegin?
  }

  lemma QuietStep(s: State, c: CpuId, e: Event)
    requires Enabled(s, c, e) && Quiet(e)
    ensures Do(s, c, e).queue == s.queue && !s.cpus[c].pc.Rotating?
    ensures c < |Do(s, c, e).cpus| && !Do(s, c, e).cpus[c].pc.Rotating?
  {
  }

  lemma QuietLine(s: State, s': State, c: CpuId)
    requires CpuMove(s, s', c) && s'.queue == s.queue && !s.cpus[c].pc.Rotating? && !s'.cpus[c].pc.Rotating?
    ensures Line(s') == Line(s)
  {
  }

  lemma SameCpus(s: State, c: CpuId, e: Event)
    requires Enabled(s, c, e) && !IsCpuStep(e)
    ensures Do(s, c, e).cpus == s.cpus && Do(s, c, e).queue == s.queue && Do(s, c, e).qlock == s.qlock
  {
  }

  lemma LineStays(s: State, c: CpuId, e: Event)
    requires Inv(s) && Enabled(s, c, e) && !e.Rotate? && !e.Pick? && !e.SaveEnqueue? && !e.CreateEnqueue?
    ensures Line(Do(s, c, e)) == Line(s)
  {
    if e.CheckHit? {
      HitLine(s, c);
    } else if IsCpuStep(e) {
      CpuStepShape(s, c, e);
      QuietStep(s, c, e);
      QuietLine(s, Do(s, c, e), c);
    } else {
      SameCpus(s, c, e);
    }
  }

  /** Starting to rotate, rotating and picking keep the cyclic order; every other step at most appends. */
  lemma LineStep(s: State, c: CpuId, e: Event)
    requires Inv(s) && Enabled(s, c, e)
    ensures var s' := Do(s, c, e);
            && (e.Rotate? ==> Line(s) != [] && Line(s') == Line(s)[1..] + [Line(s)[0]])
            && (e.Pick? ==> Line(s) != [] && Line(s') == Line(s)[1..] && s'.cpus[c].current == Line(s)[0])
            && (e.SaveEnqueue? || e.CreateEnqueue? ==> exists t :: Line(s') == Line(s) + [t])
            && (!e.Rotate? && !e.Pick? && !e.SaveEnqueue? && !e.CreateEnqueue? ==> Line(s') == Line(s))
  {
    if e.Rotate? { LineRotates(s, c); }
    else if e.Pick? { LineLosesHead(s, c); }
    else if e.SaveEnqueue? || e.CreateEnqueue? { var t := LineGrows(s, c, e); }
    else { LineStays(s, c, e); }
  }

  lemma LineDistinct(s: State)
    requires Inv(s)
    ensures forall i, j :: 0 <= i < j < |Line(s)| ==> Line(s)[i] != Line(s)[j]
    ensures forall i :: 0 <= i < |Line(s)| ==> Line(s)[i] in s.tasks && Line(s)[i].Thread?
  {
    if IsRotating(s) { assert CpuOk(s, s.qlock.value); }
  }

  // ---- the loop of lines 224-228 ends

  /** How many times the loop still turns: the distance to the first runnable task of the line. */
  ghost function TurnsLeft(s: State, q: seq<Task>): nat {
    if q == [] || (q[0] in s.tasks && s.tasks[q[0]].status.RUNNING?) then 0 else 1 + TurnsLeft(s, q[1..])
  }

  lemma {:induction false} TurnsShrink(s: State, s': State, q: seq<Task>)
    requires forall i :: 0 <= i < |q| ==> q[i] in s.tasks && q[i] in s'.tasks
    requires forall i :: 0 <= i < |q| && s.tasks[q[i]].status.RUNNING? ==> s'.tasks[q[i]].status.RUNNING?
    ensures TurnsLeft(s', q) <= TurnsLeft(s, q)
  {
    if q != [] && !s.tasks[q[0]].status.RUNNING? { TurnsShrink(s, s', q[1..]); }
  }

  lemma {:induction false} TurnsPrefix(s: State, q: seq<Task>, tail: seq<Task>)
    requires exists i :: 0 <= i < |q| && q[i] in s.tasks && s.tasks[q[i]].status.RUNNING?
    ensures TurnsLeft(s, q + tail) == TurnsLeft(s, q) < |q|
  {
    assert (q + tail)[1..] == q[1..] + tail;
    if !(q[0] in s.tasks && s.tasks[q[0]].status.RUNNING?) {
      var i :| 0 <= i < |q| && q[i] in s.tasks && s.tasks[q[i]].status.RUNNING?;
      assert q[1..][i - 1] == q[i];
      TurnsPrefix(s, q[1..], tail);
    }
  }

  lemma OthersStayAtLocal(s: State, c: CpuId, e: Event, t: Task)
    requires Inv(s) && Enabled(s, c, e) && IsLocal(e) && t in s.tasks && t != s.cpus[c].current
    ensures t in Do(s, c, e).tasks && Do(s, c, e).tasks[t].status == s.tasks[t].status
  {
    var u := s.cpus[c].current;
    var m := SemIndex(s.tasks[u].pc, e);
    LocalBefore(s, c, e);
    LocalStep(u, s.tasks[u], s.sems[m], m, e);
    LocalQuiet(s, c, e, u, m);
  }

  lemma OthersStayAtWake(s: State, c: CpuId, e: Event, t: Task)
    requires Inv(s) && Enabled(s, c, e) && (e.PopWaiter? || e.Wake?)
    requires t in s.tasks && t != s.cpus[c].current && s.tasks[t].status.RUNNING?
    ensures t in Do(s, c, e).tasks && Do(s, c, e).tasks[t].status.RUNNING?
  {
    var u := s.cpus[c].current;
    if e.PopWaiter? {
      PopBefore(s, c);
      PopShape(s, c, u, Back(s.sems[s.tasks[u].pc.sem].waiters), s.tasks[u].pc.sem);
    } else {
      WakeBefore(s, c);
      WakeShape(s, c, u, s.tasks[u].pc.wakee);
    }
  }

  /** No task but the one taking the step stops being RUNNING. */
  lemma OthersStayRunning(s: State, c: CpuId, e: Event, t: Task)
    requires Inv(s) && Enabled(s, c, e) && t in s.tasks && t != s.cpus[c].current && s.tasks[t].status.RUNNING?
    ensures t in Do(s, c, e).tasks && Do(s, c, e).tasks[t].status.RUNNING?
  {
    if IsLocal(e) {
      OthersStayAtLocal(s, c, e, t);
    } else if e.PopWaiter? || e.Wake? {
      OthersStayAtWake(s, c, e, t);
    } else {
      CpuStepShape(s, c, e);
    }
  }

  lemma LineStaysRunnable(s: State, c: CpuId, e: Event, t: Task)
    requires Inv(s) && Enabled(s, c, e) && t in Line(s) && t in s.tasks && s.tasks[t].status.RUNNING?
    ensures t in Do(s, c, e).tasks && Do(s, c, e).tasks[t].status.RUNNING?
  {
    if IsCpuStep(e) {
      CpuStepShape(s, c, e);
    } else {
      LineDistinct(s);
      assert CpuOk(s, c);
      if IsRotating(s) { assert CpuOk(s, s.qlock.value); }
      OthersStayRunning(s, c, e, t);
    }
  }

  // The task that the rotating CPU steps over was not runnable, so a later one of the line is
  lemma OwnTurn(s: State, d: CpuId)
    requires Inv(s) && Enabled(s, d, Rotate)
    ensures Line(s) != [] && Line(s)[0] in s.tasks && !s.tasks[Line(s)[0]].status.RUNNING?
    ensures TurnsLeft(s, Line(s)[1..] + [Line(s)[0]]) == TurnsLeft(s, Line(s)) - 1
  {
    assert CpuOk(s, d);
    assert s.qlock == Some(d) <==> InSection(s, d);
    var q := Line(s);
    var i :| 0 <= i < |q| && q[i] in s.tasks && s.tasks[q[i]].status.RUNNING?;
    assert i > 0 && q[1..][i - 1] == q[i];
    TurnsPrefix(s, q[1..], [q[0]]);
  }

  // While d rotates no other CPU can, nor dispatch or enqueue
  lemma OthersWait(s: State, c: CpuId, e: Event, d: CpuId)
    requires Inv(s) && Enabled(s, c, e) && d < |s.cpus| && s.cpus[d].pc.Rotating? && Inv(Do(s, c, e))
    requires d < |Do(s, c, e).cpus| && Do(s, c, e).cpus[d].pc.Rotating?
    ensures if c == d then e.Rotate? else !e.Rotate? && !e.Pick? && !e.SaveEnqueue? && !e.CreateEnqueue?
  {
    assert s.qlock == Some(d) <==> InSection(s, d);
    assert s.qlock == Some(c) <==> InSection(s, c);
    if c == d { TurnKeepsRotating(s, c, e); }
  }

  lemma TurnKeepsRotating(s: State, c: CpuId, e: Event)
    requires Enabled(s, c, e) && s.cpus[c].pc.Rotating?
    requires c < |Do(s, c, e).cpus| && Do(s, c, e).cpus[c].pc.Rotating?
    ensures e.Rotate?
  {
  }

  /** One step leaves d rotating: its own turn uses up one, and no step of another CPU adds one. */
  lemma RotationProgress(s: State, c: CpuId, e: Event, d: CpuId)
    requires Inv(s) && Enabled(s, c, e) && d < |s.cpus| && s.cpus[d].pc.Rotating?
    requires d < |Do(s, c, e).cpus| && Do(s, c, e).cpus[d].pc.Rotating?
    ensures var s' := Do(s, c, e);
            TurnsLeft(s', Line(s')) <= TurnsLeft(s, Line(s)) - (if c == d then 1 else 0)
  {
    var s' := Do(s, c, e);
    StepKeepsInv(s, c, e);
    OthersWait(s, c, e, d);
    LineStep(s, c, e);
    LineDistinct(s);
    LineDistinct(s');
    LineRuns(s, c, e);
    if c == d { OwnTurn(s, d); }
    TurnsShrink(s, s', Line(s'));
  }

  lemma LineRuns(s: State, c: CpuId, e: Event)
    requires Inv(s) && Enabled(s, c, e)
    requires Line(Do(s, c, e)) == Line(s) || (Line(s) != [] && Line(Do(s, c, e)) == Line(s)[1..] + [Line(s)[0]])
    ensures forall i :: 0 <= i < |Line(Do(s, c, e))| ==>
              var t := Line(Do(s, c, e))[i];
              t in s.tasks &&
              (s.tasks[t].status.RUNNING? ==> t in Do(s, c, e).tasks && Do(s, c, e).tasks[t].status.RUNNING?)
  {
    LineDistinct(s);
    var s', q, q' := Do(s, c, e), Line(s), Line(Do(s, c, e));
    forall i | 0 <= i < |q'|
      ensures q'[i] in s.tasks
      ensures (s.tasks[q'[i]].status.RUNNING? ==> q'[i] in s'.tasks && s'.tasks[q'[i]].status.RUNNING?)
    {
      assert q'[i] in q;
      if s.tasks[q'[i]].status.RUNNING? { LineStaysRunnable(s, c, e, q'[i]); }
    }
  }

  // ---- over whole runs

  ghost predicate Run(b: seq<State>, ev: seq<(CpuId, Event)>) {
    && |b| == |ev| + 1
    && forall i {:trigger ev[i]} :: 0 <= i < |ev| ==>
          Enabled(b[i], ev[i].0, ev[i].1) && b[i + 1] == Do(b[i], ev[i].0, ev[i].1)
  }

  lemma RunTail(b: seq<State>, ev: seq<(CpuId, Event)>)
    requires Run(b, ev) && |ev| > 0 && Inv(b[0])
    ensures Run(b[1..], ev[1..]) && Inv(b[1])
  {
    StepKeepsInv(b[0], ev[0].0, ev[0].1);
    assert forall i :: 0 <= i < |ev[1..]| ==> ev[1..][i] == ev[i + 1] && b[1..][i] == b[i + 1];
  }

  function Turns(ev: seq<(CpuId, Event)>, d: CpuId): nat {
    if ev == [] then 0 else (if ev[0] == (d, Rotate) then 1 else 0) + Turns(ev[1..], d)
  }

  /** However the other CPUs interleave, a CPU in the rotate loop turns it fewer times than the line is long. */
  lemma {:induction false} RotationEnds(b: seq<State>, ev: seq<(CpuId, Event)>, d: CpuId)
    requires Run(b, ev) && Inv(b[0])
    requires forall i :: 0 <= i < |b| ==> d < |b[i].cpus| && b[i].cpus[d].pc.Rotating?
    ensures Turns(ev, d) <= TurnsLeft(b[0], Line(b[0])) < |Line(b[0])|
  {
    assert CpuOk(b[0], d);
    assert b[0].qlock == Some(d) <==> InSection(b[0], d);
    TurnsPrefix(b[0], Line(b[0]), []);
    assert Line(b[0]) + [] == Line(b[0]);
    if ev != [] {
      RunTail(b, ev);
      RotationProgress(b[0], ev[0].0, ev[0].1, d);
      RotationEnds(b[1..], ev[1..], d);
    }
  }

  /** t is runnable with k tasks ahead of it. */
  ghost predicate InLine(s: State, t: Task, k: nat) {
    t in s.tasks && s.tasks[t].status.RUNNING? && t in Line(s) && IndexIn(Line(s), t) == k
  }

  // A check in progress has gone past k tasks of the line
  predicate PastCheck(s: State, k: nat) {
    exists c :: 0 <= c < |s.cpus| && s.cpus[c].pc.Checking? && s.cpus[c].pc.next > k
  }

  /** t is runnable with k tasks ahead of it, and no check in progress has gone past it. */
  ghost predicate Queued(s: State, t: Task, k: nat) {
    InLine(s, t, k) && !PastCheck(s, k)
  }

  lemma IndexAfter(q: seq<Task>, t: Task, tail: seq<Task>)
    requires t in q && forall i, j :: 0 <= i < j < |q| ==> q[i] != q[j]
    ensures t in q + tail && IndexIn(q + tail, t) == IndexIn(q, t)
    ensures q[0] != t ==> t in q[1..] + tail && IndexIn(q[1..] + tail, t) == IndexIn(q, t) - 1
  {
    var k := IndexIn(q, t);
    IndexUnique(q + tail, t, k);
    if q[0] != t { IndexUnique(q[1..] + tail, t, k - 1); }
  }

  ghost predicate Dispatches(s: State, c: CpuId, e: Event, t: Task)
    requires Enabled(s, c, e)
  {
    e.Pick? && Do(s, c, e).cpus[c].current == t
  }

  function Moved(e: Event, k: nat): int {
    if e.Rotate? || e.Pick? then k - 1 else k
  }

  lemma QueuedLine(s: State, c: CpuId, e: Event, t: Task, k: nat, q: seq<Task>, q': seq<Task>)
    requires t in q && IndexIn(q, t) == k && forall i, j :: 0 <= i < j < |q| ==> q[i] != q[j]
    requires e.Rotate? ==> q' == q[1..] + [q[0]] && k > 0
    requires e.Pick? ==> q' == q[1..]
    requires e.SaveEnqueue? || e.CreateEnqueue? ==> exists u :: q' == q + [u]
    requires !e.Rotate? && !e.Pick? && !e.SaveEnqueue? && !e.CreateEnqueue? ==> q' == q
    ensures (e.Pick? && q[0] == t) || (Moved(e, k) >= 0 && t in q' && IndexIn(q', t) == Moved(e, k))
  {
    IndexAfter(q, t, []);
    assert q[1..] + [] == q[1..];
    if e.Rotate? {
      IndexAfter(q, t, [q[0]]);
    } else if e.SaveEnqueue? || e.CreateEnqueue? {
      var u :| q' == q + [u];
      IndexAfter(q, t, [u]);
    }
  }

  // A check stops at t, so none goes past it
  lemma QueuedChecks(s: State, c: CpuId, e: Event, t: Task, k: nat)
    requires Inv(s) && Enabled(s, c, e) && Queued(s, t, k)
    ensures !e.CheckMiss?
    ensures e.Rotate? ==> k > 0
    ensures s.cpus[c].pc.Checking? && e.CheckNext? ==> s.cpus[c].pc.next < k
    ensures forall d {:trigger s.cpus[d]} :: 0 <= d < |s.cpus| && s.cpus[d].pc.Checking? ==> s.qlock == Some(d)
  {
    assert CpuOk(s, c);
    assert s.qlock == Some(c) <==> InSection(s, c);
    forall d | 0 <= d < |s.cpus| && s.cpus[d].pc.Checking? ensures s.qlock == Some(d) {
      assert s.qlock == Some(d) <==> InSection(s, d);
    }
  }

  lemma OtherCpus(s: State, c: CpuId, e: Event, d: CpuId)
    requires Inv(s) && Enabled(s, c, e) && d < |s.cpus| && d != c
    ensures d < |Do(s, c, e).cpus| && Do(s, c, e).cpus[d] == s.cpus[d]
  {
    if IsCpuStep(e) { CpuStepShape(s, c, e); } else { SameCpus(s, c, e); }
  }

  lemma CheckingEvents(s: State, c: CpuId, e: Event)
    requires Enabled(s, c, e) && s.cpus[c].pc.Checking?
    ensures e.CheckNext? || e.CheckHit? || e.CheckMiss?
    ensures !e.CheckNext? && c < |Do(s, c, e).cpus| ==> !Do(s, c, e).cpus[c].pc.Checking?
  {
  }

  lemma OwnCheck(s: State, c: CpuId, e: Event, k: nat)
    requires Enabled(s, c, e) && c < |Do(s, c, e).cpus| && Do(s, c, e).cpus[c].pc.Checking?
    requires s.cpus[c].pc.Checking? ==> s.cpus[c].pc.next <= k
    requires s.cpus[c].pc.Checking? && e.CheckNext? ==> s.cpus[c].pc.next < k
    ensures Do(s, c, e).cpus[c].pc.next <= k && !e.Rotate? && !e.Pick?
  {
    if s.cpus[c].pc.Checking? { CheckingEvents(s, c, e); }
  }

  lemma ChecksStayBehind(s: State, c: CpuId, e: Event, t: Task, k: nat, d: CpuId)
    requires Inv(s) && Enabled(s, c, e) && Queued(s, t, k) && d < |s.cpus|
    requires d < |Do(s, c, e).cpus| && Do(s, c, e).cpus[d].pc.Checking?
    ensures Do(s, c, e).cpus[d].pc.next <= Moved(e, k)
  {
    QueuedChecks(s, c, e, t, k);
    if d == c {
      OwnCheck(s, c, e, k);
    } else {
      OtherCpus(s, c, e, d);
      assert s.qlock == Some(c) <==> InSection(s, c);
      assert !e.Rotate? && !e.Pick?;
    }
  }

  // t is dispatched or stays in line, as far from its head as the step says
  lemma InLineStep(s: State, c: CpuId, e: Event, t: Task, k: nat)
    requires Inv(s) && Enabled(s, c, e) && InLine(s, t, k) && (e.Rotate? ==> k > 0)
    ensures Dispatches(s, c, e, t) || (Moved(e, k) >= 0 && InLine(Do(s, c, e), t, Moved(e, k)))
  {
    LineStep(s, c, e);
    LineDistinct(s);
    LineStaysRunnable(s, c, e, t);
    QueuedLine(s, c, e, t, k, Line(s), Line(Do(s, c, e)));
  }

  lemma NoCheckPasses(s: State, c: CpuId, e: Event, t: Task, k: nat)
    requires Inv(s) && Enabled(s, c, e) && Queued(s, t, k) && Moved(e, k) >= 0
    ensures !PastCheck(Do(s, c, e), Moved(e, k))
  {
    var s' := Do(s, c, e);
    if d :| 0 <= d < |s'.cpus| && s'.cpus[d].pc.Checking? && s'.cpus[d].pc.next > Moved(e, k) {
      CpuCount(s, c, e);
      ChecksStayBehind(s, c, e, t, k, d);
    }
  }

  lemma CpuCount(s: State, c: CpuId, e: Event)
    requires Inv(s) && Enabled(s, c, e)
    ensures |Do(s, c, e).cpus| == |s.cpus|
  {
    if IsCpuStep(e) { CpuStepShape(s, c, e); } else { SameCpus(s, c, e); }
  }

  /** A step dispatches t, or leaves it queued with no more tasks ahead, and one fewer if the step ends a schedule. */
  lemma QueuedStep(s: State, c: CpuId, e: Event, t: Task, k: nat)
    requires Inv(s) && Enabled(s, c, e) && Queued(s, t, k)
    ensures !e.CheckMiss?
    ensures Dispatches(s, c, e, t) || (Moved(e, k) >= 0 && Queued(Do(s, c, e), t, Moved(e, k)))
  {
    QueuedChecks(s, c, e, t, k);
    InLineStep(s, c, e, t, k);
    if Moved(e, k) >= 0 { NoCheckPasses(s, c, e, t, k); }
  }

  function Decisions(ev: seq<(CpuId, Event)>): nat {
    if ev == [] then 0 else (if ev[0].1.Pick? || ev[0].1.CheckMiss? then 1 else 0) + Decisions(ev[1..])
  }

  lemma DecisionsSplit(ev: seq<(CpuId, Event)>)
    requires |ev| > 0
    ensures Decisions(ev) == Decisions(ev[..1]) + Decisions(ev[1..])
    ensures Decisions(ev[..1]) == if ev[0].1.Pick? || ev[0].1.CheckMiss? then 1 else 0
  {
    assert ev[..1] == [ev[0]];
  }

  /** Event i of the run dispatches t, and at most k schedules ended before it. */
  ghost predicate PickedAfter(b: seq<State>, ev: seq<(CpuId, Event)>, t: Task, k: nat, i: nat)
    requires Run(b, ev)
  {
    i < |ev| && Dispatches(b[i], ev[i].0, ev[i].1, t) && Decisions(ev[..i + 1]) <= k + 1
  }

  lemma FirstStep(b: seq<State>, ev: seq<(CpuId, Event)>, t: Task, k: nat)
    requires Run(b, ev) && |ev| > 0 && Inv(b[0]) && Queued(b[0], t, k)
    ensures PickedAfter(b, ev, t, k, 0)
         || (Moved(ev[0].1, k) >= 0 && Queued(b[1], t, Moved(ev[0].1, k)) &&
             Moved(ev[0].1, k) + Decisions(ev[..1]) <= k)
    ensures Run(b[1..], ev[1..]) && Inv(b[1]) && Decisions(ev) == Decisions(ev[..1]) + Decisions(ev[1..])
  {
    QueuedStep(b[0], ev[0].0, ev[0].1, t, k);
    RunTail(b, ev);
    DecisionsSplit(ev);
  }

  lemma {:induction false} QueuedRun(b: seq<State>, ev: seq<(CpuId, Event)>, t: Task, k: nat) returns (i: nat)
    requires Run(b, ev) && Inv(b[0]) && Queued(b[0], t, k) && Decisions(ev) > k
    ensures PickedAfter(b, ev, t, k, i)
    decreases |ev|
  {
    FirstStep(b, ev, t, k);
    if PickedAfter(b, ev, t, k, 0) { return 0; }
    var k' := Moved(ev[0].1, k);
    var j := QueuedRun(b[1..], ev[1..], t, k');
    i := PickedLater(b, ev, t, k', k, j);
  }

  lemma PickedLater(b: seq<State>, ev: seq<(CpuId, Event)>, t: Task, k: nat, k': nat, j: nat) returns (i: nat)
    requires Run(b, ev) && |ev| > 0 && Run(b[1..], ev[1..]) && PickedAfter(b[1..], ev[1..], t, k, j)
    requires k + Decisions(ev[..1]) <= k'
    ensures PickedAfter(b, ev, t, k', i)
  {
    i := j + 1;
    assert b[1..][j] == b[i] && ev[1..][j] == ev[i];
    assert ev[..i + 1][1..] == ev[1..][..j + 1];
    assert ev[..1] == [ev[0]];
  }

  // ---- the same when a check in progress has gone past the task, which was not runnable then

  // How many schedules may end before a runnable task with k tasks ahead is picked: such a check may end in vain
  function Before(s: State, k: nat): nat {
    if PastCheck(s, k) then k + 1 else k
  }

  // Only the CPU whose check went past t can change the line or end a schedule
  lemma PassedEvents(s: State, c: CpuId, e: Event, k: nat)
    requires Inv(s) && Enabled(s, c, e) && PastCheck(s, k)
    ensures !e.Rotate? && !e.Pick? && !e.SaveEnqueue? && !e.CreateEnqueue?
    ensures e.CheckMiss? ==> s.cpus[c].pc.Checking? && s.qlock == Some(c)
  {
    var d :| 0 <= d < |s.cpus| && s.cpus[d].pc.Checking? && s.cpus[d].pc.next > k;
    assert s.qlock == Some(d) <==> InSection(s, d);
    assert s.qlock == Some(c) <==> InSection(s, c);
    if c == d { CheckingEvents(s, c, e); }
  }

  lemma OneChecks(s: State, c: CpuId, d: CpuId)
    requires Inv(s) && c < |s.cpus| && d < |s.cpus| && s.cpus[c].pc.Checking? && s.cpus[d].pc.Checking?
    ensures c == d
  {
    assert s.qlock == Some(c) <==> InSection(s, c);
    assert s.qlock == Some(d) <==> InSection(s, d);
  }

  // The check that found nobody is over
  lemma MissEndsCheck(s: State, c: CpuId, k: nat)
    requires Inv(s) && Enabled(s, c, CheckMiss)
    ensures !PastCheck(Do(s, c, CheckMiss), k)
  {
    var s' := Do(s, c, CheckMiss);
    forall d | 0 <= d < |s'.cpus| ensures !s'.cpus[d].pc.Checking? {
      if d == c {
        CheckingEvents(s, c, CheckMiss);
      } else {
        OtherCpus(s, c, CheckMiss, d);
        if s.cpus[d].pc.Checking? { OneChecks(s, c, d); }
      }
    }
  }

  /** A step after a check has gone past t leaves t where it is, and only the end of that check ends a schedule. */
  lemma PassedStep(s: State, c: CpuId, e: Event, t: Task, k: nat)
    requires Inv(s) && Enabled(s, c, e) && InLine(s, t, k) && PastCheck(s, k)
    ensures !e.Pick? && InLine(Do(s, c, e), t, k)
    ensures e.CheckMiss? ==> !PastCheck(Do(s, c, e), k)
  {
    PassedEvents(s, c, e, k);
    LineStep(s, c, e);
    LineStaysRunnable(s, c, e, t);
    if e.CheckMiss? { MissEndsCheck(s, c, k); }
  }

  lemma FirstPassed(b: seq<State>, ev: seq<(CpuId, Event)>, t: Task, k: nat)
    requires Run(b, ev) && |ev| > 0 && Inv(b[0]) && InLine(b[0], t, k) && PastCheck(b[0], k)
    ensures Run(b[1..], ev[1..]) && Inv(b[1]) && Decisions(ev) == Decisions(ev[..1]) + Decisions(ev[1..])
    ensures InLine(b[1], t, k) && Before(b[1], k) + Decisions(ev[..1]) <= k + 1
  {
    RunTail(b, ev);
    DecisionsSplit(ev);
    PassedStep(b[0], ev[0].0, ev[0].1, t, k);
  }

  lemma {:induction false} InLineRun(b: seq<State>, ev: seq<(CpuId, Event)>, t: Task, k: nat) returns (i: nat)
    requires Run(b, ev) && Inv(b[0]) && InLine(b[0], t, k) && Decisions(ev) > Before(b[0], k)
    ensures PickedAfter(b, ev, t, Before(b[0], k), i)
    decreases |ev|
  {
    if PastCheck(b[0], k) {
      FirstPassed(b, ev, t, k);
      var j := InLineRun(b[1..], ev[1..], t, k);
      i := PickedLater(b, ev, t, Before(b[1], k), k + 1, j);
    } else {
      i := QueuedRun(b, ev, t, k);
    }
  }

  /** From any reachable state a runnable task with k tasks ahead of it in the line is among those picked by the next
      k + 1 schedules, counted over all CPUs and whatever is enqueued, blocked or woken meanwhile.  One more schedule
      may end before when a check under way has already gone past the task. */
  lemma DispatchedSoon(b: seq<State>, ev: seq<(CpuId, Event)>, t: Task, k: nat)
    requires Run(b, ev) && Reachable(b[0]) && k < |Line(b[0])| && Line(b[0])[k] == t
    requires t in b[0].tasks && b[0].tasks[t].status.RUNNING?
    requires Decisions(ev) > Before(b[0], k)
    ensures exists i :: PickedAfter(b, ev, t, Before(b[0], k), i)
  {
    ReachableInv(b[0]);
    LineDistinct(b[0]);
    IndexUnique(Line(b[0]), t, k);
    var i := InLineRun(b, ev, t, k);
  }

  /** Outside the locked sections the line is the queue, and no check is under way. */
  lemma UnlockedLine(s: State, k: nat)
    requires Reachable(s) && s.qlock.None?
    ensures Line(s) == s.queue && Before(s, k) == k
  {
    ReachableInv(s);
    forall c | 0 <= c < |s.cpus| ensures !s.cpus[c].pc.Checking? {
      assert s.qlock == Some(c) <==> InSection(s, c);
    }
  }
}
