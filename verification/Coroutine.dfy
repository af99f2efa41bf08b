/** The coroutine runtime of co.c: starting, yielding, waiting and finishing, as steps of one running coroutine. */
module Coroutine {
  import opened Options
  import opened CoSelect

  // Coroutine 0 is main, the sentinel of the ring
  type Id = nat
  const MAIN: Id := 0

  datatype Co = Co(status: Status, waiter: Option<Id>)

  /**
   cos are the coroutines that have not been freed and ring those linked together.  waits holds, for a coroutine
   that has not come back from its co_wait, the coroutine it waits for.  While choosing, co_yield has not switched yet.
   */
  datatype State = State(cos: map<Id, Co>, ring: seq<Id>, current: Id, choosing: bool, waits: map<Id, Id>)

  datatype Event = Start(id: Id) | Yield | Wait(co: Id) | Finish | Choose(rounds: nat) | Reclaim

  // init_co
  const INIT := State(map[MAIN := Co(Running, None)], [MAIN], MAIN, false, map[])

  function StatusOf(s: State, c: Id): Status {
    if c in s.cos then s.cos[c].status else Dead
  }

  function RingStatuses(s: State): seq<Status> {
    seq(|s.ring|, i requires 0 <= i < |s.ring| => StatusOf(s, s.ring[i]))
  }

  predicate HasRunnable(s: State) {
    exists i :: 0 <= i < |s.ring| && Runnable(StatusOf(s, s.ring[i]))
  }

  // ---- steps; a coroutine that has just been resumed in co_wait frees its target before anything else, and nobody
  // can wait for main, whose struct co_start never returned

  predicate Enabled(s: State, e: Event) {
    match e
    case Choose(rounds) => s.choosing && HasRunnable(s) && 1 <= rounds <= 129
    case Reclaim => !s.choosing && s.current in s.waits
    case Start(id) => !s.choosing && s.current !in s.waits && id !in s.cos
    case Yield => !s.choosing && s.current !in s.waits
    case Wait(co) => !s.choosing && s.current !in s.waits && co in s.cos && s.current in s.cos && co != MAIN
    case Finish => !s.choosing && s.current !in s.waits && s.current != MAIN && s.current in s.cos
  }

  function SetStatus(s: State, c: Id, status: Status): State
    requires c in s.cos
  {
    s.(cos := s.cos[c := s.cos[c].(status := status)])
  }

  function Unlinked(ring: seq<Id>, c: Id): seq<Id> {
    if ring == [] then [] else if ring[0] == c then ring[1..] else [ring[0]] + Unlinked(ring[1..], c)
  }

  function Do(s: State, e: Event): State
    requires Enabled(s, e)
  {
    match e
    case Start(id) => s.(cos := s.cos[id := Co(New, None)], ring := s.ring + [id])
    case Yield => s.(choosing := true)
    case Wait(co) =>
      if s.cos[co].status == Dead then s.(cos := s.cos - {co})
      else
        var s1 := SetStatus(s, s.current, Waiting);
        s1.(cos := s1.cos[co := s1.cos[co].(waiter := Some(s.current))],
            waits := s.waits[s.current := co], choosing := true)
    case Finish => DoFinish(s)
    case Choose(rounds) =>
      var c := s.ring[Select(RingStatuses(s), rounds)];
      var s1 := s.(current := c, choosing := false);
      if c in s.cos && s.cos[c].status == New then SetStatus(s1, c, Running) else s1
    case Reclaim => s.(cos := s.cos - {s.waits[s.current]}, waits := s.waits - {s.current})
  }

  // Lines 53-59
  function DoFinish(s: State): State
    requires s.current in s.cos
  {
    var s1 := SetStatus(s, s.current, Dead);
    var w := s.cos[s.current].waiter;
    var s2 := if w.Some? && w.value in s1.cos then SetStatus(s1, w.value, Running) else s1;
    s2.(ring := Unlinked(s.ring, s.current), choosing := true)
  }

  // ---- runs

  /** ss are the states of a run with events es. */
  ghost predicate Run(ss: seq<State>, es: seq<Event>) {
    && |ss| == |es| + 1 && ss[0] == INIT
    && forall i {:trigger es[i]} :: 0 <= i < |es| ==> Enabled(ss[i], es[i]) && ss[i + 1] == Do(ss[i], es[i])
  }

  predicate IsWaiting(s: State, c: Id) {
    c in s.waits && StatusOf(s, c) == Waiting
  }

  // n steps along the chain of waits, ending at the first coroutine that does not wait
  function Follow(s: State, c: Id, n: nat): Id
    decreases n
  {
    if n == 0 || !IsWaiting(s, c) then c else Follow(s, s.waits[c], n - 1)
  }

  /** Waiting for co would close a circle of waits. */
  ghost predicate LeadsBack(s: State, co: Id) {
    exists n: nat :: Follow(s, co, n) == s.current
  }

  /** What co_wait leaves to its callers: a coroutine has one waiter, and waits do not go round in a circle. */
  ghost predicate Disciplined(s: State, e: Event) {
    e.Wait? ==> e.co !in s.waits.Values && e.co != s.current && (StatusOf(s, e.co) != Dead ==> !LeadsBack(s, e.co))
  }

  ghost predicate DisciplinedRun(ss: seq<State>, es: seq<Event>) {
    Run(ss, es) && forall i {:trigger es[i]} :: 0 <= i < |es| ==> Disciplined(ss[i], es[i])
  }

  // ---- the invariant

  predicate RingOk(s: State) {
    && |s.ring| > 0 && s.ring[0] == MAIN
    && (forall i, j :: 0 <= i < j < |s.ring| ==> s.ring[i] != s.ring[j])
    && (forall c {:trigger c in s.ring} :: c in s.ring ==> StatusOf(s, c) != Dead)
    && (forall c {:trigger c in s.cos} :: c in s.cos && s.cos[c].status != Dead ==> c in s.ring)
  }

  predicate WaitOk(s: State, w: Id)
    requires w in s.waits
  {
    var t := s.waits[w];
    && w in s.cos && t in s.cos && t != w && t != MAIN
    && if s.cos[w].status == Waiting then s.cos[t].status != Dead && s.cos[t].waiter == Some(w)
       else s.cos[w].status == Running && s.cos[t].status == Dead
  }

  predicate CoOk(s: State, c: Id)
    requires c in s.cos
  {
    && (s.cos[c].status == Waiting ==> c in s.waits)
    && (s.cos[c].status != Dead && s.cos[c].waiter.Some? ==>
          && s.cos[c].waiter.value in s.waits && s.waits[s.cos[c].waiter.value] == c
          && StatusOf(s, s.cos[c].waiter.value) == Waiting)
  }

  // A coroutine that has come back from its wait finds its target dead and not freed
  predicate BackOk(s: State, v: Id)
    requires v in s.waits
  {
    && v in s.cos && (s.cos[v].status == Waiting || s.cos[v].status == Running)
    && (s.cos[v].status == Running ==> s.waits[v] in s.cos && s.cos[s.waits[v]].status == Dead)
  }

  // No two coroutines have come back to free the same one
  predicate BackOnce(s: State) {
    forall u, v {:trigger s.waits[u], s.waits[v]} ::
      u in s.waits && v in s.waits && StatusOf(s, u) == Running && s.waits[u] == s.waits[v] && u != v ==>
        StatusOf(s, v) == Waiting
  }

  /** What holds even when waits break the rules. */
  ghost predicate Sane(s: State) {
    && RingOk(s)
    && (!s.choosing ==> StatusOf(s, s.current) == Running)
    && (forall v {:trigger BackOk(s, v)} :: v in s.waits ==> BackOk(s, v))
    && BackOnce(s)
    && (forall c {:trigger CoOk(s, c)} :: c in s.cos ==> CoOk(s, c))
  }

  /** The step frees no coroutine that another one has come back to free: in C that would free it twice. */
  ghost predicate Clean(s: State, e: Event) {
    e.Wait? && StatusOf(s, e.co) == Dead ==>
      forall v {:trigger s.waits[v]} :: v in s.waits && StatusOf(s, v) != Waiting ==> s.waits[v] != e.co
  }

  ghost predicate Ends(s: State, c: Id) {
    exists n: nat :: !IsWaiting(s, Follow(s, c, n))
  }

  // What discipline adds: a coroutine that waits is known to its target, and is the only one that waits for it
  ghost predicate Bound(s: State) {
    && (forall w {:trigger WaitOk(s, w)} :: w in s.waits ==> WaitOk(s, w))
    && (forall v, w {:trigger s.waits[v], s.waits[w]} :: v in s.waits && w in s.waits && s.waits[v] == s.waits[w] ==>
          v == w)
  }

  ghost predicate Inv(s: State) {
    && RingOk(s)
    && (!s.choosing ==> StatusOf(s, s.current) == Running)
    && Bound(s)
    && (forall c {:trigger CoOk(s, c)} :: c in s.cos ==> CoOk(s, c))
    && (forall c {:trigger Ends(s, c)} :: Ends(s, c))
  }

  // ---- what the steps do, coroutine by coroutine

  // The running coroutine now waits for co
  predicate Waited(s: State, s': State, co: Id) {
    && s.current in s.cos && co in s.cos
    && s' == s.(cos := s'.cos, waits := s.waits[s.current := co], choosing := true)
    && s'.cos.Keys == s.cos.Keys
    && forall c {:trigger s'.cos[c]} :: c in s.cos ==>
         s'.cos[c] == Co(if c == s.current then Waiting else s.cos[c].status,
                         if c == co then Some(s.current) else s.cos[c].waiter)
  }

  lemma DoWait(s: State, co: Id)
    requires Enabled(s, Wait(co)) && s.cos[co].status != Dead
    ensures Waited(s, Do(s, Wait(co)), co)
  {
  }

  // The running coroutine is dead and its waiter awake
  predicate Finished(s: State, s': State) {
    && s.current in s.cos
    && s' == s.(cos := s'.cos, ring := Unlinked(s.ring, s.current), choosing := true)
    && s'.cos.Keys == s.cos.Keys
    && forall c {:trigger s'.cos[c]} :: c in s.cos ==>
         s'.cos[c] == Co(if s.cos[s.current].waiter == Some(c) then Running
                         else if c == s.current then Dead else s.cos[c].status, s.cos[c].waiter)
  }

  lemma DoFinished(s: State)
    requires Enabled(s, Finish)
    ensures Finished(s, Do(s, Finish))
  {
  }

  // A coroutine that was new or running runs
  predicate Chosen(s: State, s': State) {
    && s'.current in s.ring && Runnable(StatusOf(s, s'.current))
    && s' == s.(cos := s'.cos, current := s'.current, choosing := false)
    && s'.cos.Keys == s.cos.Keys
    && forall c {:trigger s'.cos[c]} :: c in s.cos ==>
         s'.cos[c] == if c == s'.current then s.cos[c].(status := Running) else s.cos[c]
  }

  lemma DoChoose(s: State, rounds: nat)
    requires Enabled(s, Choose(rounds))
    ensures Chosen(s, Do(s, Choose(rounds)))
  {
    var i :| 0 <= i < |s.ring| && Runnable(StatusOf(s, s.ring[i]));
    SelectRunnable(RingStatuses(s), rounds, i);
    assert s.ring[Select(RingStatuses(s), rounds)] in s.ring;
  }

  // ---- what every step keeps that does not free twice

  lemma StartSane(s: State, id: Id)
    requires Sane(s) && Enabled(s, Start(id))
    ensures Sane(Do(s, Start(id)))
  {
    var s' := Do(s, Start(id));
    assert id !in s.ring;
    forall i, j | 0 <= i < j < |s'.ring| ensures s'.ring[i] != s'.ring[j] { assert s.ring[i] in s.ring; }
    forall v | v in s'.waits ensures BackOk(s', v) { assert BackOk(s, v); }
    forall c | c in s'.cos ensures CoOk(s', c) {
      if c != id {
        assert CoOk(s, c);
        if s.cos[c].status != Dead && s.cos[c].waiter.Some? { assert BackOk(s, s.cos[c].waiter.value); }
      }
    }
  }

  lemma YieldSane(s: State)
    requires Sane(s) && Enabled(s, Yield)
    ensures Sane(Do(s, Yield))
  {
    var s' := Do(s, Yield);
    forall v | v in s'.waits ensures BackOk(s', v) { assert BackOk(s, v); }
    forall c | c in s'.cos ensures CoOk(s', c) { assert CoOk(s, c); }
  }

  lemma WaitSane(s: State, s': State, co: Id)
    requires Sane(s) && !s.choosing && s.current !in s.waits && Waited(s, s', co) && s.cos[co].status != Dead
    ensures Sane(s')
  {
    forall v | v in s'.waits ensures BackOk(s', v) {
      if v != s.current { assert BackOk(s, v); }
    }
    forall c | c in s'.cos ensures CoOk(s', c) { WaitCoOk(s, s', co, c); }
  }

  lemma WaitCoOk(s: State, s': State, co: Id, c: Id)
    requires Sane(s) && !s.choosing && s.current !in s.waits && Waited(s, s', co) && c in s.cos
    ensures CoOk(s', c)
  {
    assert CoOk(s, c);
    if c != co && s.cos[c].status != Dead && s.cos[c].waiter.Some? { assert BackOk(s, s.cos[c].waiter.value); }
  }

  // A dead coroutine that no other one has come back to free goes
  lemma FreeSane(s: State, s': State, t: Id)
    requires Sane(s) && !s.choosing && t in s.cos && s.cos[t].status == Dead
    requires s' == s.(cos := s.cos - {t}, waits := s.waits - {s.current})
    requires forall v {:trigger s.waits[v]} ::
               v in s.waits && v != s.current && StatusOf(s, v) != Waiting ==> s.waits[v] != t
    ensures Sane(s')
  {
    forall v | v in s'.waits ensures BackOk(s', v) { assert BackOk(s, v) && s'.waits[v] == s.waits[v]; }
    forall c | c in s'.cos ensures CoOk(s', c) {
      assert CoOk(s, c);
      if s.cos[c].status != Dead && s.cos[c].waiter.Some? { assert BackOk(s, s.cos[c].waiter.value); }
    }
  }

  lemma WaitDeadSane(s: State, co: Id)
    requires Sane(s) && Enabled(s, Wait(co)) && Clean(s, Wait(co)) && s.cos[co].status == Dead
    ensures Sane(Do(s, Wait(co)))
  {
    assert s.waits - {s.current} == s.waits;
    FreeSane(s, Do(s, Wait(co)), co);
  }

  lemma ReclaimSane(s: State)
    requires Sane(s) && Enabled(s, Reclaim)
    ensures Sane(Do(s, Reclaim))
    ensures s.waits[s.current] in s.cos && s.cos[s.waits[s.current]].status == Dead
  {
    assert BackOk(s, s.current);
    FreeSane(s, Do(s, Reclaim), s.waits[s.current]);
  }

  lemma ChooseSane(s: State, s': State)
    requires Sane(s) && Chosen(s, s')
    ensures Sane(s')
  {
    forall v | v in s'.waits ensures BackOk(s', v) { assert BackOk(s, v); }
    forall x | x in s'.cos ensures CoOk(s', x) { ChooseCoOk(s, s', x); }
  }

  lemma ChooseCoOk(s: State, s': State, c: Id)
    requires Sane(s) && Chosen(s, s') && c in s.cos
    ensures CoOk(s', c)
  {
    assert CoOk(s, c);
    if s.cos[c].status != Dead && s.cos[c].waiter.Some? { assert BackOk(s, s.cos[c].waiter.value); }
  }

  lemma {:induction false} UnlinkedFacts(ring: seq<Id>, c: Id)
    requires forall i, j :: 0 <= i < j < |ring| ==> ring[i] != ring[j]
    ensures forall x :: x in Unlinked(ring, c) <==> x in ring && x != c
    ensures var r := Unlinked(ring, c); forall i, j :: 0 <= i < j < |r| ==> r[i] != r[j]
    ensures |ring| > 0 && ring[0] != c ==> |Unlinked(ring, c)| > 0 && Unlinked(ring, c)[0] == ring[0]
  {
    if ring != [] {
      assert ring == [ring[0]] + ring[1..];
      UnlinkedFacts(ring[1..], c);
      var r := Unlinked(ring, c);
      forall x | x in ring[1..] ensures x != ring[0] {
        var j :| 0 <= j < |ring[1..]| && ring[1..][j] == x; assert ring[j + 1] == x;
      }
      forall i, j | 0 <= i < j < |r| ensures r[i] != r[j] {
        if ring[0] == c { assert r[i] == ring[i + 1] && r[j] == ring[j + 1]; }
        else if i == 0 { assert r[j] == Unlinked(ring[1..], c)[j - 1] && r[j] in Unlinked(ring[1..], c); }
        else { assert r[i] == Unlinked(ring[1..], c)[i - 1] && r[j] == Unlinked(ring[1..], c)[j - 1]; }
      }
    }
  }

  lemma FinishSane(s: State, s': State)
    requires Sane(s) && !s.choosing && s.current != MAIN && s.current !in s.waits && Finished(s, s')
    ensures Sane(s')
  {
    FinishRing(s, s');
    forall v | v in s'.waits ensures BackOk(s', v) { FinishBack(s, s', v); }
    FinishOnce(s, s');
    forall c | c in s'.cos ensures CoOk(s', c) { FinishCoOk(s, s', c); }
  }

  lemma FinishRing(s: State, s': State)
    requires Sane(s) && !s.choosing && s.current != MAIN && Finished(s, s')
    ensures RingOk(s')
  {
    UnlinkedFacts(s.ring, s.current);
    assert CoOk(s, s.current);
  }

  lemma FinishBack(s: State, s': State, v: Id)
    requires Sane(s) && !s.choosing && s.current !in s.waits && Finished(s, s') && v in s.waits
    ensures BackOk(s', v)
  {
    assert BackOk(s, v) && CoOk(s, s.current);
  }

  lemma FinishOnce(s: State, s': State)
    requires Sane(s) && !s.choosing && s.current !in s.waits && Finished(s, s')
    ensures BackOnce(s')
  {
    assert CoOk(s, s.current);
    forall u, v | u in s'.waits && v in s'.waits && StatusOf(s', u) == Running && s'.waits[u] == s'.waits[v] && u != v
      ensures StatusOf(s', v) == Waiting
    {
      assert BackOk(s, u) && BackOk(s, v);
    }
  }

  lemma FinishCoOk(s: State, s': State, c: Id)
    requires Sane(s) && !s.choosing && s.current !in s.waits && Finished(s, s') && c in s.cos
    ensures CoOk(s', c)
  {
    assert CoOk(s, c) && CoOk(s, s.current);
    if s.cos[c].status != Dead && s.cos[c].waiter.Some? { assert BackOk(s, s.cos[c].waiter.value); }
  }

  /** Whatever rules waits break, what matters for the bookkeeping stays as long as nothing is freed twice. */
  lemma StepSane(s: State, e: Event)
    requires Sane(s) && Enabled(s, e) && Clean(s, e)
    ensures Sane(Do(s, e))
  {
    match e
    case Start(id) => StartSane(s, id);
    case Yield => YieldSane(s);
    case Wait(co) =>
      if s.cos[co].status == Dead {
        WaitDeadSane(s, co);
      } else {
        DoWait(s, co);
        WaitSane(s, Do(s, e), co);
      }
    case Finish => DoFinished(s); FinishSane(s, Do(s, e));
    case Choose(rounds) => DoChoose(s, rounds); ChooseSane(s, Do(s, e));
    case Reclaim => ReclaimSane(s);
  }

  lemma InvIsSane(s: State)
    requires Inv(s)
    ensures Sane(s)
  {
    forall v | v in s.waits ensures BackOk(s, v) { assert WaitOk(s, v); }
  }

  // ---- chains of waits

  // s' waits less than s
  ghost predicate Relaxes(s: State, s': State) {
    forall x: Id {:trigger IsWaiting(s', x)} :: IsWaiting(s', x) ==> IsWaiting(s, x) && s'.waits[x] == s.waits[x]
  }

  lemma {:induction false} ChainsShorten(s: State, s': State, c: Id, n: nat)
    requires Relaxes(s, s') && !IsWaiting(s, Follow(s, c, n))
    ensures !IsWaiting(s', Follow(s', c, n))
    decreases n
  {
    if IsWaiting(s', c) && n > 0 { ChainsShorten(s, s', s.waits[c], n - 1); }
  }

  lemma AllStillEnd(s: State, s': State)
    requires Relaxes(s, s') && forall c {:trigger Ends(s, c)} :: Ends(s, c)
    ensures forall c {:trigger Ends(s', c)} :: Ends(s', c)
  {
    forall c: Id ensures Ends(s', c) {
      assert Ends(s, c);
      var n: nat :| !IsWaiting(s, Follow(s, c, n));
      ChainsShorten(s, s', c, n);
    }
  }

  // s' is s but for current, which now waits for co
  ghost predicate NewWait(s: State, s': State, co: Id) {
    && !IsWaiting(s, s.current) && IsWaiting(s', s.current) && s'.waits[s.current] == co
    && forall x: Id {:trigger IsWaiting(s', x)} :: x != s.current ==>
         && (IsWaiting(s', x) <==> IsWaiting(s, x))
         && (IsWaiting(s, x) ==> s'.waits[x] == s.waits[x])
  }

  lemma {:induction false} ChainKept(s: State, s': State, co: Id, c: Id, n: nat)
    requires NewWait(s, s', co) && !IsWaiting(s, Follow(s, c, n))
    requires forall k: nat :: Follow(s, c, k) != s.current
    ensures Follow(s', c, n) == Follow(s, c, n) && !IsWaiting(s', Follow(s', c, n))
    decreases n
  {
    assert Follow(s, c, 0) != s.current;
    if IsWaiting(s, c) && n > 0 {
      forall k: nat ensures Follow(s, s.waits[c], k) != s.current { assert Follow(s, c, k + 1) != s.current; }
      ChainKept(s, s', co, s.waits[c], n - 1);
    }
  }

  lemma {:induction false} ChainJoined(s: State, s': State, co: Id, c: Id, n: nat)
    requires NewWait(s, s', co) && !IsWaiting(s, Follow(s, c, n)) && Ends(s', co)
    ensures Ends(s', c)
    decreases n
  {
    if c == s.current {
      var m: nat :| !IsWaiting(s', Follow(s', co, m));
      assert Follow(s', c, m + 1) == Follow(s', co, m);
    } else if !IsWaiting(s, c) {
      assert !IsWaiting(s', Follow(s', c, 0));
    } else {
      ChainJoined(s, s', co, s.waits[c], n - 1);
      var m: nat :| !IsWaiting(s', Follow(s', s.waits[c], m));
      assert Follow(s', c, m + 1) == Follow(s', s.waits[c], m);
    }
  }

  lemma AllEndAfterWait(s: State, s': State, co: Id)
    requires NewWait(s, s', co) && !LeadsBack(s, co) && forall c {:trigger Ends(s, c)} :: Ends(s, c)
    ensures forall c {:trigger Ends(s', c)} :: Ends(s', c)
  {
    assert Ends(s, co);
    var m: nat :| !IsWaiting(s, Follow(s, co, m));
    ChainKept(s, s', co, co, m);
    forall c: Id ensures Ends(s', c) {
      assert Ends(s, c);
      var n: nat :| !IsWaiting(s, Follow(s, c, n));
      ChainJoined(s, s', co, c, n);
    }
  }

  // ---- every step keeps the invariant

  lemma InitEstablishes()
    ensures Inv(INIT)
  {
    forall c: Id ensures Ends(INIT, c) { assert !IsWaiting(INIT, Follow(INIT, c, 0)); }
  }

  lemma StartKeeps(s: State, s': State, id: Id)
    requires Inv(s) && Enabled(s, Start(id)) && s' == Do(s, Start(id))
    ensures Bound(s') && Relaxes(s, s')
  {
    forall w | w in s'.waits ensures WaitOk(s', w) { assert WaitOk(s, w); }
  }

  lemma YieldKeeps(s: State, s': State)
    requires Inv(s) && s' == s.(choosing := true)
    ensures Bound(s') && Relaxes(s, s')
  {
    forall w | w in s'.waits ensures WaitOk(s', w) { assert WaitOk(s, w); }
  }

  // A dead coroutine that nobody else waits for is freed
  lemma FreeKeeps(s: State, s': State, t: Id)
    requires Inv(s) && !s.choosing && t in s.cos && s.cos[t].status == Dead
    requires s' == s.(cos := s.cos - {t}, waits := s'.waits)
    requires s'.waits == s.waits - {s.current} && (s.current in s.waits ==> s.waits[s.current] == t)
    requires forall w :: w in s.waits && s.waits[w] == t ==> w == s.current
    ensures Bound(s') && Relaxes(s, s')
  {
    forall w | w in s'.waits ensures WaitOk(s', w) {
      assert WaitOk(s, w);
      assert s.waits[w] != t;
    }
  }

  lemma ReclaimKeeps(s: State, s': State)
    requires Inv(s) && Enabled(s, Reclaim) && s' == Do(s, Reclaim)
    ensures Bound(s') && Relaxes(s, s')
  {
    assert WaitOk(s, s.current);
    FreeKeeps(s, s', s.waits[s.current]);
  }

  lemma WaitForDeadKeeps(s: State, s': State, co: Id)
    requires Inv(s) && Enabled(s, Wait(co)) && Disciplined(s, Wait(co)) && s.cos[co].status == Dead
    requires s' == Do(s, Wait(co))
    ensures Bound(s') && Relaxes(s, s')
  {
    FreeKeeps(s, s', co);
  }

  lemma ChooseKeeps(s: State, s': State)
    requires Inv(s) && Chosen(s, s')
    ensures Bound(s') && Relaxes(s, s')
  {
    forall w | w in s'.waits ensures WaitOk(s', w) { assert WaitOk(s, w); }
  }

  lemma FinishKeeps(s: State, s': State)
    requires Inv(s) && !s.choosing && s.current != MAIN && s.current !in s.waits && Finished(s, s')
    ensures Bound(s') && Relaxes(s, s')
  {
    assert CoOk(s, s.current);
    forall w | w in s'.waits ensures WaitOk(s', w) { assert WaitOk(s, w); }
  }

  lemma WaitKeeps(s: State, s': State, co: Id)
    requires Inv(s) && !s.choosing && s.current !in s.waits && Waited(s, s', co) && s.cos[co].status != Dead
    requires Disciplined(s, Wait(co)) && co != MAIN
    ensures Bound(s') && NewWait(s, s', co)
  {
    forall w | w in s'.waits ensures WaitOk(s', w) {
      if w != s.current { assert WaitOk(s, w); }
    }
  }

  // A step that starts no wait
  lemma OtherStepKeeps(s: State, e: Event)
    requires Inv(s) && Enabled(s, e) && Disciplined(s, e) && (e.Wait? ==> s.cos[e.co].status == Dead)
    ensures Bound(Do(s, e)) && Relaxes(s, Do(s, e))
  {
    var s' := Do(s, e);
    match e
    case Start(id) => StartKeeps(s, s', id);
    case Yield => YieldKeeps(s, s');
    case Wait(co) => WaitForDeadKeeps(s, s', co);
    case Finish => DoFinished(s); FinishKeeps(s, s');
    case Choose(rounds) => DoChoose(s, rounds); ChooseKeeps(s, s');
    case Reclaim => ReclaimKeeps(s, s');
  }

  lemma StepKeepsInv(s: State, e: Event)
    requires Inv(s) && Enabled(s, e) && Disciplined(s, e)
    ensures Inv(Do(s, e))
  {
    InvIsSane(s);
    StepSane(s, e);
    if e.Wait? && s.cos[e.co].status != Dead {
      DoWait(s, e.co);
      WaitKeeps(s, Do(s, e), e.co);
      AllEndAfterWait(s, Do(s, e), e.co);
    } else {
      OtherStepKeeps(s, e);
      AllStillEnd(s, Do(s, e));
    }
  }

  lemma {:induction false} RunKeepsInv(ss: seq<State>, es: seq<Event>, i: nat)
    requires DisciplinedRun(ss, es) && i < |ss|
    ensures Inv(ss[i])
  {
    if i == 0 {
      InitEstablishes();
    } else {
      RunKeepsInv(ss, es, i - 1);
      assert Enabled(ss[i - 1], es[i - 1]) && Disciplined(ss[i - 1], es[i - 1]);
      StepKeepsInv(ss[i - 1], es[i - 1]);
    }
  }

  // ---- what every disciplined run keeps

  // A chain of waits stays in the ring
  lemma {:induction false} ChainInRing(s: State, c: Id, n: nat)
    requires Inv(s) && c in s.ring
    ensures Follow(s, c, n) in s.ring
    decreases n
  {
    if n > 0 && IsWaiting(s, c) {
      assert WaitOk(s, c);
      ChainInRing(s, s.waits[c], n - 1);
    }
  }

  /** Whenever co_yield has to choose, some coroutine of the ring can run: rand_select ends. */
  lemma RunnableExists(ss: seq<State>, es: seq<Event>, i: nat)
    requires DisciplinedRun(ss, es) && i < |ss|
    ensures HasRunnable(ss[i])
  {
    RunKeepsInv(ss, es, i);
    var s := ss[i];
    assert Ends(s, MAIN);
    var n: nat :| !IsWaiting(s, Follow(s, MAIN, n));
    assert MAIN in s.ring;
    ChainInRing(s, MAIN, n);
    var e := Follow(s, MAIN, n);
    assert e in s.cos && CoOk(s, e);
    var k :| 0 <= k < |s.ring| && s.ring[k] == e;
    assert Runnable(StatusOf(s, s.ring[k]));
  }

  /** What is chosen runs: it was new or running, and it is running now. */
  lemma ChosenRuns(ss: seq<State>, es: seq<Event>, i: nat)
    requires DisciplinedRun(ss, es) && i < |es| && es[i].Choose?
    ensures var s, s' := ss[i], ss[i + 1];
            s'.current in s.ring && Runnable(StatusOf(s, s'.current)) && StatusOf(s', s'.current) == Running
  {
    RunKeepsInv(ss, es, i + 1);
    var s, rounds := ss[i], es[i].rounds;
    assert Enabled(s, es[i]);
    var k :| 0 <= k < |s.ring| && Runnable(StatusOf(s, s.ring[k]));
    SelectRunnable(RingStatuses(s), rounds, k);
    assert s.ring[Select(RingStatuses(s), rounds)] in s.ring;
  }

  /** co_wait comes back only after its target has died, the target has not been freed before, and no coroutine is
      left waiting for it. */
  lemma WaitReturnsAfterDeath(ss: seq<State>, es: seq<Event>, i: nat)
    requires DisciplinedRun(ss, es) && i < |es| && es[i].Reclaim?
    ensures var s := ss[i];
            && s.current in s.waits && s.waits[s.current] in s.cos && s.cos[s.waits[s.current]].status == Dead
            && forall w :: w in s.waits && s.waits[w] == s.waits[s.current] ==> w == s.current
  {
    RunKeepsInv(ss, es, i);
    assert Enabled(ss[i], es[i]) && WaitOk(ss[i], ss[i].current);
  }

  /** A coroutine that waits is known to its target: the death of the target wakes it. */
  lemma DeathWakesWaiter(ss: seq<State>, es: seq<Event>, i: nat, w: Id)
    requires DisciplinedRun(ss, es) && i < |es| && es[i].Finish?
    requires w in ss[i].waits && StatusOf(ss[i], w) == Waiting
    ensures StatusOf(ss[i + 1], w) == Running <==> ss[i].waits[w] == ss[i].current
  {
    RunKeepsInv(ss, es, i);
    assert Enabled(ss[i], es[i]) && WaitOk(ss[i], w);
    assert ss[i + 1] == Do(ss[i], es[i]);
    assert CoOk(ss[i], ss[i].current);
  }

  // ---- a run that breaks the first rule only

  // One round over a ring of two or three coroutines whose first, main, waits
  lemma OneRound(l: seq<Status>)
    requires |l| == 2 || |l| == 3
    requires !Runnable(l[0]) && Runnable(l[1]) && (|l| == 3 ==> l[2] == New || !Runnable(l[2]))
    ensures Select(l, 1) == if |l| == 3 && l[2] == New then 2 else 1
  {
    StepOver(l, 0, 1);
    assert NextRunnable(l, 0) == 1;
    assert AfterRounds(l, 0, 1) == Succ(|l|, 1);
    if |l| == 3 && !Runnable(l[2]) { StepOver(l, 2, 1); }
  }

  lemma ChooseOne(s: State, c: Id)
    requires s.choosing && 2 <= |s.ring| <= 3 && !Runnable(StatusOf(s, s.ring[0])) && Runnable(StatusOf(s, s.ring[1]))
    requires |s.ring| == 3 ==> StatusOf(s, s.ring[2]) == New || !Runnable(StatusOf(s, s.ring[2]))
    requires c == s.ring[if |s.ring| == 3 && StatusOf(s, s.ring[2]) == New then 2 else 1]
    ensures Enabled(s, Choose(1)) && Do(s, Choose(1)).current == c
  {
    OneRound(RingStatuses(s));
  }

  // The states of the next run
  const TWO: seq<State> := [
    INIT,
    State(map[0 := Co(Running, None), 1 := Co(New, None)], [0, 1], 0, false, map[]),
    State(map[0 := Co(Running, None), 1 := Co(New, None), 2 := Co(New, None)], [0, 1, 2], 0, false, map[]),
    State(map[0 := Co(Waiting, None), 1 := Co(New, Some(0)), 2 := Co(New, None)], [0, 1, 2], 0, true, map[0 := 1]),
    State(map[0 := Co(Waiting, None), 1 := Co(New, Some(0)), 2 := Co(Running, None)], [0, 1, 2], 2, false, map[0 := 1]),
    State(map[0 := Co(Waiting, None), 1 := Co(New, Some(2)), 2 := Co(Waiting, None)],
          [0, 1, 2], 2, true, map[0 := 1, 2 := 1]),
    State(map[0 := Co(Waiting, None), 1 := Co(Running, Some(2)), 2 := Co(Waiting, None)],
          [0, 1, 2], 1, false, map[0 := 1, 2 := 1]),
    State(map[0 := Co(Waiting, None), 1 := Co(Dead, Some(2)), 2 := Co(Running, None)],
          [0, 2], 1, true, map[0 := 1, 2 := 1]),
    State(map[0 := Co(Waiting, None), 1 := Co(Dead, Some(2)), 2 := Co(Running, None)],
          [0, 2], 2, false, map[0 := 1, 2 := 1]),
    State(map[0 := Co(Waiting, None), 2 := Co(Running, None)], [0, 2], 2, false, map[0 := 1]),
    State(map[0 := Co(Waiting, None), 2 := Co(Dead, None)], [0], 2, true, map[0 := 1])]

  const TWO_EVENTS: seq<Event> :=
    [Start(1), Start(2), Wait(1), Choose(1), Wait(1), Choose(1), Finish, Choose(1), Reclaim, Finish]

  predicate TwoStep(i: nat)
    requires i < 10
  {
    Enabled(TWO[i], TWO_EVENTS[i]) && TWO[i + 1] == Do(TWO[i], TWO_EVENTS[i])
  }

  lemma FirstSteps()
    ensures TwoStep(0) && TwoStep(1) && TwoStep(2)
  {
  }

  lemma MiddleSteps()
    ensures TwoStep(3) && TwoStep(4)
  {
    ChooseOne(TWO[3], 2);
  }

  lemma NextSteps()
    ensures TwoStep(5) && TwoStep(6)
  {
    ChooseOne(TWO[5], 1);
    assert Unlinked([0, 1, 2], 1) == [0, 2] by { assert Unlinked([1, 2], 1) == [2]; }
  }

  lemma SeventhStep()
    ensures TwoStep(7)
  {
    ChooseOne(TWO[7], 2);
  }

  lemma LastSteps()
    ensures TwoStep(8) && TwoStep(9)
  {
    assert Unlinked([0, 2], 2) == [0] by { assert Unlinked([2], 2) == []; }
  }

  lemma AnyStep(i: nat)
    requires i < 10
    ensures TwoStep(i)
  {
    if i < 3 {
      FirstSteps();
    } else if i < 5 {
      MiddleSteps();
    } else if i < 7 {
      NextSteps();
    } else if i < 8 {
      SeventhStep();
    } else {
      LastSteps();
    }
  }

  /** Two coroutines that wait for the same one: the second takes the waiter slot, and the first is never woken. */
  lemma TwoWaitersGetStuck()
    ensures Run(TWO, TWO_EVENTS)
    ensures TWO[10].choosing && !HasRunnable(TWO[10])
  {
    forall i | 0 <= i < |TWO_EVENTS| ensures Enabled(TWO[i], TWO_EVENTS[i]) && TWO[i + 1] == Do(TWO[i], TWO_EVENTS[i]) {
      AnyStep(i);
    }
  }

  /** No wait of that run closes a circle. */
  lemma TwoWaitersNoCircle()
    ensures !LeadsBack(TWO[2], 1) && !LeadsBack(TWO[4], 1)
  {
  }
}
