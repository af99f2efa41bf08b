/** What becomes of coroutines when callers break the rules of co_wait: exactly then somebody waits for ever. */
module CoStranded {
  import opened Options
  import opened CoSelect
  import opened Coroutine

  // ---- continuations

  ghost predicate Goes(s: State, e: Event, s': State) {
    Enabled(s, e) && Clean(s, e) && s' == Do(s, e)
  }

  /** es leads from s through the states ss, whatever rules of co_wait it breaks. */
  ghost predicate Continues(ss: seq<State>, es: seq<Event>, s: State) {
    |ss| == |es| + 1 && ss[0] == s && forall i {:trigger es[i]} :: 0 <= i < |es| ==> Goes(ss[i], es[i], ss[i + 1])
  }

  /** Coroutine w waits in every continuation of s. */
  ghost predicate Stranded(s: State, w: Id) {
    forall ss, es {:trigger Continues(ss, es, s)} :: Continues(ss, es, s) ==> StatusOf(ss[|ss| - 1], w) == Waiting
  }

  // ---- two ways to wait for ever

  // Nobody alive would wake v
  ghost predicate Lost(s: State, v: Id) {
    && v in s.cos && s.cos[v].status == Waiting
    && forall c {:trigger s.cos[c]} :: c in s.cos && s.cos[c].status != Dead ==> s.cos[c].waiter != Some(v)
  }

  predicate Caught(s: State, x: set<Id>, c: Id) {
    c in s.cos && s.cos[c].status == Waiting && c in s.waits && s.waits[c] in x
  }

  // Those of x wait for each other
  ghost predicate Closed(s: State, x: set<Id>) {
    forall c {:trigger Caught(s, x, c)} :: c in x ==> Caught(s, x, c)
  }

  // A dead coroutine is freed, and with that the wait of the running one is over, if it was waiting
  predicate Freed(s: State, s': State, t: Id) {
    && t in s.cos && s.cos[t].status == Dead
    && s' == s.(cos := s.cos - {t}, waits := s.waits - {s.current})
  }

  lemma DoFree(s: State, e: Event)
    requires Sane(s) && Enabled(s, e) && (e.Reclaim? || (e.Wait? && s.cos[e.co].status == Dead))
    ensures Freed(s, Do(s, e), if e.Wait? then e.co else s.waits[s.current])
  {
    if e.Wait? { assert s.waits - {s.current} == s.waits; } else { assert BackOk(s, s.current); }
  }

  lemma LostAtFinish(s: State, s': State, v: Id)
    requires Sane(s) && !s.choosing && Finished(s, s') && Lost(s, v)
    ensures Lost(s', v)
  {
    assert CoOk(s, s.current);
  }

  lemma LostStays(s: State, e: Event, v: Id)
    requires Sane(s) && Enabled(s, e) && Lost(s, v)
    ensures Lost(Do(s, e), v)
  {
    match e
    case Choose(rounds) => DoChoose(s, rounds);
    case Reclaim => DoFree(s, e);
    case Finish => DoFinished(s); LostAtFinish(s, Do(s, e), v);
    case Wait(co) => if s.cos[co].status == Dead { DoFree(s, e); } else { DoWait(s, co); }
    case Start(id) =>
    case Yield =>
  }

  lemma ClosedAtFinish(s: State, s': State, x: set<Id>)
    requires Sane(s) && !s.choosing && Finished(s, s') && Closed(s, x)
    ensures Closed(s', x)
  {
    assert CoOk(s, s.current) && !Caught(s, x, s.current);
    forall c | c in x ensures Caught(s', x, c) { assert Caught(s, x, c); }
  }

  lemma ClosedAtWait(s: State, s': State, co: Id, x: set<Id>)
    requires Sane(s) && !s.choosing && Waited(s, s', co) && Closed(s, x)
    ensures Closed(s', x)
  {
    assert !Caught(s, x, s.current);
    forall c | c in x ensures Caught(s', x, c) { assert Caught(s, x, c); }
  }

  lemma ClosedAtFree(s: State, s': State, t: Id, x: set<Id>)
    requires Sane(s) && !s.choosing && Freed(s, s', t) && Closed(s, x)
    ensures Closed(s', x)
  {
    assert !Caught(s, x, s.current) && !Caught(s, x, t);
    forall c | c in x ensures Caught(s', x, c) { assert Caught(s, x, c); }
  }

  lemma ClosedAtChoose(s: State, s': State, x: set<Id>)
    requires Sane(s) && Chosen(s, s') && Closed(s, x)
    ensures Closed(s', x)
  {
    assert !Caught(s, x, s'.current);
    forall c | c in x ensures Caught(s', x, c) { assert Caught(s, x, c); }
  }

  lemma ClosedAtStart(s: State, s': State, id: Id, x: set<Id>)
    requires Enabled(s, Start(id)) && s' == Do(s, Start(id)) && Closed(s, x)
    ensures Closed(s', x)
  {
    forall c | c in x ensures Caught(s', x, c) { assert Caught(s, x, c); }
  }

  lemma ClosedAtYield(s: State, x: set<Id>)
    requires Closed(s, x)
    ensures Closed(s.(choosing := true), x)
  {
    forall c | c in x ensures Caught(s.(choosing := true), x, c) { assert Caught(s, x, c); }
  }

  lemma ClosedStays(s: State, e: Event, x: set<Id>)
    requires Sane(s) && Enabled(s, e) && Closed(s, x)
    ensures Closed(Do(s, e), x)
  {
    var s' := Do(s, e);
    match e
    case Choose(rounds) => DoChoose(s, rounds); ClosedAtChoose(s, s', x);
    case Reclaim => DoFree(s, e); ClosedAtFree(s, s', s.waits[s.current], x);
    case Finish => DoFinished(s); ClosedAtFinish(s, s', x);
    case Wait(co) =>
      if s.cos[co].status == Dead {
        DoFree(s, e);
        ClosedAtFree(s, s', co, x);
      } else {
        DoWait(s, co);
        ClosedAtWait(s, s', co, x);
      }
    case Start(id) => ClosedAtStart(s, s', id, x);
    case Yield => ClosedAtYield(s, x);
  }

  lemma ContinuesStep(ss: seq<State>, es: seq<Event>, s: State, i: nat)
    requires Continues(ss, es, s) && i < |es|
    ensures Goes(ss[i], es[i], ss[i + 1])
  {
  }

  lemma {:induction false} LostForEver(s: State, v: Id, ss: seq<State>, es: seq<Event>, i: nat)
    requires Sane(s) && Lost(s, v) && Continues(ss, es, s) && i < |ss|
    ensures Sane(ss[i]) && Lost(ss[i], v)
  {
    if i > 0 {
      LostForEver(s, v, ss, es, i - 1);
      ContinuesStep(ss, es, s, i - 1);
      StepSane(ss[i - 1], es[i - 1]);
      LostStays(ss[i - 1], es[i - 1], v);
    }
  }

  lemma {:induction false} ClosedForEver(s: State, x: set<Id>, ss: seq<State>, es: seq<Event>, i: nat)
    requires Sane(s) && Closed(s, x) && Continues(ss, es, s) && i < |ss|
    ensures Sane(ss[i]) && Closed(ss[i], x)
  {
    if i > 0 {
      ClosedForEver(s, x, ss, es, i - 1);
      ContinuesStep(ss, es, s, i - 1);
      StepSane(ss[i - 1], es[i - 1]);
      ClosedStays(ss[i - 1], es[i - 1], x);
    }
  }

  lemma LostIsStranded(s: State, v: Id)
    requires Sane(s) && Lost(s, v)
    ensures Stranded(s, v)
  {
    forall ss, es | Continues(ss, es, s) ensures StatusOf(ss[|ss| - 1], v) == Waiting {
      LostForEver(s, v, ss, es, |ss| - 1);
    }
  }

  lemma ClosedIsStranded(s: State, x: set<Id>, w: Id)
    requires Sane(s) && Closed(s, x) && w in x
    ensures Stranded(s, w)
  {
    forall ss, es | Continues(ss, es, s) ensures StatusOf(ss[|ss| - 1], w) == Waiting {
      ClosedForEver(s, x, ss, es, |ss| - 1);
      assert Caught(ss[|ss| - 1], x, w);
    }
  }

  // ---- breaking a rule strands somebody

  /** A second wait for co takes the first waiter's slot, and nobody will wake the first. */
  lemma SecondWaiterStrandsFirst(s: State, co: Id, v: Id)
    requires Inv(s) && Enabled(s, Wait(co)) && StatusOf(s, co) != Dead && v in s.waits && s.waits[v] == co
    ensures Stranded(Do(s, Wait(co)), v)
  {
    var s' := Do(s, Wait(co));
    InvIsSane(s);
    DoWait(s, co);
    WaitSane(s, s', co);
    assert WaitOk(s, v);
    forall c | c in s'.cos && s'.cos[c].status != Dead ensures s'.cos[c].waiter != Some(v) { assert CoOk(s, c); }
    LostIsStranded(s', v);
  }

  // The chain of waits from x to the running coroutine
  lemma {:induction false} ChainTo(s: State, x: Id, n: nat) returns (l: set<Id>)
    requires Follow(s, x, n) == s.current
    ensures x in l && s.current in l
    ensures forall c {:trigger c in l} :: c in l && c != s.current ==> IsWaiting(s, c) && s.waits[c] in l
    decreases n
  {
    if x == s.current {
      l := {x};
    } else {
      l := ChainTo(s, s.waits[x], n - 1);
      l := l + {x};
    }
  }

  lemma CircleCloses(s: State, s': State, co: Id, l: set<Id>)
    requires Inv(s) && s.current !in s.waits && Waited(s, s', co) && co in l
    requires forall c {:trigger c in l} :: c in l && c != s.current ==> IsWaiting(s, c) && s.waits[c] in l
    ensures Closed(s', l)
  {
    forall c | c in l ensures Caught(s', l, c) {
      if c != s.current { assert IsWaiting(s, c) && WaitOk(s, c); }
    }
  }

  /** A wait that closes a circle strands all of the circle, the caller among them. */
  lemma CircleStrandsCaller(s: State, co: Id)
    requires Inv(s) && Enabled(s, Wait(co)) && StatusOf(s, co) != Dead && LeadsBack(s, co)
    ensures Stranded(Do(s, Wait(co)), s.current)
  {
    var s' := Do(s, Wait(co));
    InvIsSane(s);
    DoWait(s, co);
    WaitSane(s, s', co);
    var n: nat :| Follow(s, co, n) == s.current;
    var l := ChainTo(s, co, n);
    CircleCloses(s, s', co, l);
    ClosedIsStranded(s', l, s.current);
  }

  // ---- keeping the rules strands nobody

  lemma {:induction false} ChainAvoidsMain(s: State, c: Id, n: nat)
    requires Inv(s) && c != MAIN
    ensures Follow(s, c, n) != MAIN
    decreases n
  {
    if n > 0 && IsWaiting(s, c) {
      assert WaitOk(s, c);
      ChainAvoidsMain(s, s.waits[c], n - 1);
    }
  }

  // While somebody waits, a coroutine other than main can run
  lemma OtherCanRun(s: State, w: Id) returns (r: nat)
    requires Inv(s) && StatusOf(s, w) == Waiting
    ensures 0 < r < |s.ring| && Runnable(StatusOf(s, s.ring[r]))
  {
    assert CoOk(s, w) && WaitOk(s, w);
    var t := s.waits[w];
    assert Ends(s, t);
    var n: nat :| !IsWaiting(s, Follow(s, t, n));
    ChainAvoidsMain(s, t, n);
    ChainInRing(s, t, n);
    var e := Follow(s, t, n);
    assert e in s.cos && CoOk(s, e);
    r :| 0 <= r < |s.ring| && s.ring[r] == e;
  }

  // One round from the sentinel never comes back to it while another place can run
  lemma OneRoundMoves(l: seq<Status>, r: nat)
    requires 0 < r < |l| && Runnable(l[r])
    ensures 0 < Select(l, 1) < |l| && Runnable(l[Select(l, 1)])
  {
    var p := NextRunnable(l, 0);
    SelectRunnable(l, 1, r);
    assert AfterRounds(l, 0, 1) == Succ(|l|, p);
    if Runnable(l[0]) {
      assert p == 0;
      SearchFinds(l, 1, r, |l|, |l|);
    }
  }

  lemma FinishShrinks(s: State, w: Id)
    requires Inv(s) && !s.choosing && s.current !in s.waits && s.current != MAIN && StatusOf(s, w) == Waiting
    ensures Enabled(s, Finish)
    ensures var s' := Do(s, Finish);
            && Inv(s') && s'.choosing && |s'.ring| < |s.ring|
            && (StatusOf(s', w) == Waiting || StatusOf(s', w) == Running)
  {
    StepKeepsInv(s, Finish);
    UnlinkShrinks(s.ring, s.current);
  }

  lemma {:induction false} UnlinkShrinks(ring: seq<Id>, c: Id)
    requires c in ring
    ensures |Unlinked(ring, c)| == |ring| - 1
  {
    if ring[0] != c { UnlinkShrinks(ring[1..], c); }
  }

  // One more step after a run that ends in t
  lemma OneMore(s: State, ss: seq<State>, es: seq<Event>, t: State, e: Event)
    requires Continues(ss, es, s) && ss[|ss| - 1] == t && Enabled(t, e) && Clean(t, e)
    ensures Continues(ss + [Do(t, e)], es + [e], s) && (ss + [Do(t, e)])[|ss|] == Do(t, e)
  {
    var l, m := ss + [Do(t, e)], es + [e];
    forall i | 0 <= i < |m| ensures Goes(l[i], m[i], l[i + 1]) {
      if i < |es| { ContinuesStep(ss, es, s, i); }
    }
  }

  // Another coroutine than main is chosen
  lemma OtherChosen(s: State, w: Id)
    requires Inv(s) && s.choosing && StatusOf(s, w) == Waiting
    ensures Enabled(s, Choose(1))
    ensures var t := Do(s, Choose(1));
            Inv(t) && !t.choosing && t.current != MAIN && StatusOf(t, w) == Waiting && t.ring == s.ring
  {
    var r := OtherCanRun(s, w);
    OneRoundMoves(RingStatuses(s), r);
    DoChoose(s, 1);
    StepKeepsInv(s, Choose(1));
  }

  // It frees what it waited for, if it did
  lemma WaitIsOver(s: State, w: Id)
    requires Inv(s) && Enabled(s, Reclaim) && StatusOf(s, w) == Waiting
    ensures var t := Do(s, Reclaim);
            Inv(t) && !t.choosing && t.current == s.current && t.current !in t.waits && t.ring == s.ring
    ensures StatusOf(Do(s, Reclaim), w) == Waiting
  {
    assert WaitOk(s, s.current);
    StepKeepsInv(s, Reclaim);
  }

  // The coroutine that is chosen frees what it waited for, if it did, and finishes
  lemma LetOneFinish(s: State, w: Id) returns (ss: seq<State>, es: seq<Event>, s': State)
    requires Inv(s) && s.choosing && StatusOf(s, w) == Waiting
    ensures Continues(ss, es, s) && ss[|ss| - 1] == s'
    ensures Inv(s') && s'.choosing && |s'.ring| < |s.ring|
    ensures StatusOf(s', w) == Waiting || StatusOf(s', w) == Running
  {
    OtherChosen(s, w);
    s' := Do(s, Choose(1));
    OneMore(s, [s], [], s, Choose(1));
    ss, es := [s] + [s'], [] + [Choose(1)];
    if s'.current in s'.waits {
      WaitIsOver(s', w);
      OneMore(s, ss, es, s', Reclaim);
      s' := Do(s', Reclaim);
      ss, es := ss + [s'], es + [Reclaim];
    }
    FinishShrinks(s', w);
    OneMore(s, ss, es, s', Finish);
    s' := Do(s', Finish);
    ss, es := ss + [s'], es + [Finish];
  }

  lemma Joined(s: State, ss: seq<State>, es: seq<Event>, t: State, tt: seq<State>, fs: seq<Event>)
    requires Continues(ss, es, s) && ss[|ss| - 1] == t && Continues(tt, fs, t)
    ensures Continues(ss + tt[1..], es + fs, s) && (ss + tt[1..])[|ss| + |tt| - 2] == tt[|tt| - 1]
  {
    var l, m := ss + tt[1..], es + fs;
    forall i | 0 <= i < |m| ensures Goes(l[i], m[i], l[i + 1]) {
      if i < |es| {
        ContinuesStep(ss, es, s, i);
        assert l[i] == ss[i] && l[i + 1] == ss[i + 1] && m[i] == es[i];
      } else {
        var j := i - |es|;
        ContinuesStep(tt, fs, t, j);
        assert l[i] == tt[j] && l[i + 1] == tt[j + 1] && m[i] == fs[j];
      }
    }
  }

  /** While the rules are kept every waiting coroutine can come back: let everyone who gets to run finish. */
  lemma {:induction false} CanWake(s: State, w: Id) returns (ss: seq<State>, es: seq<Event>)
    requires Inv(s) && s.choosing && StatusOf(s, w) == Waiting
    ensures Continues(ss, es, s) && StatusOf(ss[|ss| - 1], w) == Running
    decreases |s.ring|
  {
    var t: State;
    ss, es, t := LetOneFinish(s, w);
    if StatusOf(t, w) == Waiting {
      var tt, fs := CanWake(t, w);
      Joined(s, ss, es, t, tt, fs);
      ss, es := ss + tt[1..], es + fs;
    }
  }

  // ---- the exact condition

  /** A wait for a coroutine that is not dead strands somebody exactly when it breaks a rule. */
  lemma StrandsIff(s: State, co: Id)
    requires Inv(s) && Enabled(s, Wait(co)) && StatusOf(s, co) != Dead
    ensures (exists w :: Stranded(Do(s, Wait(co)), w)) <==> !Disciplined(s, Wait(co))
  {
    var s' := Do(s, Wait(co));
    if Disciplined(s, Wait(co)) {
      StepKeepsInv(s, Wait(co));
      forall w: Id ensures !Stranded(s', w) {
        if StatusOf(s', w) == Waiting {
          var ss, es := CanWake(s', w);
        } else {
          assert Continues([s'], [], s');
        }
      }
    } else if co in s.waits.Values {
      var v :| v in s.waits && s.waits[v] == co;
      SecondWaiterStrandsFirst(s, co, v);
    } else {
      if co == s.current { assert Follow(s, co, 0) == s.current; }
      CircleStrandsCaller(s, co);
    }
  }

  /** A wait for a dead coroutine frees memory that nobody else will free exactly when it breaks no rule. */
  lemma FreesOnceIff(s: State, co: Id)
    requires Inv(s) && Enabled(s, Wait(co)) && StatusOf(s, co) == Dead
    ensures Clean(s, Wait(co)) <==> Disciplined(s, Wait(co))
  {
    if co in s.waits.Values {
      var v :| v in s.waits && s.waits[v] == co;
      assert WaitOk(s, v);
    }
  }

  // ---- a circle that callers can form

  // One round over main, which can run, and two more
  lemma RoundFromMain(l: seq<Status>)
    requires |l| == 3 && Runnable(l[0])
    ensures Select(l, 1) == if Runnable(l[1]) then 1 else if Runnable(l[2]) then 2 else 0
  {
    assert NextRunnable(l, 0) == 0 && AfterRounds(l, 0, 1) == 1;
    if !Runnable(l[1]) {
      StepOver(l, 1, 0);
      if !Runnable(l[2]) { StepOver(l, 2, 0); }
    }
  }

  lemma ChooseFromMain(s: State)
    requires s.choosing && |s.ring| == 3 && Runnable(StatusOf(s, s.ring[0]))
    ensures Enabled(s, Choose(1))
    ensures Do(s, Choose(1)).current ==
            s.ring[if Runnable(StatusOf(s, s.ring[1])) then 1 else if Runnable(StatusOf(s, s.ring[2])) then 2 else 0]
  {
    RoundFromMain(RingStatuses(s));
  }

  // The states of the next run: main starts 1 and 2 and yields, 1 waits for 2, and 2 for 1
  const CIRCLE: seq<State> := [
    INIT,
    State(map[0 := Co(Running, None), 1 := Co(New, None)], [0, 1], 0, false, map[]),
    State(map[0 := Co(Running, None), 1 := Co(New, None), 2 := Co(New, None)], [0, 1, 2], 0, false, map[]),
    State(map[0 := Co(Running, None), 1 := Co(New, None), 2 := Co(New, None)], [0, 1, 2], 0, true, map[]),
    State(map[0 := Co(Running, None), 1 := Co(Running, None), 2 := Co(New, None)], [0, 1, 2], 1, false, map[]),
    State(map[0 := Co(Running, None), 1 := Co(Waiting, None), 2 := Co(New, Some(1))], [0, 1, 2], 1, true, map[1 := 2]),
    State(map[0 := Co(Running, None), 1 := Co(Waiting, None), 2 := Co(Running, Some(1))],
          [0, 1, 2], 2, false, map[1 := 2]),
    State(map[0 := Co(Running, None), 1 := Co(Waiting, Some(2)), 2 := Co(Waiting, Some(1))],
          [0, 1, 2], 2, true, map[1 := 2, 2 := 1])]

  const CIRCLE_EVENTS: seq<Event> := [Start(1), Start(2), Yield, Choose(1), Wait(2), Choose(1), Wait(1)]

  ghost predicate CircleStep(i: nat)
    requires i < 7
  {
    && Enabled(CIRCLE[i], CIRCLE_EVENTS[i]) && Clean(CIRCLE[i], CIRCLE_EVENTS[i])
    && CIRCLE[i + 1] == Do(CIRCLE[i], CIRCLE_EVENTS[i])
  }

  lemma CircleStarts()
    ensures CircleStep(0) && CircleStep(1) && CircleStep(2)
  {
  }

  lemma CircleChoosesOne()
    ensures CircleStep(3)
  {
    ChooseFromMain(CIRCLE[3]);
  }

  lemma CircleChoosesTwo()
    ensures CircleStep(5)
  {
    ChooseFromMain(CIRCLE[5]);
  }

  lemma CircleWaits()
    ensures CircleStep(4) && CircleStep(6)
  {
  }

  lemma AnyCircleStep(i: nat)
    requires i < 7
    ensures CircleStep(i)
  {
    if i < 3 {
      CircleStarts();
    } else if i == 3 {
      CircleChoosesOne();
    } else if i == 5 {
      CircleChoosesTwo();
    } else {
      CircleWaits();
    }
  }

  lemma {:induction false} NoChain(s: State, n: nat)
    requires !IsWaiting(s, 2)
    ensures Follow(s, 2, n) == 2
  {
  }

  lemma FirstWaitIsFine(i: nat)
    requires i < 6
    ensures Disciplined(CIRCLE[i], CIRCLE_EVENTS[i])
  {
    forall n: nat ensures Follow(CIRCLE[4], 2, n) != 1 { NoChain(CIRCLE[4], n); }
  }

  lemma CircleRuns()
    ensures Run(CIRCLE, CIRCLE_EVENTS)
  {
    forall i | 0 <= i < |CIRCLE_EVENTS|
      ensures Enabled(CIRCLE[i], CIRCLE_EVENTS[i]) && CIRCLE[i + 1] == Do(CIRCLE[i], CIRCLE_EVENTS[i])
    {
      AnyCircleStep(i);
    }
  }

  lemma {:induction false} CircleIsSane(i: nat)
    requires i <= 7
    ensures Sane(CIRCLE[i])
  {
    if i == 0 {
      InitEstablishes();
      InvIsSane(INIT);
    } else {
      CircleIsSane(i - 1);
      AnyCircleStep(i - 1);
      StepSane(CIRCLE[i - 1], CIRCLE_EVENTS[i - 1]);
    }
  }

  lemma CircleIsClosed()
    ensures Closed(CIRCLE[7], {1, 2})
  {
    assert Caught(CIRCLE[7], {1, 2}, 1) && Caught(CIRCLE[7], {1, 2}, 2);
  }

  /** Coroutines 1 and 2 wait for each other.  Only the last wait breaks a rule, main can still run, and neither of
      the two ever comes back. */
  lemma CircleGetsStuck()
    ensures Run(CIRCLE, CIRCLE_EVENTS)
    ensures forall i :: 0 <= i < 6 ==> Disciplined(CIRCLE[i], CIRCLE_EVENTS[i])
    ensures 1 !in CIRCLE[6].waits.Values && LeadsBack(CIRCLE[6], 1)
    ensures HasRunnable(CIRCLE[7]) && Stranded(CIRCLE[7], 1) && Stranded(CIRCLE[7], 2)
  {
    CircleRuns();
    forall i | 0 <= i < 6 ensures Disciplined(CIRCLE[i], CIRCLE_EVENTS[i]) { FirstWaitIsFine(i); }
    assert Follow(CIRCLE[6], 1, 1) == 2;
    CircleIsSane(7);
    CircleIsClosed();
    ClosedIsStranded(CIRCLE[7], {1, 2}, 1);
    ClosedIsStranded(CIRCLE[7], {1, 2}, 2);
    assert Runnable(StatusOf(CIRCLE[7], CIRCLE[7].ring[0]));
  }
}
