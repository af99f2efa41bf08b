/** Which coroutine a co_yield may choose: rand_select makes 1 to 129 rounds over those that can run. */
module CoTurns {
  import opened Arithmetic
  import opened Options
  import opened CoSelect
  import opened Coroutine

  // ---- the choice by its rank

  /** How many coroutines of the ring can run. */
  function Count(l: seq<Status>): nat {
    if l == [] then 0 else Count(l[..|l| - 1]) + if Runnable(l[|l| - 1]) then 1 else 0
  }

  // Ahead counts the same
  lemma {:induction false} AheadIsCount(l: seq<Status>, p: nat, r: nat)
    requires p <= r < |l|
    ensures Ahead(l, p, r) == Count(l[..r]) - Count(l[..p])
    decreases r - p
  {
    if p < r {
      AheadIsCount(l, p + 1, r);
      assert l[..p + 1][..p] == l[..p];
    }
  }

  lemma {:induction false} CountGrows(l: seq<Status>, i: nat, j: nat)
    requires i <= j <= |l|
    ensures Count(l[..i]) <= Count(l[..j])
    ensures i < j && Runnable(l[i]) ==> Count(l[..i]) < Count(l[..j])
    decreases j
  {
    if i < j {
      assert l[..j][..j - 1] == l[..j - 1];
      CountGrows(l, i, j - 1);
    }
  }

  lemma {:induction false} PlaceOfRank(l: seq<Status>, n: nat, j: nat) returns (r: nat)
    requires n <= |l| && j < Count(l[..n])
    ensures r < n && Runnable(l[r]) && Count(l[..r]) == j
    decreases n
  {
    assert l[..n][..n - 1] == l[..n - 1];
    if j < Count(l[..n - 1]) { r := PlaceOfRank(l, n - 1, j); } else { r := n - 1; }
  }

  // Fewer rounds than coroutines that can run reach the one of that rank
  lemma SmallRounds(l: seq<Status>, k: nat) returns (r: nat)
    requires k < Count(l)
    ensures r < |l| && Runnable(l[r]) && Count(l[..r]) == k && Select(l, k) == r
  {
    assert l[..|l|] == l;
    r := PlaceOfRank(l, |l|, k);
    AheadIsCount(l, 0, r);
    RoundsReach(l, 0, r);
  }

  lemma {:induction false} RoundsAdd(l: seq<Status>, p: nat, a: nat, b: nat)
    requires p < |l|
    ensures AfterRounds(l, p, a + b) == AfterRounds(l, AfterRounds(l, p, a), b)
    decreases a
  {
    if a > 0 { RoundsAdd(l, Succ(|l|, NextRunnable(l, p)), a - 1, b); }
  }

  // After a round for each coroutine that can run the walk is where it was
  lemma OnceAround(l: seq<Status>, k: nat)
    requires Count(l) > 0
    ensures Select(l, Count(l) + k) == Select(l, k)
  {
    var n := Count(l);
    var z := SmallRounds(l, n - 1);
    assert l[..|l|] == l;
    NoneBehind(l, z);
    var y := LastRunnable(l, z, |l|);
    CountGrows(l, z, y);
    CountGrows(l, y, |l|);
    assert y == z;
    OneMoreRound(l, 0, n - 1);
    RoundsAdd(l, 0, n, k);
    SameWalk(l, AfterRounds(l, 0, n), k);
  }

  lemma NoneBehind(l: seq<Status>, z: nat)
    requires z < |l| && Runnable(l[z]) && Count(l[..z]) + 1 == Count(l[..|l|])
    ensures forall q :: z < q < |l| ==> !Runnable(l[q])
  {
    forall q | z < q < |l| ensures !Runnable(l[q]) {
      CountGrows(l, z, q);
      CountGrows(l, q, |l|);
    }
  }

  lemma SameWalk(l: seq<Status>, p: nat, k: nat)
    requires p < |l| && NextRunnable(l, p) == NextRunnable(l, 0)
    ensures NextRunnable(l, AfterRounds(l, p, k)) == NextRunnable(l, AfterRounds(l, 0, k))
  {
  }

  lemma LessOne(k: nat, n: nat)
    requires 0 < n <= k
    ensures k % n == (k - n) % n
  {
    var q, r := (k - n) / n, (k - n) % n;
    assert k == (q + 1) * n + r;
    DivModUnique(k, n, q + 1, r);
  }

  /** The number of rounds, modulo that of the coroutines that can run, is the rank of the one selected. */
  lemma {:induction false} SelectsRank(l: seq<Status>, k: nat)
    requires Count(l) > 0
    ensures Runnable(l[Select(l, k)]) && Count(l[..Select(l, k)]) == k % Count(l)
    decreases k
  {
    var n := Count(l);
    if k < n {
      var r := SmallRounds(l, k);
      DivModUnique(k, n, 0, k);
    } else {
      OnceAround(l, k - n);
      SelectsRank(l, k - n);
      LessOne(k, n);
    }
  }

  // Coroutines that can run differ in rank
  lemma RankIsPlace(l: seq<Status>, p: nat, q: nat)
    requires p < |l| && q < |l| && Runnable(l[p]) && Runnable(l[q]) && Count(l[..p]) == Count(l[..q])
    ensures p == q
  {
    if p < q { CountGrows(l, p, q); } else if q < p { CountGrows(l, q, p); }
  }

  lemma RankBelow(l: seq<Status>, p: nat)
    requires p < |l| && Runnable(l[p])
    ensures Count(l[..p]) < Count(l)
  {
    assert l[..|l|] == l;
    CountGrows(l, p, |l|);
  }

  // Rounds that select the coroutine at place p
  lemma SelectsIff(l: seq<Status>, p: nat, k: nat)
    requires p < |l| && Runnable(l[p])
    ensures Count(l) > 0 && (Select(l, k) == p <==> k % Count(l) == Count(l[..p]))
  {
    RankBelow(l, p);
    SelectsRank(l, k);
    if k % Count(l) == Count(l[..p]) { RankIsPlace(l, p, Select(l, k)); }
  }

  /** Some number of rounds from 1 to 129 selects the coroutine at place p exactly if at most 129 that can run are ahead
      of it or, if there is none ahead, at most 129 can run at all. */
  lemma ChosenIff(l: seq<Status>, p: nat)
    requires p < |l| && Runnable(l[p])
    ensures (exists k :: 1 <= k <= 129 && Select(l, k) == p) <==>
            if Count(l[..p]) > 0 then Count(l[..p]) <= 129 else Count(l) <= 129
  {
    var n, j := Count(l), Count(l[..p]);
    RankBelow(l, p);
    if j > 0 && j <= 129 {
      SelectsIff(l, p, j);
      DivModUnique(j, n, 0, j);
      assert Select(l, j) == p;
    } else if j == 0 && n <= 129 {
      SelectsIff(l, p, n);
      DivModUnique(n, n, 1, 0);
      assert Select(l, n) == p;
    }
    if k :| 1 <= k <= 129 && Select(l, k) == p {
      SelectsIff(l, p, k);
      ModBounds(k, n);
    }
  }

  lemma ModBounds(k: nat, n: nat)
    requires n > 0
    ensures k % n <= k && (k % n == 0 && k > 0 ==> k >= n)
  {
    if k < n { DivModUnique(k, n, 0, k); }
  }

  // ---- in the ring

  function PlaceIn(ring: seq<Id>, c: Id): (p: nat)
    requires c in ring
    ensures p < |ring| && ring[p] == c
  {
    if ring[0] == c then 0 else 1 + PlaceIn(ring[1..], c)
  }

  /** How many coroutines of the ring can run, and how many of those stand before c. */
  function CanRun(s: State): nat {
    Count(RingStatuses(s))
  }

  function CanRunBefore(s: State, c: Id): nat
    requires c in s.ring
  {
    Count(RingStatuses(s)[..PlaceIn(s.ring, c)])
  }

  lemma ChooseIs(s: State, rounds: nat)
    requires Enabled(s, Choose(rounds))
    ensures var k := Select(RingStatuses(s), rounds); k < |s.ring| && Do(s, Choose(rounds)).current == s.ring[k]
  {
  }

  lemma PlaceIsOnly(ring: seq<Id>, c: Id, p: nat)
    requires c in ring && p < |ring| && forall i, j :: 0 <= i < j < |ring| ==> ring[i] != ring[j]
    ensures ring[p] == c <==> p == PlaceIn(ring, c)
  {
  }

  /** A coroutine that can run may be chosen next exactly if at most 129 that can run stand before it or, if none does,
      at most 129 can run at all. */
  lemma MayBeChosenIff(s: State, c: Id)
    requires RingOk(s) && s.choosing && c in s.ring && Runnable(StatusOf(s, c))
    ensures (exists rounds :: Enabled(s, Choose(rounds)) && Do(s, Choose(rounds)).current == c) <==>
            if CanRunBefore(s, c) > 0 then CanRunBefore(s, c) <= 129 else CanRun(s) <= 129
  {
    var l, p := RingStatuses(s), PlaceIn(s.ring, c);
    ChosenIff(l, p);
    assert HasRunnable(s) by { assert Runnable(StatusOf(s, s.ring[p])); }
    if rounds :| Enabled(s, Choose(rounds)) && Do(s, Choose(rounds)).current == c {
      ChooseIs(s, rounds);
      PlaceIsOnly(s.ring, c, Select(l, rounds));
      assert 1 <= rounds <= 129 && Select(l, rounds) == p;
    }
    if k :| 1 <= k <= 129 && Select(l, k) == p {
      ChooseIs(s, k);
      assert Enabled(s, Choose(k)) && Do(s, Choose(k)).current == c;
    }
  }

  /** A new coroutine stands last in the ring, behind all those that can run, and the places before it stay as they
      are. */
  lemma NewcomerIsLast(ss: seq<State>, es: seq<Event>, i: nat)
    requires DisciplinedRun(ss, es) && i < |es| && es[i].Start?
    ensures var s, s', id := ss[i], ss[i + 1], es[i].id;
            && s'.ring[|s'.ring| - 1] == id && s'.ring[..|s'.ring| - 1] == s.ring && id !in s.ring
            && StatusOf(s', id) == New && (forall c :: c in s.ring ==> StatusOf(s', c) == StatusOf(s, c))
            && CanRunBefore(s', id) == CanRun(s)
  {
    RunKeepsInv(ss, es, i);
    var s, s', id := ss[i], ss[i + 1], es[i].id;
    assert Enabled(s, es[i]) && s' == Do(s, es[i]);
    assert id !in s.ring;
    var n := |s.ring|;
    PlaceOfLast(s'.ring, id);
    assert RingStatuses(s')[..n] == RingStatuses(s) by {
      forall k | 0 <= k < n ensures RingStatuses(s')[k] == RingStatuses(s)[k] { assert s.ring[k] in s.ring; }
    }
  }

  lemma {:induction false} PlaceOfLast(ring: seq<Id>, c: Id)
    requires ring != [] && ring[|ring| - 1] == c && c !in ring[..|ring| - 1]
    ensures PlaceIn(ring, c) == |ring| - 1
  {
    if |ring| > 1 {
      assert ring[0] in ring[..|ring| - 1];
      assert ring[1..][..|ring| - 2] == ring[..|ring| - 1][1..];
      PlaceOfLast(ring[1..], c);
    }
  }

  // ---- 130 coroutines

  /** Main has started n coroutines. */
  function Crowd(n: nat): (s: State)
    ensures !s.choosing && s.current == MAIN && s.waits == map[]
    ensures |s.ring| == n + 1 && s.ring[0] == MAIN && MAIN in s.cos && s.cos[MAIN].status == Running
    ensures (forall c :: c in s.cos ==> c <= n) && forall c :: c in s.ring ==> Runnable(StatusOf(s, c))
  {
    if n == 0 then INIT else
    var s := Crowd(n - 1);
    s.(cos := s.cos[n := Co(New, None)], ring := s.ring + [n])
  }

  lemma {:induction false} StartMany(n: nat) returns (ss: seq<State>, es: seq<Event>)
    ensures DisciplinedRun(ss, es) && |es| == n && ss[n] == Crowd(n)
  {
    if n == 0 {
      ss, es := [INIT], [];
    } else {
      ss, es := StartMany(n - 1);
      ss, es := Longer(ss, es, Start(n));
    }
  }

  lemma Longer(ss: seq<State>, es: seq<Event>, e: Event) returns (ss': seq<State>, es': seq<Event>)
    requires DisciplinedRun(ss, es) && Enabled(ss[|es|], e) && Disciplined(ss[|es|], e)
    ensures DisciplinedRun(ss', es') && ss' == ss + [Do(ss[|es|], e)] && es' == es + [e]
  {
    ss', es' := ss + [Do(ss[|es|], e)], es + [e];
  }

  lemma {:induction false} AllCanRun(l: seq<Status>)
    requires forall i :: 0 <= i < |l| ==> Runnable(l[i])
    ensures Count(l) == |l|
  {
    if l != [] { AllCanRun(l[..|l| - 1]); }
  }

  // While more than 129 can run and main is the first of them, it is not chosen
  lemma CrowdPassesOver(n: nat, s: State)
    requires n >= 129 && s == Crowd(n).(choosing := true) && RingOk(s)
    ensures MAIN in s.ring && StatusOf(s, MAIN) == Running
    ensures forall rounds :: Enabled(s, Choose(rounds)) ==> Do(s, Choose(rounds)).current != MAIN
  {
    assert s.ring[0] == MAIN;
    forall i | 0 <= i < |s.ring| ensures Runnable(RingStatuses(s)[i]) {
      assert s.ring[i] in Crowd(n).ring && StatusOf(s, s.ring[i]) == StatusOf(Crowd(n), s.ring[i]);
    }
    AllCanRun(RingStatuses(s));
    assert RingStatuses(s)[..0] == [];
    MayBeChosenIff(s, MAIN);
  }

  /** Main starts 129 coroutines or more and yields: no number of rounds comes back to main. */
  lemma MainIsPassedOver(n: nat) returns (ss: seq<State>, es: seq<Event>)
    requires n >= 129
    ensures DisciplinedRun(ss, es) && |es| == n + 1
    ensures var s := ss[n + 1];
            && s.choosing && MAIN in s.ring && StatusOf(s, MAIN) == Running
            && forall rounds :: Enabled(s, Choose(rounds)) ==> Do(s, Choose(rounds)).current != MAIN
  {
    ss, es := StartMany(n);
    ss, es := Longer(ss, es, Yield);
    RunKeepsInv(ss, es, n + 1);
    CrowdPassesOver(n, ss[n + 1]);
  }
}
