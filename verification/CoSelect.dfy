/** rand_select of co.c: walking the ring of coroutines for a number of rounds to one that can run. */
module CoSelect {
  import opened Ring

  datatype Status = New | Running | Waiting | Dead

  predicate Runnable(s: Status) {
    s == New || s == Running
  }

  // ---- the walk over the statuses in ring order, starting from the sentinel at place 0

  function Succ(n: nat, p: nat): (q: nat)
    requires p < n
    ensures q < n
  {
    if p + 1 == n then 0 else p + 1
  }

  // Steps forward from p to r around a circle of n
  function Distance(n: nat, p: nat, r: nat): nat
    requires p < n && r < n
  {
    if p <= r then r - p else n - p + r
  }

  function Search(l: seq<Status>, p: nat, fuel: nat): (q: nat)
    requires p < |l|
    ensures q < |l|
    decreases fuel
  {
    if fuel == 0 || Runnable(l[p]) then p else Search(l, Succ(|l|, p), fuel - 1)
  }

  /** The first place from p on, going round, whose coroutine can run. */
  function NextRunnable(l: seq<Status>, p: nat): (q: nat)
    requires p < |l|
    ensures q < |l|
  {
    Search(l, p, |l|)
  }

  /** Where the walk stands after passing k coroutines that can run. */
  function AfterRounds(l: seq<Status>, p: nat, k: nat): (q: nat)
    requires p < |l|
    ensures q < |l|
    decreases k
  {
    if k == 0 then p else AfterRounds(l, Succ(|l|, NextRunnable(l, p)), k - 1)
  }

  function Select(l: seq<Status>, rounds: nat): nat
    requires |l| > 0
  {
    NextRunnable(l, AfterRounds(l, 0, rounds))
  }

  lemma {:induction false} SearchFinds(l: seq<Status>, p: nat, r: nat, fuel: nat, more: nat)
    requires p < |l| && r < |l| && Runnable(l[r]) && Distance(|l|, p, r) <= fuel <= more
    ensures Runnable(l[Search(l, p, fuel)]) && Search(l, p, fuel) == Search(l, p, more)
    ensures Distance(|l|, p, Search(l, p, fuel)) <= Distance(|l|, p, r)
    decreases fuel
  {
    if fuel > 0 && !Runnable(l[p]) { SearchFinds(l, Succ(|l|, p), r, fuel - 1, more - 1); }
  }

  /** If any coroutine can run, one that can run is selected, whatever the number of rounds. */
  lemma SelectRunnable(l: seq<Status>, rounds: nat, r: nat)
    requires r < |l| && Runnable(l[r])
    ensures Select(l, rounds) < |l| && Runnable(l[Select(l, rounds)])
  {
    SearchFinds(l, AfterRounds(l, 0, rounds), r, |l|, |l|);
  }

  lemma StepOver(l: seq<Status>, p: nat, r: nat)
    requires p < |l| && r < |l| && Runnable(l[r]) && !Runnable(l[p])
    ensures NextRunnable(l, Succ(|l|, p)) == NextRunnable(l, p)
  {
    SearchFinds(l, Succ(|l|, p), r, |l| - 1, |l|);
  }

  // One step of the walk when k rounds are left
  lemma WalkStep(l: seq<Status>, p: nat, r: nat, k: nat)
    requires p < |l| && r < |l| && Runnable(l[r])
    ensures k > 0 ==> AfterRounds(l, Succ(|l|, p), if Runnable(l[p]) then k - 1 else k) == AfterRounds(l, p, k)
    ensures !Runnable(l[p]) ==>
              && NextRunnable(l, Succ(|l|, p)) == NextRunnable(l, p)
              && 0 <= Distance(|l|, Succ(|l|, p), r) < Distance(|l|, p, r)
  {
    if !Runnable(l[p]) { StepOver(l, p, r); }
  }

  // The number of coroutines before place r that can run
  function Ahead(l: seq<Status>, p: nat, r: nat): nat
    requires p <= r < |l|
    decreases r - p
  {
    if p == r then 0 else (if Runnable(l[p]) then 1 else 0) + Ahead(l, p + 1, r)
  }

  lemma {:induction false} RoundsReach(l: seq<Status>, p: nat, r: nat)
    requires p <= r < |l| && Runnable(l[r])
    ensures NextRunnable(l, AfterRounds(l, p, Ahead(l, p, r))) == r
    decreases r - p
  {
    if p < r {
      RoundsReach(l, p + 1, r);
      if !Runnable(l[p]) {
        StepOver(l, p, r);
      }
    }
  }

  lemma {:induction false} OneMoreRound(l: seq<Status>, p: nat, k: nat)
    requires p < |l|
    ensures AfterRounds(l, p, k + 1) == Succ(|l|, NextRunnable(l, AfterRounds(l, p, k)))
    decreases k
  {
    if k > 0 { OneMoreRound(l, Succ(|l|, NextRunnable(l, p)), k - 1); }
  }

  // The last place whose coroutine can run, and the walk from behind it
  lemma {:induction false} LastRunnable(l: seq<Status>, r: nat, p: nat) returns (z: nat)
    requires r < p <= |l| && Runnable(l[r]) && forall q :: p <= q < |l| ==> !Runnable(l[q])
    ensures r <= z < p && Runnable(l[z]) && NextRunnable(l, Succ(|l|, z)) == NextRunnable(l, 0)
    decreases p
  {
    if Runnable(l[p - 1]) {
      z := p - 1;
      WrapAround(l, r, p);
    } else {
      z := LastRunnable(l, r, p - 1);
    }
  }

  lemma {:induction false} WrapAround(l: seq<Status>, r: nat, p: nat)
    requires r < p <= |l| && Runnable(l[r]) && forall q :: p <= q < |l| ==> !Runnable(l[q])
    ensures NextRunnable(l, if p == |l| then 0 else p) == NextRunnable(l, 0)
    decreases |l| - p
  {
    if p < |l| {
      WrapAround(l, r, p + 1);
      StepOver(l, p, r);
    }
  }

  /** No coroutine that can run is passed over for good: some positive number of rounds selects it. */
  lemma EveryRunnableHasATurn(l: seq<Status>, r: nat) returns (rounds: nat)
    requires r < |l| && Runnable(l[r])
    ensures 1 <= rounds <= |l| && Select(l, rounds) == r
  {
    rounds := Ahead(l, 0, r);
    RoundsReach(l, 0, r);
    AheadBelow(l, 0, r);
    if rounds == 0 {
      var z := LastRunnable(l, r, |l|);
      RoundsReach(l, 0, z);
      AheadBelow(l, 0, z);
      rounds := Ahead(l, 0, z) + 1;
      OneMoreRound(l, 0, Ahead(l, 0, z));
    }
  }

  lemma {:induction false} AheadBelow(l: seq<Status>, p: nat, r: nat)
    requires p <= r < |l|
    ensures Ahead(l, p, r) <= r - p
    decreases r - p
  {
    if p < r { AheadBelow(l, p + 1, r); }
  }

  // ---- the ring in memory; the sentinel is the main coroutine and has a status of its own

  ghost function Place(ring: Ring<Status>, p: nat): Link<Status>
    reads ring
  {
    if 0 < p <= |ring.items| then ring.items[p - 1] else ring.head
  }

  ghost function Statuses(ring: Ring<Status>): (l: seq<Status>)
    reads ring, ring.head, ring.items
    ensures |l| == |ring.items| + 1 && forall p {:trigger l[p]} :: 0 <= p < |l| ==> l[p] == Place(ring, p).data
  {
    [ring.head.data] + seq(|ring.items|, i requires 0 <= i < |ring.items| reads ring, ring.items => ring.items[i].data)
  }

  lemma NextPlace(ring: Ring<Status>, p: nat)
    requires ring.Valid() && p <= |ring.items|
    ensures Place(ring, p).next == Place(ring, Succ(|ring.items| + 1, p))
  {
    if p > 0 { assert ring.items[p - 1].next == ring.Item(p); }
  }

  // What one step of the walk in memory does, when k rounds are left
  lemma WalkOn(ring: Ring<Status>, l: seq<Status>, p: nat, r: nat, k: nat)
    requires ring.Valid() && l == Statuses(ring) && p < |l| && r < |l| && Runnable(l[r])
    ensures Place(ring, p).data == l[p] && Place(ring, p).next == Place(ring, Succ(|l|, p))
    ensures k > 0 ==> AfterRounds(l, Succ(|l|, p), if Runnable(l[p]) then k - 1 else k) == AfterRounds(l, p, k)
    ensures !Runnable(l[p]) ==>
              && NextRunnable(l, Succ(|l|, p)) == NextRunnable(l, p)
              && 0 <= Distance(|l|, Succ(|l|, p), r) < Distance(|l|, p, r)
  {
    NextPlace(ring, p);
    WalkStep(l, p, r, k);
  }

  /** rand_select: despite its i-- the first loop ends when any coroutine can run, and the choice is Select's. */
  method RandSelect(ring: Ring<Status>, roundMax: nat, ghost r: nat) returns (selected: Link<Status>)
    requires ring.Valid() && r < |Statuses(ring)| && Runnable(Statuses(ring)[r])
    ensures selected == Place(ring, Select(Statuses(ring), roundMax)) && Runnable(selected.data)
  {
    ghost var l := Statuses(ring);
    ghost var p: nat := 0;
    selected := ring.head;
    var i: int := 0;
    while i < roundMax
      invariant 0 <= i <= roundMax && p < |l| && selected == Place(ring, p)
      invariant AfterRounds(l, p, roundMax - i) == AfterRounds(l, 0, roundMax)
      decreases roundMax - i, Distance(|l|, p, r)
    {
      WalkOn(ring, l, p, r, roundMax - i);
      if selected.data != New && selected.data != Running {
        i := i - 1;
      }
      selected := selected.next;
      p := Succ(|l|, p);
      i := i + 1;
    }
    selected := FirstRunnable(ring, selected, l, p, r);
  }

  // Lines 180-184
  method FirstRunnable(ring: Ring<Status>, from: Link<Status>, ghost l: seq<Status>, ghost p0: nat, ghost r: nat)
    returns (selected: Link<Status>)
    requires ring.Valid() && l == Statuses(ring) && p0 < |l| && from == Place(ring, p0) && r < |l| && Runnable(l[r])
    ensures selected == Place(ring, NextRunnable(l, p0)) && Runnable(selected.data)
  {
    selected := from;
    ghost var p: nat := p0;
    while selected.data != New && selected.data != Running
      invariant p < |l| && selected == Place(ring, p) && NextRunnable(l, p) == NextRunnable(l, p0)
      decreases Distance(|l|, p, r)
    {
      WalkOn(ring, l, p, r, 0);
      selected := selected.next;
      p := Succ(|l|, p);
    }
    assert l[p] == selected.data;
  }
}
