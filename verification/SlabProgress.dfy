/** When kalloc may answer NULL: only if the heap has no room for another page and no page it looked at had a block. */
module SlabProgress {
  import opened Options
  import opened Words
  import opened SlabPage
  import opened SlabHeap

  // ---- runs that need not start at boot

  /** Steps of any CPUs and callers, in any order: event i leads from heap i to heap i + 1. */
  datatype Run = Run(heaps: seq<Heap>, events: seq<Event>)

  ghost predicate IsRun(g: Layout, r: Run) {
    && |r.heaps| == |r.events| + 1
    && forall i {:trigger IsStep(g, r, i)} :: 0 <= i < |r.events| ==> IsStep(g, r, i)
  }

  predicate IsStep(g: Layout, r: Run, i: nat)
    requires i < |r.events| && i + 1 < |r.heaps|
  {
    var h, e := r.heaps[i], r.events[i];
    Enabled(h, e) && Safe(g, h, e) && r.heaps[i + 1] == Do(g, h, e)
  }

  predicate Own(e: Event, c: nat) {
    !e.Free? && e.c == c
  }

  predicate Busy(h: Heap, c: nat) {
    c < |h.cpus| && !h.cpus[c].Idle?
  }

  /** The first step is the request of c for n bytes, and c works on it until step m at least. */
  ghost predicate Requests(g: Layout, r: Run, c: nat, n: Request, m: nat) {
    && IsRun(g, r) && 1 <= m <= |r.events| && r.events[0] == Alloc(c, n)
    && forall i :: 1 <= i < m ==> Busy(r.heaps[i], c)
  }

  /** Page k has a block for a request of n bytes, and is_full does not hide it. */
  ghost predicate Offers(h: Heap, k: nat, n: Request) {
    Initialised(h, k)
    && var p := h.pages[k].value;
       p.size == UpPow2(n) && !p.full && exists b :: 0 <= b < Blocks(p.size) && IsFree(p, b)
  }

  // Step i is a look of c at page k, which has nothing to offer
  ghost predicate PassesAt(r: Run, c: nat, n: Request, k: nat, i: nat) {
    && i < |r.events| && i < |r.heaps| && r.events[i].Visit? && r.events[i].c == c
    && c < |r.heaps[i].cpus| && r.heaps[i].cpus[c] == Walking(n, k) && !Offers(r.heaps[i], k, n)
  }

  ghost predicate Passed(r: Run, c: nat, n: Request, k: nat, m: nat) {
    exists i :: 0 <= i < m && PassesAt(r, c, n, k, i)
  }

  /** last_page_addr >= _heap.end - PAGE_SZ */
  predicate NoRoom(g: Layout, h: Heap) {
    g.start + (|h.pages| + 1) * PAGE_SZ >= g.end
  }

  // ---- single steps

  // Whatever the others do, c stays where it is
  lemma OtherStep(g: Layout, h: Heap, e: Event, c: nat)
    requires Inv(g, h) && Enabled(h, e) && Safe(g, h, e) && c < g.cpus && !Own(e, c)
    ensures Do(g, h, e).cpus[c] == h.cpus[c] && Do(g, h, e).lists[c] == h.lists[c]
  {
  }

  lemma TakesIffFree(p: Page, x: bool)
    requires Valid(p) && !p.full
    ensures Take(p, x).1.Some? <==> exists b :: 0 <= b < Blocks(p.size) && IsFree(p, b)
  {
    TakeCorrect(p, x);
    var (p', got) := Take(p, x);
    if got.Some? { assert IsFree(p, 64 * got.value.0 + got.value.1); }
  }

  lemma OffersIff(g: Layout, h: Heap, k: nat, n: Request, p: Page, x: bool)
    requires k < |h.pages| == |h.owner| && h.pages[k] == Some(p) && PageOk(g, h, k)
    ensures Offers(h, k, n) <==> p.size == UpPow2(n) && !p.full && Take(p, x).1.Some?
  {
    if !p.full { TakesIffFree(p, x); }
  }

  // A look at a page takes a block exactly if it has one to offer, and goes on to the next page otherwise
  lemma VisitOutcome(g: Layout, h: Heap, c: nat, x: bool, n: Request, k: nat)
    requires Inv(g, h) && Enabled(h, Visit(c, x)) && Safe(g, h, Visit(c, x)) && h.cpus[c] == Walking(n, k)
    ensures Returned(g, h, Visit(c, x)).Some? <==> Offers(h, k, n)
    ensures if Offers(h, k, n) then DoVisit(g, h, c, x).cpus[c] == Idle
            else DoVisit(g, h, c, x) == h.(cpus := h.cpus[c := NextLook(h, n, k)])
  {
    assert PageOk(g, h, k);
    OffersIff(g, h, k, n, h.pages[k].value, x);
  }

  function NextLook(h: Heap, n: Request, k: nat): Cpu
    requires k < |h.next|
  {
    if h.next[k].None? then Growing(n) else Walking(n, h.next[k].value)
  }

  // The next page is the next on the list
  lemma NextOnList(g: Layout, h: Heap, c: nat, n: Request, i: nat)
    requires Inv(g, h) && c < g.cpus && i < |h.lists[c]|
    ensures var l := h.lists[c];
            l[i] < |h.next| && NextLook(h, n, l[i]) == if i + 1 < |l| then Walking(n, l[i + 1]) else Growing(n)
  {
    assert ListOk(h, c);
    var l := h.lists[c];
    assert h.next[l[i]] == if i + 1 < |l| then Some(l[i + 1]) else None;
  }

  /** A request that has reached the end of the list claims a page exactly if there is room. */
  lemma GrowOutcome(g: Layout, h: Heap, c: nat)
    requires Inv(g, h) && Enabled(h, Grow(c)) && Safe(g, h, Grow(c))
    ensures Do(g, h, Grow(c)).cpus[c] ==
            if NoRoom(g, h) then Idle else Linking(h.cpus[c].request, |h.pages|)
  {
  }

  lemma FirstLook(g: Layout, h: Heap, c: nat)
    requires Inv(g, h) && c < g.cpus
    ensures |h.lists[c]| > 0 && h.lists[c][0] == c
  {
    assert ListOk(h, c);
  }

  // ---- a request in any run

  lemma {:induction false} RunKeepsInv(g: Layout, r: Run, m: nat)
    requires IsRun(g, r) && Inv(g, r.heaps[0]) && m <= |r.events|
    ensures Inv(g, r.heaps[m])
  {
    if m > 0 {
      RunKeepsInv(g, r, m - 1);
      assert IsStep(g, r, m - 1);
      StepKeepsInv(g, r.heaps[m - 1], r.events[m - 1]);
    }
  }

  /** How many of the first m steps are c's own. */
  function OwnSteps(r: Run, c: nat, m: nat): (k: nat)
    requires m <= |r.events|
    ensures k <= m
  {
    if m == 0 then 0 else OwnSteps(r, c, m - 1) + if Own(r.events[m - 1], c) then 1 else 0
  }

  // The work on a request has passed i pages of the list and k of its own steps
  ghost predicate Stage(l: seq<nat>, r: Run, c: nat, n: Request, m: nat, i: nat, k: nat)
    requires m < |r.heaps|
  {
    var h := r.heaps[m];
    && c < |h.cpus| && c < |h.lists| && h.lists[c] == l && i <= |l|
    && (if i < |l| then h.cpus[c] == Walking(n, l[i]) && k == i + 1
        else (h.cpus[c] == Growing(n) && k == i + 1) || (h.cpus[c].Linking? && h.cpus[c].request == n && k == i + 2))
    && forall q {:trigger l[q]} :: 0 <= q < i ==> Passed(r, c, n, l[q], m)
  }

  lemma PassedStays(r: Run, c: nat, n: Request, k: nat, m: nat)
    requires Passed(r, c, n, k, m)
    ensures Passed(r, c, n, k, m + 1)
  {
    var i :| 0 <= i < m && PassesAt(r, c, n, k, i);
  }

  lemma PassedOnes(l: seq<nat>, r: Run, c: nat, n: Request, m: nat, i: nat)
    requires i <= |l| && forall q {:trigger l[q]} :: 0 <= q < i ==> Passed(r, c, n, l[q], m)
    ensures forall q {:trigger l[q]} :: 0 <= q < i ==> Passed(r, c, n, l[q], m + 1)
  {
    forall q {:trigger l[q]} | 0 <= q < i ensures Passed(r, c, n, l[q], m + 1) { PassedStays(r, c, n, l[q], m); }
  }

  lemma FirstStage(g: Layout, r: Run, c: nat, n: Request)
    requires Requests(g, r, c, n, 1) && Inv(g, r.heaps[0]) && c < g.cpus
    ensures Stage(r.heaps[0].lists[c], r, c, n, 1, 0, 1) && OwnSteps(r, c, 1) == 1
  {
    assert IsStep(g, r, 0);
    FirstLook(g, r.heaps[0], c);
    assert OwnSteps(r, c, 0) == 0;
  }

  // A step of c that does not end its request
  lemma OwnStage(g: Layout, l: seq<nat>, r: Run, c: nat, n: Request, m: nat, i: nat, k: nat) returns (j: nat)
    requires IsRun(g, r) && m < |r.events| && c < g.cpus && Inv(g, r.heaps[m]) && Stage(l, r, c, n, m, i, k)
    requires Own(r.events[m], c) && Busy(r.heaps[m + 1], c)
    ensures Stage(l, r, c, n, m + 1, j, k + 1)
  {
    var h, e := r.heaps[m], r.events[m];
    assert IsStep(g, r, m);
    PassedOnes(l, r, c, n, m, i);
    if i < |l| {
      assert e.Visit?;
      VisitOutcome(g, h, c, e.emptyTest, n, l[i]);
      NextOnList(g, h, c, n, i);
      assert PassesAt(r, c, n, l[i], m);
      j := i + 1;
    } else {
      assert e.Grow?;
      j := i;
    }
  }

  lemma OtherStage(g: Layout, l: seq<nat>, r: Run, c: nat, n: Request, m: nat, i: nat, k: nat)
    requires IsRun(g, r) && m < |r.events| && c < g.cpus && Inv(g, r.heaps[m]) && Stage(l, r, c, n, m, i, k)
    requires !Own(r.events[m], c)
    ensures Stage(l, r, c, n, m + 1, i, k)
  {
    assert IsStep(g, r, m);
    OtherStep(g, r.heaps[m], r.events[m], c);
    PassedOnes(l, r, c, n, m, i);
  }

  lemma NextStage(g: Layout, l: seq<nat>, r: Run, c: nat, n: Request, m: nat, i: nat, k: nat) returns (j: nat)
    requires IsRun(g, r) && m < |r.events| && c < g.cpus && Inv(g, r.heaps[m]) && Stage(l, r, c, n, m, i, k)
    requires Busy(r.heaps[m + 1], c)
    ensures Stage(l, r, c, n, m + 1, j, k + if Own(r.events[m], c) then 1 else 0)
  {
    if Own(r.events[m], c) {
      j := OwnStage(g, l, r, c, n, m, i, k);
    } else {
      OtherStage(g, l, r, c, n, m, i, k);
      j := i;
    }
  }

  lemma Earlier(g: Layout, r: Run, c: nat, n: Request, m: nat)
    requires Requests(g, r, c, n, m) && m > 1
    ensures Requests(g, r, c, n, m - 1) && Busy(r.heaps[m - 1], c)
  {
  }

  lemma {:induction false} StageReached(g: Layout, r: Run, c: nat, n: Request, m: nat) returns (i: nat)
    requires Requests(g, r, c, n, m) && Inv(g, r.heaps[0]) && c < g.cpus && Busy(r.heaps[m], c)
    ensures Stage(r.heaps[0].lists[c], r, c, n, m, i, OwnSteps(r, c, m))
  {
    if m == 1 {
      FirstStage(g, r, c, n);
      i := 0;
    } else {
      Earlier(g, r, c, n, m);
      var j := StageReached(g, r, c, n, m - 1);
      RunKeepsInv(g, r, m - 1);
      i := NextStage(g, r.heaps[0].lists[c], r, c, n, m - 1, j, OwnSteps(r, c, m - 1));
    }
  }

  /** However the other CPUs interleave, a request is over after at most three more steps of its own than the list had
      pages. */
  lemma RequestEnds(g: Layout, r: Run, c: nat, n: Request, m: nat)
    requires Sound(g) && Requests(g, r, c, n, m) && Reachable(g, r.heaps[0])
    ensures c < |r.heaps[0].lists| && OwnSteps(r, c, m) <= |r.heaps[0].lists[c]| + 3
  {
    ReachableInv(g, r.heaps[0]);
    assert IsStep(g, r, 0);
    if m > 1 {
      Earlier(g, r, c, n, m);
      var i := StageReached(g, r, c, n, m - 1);
      StageBounds(r.heaps[0].lists[c], r, c, n, m - 1, i, OwnSteps(r, c, m - 1));
    }
  }

  lemma StageBounds(l: seq<nat>, r: Run, c: nat, n: Request, m: nat, i: nat, k: nat)
    requires m < |r.heaps| && Stage(l, r, c, n, m, i, k)
    ensures k <= |l| + 2
  {
  }

  // The step that ends a request
  lemma LastStep(g: Layout, l: seq<nat>, r: Run, c: nat, n: Request, m: nat, i: nat, k: nat)
    requires IsRun(g, r) && m < |r.events| && c < g.cpus && Inv(g, r.heaps[m]) && Stage(l, r, c, n, m, i, k)
    requires !Busy(r.heaps[m + 1], c)
    ensures Enabled(r.heaps[m], r.events[m]) && Safe(g, r.heaps[m], r.events[m]) && Own(r.events[m], c)
    ensures var h, e := r.heaps[m], r.events[m];
            (Returned(g, h, e).None? <==> e.Grow?) && (e.Grow? ==> NoRoom(g, h) && i == |l|)
    ensures r.events[m].Grow? ==> r.heaps[m + 1].lists == r.heaps[m].lists
  {
    var h, e := r.heaps[m], r.events[m];
    assert IsStep(g, r, m);
    if !Own(e, c) {
      OtherStep(g, h, e, c);
    } else if e.Visit? {
      VisitOutcome(g, h, c, e.emptyTest, n, l[i]);
    } else if e.Grow? {
      GrowOutcome(g, h, c);
    }
  }

  /** A request that ends without an address has found no room for another page, and has looked at every page of its
      CPU's list when that page had no block for it. */
  lemma FailsOnlyWithoutRoom(g: Layout, r: Run, c: nat, n: Request, m: nat)
    requires Sound(g) && Requests(g, r, c, n, m + 1) && Reachable(g, r.heaps[0])
    requires c < |r.heaps[m + 1].cpus| && r.heaps[m + 1].cpus[c].Idle?
    ensures Enabled(r.heaps[m], r.events[m]) && Safe(g, r.heaps[m], r.events[m])
    ensures Returned(g, r.heaps[m], r.events[m]).None? ==>
              && r.events[m] == Grow(c) && NoRoom(g, r.heaps[m])
              && c < |r.heaps[m + 1].lists|
              && forall k :: k in r.heaps[m + 1].lists[c] ==> Passed(r, c, n, k, m)
  {
    ReachableInv(g, r.heaps[0]);
    assert IsStep(g, r, 0);
    assert m > 0;
    var i := StageReached(g, r, c, n, m);
    RunKeepsInv(g, r, m);
    var l := r.heaps[0].lists[c];
    LastStep(g, l, r, c, n, m, i, OwnSteps(r, c, m));
    if Returned(g, r.heaps[m], r.events[m]).None? {
      forall k | k in l ensures Passed(r, c, n, k, m) {
        var q :| 0 <= q < |l| && l[q] == k;
      }
    }
  }

  /** And room that is gone does not come back. */
  lemma RoomNeverReturns(g: Layout, h: Heap, e: Event)
    requires Enabled(h, e) && Safe(g, h, e) && NoRoom(g, h)
    ensures NoRoom(g, Do(g, h, e))
  {
  }

  // ---- a request that nobody else disturbs

  /** The step that c takes next. */
  function NextOf(h: Heap, c: nat): Event
    requires Busy(h, c)
  {
    match h.cpus[c]
    case Walking(_, _) => Visit(c, false)
    case Growing(_) => Grow(c)
    case Linking(_, _) => Link(c)
    case Idle => assert false; Free(0)
  }

  /** A CPU at work on a request can always go on. */
  lemma BusyCanStep(g: Layout, h: Heap, c: nat)
    requires Sound(g) && Reachable(g, h) && Busy(h, c)
    ensures var e := NextOf(h, c); Own(e, c) && Enabled(h, e) && Safe(g, h, e)
  {
    ReachableInv(g, h);
    EnabledIsSafe(g, h, NextOf(h, c));
  }

  // Steps of c alone, all for one request
  predicate Alone(r: Run, c: nat) {
    && |r.heaps| == |r.events| + 1
    && (forall i :: 0 <= i < |r.events| ==> Own(r.events[i], c))
    && forall i :: 1 <= i < |r.events| ==> Busy(r.heaps[i], c)
  }

  /** Step e hands c the address a, which was not in use, for its request of n bytes. */
  ghost predicate HandsAddress(g: Layout, live: map<int, Request>, h: Heap, e: Event, h': Heap, c: nat, n: Request,
                               a: int)
  {
    && Enabled(h, e) && Safe(g, h, e) && h' == Do(g, h, e) && Returned(g, h, e) == Some(a) && a !in live
    && c < |h'.cpus| && h'.cpus[c].Idle? && h'.live == live[a := n]
  }

  /** Steps of c alone, the last of which ends its request with address a. */
  ghost predicate Completes(g: Layout, r: Run, c: nat, n: Request, a: int) {
    && IsRun(g, r) && |r.events| > 0 && Alone(r, c)
    && var m := |r.events| - 1;
       HandsAddress(g, r.heaps[0].live, r.heaps[m], r.events[m], r.heaps[m + 1], c, n, a)
  }

  lemma OneStep(g: Layout, h: Heap, e: Event, c: nat, n: Request, a: int) returns (r: Run)
    requires Enabled(h, e) && Safe(g, h, e) && Own(e, c) && Returned(g, h, e) == Some(a)
    requires var h' := Do(g, h, e); c < |h'.cpus| && h'.cpus[c].Idle? && h'.live == h.live[a := n] && a !in h.live
    ensures Completes(g, r, c, n, a) && r.heaps[0] == h && r.events[0] == e
  {
    r := Run([h, Do(g, h, e)], [e]);
    assert IsStep(g, r, 0);
  }

  // Step i of r is step i + 1 of q
  lemma Shifted(g: Layout, r: Run, q: Run, i: nat)
    requires i < |r.events| && i + 1 < |r.heaps| && i + 1 < |q.events| && i + 2 < |q.heaps| && IsStep(g, r, i)
    requires q.heaps[i + 1] == r.heaps[i] && q.heaps[i + 2] == r.heaps[i + 1] && q.events[i + 1] == r.events[i]
    ensures IsStep(g, q, i + 1)
  {
  }

  lemma FirstOf(g: Layout, h: Heap, e: Event, q: Run)
    requires Enabled(h, e) && Safe(g, h, e) && |q.events| > 0 && |q.heaps| > 1
    requires q.heaps[0] == h && q.events[0] == e && q.heaps[1] == Do(g, h, e)
    ensures IsStep(g, q, 0)
  {
  }

  lemma Prepended(g: Layout, h: Heap, e: Event, r: Run, q: Run)
    requires Enabled(h, e) && Safe(g, h, e) && IsRun(g, r) && r.heaps[0] == Do(g, h, e)
    requires q == Run([h] + r.heaps, [e] + r.events)
    ensures IsRun(g, q)
  {
    FirstOf(g, h, e, q);
    forall i | 0 <= i < |q.events| ensures IsStep(g, q, i) {
      if i > 0 {
        assert IsStep(g, r, i - 1);
        Shifted(g, r, q, i - 1);
      }
    }
  }

  lemma Before(g: Layout, h: Heap, e: Event, c: nat, n: Request, a: int, r: Run) returns (q: Run)
    requires Enabled(h, e) && Safe(g, h, e) && Own(e, c) && Busy(Do(g, h, e), c)
    requires Do(g, h, e).live == h.live && Completes(g, r, c, n, a) && r.heaps[0] == Do(g, h, e)
    ensures Completes(g, q, c, n, a) && q.heaps[0] == h && q.events[0] == e
  {
    q := Run([h] + r.heaps, [e] + r.events);
    Prepended(g, h, e, r, q);
    AloneBefore(h, e, c, r, q);
    EndsAlike(g, c, n, a, r, q);
  }

  lemma EndsAlike(g: Layout, c: nat, n: Request, a: int, r: Run, q: Run)
    requires Completes(g, r, c, n, a) && IsRun(g, q) && Alone(q, c)
    requires |q.heaps| == |r.heaps| + 1 && q.heaps[1..] == r.heaps && q.events[1..] == r.events
    requires q.heaps[0].live == r.heaps[0].live
    ensures Completes(g, q, c, n, a)
  {
    var m := |r.events| - 1;
    assert q.heaps[1..][m] == r.heaps[m] && q.heaps[1..][m + 1] == r.heaps[m + 1] && q.events[1..][m] == r.events[m];
  }

  lemma AloneBefore(h: Heap, e: Event, c: nat, r: Run, q: Run)
    requires Alone(r, c) && Own(e, c) && Busy(r.heaps[0], c) && q == Run([h] + r.heaps, [e] + r.events)
    ensures Alone(q, c)
  {
    forall i | 0 <= i < |q.events| ensures Own(q.events[i], c) {
      if i > 0 { assert Own(r.events[i - 1], c); }
    }
    forall i | 1 <= i < |q.events| ensures Busy(q.heaps[i], c) {
      assert q.heaps[i] == r.heaps[i - 1];
      if i > 1 { assert Busy(r.heaps[i - 1], c); }
    }
  }

  lemma LinkCompletes(g: Layout, h: Heap, c: nat, n: Request) returns (r: Run, a: int)
    requires Inv(g, h) && Busy(h, c) && h.cpus[c].Linking? && h.cpus[c].request == n
    ensures Completes(g, r, c, n, a) && r.heaps[0] == h
  {
    EnabledIsSafe(g, h, Link(c));
    a := Returned(g, h, Link(c)).value;
    LinkIsFresh(g, h, c, a);
    r := OneStep(g, h, Link(c), c, n, a);
  }

  lemma GrowCompletes(g: Layout, h: Heap, c: nat, n: Request) returns (r: Run, a: int)
    requires Inv(g, h) && Busy(h, c) && h.cpus[c] == Growing(n) && !NoRoom(g, h)
    ensures Completes(g, r, c, n, a) && r.heaps[0] == h
  {
    EnabledIsSafe(g, h, Grow(c));
    GrowOutcome(g, h, c);
    StepKeepsInv(g, h, Grow(c));
    r, a := LinkCompletes(g, Do(g, h, Grow(c)), c, n);
    r := Before(g, h, Grow(c), c, n, a, r);
  }

  // From the i-th page of the list on
  lemma {:induction false} WalkCompletes(g: Layout, h: Heap, c: nat, n: Request, l: seq<nat>, i: nat)
    returns (r: Run, a: int)
    requires Inv(g, h) && c < g.cpus && h.lists[c] == l && i < |l| && h.cpus[c] == Walking(n, l[i]) && !NoRoom(g, h)
    ensures Completes(g, r, c, n, a) && r.heaps[0] == h
    decreases |l| - i
  {
    var e, k := Visit(c, false), l[i];
    EnabledIsSafe(g, h, e);
    VisitOutcome(g, h, c, false, n, k);
    if Offers(h, k, n) {
      a := Returned(g, h, e).value;
      VisitIsFresh(g, h, c, false, a);
      r := OneStep(g, h, e, c, n, a);
    } else {
      NextOnList(g, h, c, n, i);
      StepKeepsInv(g, h, e);
      if i + 1 < |l| { r, a := WalkCompletes(g, Do(g, h, e), c, n, l, i + 1); }
      else { r, a := GrowCompletes(g, Do(g, h, e), c, n); }
      r := Before(g, h, e, c, n, a, r);
    }
  }

  /** With room for one more page every request of an idle CPU completes by its own steps with an address, whatever the
      pages hold. */
  lemma SucceedsWithRoom(g: Layout, h: Heap, c: nat, n: Request) returns (r: Run, a: int)
    requires Sound(g) && Reachable(g, h) && c < |h.cpus| && h.cpus[c].Idle?
    requires g.start + (|h.pages| + 1) * PAGE_SZ < g.end
    ensures Completes(g, r, c, n, a) && r.heaps[0] == h && r.events[0] == Alloc(c, n)
  {
    ReachableInv(g, h);
    EnabledIsSafe(g, h, Alloc(c, n));
    StepKeepsInv(g, h, Alloc(c, n));
    FirstLook(g, h, c);
    r, a := WalkCompletes(g, Do(g, h, Alloc(c, n)), c, n, h.lists[c], 0);
    r := Before(g, h, Alloc(c, n), c, n, a, r);
  }
}
