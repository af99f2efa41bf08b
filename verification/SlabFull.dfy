/** When the flag is_full of pmm.c hides a block that is free. */
module SlabFull {
  import opened Options
  import opened Words
  import opened SlabPage
  import opened SlabHeap
  import opened SlabAssertion

  ghost predicate HidesAt(h: Heap, k: nat)
    requires Initialised(h, k)
  {
    Hides(h.pages[k].value)
  }

  // The step returns a block to page k
  predicate ReturnsTo(g: Layout, e: Event, k: nat) {
    e.Free? && e.addr >= g.start && PageOf(g, e.addr) == k
  }

  // The step takes the last but one of the free blocks of page k, and the last block has its bit in the same word
  ghost predicate TakesLastButOne(h: Heap, e: Event, k: nat)
    requires Enabled(h, e) && Initialised(h, k)
  {
    var p := h.pages[k].value;
    && e.Visit? && h.cpus[e.c].page == k && p.size == UpPow2(h.cpus[e.c].request) && !p.full
    && exists b :: LeavesTop(p, b)
  }

  lemma VisitHides(g: Layout, h: Heap, c: nat, emptyTest: bool, k: nat)
    requires Inv(g, h) && Enabled(h, Visit(c, emptyTest)) && Safe(g, h, Visit(c, emptyTest)) && h.cpus[c].page == k
    requires !HidesAt(h, k)
    ensures Initialised(DoVisit(g, h, c, emptyTest), k)
    ensures HidesAt(DoVisit(g, h, c, emptyTest), k) <==> TakesLastButOne(h, Visit(c, emptyTest), k)
  {
    var p := h.pages[k].value;
    assert PageOk(g, h, k);
    if p.size == UpPow2(h.cpus[c].request) && !p.full {
      TakeHidesIff(p, emptyTest);
      TakeCorrect(p, emptyTest);
    }
  }

  lemma OtherStepHides(g: Layout, h: Heap, e: Event, k: nat)
    requires Inv(g, h) && Enabled(h, e) && Safe(g, h, e) && Initialised(h, k)
    requires !ReturnsTo(g, e, k) && !(e.Visit? && h.cpus[e.c].page == k)
    ensures k < |Do(g, h, e).pages| && Do(g, h, e).pages[k] == h.pages[k]
  {
    if e.Link? { assert CpuOk(h, e.c); }
  }

  lemma ReturnShows(g: Layout, h: Heap, e: Event, k: nat)
    requires Inv(g, h) && Enabled(h, e) && Safe(g, h, e) && Initialised(h, k) && ReturnsTo(g, e, k)
    ensures Initialised(Do(g, h, e), k) && !Do(g, h, e).pages[k].value.full
  {
    assert PageOk(g, h, k);
    GiveCorrect(h.pages[k].value, Index(g, h, e.addr));
  }

  // A page marked full is passed over
  lemma VisitSkips(g: Layout, h: Heap, c: nat, emptyTest: bool, k: nat)
    requires Inv(g, h) && Enabled(h, Visit(c, emptyTest)) && Safe(g, h, Visit(c, emptyTest)) && h.cpus[c].page == k
    requires h.pages[k].value.full
    ensures DoVisit(g, h, c, emptyTest).pages == h.pages
  {
  }

  /** A page hides its last block after a step exactly when it hid it before and no block came back to it, or when the
      step takes the last but one of its free blocks and both have their bits in the last word of the bitmap. */
  lemma HidesIff(g: Layout, h: Heap, e: Event, k: nat)
    requires Sound(g) && Reachable(g, h) && Enabled(h, e) && k < |h.pages| && h.pages[k].Some?
    ensures Safe(g, h, e) && Initialised(h, k) && Initialised(Do(g, h, e), k)
    ensures HidesAt(Do(g, h, e), k) <==> (HidesAt(h, k) && !ReturnsTo(g, e, k)) || TakesLastButOne(h, e, k)
  {
    ReachableInv(g, h);
    EnabledIsSafe(g, h, e);
    assert PageOk(g, h, k);
    if ReturnsTo(g, e, k) {
      ReturnShows(g, h, e, k);
    } else if e.Visit? && h.cpus[e.c].page == k {
      if HidesAt(h, k) { VisitSkips(g, h, e.c, e.emptyTest, k); } else { VisitHides(g, h, e.c, e.emptyTest, k); }
    } else {
      OtherStepHides(g, h, e, k);
    }
  }

  lemma VisitKeepsSize(g: Layout, h: Heap, c: nat, emptyTest: bool, k: nat)
    requires Inv(g, h) && Enabled(h, Visit(c, emptyTest)) && Safe(g, h, Visit(c, emptyTest)) && h.cpus[c].page == k
    ensures var p := DoVisit(g, h, c, emptyTest).pages[k]; p.Some? && p.value.size == h.pages[k].value.size
  {
    assert PageOk(g, h, k);
    if !h.pages[k].value.full { TakeCorrect(h.pages[k].value, emptyTest); }
  }

  lemma TwoLeft(p: Page)
    requires WellFormed(p) && p.size == 512 && forall b :: 0 <= b < 128 ==> (IsFree(p, b) <==> b >= 126)
    ensures LeavesTop(p, 126) && IsFree(p, 126) && IsFree(p, 127)
  {
  }

  /** Any heap with room for one more page gets there: after 127 requests of 512 bytes the page of that class is marked
      full, and its block 127 is free. */
  lemma FullWithFreeBlock(g: Layout) returns (h: Heap)
    requires Roomy(g)
    ensures Reachable(g, h) && Initialised(h, g.cpus) && h.pages[g.cpus].value.size == 512
    ensures h.pages[g.cpus].value.full && IsFree(h.pages[g.cpus].value, 127)
  {
    var h0 := Fill(g, 126);
    var h1 := WalkToPage(g, h0, 126);
    ClassOf512();
    ReachableInv(g, h1);
    assert PageOk(g, h1, g.cpus);
    TwoLeft(h1.pages[g.cpus].value);
    Reaches(g, h1, Visit(0, false));
    VisitKeepsSize(g, h1, 0, false, g.cpus);
    HidesIff(g, h1, Visit(0, false), g.cpus);
    h := Do(g, h1, Visit(0, false));
  }
}
