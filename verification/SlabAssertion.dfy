/** The assertion Assert(n_p==0) that kfree makes for blocks of class 512 (pmm.c, line 202) is wrong where it is
    compiled. */
module SlabAssertion {
  import opened Options
  import opened Words
  import opened SlabPage
  import opened SlabHeap

  /** What line 202 asserts when the block at address a is returned. */
  predicate AssertHolds(g: Layout, h: Heap, a: int)
    requires a >= g.start && Initialised(h, PageOf(g, a)) && a >= Data(g, PageOf(g, a))
  {
    Index(g, h, a) / 64 == 0
  }

  /** It holds exactly for the blocks in the first half of a page's data area. */
  lemma HoldsInFirstHalf(g: Layout, h: Heap, a: int)
    requires Sound(g) && Reachable(g, h) && a in h.live && UpPow2(h.live[a]) == 512
    ensures Safe(g, h, Free(a))
    ensures AssertHolds(g, h, a) <==> a - Data(g, PageOf(g, a)) < 0x8000
  {
    ReachableInv(g, h);
    assert LiveOk(g, h, a);
  }

  // ---- a run that reaches the second half

  lemma Reaches(g: Layout, h: Heap, e: Event)
    requires Reachable(g, h) && Enabled(h, e) && Safe(g, h, e)
    ensures Reachable(g, Do(g, h, e))
  {
    var b: seq<Heap> :| Behavior(g, b) && b[|b| - 1] == h;
    var b' := b + [Do(g, h, e)];
    forall i | 0 <= i < |b'| - 1 ensures Next(g, b'[i], b'[i + 1]) {
      if i < |b| - 1 { assert Next(g, b[i], b[i + 1]); } else { assert b'[i] == h; }
    }
    assert Behavior(g, b') && b'[|b'| - 1] == Do(g, h, e);
  }

  lemma ClassOf512()
    ensures UpPow2(512) == 512
  {
    PowerTable();
    UpPow2IsLeast(512, 9);
  }

  /** CPU 0 has one page beside its sentinel, of class 512, with its first j blocks in use. */
  ghost predicate Filled(g: Layout, h: Heap, j: nat) {
    && Reachable(g, h) && |h.pages| == |h.next| == g.cpus + 1 && |h.cpus| > 0 && h.cpus[0].Idle?
    && Initialised(h, 0) && h.pages[0].value.size == 8 && h.next[0] == Some(g.cpus) && h.next[g.cpus].None?
    && Initialised(h, g.cpus) && h.pages[g.cpus].value.size == 512
    && forall b :: 0 <= b < 128 ==> (IsFree(h.pages[g.cpus].value, b) <==> b >= j)
  }

  predicate Roomy(g: Layout) {
    Sound(g) && g.start + (g.cpus + 1) * PAGE_SZ < g.end
  }

  // The first request of 512 bytes passes the sentinel and claims a page
  lemma Claim(g: Layout) returns (h: Heap)
    requires Roomy(g)
    ensures Reachable(g, h) && Enabled(h, Link(0)) && h.cpus[0] == Linking(512, g.cpus)
    ensures h.pages == Init(g).pages + [None] && h.next == Init(g).next + [None] && h.tail == Init(g).tail
    ensures |h.cpus| == |h.lists| == g.cpus
  {
    var h0 := Init(g);
    assert Behavior(g, [h0]) && [h0][|[h0]| - 1] == h0;
    ClassOf512();
    InitPageAllFree(8);
    var h1 := h0.(cpus := h0.cpus[0 := Walking(512, 0)]);
    Reaches(g, h0, Alloc(0, 512));
    var h2 := h1.(cpus := h1.cpus[0 := Growing(512)]);
    assert Do(g, h1, Visit(0, false)) == h2;
    Reaches(g, h1, Visit(0, false));
    Reaches(g, h2, Grow(0));
    h := Do(g, h2, Grow(0));
  }

  // Linking that page leaves it with its first block in use
  lemma LinkFills(g: Layout, h: Heap)
    requires Sound(g) && Enabled(h, Link(0)) && Safe(g, h, Link(0)) && h.cpus[0] == Linking(512, g.cpus)
    requires h.pages == Init(g).pages + [None] && h.next == Init(g).next + [None] && h.tail == Init(g).tail
    requires |h.cpus| == |h.lists| == g.cpus && Reachable(g, Do(g, h, Link(0)))
    ensures Filled(g, Do(g, h, Link(0)), 1)
  {
    ClassOf512();
    InitPageAllFree(8);
    LinkShape(g, h, 0);
  }

  lemma FirstOf512(g: Layout) returns (h: Heap)
    requires Roomy(g)
    ensures Filled(g, h, 1)
  {
    var h0 := Claim(g);
    Reaches(g, h0, Link(0));
    LinkFills(g, h0);
    h := Do(g, h0, Link(0));
  }

  // A request that passes the sentinel is about to look at the page of class 512
  lemma WalkToPage(g: Layout, h: Heap, j: nat) returns (h': Heap)
    requires Filled(g, h, j)
    ensures Reachable(g, h') && h' == h.(cpus := h.cpus[0 := Walking(512, g.cpus)])
  {
    ClassOf512();
    var h1 := h.(cpus := h.cpus[0 := Walking(512, 0)]);
    Reaches(g, h, Alloc(0, 512));
    h' := h.(cpus := h.cpus[0 := Walking(512, g.cpus)]);
    assert Do(g, h1, Visit(0, false)) == h';
    Reaches(g, h1, Visit(0, false));
  }

  // The page of class 512 with blocks j up free hands out block j
  lemma TakesNext(p: Page, j: nat) returns (p': Page, at: (nat, int))
    requires Valid(p) && p.size == 512 && j < 126 && forall b :: 0 <= b < 128 ==> (IsFree(p, b) <==> b >= j)
    ensures !p.full && Take(p, false) == (p', Some(at)) && WellFormed(p') && p'.size == 512
    ensures forall b :: 0 <= b < 128 ==> (IsFree(p', b) <==> b >= j + 1)
  {
    assert IsFree(p, 126);
    TakeLowest(p, false, j);
    TakeCorrect(p, false);
    p', at := Take(p, false).0, Take(p, false).1.value;
  }

  lemma OneMore(g: Layout, h: Heap, j: nat) returns (h': Heap)
    requires Sound(g) && Filled(g, h, j) && j < 126
    ensures Filled(g, h', j + 1)
  {
    ClassOf512();
    var h1 := WalkToPage(g, h, j);
    ReachableInv(g, h);
    assert PageOk(g, h, g.cpus);
    var p', at := TakesNext(h.pages[g.cpus].value, j);
    VisitTakes(g, h1, 0, false, g.cpus, 512, p', at);
    Reaches(g, h1, Visit(0, false));
    h' := Do(g, h1, Visit(0, false));
  }

  lemma {:induction false} Fill(g: Layout, j: nat) returns (h: Heap)
    requires Roomy(g) && 1 <= j <= 126
    ensures Filled(g, h, j)
  {
    if j == 1 {
      h := FirstOf512(g);
    } else {
      var h0 := Fill(g, j - 1);
      h := OneMore(g, h0, j - 1);
    }
  }

  /** Any heap with room for one more page reaches a state in which a caller holds a block that fails the assertion:
      the 65th block of 512 bytes. */
  lemma AssertionFails(g: Layout) returns (h: Heap, a: int)
    requires Roomy(g)
    ensures Reachable(g, h) && Enabled(h, Free(a)) && Safe(g, h, Free(a)) && UpPow2(h.live[a]) == 512
    ensures !AssertHolds(g, h, a)
  {
    h := Fill(g, 65);
    a := Addr(g, g.cpus, 64, 512);
    LiveIffBitClear(g, h, g.cpus, 64);
    AddrDecodes(g, g.cpus, 64, 512);
    ReachableInv(g, h);
    assert LiveOk(g, h, a);
  }
}
