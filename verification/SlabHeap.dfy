/**
 The allocator of pmm.c (64-bit build) as steps of several CPUs: each CPU walks its own list of pages, locks one
 page at a time, and claims a new page from the shared end of the heap; any CPU may return any block.
 */
module SlabHeap {
  import opened Options
  import opened Arithmetic
  import opened Words
  import opened SlabPage

  datatype Layout = Layout(start: nat, end: nat, cpus: nat)

  // _heap.start is rounded up to a megabyte and the heap holds the sentinel page of every CPU
  predicate Sound(g: Layout) {
    g.start % 4096 == 0 && g.cpus >= 1 && g.start + g.cpus * PAGE_SZ <= g.end
  }

  type Request = n: nat | 1 <= n <= 4096 witness 1

  /** The macro UP_POW2 of pmm.h. */
  function UpPow2(n: Request): (r: nat)
    ensures IsClass(r) && r >= n
  {
    UpPow2IsClass(n);
    if n > 8 then assert n - 1 < Pow2(BITS); Pow2(64 - Clz(BITS, n - 1)) else 8
  }

  datatype Cpu = Idle | Walking(request: Request, page: nat) |
                   Growing(request: Request) | Linking(request: Request, page: nat)

  /**
   pages[k] is the page at start + k * PAGE_SZ, None while it is claimed but not initialised; next is page_list and
   tail is tail_page.  lists, owner and live only record history: the pages linked by each CPU, the CPU that claimed
   each page, and the request behind each address handed out and not yet returned.
   */
  datatype Heap = Heap(pages: seq<Option<Page>>, next: seq<Option<nat>>, tail: seq<nat>, cpus: seq<Cpu>,
                       lists: seq<seq<nat>>, owner: seq<nat>, live: map<int, Request>)

  datatype Event = Alloc(c: nat, n: Request) | Visit(c: nat, emptyTest: bool) |
                     Grow(c: nat) | Link(c: nat) | Free(addr: int)

  // &page->data of page k
  function Data(g: Layout, k: nat): nat {
    g.start + k * PAGE_SZ + HDR_SIZE
  }

  function Addr(g: Layout, k: nat, b: nat, size: nat): nat {
    Data(g, k) + b * size
  }

  // Line 68
  function AddrOf(g: Layout, k: nat, at: (nat, int), size: nat): int {
    at.1 * size + Data(g, k) + at.0 * 64 * size
  }

  // Line 152
  function PageOf(g: Layout, addr: int): nat
    requires addr >= g.start
  {
    (addr - g.start) / PAGE_SZ
  }

  function LastPageAddr(g: Layout, h: Heap): nat {
    g.start + |h.pages| * PAGE_SZ
  }

  /** pmm_init */
  function Init(g: Layout): Heap {
    Heap(seq(g.cpus, _ => Some(InitPage(8))), seq(g.cpus, _ => None), seq(g.cpus, c => c), seq(g.cpus, _ => Idle),
         seq(g.cpus, c => [c]), seq(g.cpus, c => c), map[])
  }

  // ---- steps

  // Interrupts are off in kalloc and kfree; callers return only addresses they hold
  predicate Enabled(h: Heap, e: Event) {
    match e
    case Alloc(c, n) => c < |h.cpus| && h.cpus[c].Idle?
    case Visit(c, _) => c < |h.cpus| && h.cpus[c].Walking?
    case Grow(c) => c < |h.cpus| && h.cpus[c].Growing?
    case Link(c) => c < |h.cpus| && h.cpus[c].Linking?
    case Free(addr) => addr in h.live
  }

  predicate Initialised(h: Heap, k: nat) {
    k < |h.pages| && h.pages[k].Some? && WellFormed(h.pages[k].value)
  }

  /** The memory a step touches is a page with a bitmap, and the bit it sets is one of that page's blocks. */
  predicate Safe(g: Layout, h: Heap, e: Event)
    requires Enabled(h, e)
  {
    match e
    case Alloc(c, n) => c < |h.pages|
    case Visit(c, _) => Initialised(h, h.cpus[c].page) && h.cpus[c].page < |h.next|
    case Grow(c) => g.end >= PAGE_SZ
    case Link(c) =>
      && c < |h.tail| && c < |h.lists|
      && h.tail[c] < |h.next| == |h.pages| && h.cpus[c].page < |h.pages|
    case Free(addr) =>
      && addr >= g.start && Initialised(h, PageOf(g, addr)) && addr >= Data(g, PageOf(g, addr))
      && Index(g, h, addr) < Blocks(h.pages[PageOf(g, addr)].value.size)
  }

  // Line 153
  function Index(g: Layout, h: Heap, addr: int): nat
    requires addr >= g.start && Initialised(h, PageOf(g, addr)) && addr >= Data(g, PageOf(g, addr))
  {
    (addr - Data(g, PageOf(g, addr))) / h.pages[PageOf(g, addr)].value.size
  }

  function Do(g: Layout, h: Heap, e: Event): Heap
    requires Enabled(h, e) && Safe(g, h, e)
  {
    match e
    case Alloc(c, n) => h.(cpus := h.cpus[c := Walking(n, c)])
    case Visit(c, emptyTest) => DoVisit(g, h, c, emptyTest)
    case Grow(c) => DoGrow(g, h, c)
    case Link(c) => DoLink(g, h, c)
    case Free(addr) =>
      var k := PageOf(g, addr);
      h.(pages := h.pages[k := Some(Give(h.pages[k].value, Index(g, h, addr)))], live := h.live - {addr})
  }

  // One turn of the loop of lines 58-129; the page is locked from line 60 to line 127
  function DoVisit(g: Layout, h: Heap, c: nat, emptyTest: bool): Heap
    requires c < |h.cpus| && h.cpus[c].Walking? && Initialised(h, h.cpus[c].page) && h.cpus[c].page < |h.next|
  {
    var Walking(n, k) := h.cpus[c];
    var p := h.pages[k].value;
    var (p', got) := if p.size == UpPow2(n) && !p.full then Take(p, emptyTest) else (p, None);
    if got.Some? then
      h.(pages := h.pages[k := Some(p')], cpus := h.cpus[c := Idle],
                 live := h.live[AddrOf(g, k, got.value, p.size) := n])
    else
      h.(cpus := h.cpus[c := if h.next[k].None? then Growing(n) else Walking(n, h.next[k].value)])
  }

  // Lines 132-140, under global_lk
  function DoGrow(g: Layout, h: Heap, c: nat): Heap
    requires c < |h.cpus| && h.cpus[c].Growing? && g.end >= PAGE_SZ
  {
    if LastPageAddr(g, h) >= g.end - PAGE_SZ then h.(cpus := h.cpus[c := Idle])
    else
      h.(pages := h.pages + [None], next := h.next + [None], owner := h.owner + [c],
         cpus := h.cpus[c := Linking(h.cpus[c].request, |h.pages|)])
  }

  // Line 143: unlike line 70 this leaves is_full alone
  function TakeFirst(p: Page): Page
    requires WellFormed(p)
  {
    p.(words := p.words[0 := ClearLowest(p.words[0])])
  }

  // Lines 141-145; nobody else can reach the page yet
  function DoLink(g: Layout, h: Heap, c: nat): Heap
    requires c < |h.cpus| && h.cpus[c].Linking? && c < |h.tail| && c < |h.lists|
    requires h.tail[c] < |h.next| == |h.pages| && h.cpus[c].page < |h.pages|
  {
    var Linking(n, k) := h.cpus[c];
    var p := InitPage(UpPow2(n));
    InitialBits(p.size, 0);
    h.(pages := h.pages[k := Some(TakeFirst(p))],
       next := h.next[k := None][h.tail[c] := Some(k)], tail := h.tail[c := k], lists := h.lists[c := h.lists[c] + [k]],
       cpus := h.cpus[c := Idle], live := h.live[AddrOf(g, k, (0, Loc(p.words[0], p.size)), p.size) := n])
  }

  ghost predicate Next(g: Layout, h: Heap, h': Heap) {
    exists e: Event :: Enabled(h, e) && Safe(g, h, e) && h' == Do(g, h, e)
  }

  ghost predicate Behavior(g: Layout, b: seq<Heap>) {
    && |b| > 0 && b[0] == Init(g)
    && forall i :: 0 <= i < |b| - 1 ==> Next(g, b[i], b[i + 1])
  }

  ghost predicate Reachable(g: Layout, h: Heap) {
    exists b: seq<Heap> :: Behavior(g, b) && b[|b| - 1] == h
  }

  // ---- the rounding

  lemma PowerTable()
    ensures Pow2(3) == 8 && Pow2(4) == 16 && Pow2(5) == 32 && Pow2(6) == 64 && Pow2(7) == 128 && Pow2(8) == 256
    ensures Pow2(9) == 512 && Pow2(10) == 1024 && Pow2(11) == 2048 && Pow2(12) == 4096 && Pow2(BITS) > 4096
  {
    assert Pow2(3) == 8;
    assert Pow2(6) == 64;
    assert Pow2(9) == 512;
    Pow2Monotone(13, BITS);
  }

  lemma UpPow2IsClass(n: Request)
    ensures n > 8 ==> n - 1 < Pow2(BITS) && IsClass(Pow2(64 - Clz(BITS, n - 1))) && Pow2(64 - Clz(BITS, n - 1)) >= n
  {
    PowerTable();
    if n > 8 {
      BitLenBelow(12, n - 1);
      if BitLen(n - 1) < 4 { Pow2Monotone(BitLen(n - 1), 3); }
    }
  }

  /** UP_POW2 rounds up to the least power of two that is at least n and at least 8. */
  lemma UpPow2IsLeast(n: Request, j: nat)
    requires n <= Pow2(j) && 8 <= Pow2(j)
    ensures IsClass(UpPow2(n)) && n <= UpPow2(n) && 8 <= UpPow2(n) <= Pow2(j)
  {
    PowerTable();
    var l := BitLen(n - 1);
    if n > 8 {
      if j < l { Pow2Monotone(j, l - 1); } else { Pow2Monotone(l, j); }
    }
  }

  // ---- addresses

  lemma BlockInside(size: nat, b: nat)
    requires IsClass(size) && b < Blocks(size)
    ensures 0 <= b * size && b * size + size <= AVAIL_SZ
  {
    NumBitmapIsMacro(size);
    Product(b + 1, Blocks(size), size);
    assert (b + 1) * size == b * size + size;
  }

  lemma OffsetDivides(size: nat, b: nat)
    requires IsClass(size)
    ensures b * size / size == b && b * size % size == 0
  {
    if size == 8 {} else if size == 16 {} else if size == 32 {} else if size == 64 {} else if size == 128 {}
    else if size == 256 {} else if size == 512 {} else if size == 1024 {} else if size == 2048 {}
  }

  /** Page and index are recovered from the address of a block. */
  lemma AddrDecodes(g: Layout, k: nat, b: nat, size: nat)
    requires IsClass(size) && b < Blocks(size)
    ensures PageOf(g, Addr(g, k, b, size)) == k && Addr(g, k, b, size) >= Data(g, k)
    ensures (Addr(g, k, b, size) - Data(g, k)) / size == b
  {
    BlockInside(size, b);
    OffsetDivides(size, b);
  }

  /** The address computed on line 68 is that of block 64 * i + loc. */
  lemma AddrOfIsAddr(g: Layout, k: nat, at: (nat, int), size: nat)
    requires 64 * at.0 + at.1 >= 0
    ensures AddrOf(g, k, at, size) == Addr(g, k, 64 * at.0 + at.1, size)
  {
    assert (64 * at.0 + at.1) * size == at.0 * 64 * size + at.1 * size;
  }

  // ---- the invariant

  predicate Shape(g: Layout, h: Heap) {
    && Sound(g) && g.cpus <= |h.pages| && LastPageAddr(g, h) <= g.end
    && |h.next| == |h.owner| == |h.pages| && |h.tail| == |h.lists| == |h.cpus| == g.cpus
  }

  predicate CpuOk(h: Heap, c: nat)
    requires c < |h.cpus| && c < |h.lists|
  {
    match h.cpus[c]
    case Idle => true
    case Walking(n, k) => k in h.lists[c]
    case Growing(n) => true
    case Linking(n, k) => k < |h.pages| == |h.owner| && h.owner[k] == c && h.pages[k].None?
  }

  // The chain from page_senti[c] along page_list ends at tail_page[c] and runs through pages of c
  ghost predicate ListOk(h: Heap, c: nat)
    requires c < |h.lists| == |h.tail|
  {
    var l := h.lists[c];
    && |l| > 0 && l[0] == c && h.tail[c] == l[|l| - 1]
    && (forall i, j :: 0 <= i < j < |l| ==> l[i] != l[j])
    && (forall i :: 0 <= i < |l| ==>
          l[i] < |h.pages| == |h.next| == |h.owner| && h.owner[l[i]] == c && h.pages[l[i]].Some?)
    && (forall i {:trigger h.next[l[i]]} :: 0 <= i < |l| ==>
          h.next[l[i]] == if i + 1 < |l| then Some(l[i + 1]) else None)
  }

  predicate BeingLinked(h: Heap, k: nat)
    requires k < |h.owner|
  {
    h.owner[k] < |h.cpus| && h.cpus[h.owner[k]].Linking? && h.cpus[h.owner[k]].page == k
  }

  // A page is on its owner's list, or its owner is about to put it there
  ghost predicate PageOk(g: Layout, h: Heap, k: nat)
    requires k < |h.pages| == |h.owner|
  {
    && h.owner[k] < |h.lists|
    && (h.pages[k].Some? ==> k in h.lists[h.owner[k]] && Valid(h.pages[k].value) && BlocksHeld(g, h, k))
    && (h.pages[k].None? ==> BeingLinked(h, k))
  }

  // A block that is not free has been handed out
  ghost predicate BlocksHeld(g: Layout, h: Heap, k: nat)
    requires Initialised(h, k)
  {
    var p := h.pages[k].value;
    forall b {:trigger IsFree(p, b)} :: 0 <= b < Blocks(p.size) ==> IsFree(p, b) || Addr(g, k, b, p.size) in h.live
  }

  // An address handed out is that of a block of the right class that is not free
  predicate LiveOk(g: Layout, h: Heap, a: int)
    requires a in h.live
  {
    && Safe(g, h, Free(a))
    && var k := PageOf(g, a);
       var p := h.pages[k].value;
       p.size == UpPow2(h.live[a]) && a == Addr(g, k, Index(g, h, a), p.size) && !IsFree(p, Index(g, h, a))
  }

  ghost predicate Inv(g: Layout, h: Heap) {
    && Shape(g, h)
    && (forall c {:trigger CpuOk(h, c)} :: 0 <= c < g.cpus ==> CpuOk(h, c))
    && (forall c {:trigger ListOk(h, c)} :: 0 <= c < g.cpus ==> ListOk(h, c))
    && (forall k {:trigger PageOk(g, h, k)} :: 0 <= k < |h.pages| ==> PageOk(g, h, k))
    && (forall a {:trigger LiveOk(g, h, a)} :: a in h.live ==> LiveOk(g, h, a))
  }

  lemma InitEstablishes(g: Layout)
    requires Sound(g)
    ensures Inv(g, Init(g))
  {
    InitPageAllFree(8);
    var h := Init(g);
    forall k | 0 <= k < |h.pages| ensures PageOk(g, h, k) { assert k in h.lists[k]; }
    forall c | 0 <= c < g.cpus ensures ListOk(h, c) { assert h.lists[c] == [c]; }
  }

  /** No step the allocator can take touches memory outside a page, or a page without a bitmap. */
  lemma EnabledIsSafe(g: Layout, h: Heap, e: Event)
    requires Inv(g, h) && Enabled(h, e)
    ensures Safe(g, h, e)
  {
    match e
    case Free(addr) => assert LiveOk(g, h, addr);
    case Visit(c, _) =>
      assert CpuOk(h, c) && ListOk(h, c);
      assert PageOk(g, h, h.cpus[c].page);
    case Link(c) => assert CpuOk(h, c) && ListOk(h, c);
    case Alloc(c, n) =>
    case Grow(c) =>
  }

  // ---- steps that leave the pages alone

  lemma WalkKeeps(g: Layout, h: Heap, c: nat, to: Cpu)
    requires Inv(g, h) && c < g.cpus && !h.cpus[c].Linking? && !to.Linking?
    requires to.Walking? ==> to.page in h.lists[c]
    ensures Inv(g, h.(cpus := h.cpus[c := to]))
  {
    var h' := h.(cpus := h.cpus[c := to]);
    forall d | 0 <= d < g.cpus ensures CpuOk(h', d) && ListOk(h', d) { assert CpuOk(h, d) && ListOk(h, d); }
    forall k | 0 <= k < |h.pages| ensures PageOk(g, h', k) {
      assert PageOk(g, h, k);
      assert h.pages[k].Some? ==> BlocksHeld(g, h, k) && BlocksHeld(g, h', k);
    }
    forall a | a in h.live ensures LiveOk(g, h', a) { assert LiveOk(g, h, a); }
  }

  lemma GrowKeeps(g: Layout, h: Heap, c: nat)
    requires Inv(g, h) && Enabled(h, Grow(c))
    requires LastPageAddr(g, h) < g.end - PAGE_SZ
    ensures g.end >= PAGE_SZ && Inv(g, DoGrow(g, h, c))
  {
    var h' := DoGrow(g, h, c);
    forall d | 0 <= d < g.cpus ensures CpuOk(h', d) { assert CpuOk(h, d) && ListOk(h, d); }
    forall d | 0 <= d < g.cpus ensures ListOk(h', d) { assert ListOk(h, d); }
    forall k | 0 <= k < |h'.pages| ensures PageOk(g, h', k) {
      if k < |h.pages| {
        assert PageOk(g, h, k);
        assert h.pages[k].Some? ==> BlocksHeld(g, h, k) && BlocksHeld(g, h', k);
      }
    }
    forall a | a in h.live ensures LiveOk(g, h', a) { assert LiveOk(g, h, a); }
  }

  // ---- blocks in use by page and index

  // The page and the block that an address in use belongs to
  lemma LiveWhere(g: Layout, h: Heap, x: int) returns (j: nat, i: nat, p: Page)
    requires x in h.live && LiveOk(g, h, x)
    ensures j < |h.pages| && h.pages[j] == Some(p) && WellFormed(p) && i < Blocks(p.size) && !IsFree(p, i)
    ensures x == Addr(g, j, i, p.size) && p.size == UpPow2(h.live[x])
  {
    j, i := PageOf(g, x), Index(g, h, x);
    p := h.pages[j].value;
  }

  lemma LiveAt(g: Layout, h: Heap, k: nat, b: nat, p: Page, a: int)
    requires k < |h.pages| && h.pages[k] == Some(p) && WellFormed(p) && b < Blocks(p.size) && !IsFree(p, b)
    requires a == Addr(g, k, b, p.size) && a in h.live && p.size == UpPow2(h.live[a])
    ensures LiveOk(g, h, a)
  {
    AddrDecodes(g, k, b, p.size);
  }

  // ---- steps that change the bitmap of one page

  /** h' differs from h in the bitmap of page k, in CPUs that are done, and in the addresses of page k in use. */
  ghost predicate OnePage(g: Layout, h: Heap, h': Heap, k: nat) {
    && Initialised(h, k) && Initialised(h', k)
    && h'.pages[k].value.size == h.pages[k].value.size && Valid(h'.pages[k].value)
    && |h'.cpus| == |h.cpus|
    && (forall c :: 0 <= c < |h.cpus| ==> h'.cpus[c] == h.cpus[c] || (h'.cpus[c].Idle? && !h.cpus[c].Linking?))
    && h' == h.(pages := h.pages[k := h'.pages[k]], cpus := h'.cpus, live := h'.live)
    && (forall a :: PageOf'(g, a) != k ==> (a in h.live <==> a in h'.live))
    && (forall a :: a in h.live && a in h'.live ==> h'.live[a] == h.live[a])
  }

  function PageOf'(g: Layout, a: int): int {
    if a >= g.start then PageOf(g, a) else -1
  }

  lemma OnePageKeeps(g: Layout, h: Heap, h': Heap, k: nat)
    requires Inv(g, h) && OnePage(g, h, h', k)
    requires BlocksHeld(g, h', k)
    requires forall a {:trigger LiveOk(g, h', a)} :: a in h'.live && PageOf'(g, a) == k ==> LiveOk(g, h', a)
    ensures Inv(g, h')
  {
    forall d | 0 <= d < g.cpus ensures CpuOk(h', d) { assert CpuOk(h, d); }
    forall d | 0 <= d < g.cpus ensures ListOk(h', d) { assert ListOk(h, d); }
    forall j | 0 <= j < |h.pages| ensures PageOk(g, h', j) {
      assert PageOk(g, h, j);
      if j != k && h.pages[j].Some? { OtherPageHeld(g, h, h', k, j); }
    }
    forall a | a in h'.live ensures LiveOk(g, h', a) {
      if PageOf'(g, a) != k { assert LiveOk(g, h, a); }
    }
  }

  lemma OtherPageHeld(g: Layout, h: Heap, h': Heap, k: nat, j: nat)
    requires OnePage(g, h, h', k) && j != k && Initialised(h, j) && BlocksHeld(g, h, j)
    ensures Initialised(h', j) && BlocksHeld(g, h', j)
  {
    var p := h.pages[j].value;
    forall b | 0 <= b < Blocks(p.size) ensures IsFree(p, b) || Addr(g, j, b, p.size) in h'.live {
      AddrDecodes(g, j, b, p.size);
      assert PageOf'(g, Addr(g, j, b, p.size)) == j;
    }
  }

  /** h' is h after block b of page k, free before, has been handed out for a request of n bytes. */
  ghost predicate HandedOut(g: Layout, h: Heap, h': Heap, k: nat, b: nat, n: Request) {
    && OnePage(g, h, h', k)
    && var p, p' := h.pages[k].value, h'.pages[k].value;
       && p.size == UpPow2(n) && b < Blocks(p.size) && IsFree(p, b)
       && h'.live == h.live[Addr(g, k, b, p.size) := n]
       && forall o :: 0 <= o < Blocks(p.size) ==> (IsFree(p', o) <==> IsFree(p, o) && o != b)
  }

  lemma HandedOutHeld(g: Layout, h: Heap, h': Heap, k: nat, b: nat, n: Request)
    requires Inv(g, h) && HandedOut(g, h, h', k, b, n)
    ensures BlocksHeld(g, h', k)
  {
    var p, p' := h.pages[k].value, h'.pages[k].value;
    assert PageOk(g, h, k);
    forall o | 0 <= o < Blocks(p.size) ensures IsFree(p', o) || Addr(g, k, o, p.size) in h'.live {
      assert IsFree(p, o) || Addr(g, k, o, p.size) in h.live;
    }
  }

  lemma NewBlockLive(g: Layout, h: Heap, h': Heap, k: nat, b: nat, n: Request)
    requires HandedOut(g, h, h', k, b, n)
    ensures LiveOk(g, h', Addr(g, k, b, h.pages[k].value.size))
  {
    LiveAt(g, h', k, b, h'.pages[k].value, Addr(g, k, b, h.pages[k].value.size));
  }

  lemma HandedOutLive(g: Layout, h: Heap, h': Heap, k: nat, b: nat, n: Request, x: int)
    requires Inv(g, h) && HandedOut(g, h, h', k, b, n) && x in h.live && PageOf'(g, x) == k
    requires x != Addr(g, k, b, h.pages[k].value.size)
    ensures LiveOk(g, h', x)
  {
    assert LiveOk(g, h, x);
  }

  lemma HandedOutKeeps(g: Layout, h: Heap, h': Heap, k: nat, b: nat, n: Request)
    requires Inv(g, h) && HandedOut(g, h, h', k, b, n)
    ensures Inv(g, h')
  {
    HandedOutHeld(g, h, h', k, b, n);
    NewBlockLive(g, h, h', k, b, n);
    forall x | x in h'.live && PageOf'(g, x) == k ensures LiveOk(g, h', x) {
      if x != Addr(g, k, b, h.pages[k].value.size) { HandedOutLive(g, h, h', k, b, n, x); }
    }
    OnePageKeeps(g, h, h', k);
  }

  // The address of a free block is not in use
  lemma FreeIsNotLive(g: Layout, h: Heap, k: nat, b: nat)
    requires Inv(g, h) && Initialised(h, k) && b < Blocks(h.pages[k].value.size) && IsFree(h.pages[k].value, b)
    ensures Addr(g, k, b, h.pages[k].value.size) !in h.live
  {
    var a := Addr(g, k, b, h.pages[k].value.size);
    AddrDecodes(g, k, b, h.pages[k].value.size);
    assert a in h.live ==> LiveOk(g, h, a);
  }

  // The page c looks at has a block for c
  ghost predicate Hit(h: Heap, c: nat, emptyTest: bool)
    requires c < |h.cpus| && h.cpus[c].Walking? && Initialised(h, h.cpus[c].page)
  {
    var p := h.pages[h.cpus[c].page].value;
    p.size == UpPow2(h.cpus[c].request) && !p.full && Take(p, emptyTest).1.Some?
  }

  // The visit of c takes a block at word and position at, leaving page p'
  lemma VisitTakes(g: Layout, h: Heap, c: nat, emptyTest: bool, k: nat, n: Request, p': Page, at: (nat, int))
    requires c < |h.cpus| && h.cpus[c] == Walking(n, k) && Initialised(h, k) && k < |h.next|
    requires h.pages[k].value.size == UpPow2(n) && !h.pages[k].value.full
    requires Take(h.pages[k].value, emptyTest) == (p', Some(at))
    ensures DoVisit(g, h, c, emptyTest) ==
            h.(pages := h.pages[k := Some(p')], cpus := h.cpus[c := Idle],
                 live := h.live[AddrOf(g, k, at, UpPow2(n)) := n])
  {
  }

  lemma Taken(p: Page, emptyTest: bool) returns (p': Page, at: (nat, int), b: nat)
    requires Valid(p) && !p.full && Take(p, emptyTest).1.Some?
    ensures Take(p, emptyTest) == (p', Some(at)) && Valid(p') && p'.size == p.size && HandsOut(p, p', at, b)
  {
    TakeCorrect(p, emptyTest);
    p', at := Take(p, emptyTest).0, Take(p, emptyTest).1.value;
    b := 64 * at.0 + at.1;
  }

  // What a visit that takes a block does: block b of the page, at word and position at
  lemma VisitGives(g: Layout, h: Heap, c: nat, emptyTest: bool, k: nat, n: Request)
    returns (p': Page, at: (nat, int), b: nat)
    requires Inv(g, h) && c < |h.cpus| && h.cpus[c] == Walking(n, k) && Initialised(h, k) && k < |h.next|
    requires Hit(h, c, emptyTest)
    ensures Take(h.pages[k].value, emptyTest) == (p', Some(at)) && Valid(p') && p'.size == h.pages[k].value.size
    ensures HandsOut(h.pages[k].value, p', at, b) && AddrOf(g, k, at, UpPow2(n)) == Addr(g, k, b, UpPow2(n))
    ensures Addr(g, k, b, UpPow2(n)) !in h.live
    ensures DoVisit(g, h, c, emptyTest) == h.(pages := h.pages[k := Some(p')], cpus := h.cpus[c := Idle],
                                              live := h.live[Addr(g, k, b, UpPow2(n)) := n])
  {
    assert PageOk(g, h, k);
    p', at, b := Taken(h.pages[k].value, emptyTest);
    AddrOfIsAddr(g, k, at, UpPow2(n));
    VisitTakes(g, h, c, emptyTest, k, n, p', at);
    FreeIsNotLive(g, h, k, b);
  }

  lemma HitHandsOut(g: Layout, h: Heap, c: nat, emptyTest: bool) returns (b: nat)
    requires Inv(g, h) && Enabled(h, Visit(c, emptyTest)) && Safe(g, h, Visit(c, emptyTest))
    requires Hit(h, c, emptyTest)
    ensures HandedOut(g, h, DoVisit(g, h, c, emptyTest), h.cpus[c].page, b, h.cpus[c].request)
  {
    var Walking(n, k) := h.cpus[c];
    var p', at, b' := VisitGives(g, h, c, emptyTest, k, n);
    b := b';
    HandedOutShape(g, h, DoVisit(g, h, c, emptyTest), k, p', c, at, b, n);
  }

  lemma HandedOutShape(g: Layout, h: Heap, h': Heap, k: nat, p': Page, c: nat, at: (nat, int), b: nat, n: Request)
    requires Initialised(h, k) && c < |h.cpus| && !h.cpus[c].Linking?
    requires Valid(p') && p'.size == h.pages[k].value.size == UpPow2(n)
    requires HandsOut(h.pages[k].value, p', at, b) && Addr(g, k, b, p'.size) !in h.live
    requires h' == h.(pages := h.pages[k := Some(p')], cpus := h.cpus[c := Idle],
                     live := h.live[Addr(g, k, b, p'.size) := n])
    ensures HandedOut(g, h, h', k, b, n)
  {
    AddrDecodes(g, k, b, p'.size);
  }

  lemma VisitKeeps(g: Layout, h: Heap, c: nat, emptyTest: bool)
    requires Inv(g, h) && Enabled(h, Visit(c, emptyTest)) && Safe(g, h, Visit(c, emptyTest))
    ensures Inv(g, DoVisit(g, h, c, emptyTest))
  {
    var Walking(n, k) := h.cpus[c];
    if Hit(h, c, emptyTest) {
      var b := HitHandsOut(g, h, c, emptyTest);
      HandedOutKeeps(g, h, DoVisit(g, h, c, emptyTest), k, b, n);
    } else {
      assert CpuOk(h, c) && ListOk(h, c);
      WalkKeeps(g, h, c, if h.next[k].None? then Growing(n) else Walking(n, h.next[k].value));
    }
  }

  // The address of a block that stays in use is not that of block b
  lemma OtherStaysHeld(g: Layout, h: Heap, k: nat, b: nat, o: nat)
    requires Inv(g, h) && Initialised(h, k) && b < Blocks(h.pages[k].value.size) && o < Blocks(h.pages[k].value.size)
    requires o != b && !IsFree(h.pages[k].value, o)
    ensures var size := h.pages[k].value.size;
            Addr(g, k, o, size) in h.live && Addr(g, k, o, size) != Addr(g, k, b, size)
  {
    var p := h.pages[k].value;
    assert PageOk(g, h, k);
    assert IsFree(p, o) || Addr(g, k, o, p.size) in h.live;
    AddrDecodes(g, k, o, p.size);
    AddrDecodes(g, k, b, p.size);
  }

  // h' is h after block b of page k has come back
  ghost predicate CameBack(g: Layout, h: Heap, h': Heap, k: nat, b: nat) {
    && Initialised(h, k) && b < Blocks(h.pages[k].value.size)
    && var p := h.pages[k].value;
       && Addr(g, k, b, p.size) in h.live
       && h' == h.(pages := h.pages[k := Some(Give(p, b))], live := h.live - {Addr(g, k, b, p.size)})
  }

  lemma FreeReturns(g: Layout, h: Heap, a: int) returns (k: nat, b: nat)
    requires Inv(g, h) && a in h.live && Safe(g, h, Free(a))
    ensures CameBack(g, h, Do(g, h, Free(a)), k, b)
  {
    assert LiveOk(g, h, a);
    k, b := PageOf(g, a), Index(g, h, a);
  }

  lemma CameBackShape(g: Layout, h: Heap, h': Heap, k: nat, b: nat)
    requires Inv(g, h) && CameBack(g, h, h', k, b)
    ensures OnePage(g, h, h', k) && BlocksHeld(g, h', k)
  {
    var p, p' := h.pages[k].value, h'.pages[k].value;
    assert PageOk(g, h, k);
    GiveCorrect(p, b);
    AddrDecodes(g, k, b, p.size);
    forall o | 0 <= o < Blocks(p.size) ensures IsFree(p', o) || Addr(g, k, o, p.size) in h'.live {
      if !IsFree(p', o) { OtherStaysHeld(g, h, k, b, o); }
    }
  }

  lemma CameBackLive(g: Layout, h: Heap, h': Heap, k: nat, b: nat, x: int)
    requires Inv(g, h) && CameBack(g, h, h', k, b) && x in h'.live && PageOf'(g, x) == k
    ensures LiveOk(g, h', x)
  {
    assert LiveOk(g, h, x) && PageOk(g, h, k);
    GiveCorrect(h.pages[k].value, b);
  }

  lemma FreeKeeps(g: Layout, h: Heap, a: int)
    requires Inv(g, h) && a in h.live && Safe(g, h, Free(a))
    ensures Inv(g, Do(g, h, Free(a)))
  {
    var h' := Do(g, h, Free(a));
    var k, b := FreeReturns(g, h, a);
    CameBackShape(g, h, h', k, b);
    forall x | x in h'.live && PageOf'(g, x) == k ensures LiveOk(g, h', x) { CameBackLive(g, h, h', k, b, x); }
    OnePageKeeps(g, h, h', k);
  }

  // ---- linking a new page

  // The first set bit of a fresh bitmap is that of block 0
  lemma FirstIsZero(size: nat)
    requires IsClass(size)
    ensures InitialWord(size) > 0 && Loc(InitialWord(size), size) == 0
  {
    var w := InitialWord(size);
    InitialBits(size, Shift(size));
    if Ctz(w) < Shift(size) { InitialBits(size, Ctz(w)); }
  }

  lemma FreshBit(size: nat, o: nat)
    requires IsClass(size) && o < Blocks(size) && Valid(InitPage(size)) && WellFormed(TakeFirst(InitPage(size)))
    ensures IsFree(TakeFirst(InitPage(size)), o) <==> o != 0
  {
    InitPageAllFree(size);
    FirstIsZero(size);
    TakenBlock(InitPage(size), 0, TakeFirst(InitPage(size)), o);
  }

  lemma FreshWord(size: nat)
    requires IsClass(size)
    ensures WellFormed(InitPage(size)) && WellFormed(TakeFirst(InitPage(size)))
    ensures LowBitsClear(TakeFirst(InitPage(size)))
  {
    InitPageAllFree(size);
    FirstIsZero(size);
    var w := InitPage(size).words[0];
    ClearedBits(w, 0);
    forall l | 0 <= l < Shift(size) ensures !Bit(ClearLowest(w), l) { ClearedBits(w, l); }
  }

  lemma FreshPage(size: nat)
    requires IsClass(size)
    ensures WellFormed(InitPage(size))
    ensures var p := TakeFirst(InitPage(size));
            && Valid(p) && p.size == size
            && forall o :: 0 <= o < Blocks(size) ==> (IsFree(p, o) <==> o != 0)
  {
    InitPageAllFree(size);
    FreshWord(size);
    forall o | 0 <= o < Blocks(size) ensures IsFree(TakeFirst(InitPage(size)), o) <==> o != 0 { FreshBit(size, o); }
  }

  /** h' is h after CPU c has put the new page k at the end of its list and handed out its first block. */
  ghost predicate Linked(g: Layout, h: Heap, h': Heap, c: nat, k: nat, n: Request) {
    && c < |h.tail| && c < |h.lists| && c < |h.cpus| && h.tail[c] < |h.next| == |h.pages| && k < |h.pages|
    && Initialised(h', k) && h'.pages[k].value.size == UpPow2(n) && Valid(h'.pages[k].value)
    && (forall o :: 0 <= o < Blocks(UpPow2(n)) ==> (IsFree(h'.pages[k].value, o) <==> o != 0))
    && h' == h.(pages := h.pages[k := h'.pages[k]], next := h.next[k := None][h.tail[c] := Some(k)],
                tail := h.tail[c := k],
                lists := h.lists[c := h.lists[c] + [k]], cpus := h.cpus[c := Idle],
                live := h.live[Addr(g, k, 0, UpPow2(n)) := n])
  }

  lemma FirstBlock(g: Layout, k: nat, size: nat)
    requires IsClass(size)
    ensures var w := InitPage(size).words[0];
            w == InitialWord(size) && w > 0 && AddrOf(g, k, (0, Loc(w, size)), size) == Addr(g, k, 0, size)
  {
    FirstIsZero(size);
    AddrOfIsAddr(g, k, (0, 0), size);
  }

  lemma LinkShape(g: Layout, h: Heap, c: nat)
    requires Enabled(h, Link(c)) && Safe(g, h, Link(c)) && |h.lists| == |h.cpus|
    ensures Linked(g, h, DoLink(g, h, c), c, h.cpus[c].page, h.cpus[c].request)
  {
    var Linking(n, k) := h.cpus[c];
    FirstBlock(g, k, UpPow2(n));
    FreshPage(UpPow2(n));
    assert DoLink(g, h, c).pages[k] == Some(TakeFirst(InitPage(UpPow2(n))));
  }

  lemma LinkedOwnList(g: Layout, h: Heap, h': Heap, c: nat, k: nat, n: Request)
    requires Inv(g, h) && Linked(g, h, h', c, k, n) && h.cpus[c] == Linking(n, k)
    ensures CpuOk(h', c) && ListOk(h', c)
  {
    assert CpuOk(h, c) && ListOk(h, c);
    var l, l' := h.lists[c], h'.lists[c];
    assert l' == l + [k] && k !in l;
    forall i | 0 <= i < |l'| ensures h'.next[l'[i]] == if i + 1 < |l'| then Some(l'[i + 1]) else None {
      assert i < |l| ==> h.next[l[i]] == if i + 1 < |l| then Some(l[i + 1]) else None;
    }
  }

  lemma LinkedOtherList(g: Layout, h: Heap, h': Heap, c: nat, k: nat, n: Request, d: nat)
    requires Shape(g, h) && Linked(g, h, h', c, k, n) && h.cpus[c] == Linking(n, k) && d < g.cpus && d != c
    requires CpuOk(h, d) && ListOk(h, d) && CpuOk(h, c) && ListOk(h, c)
    ensures CpuOk(h', d) && ListOk(h', d)
  {
    assert h'.lists[d] == h.lists[d] && k !in h.lists[d] && h.tail[c] !in h.lists[d];
  }

  lemma LinkedPage(g: Layout, h: Heap, h': Heap, c: nat, k: nat, n: Request, j: nat)
    requires Inv(g, h) && Linked(g, h, h', c, k, n) && h.cpus[c] == Linking(n, k) && j < |h.pages|
    ensures PageOk(g, h', j)
  {
    var size := UpPow2(n);
    assert CpuOk(h, c) && PageOk(g, h, j);
    if j == k {
      assert k in h'.lists[c];
      forall b | 0 <= b < Blocks(size) ensures IsFree(h'.pages[k].value, b) || Addr(g, k, b, size) in h'.live { }
    } else if h.pages[j].Some? {
      assert BlocksHeld(g, h, j) && BlocksHeld(g, h', j);
    }
  }

  lemma LinkedLive(g: Layout, h: Heap, h': Heap, c: nat, k: nat, n: Request, a: int)
    requires Inv(g, h) && Linked(g, h, h', c, k, n) && h.cpus[c] == Linking(n, k) && a in h.live
    requires a != Addr(g, k, 0, UpPow2(n))
    ensures LiveOk(g, h', a)
  {
    assert CpuOk(h, c) && LiveOk(g, h, a);
    var j, i, p := LiveWhere(g, h, a);
    LiveAt(g, h', j, i, p, a);
  }

  lemma LinkedKeeps(g: Layout, h: Heap, h': Heap, c: nat, k: nat, n: Request)
    requires Inv(g, h) && Linked(g, h, h', c, k, n) && h.cpus[c] == Linking(n, k)
    ensures Inv(g, h')
  {
    forall d | 0 <= d < g.cpus ensures CpuOk(h', d) && ListOk(h', d) {
      assert CpuOk(h, d) && ListOk(h, d) && CpuOk(h, c) && ListOk(h, c);
      if d == c { LinkedOwnList(g, h, h', c, k, n); } else { LinkedOtherList(g, h, h', c, k, n, d); }
    }
    forall j | 0 <= j < |h.pages| ensures PageOk(g, h', j) { LinkedPage(g, h, h', c, k, n, j); }
    LiveAt(g, h', k, 0, h'.pages[k].value, Addr(g, k, 0, UpPow2(n)));
    forall a | a in h'.live ensures LiveOk(g, h', a) {
      if a != Addr(g, k, 0, UpPow2(n)) { LinkedLive(g, h, h', c, k, n, a); }
    }
  }

  lemma StepKeepsInv(g: Layout, h: Heap, e: Event)
    requires Inv(g, h) && Enabled(h, e) && Safe(g, h, e)
    ensures Inv(g, Do(g, h, e))
  {
    match e
    case Alloc(c, n) =>
      assert ListOk(h, c) && h.lists[c][0] == c;
      WalkKeeps(g, h, c, Walking(n, c));
    case Visit(c, emptyTest) => VisitKeeps(g, h, c, emptyTest);
    case Grow(c) => if LastPageAddr(g, h) < g.end - PAGE_SZ { GrowKeeps(g, h, c); } else { WalkKeeps(g, h, c, Idle); }
    case Link(c) =>
      LinkShape(g, h, c);
      LinkedKeeps(g, h, DoLink(g, h, c), c, h.cpus[c].page, h.cpus[c].request);
    case Free(a) => FreeKeeps(g, h, a);
  }

  lemma {:induction false} BehaviorKeepsInv(g: Layout, b: seq<Heap>, i: nat)
    requires Sound(g) && Behavior(g, b) && i < |b|
    ensures Inv(g, b[i])
  {
    if i == 0 {
      InitEstablishes(g);
    } else {
      BehaviorKeepsInv(g, b, i - 1);
      assert Next(g, b[i - 1], b[i - 1 + 1]);
      var e: Event :| Enabled(b[i - 1], e) && Safe(g, b[i - 1], e) && b[i] == Do(g, b[i - 1], e);
      StepKeepsInv(g, b[i - 1], e);
    }
  }

  lemma ReachableInv(g: Layout, h: Heap)
    requires Sound(g) && Reachable(g, h)
    ensures Inv(g, h)
  {
    var b: seq<Heap> :| Behavior(g, b) && b[|b| - 1] == h;
    BehaviorKeepsInv(g, b, |b| - 1);
  }

  // ---- what every run keeps

  /** Every step a CPU or a caller may take only touches initialised pages and existing blocks. */
  lemma ReachableIsSafe(g: Layout, h: Heap, e: Event)
    requires Sound(g) && Reachable(g, h) && Enabled(h, e)
    ensures Safe(g, h, e)
  {
    ReachableInv(g, h);
    EnabledIsSafe(g, h, e);
  }

  lemma MultipleOfClass(x: nat, size: nat) returns (q: nat)
    requires IsClass(size) && x % 4096 == 0
    ensures x == q * size
  {
    q := x / 4096 * (4096 / size);
    if size == 8 {} else if size == 16 {} else if size == 32 {} else if size == 64 {} else if size == 128 {}
    else if size == 256 {} else if size == 512 {} else if size == 1024 {} else if size == 2048 {}
  }

  lemma BlockPlaced(g: Layout, k: nat, b: nat, size: nat)
    requires Sound(g) && IsClass(size) && b < Blocks(size)
    ensures Data(g, k) <= Addr(g, k, b, size) && Addr(g, k, b, size) + size <= Data(g, k) + AVAIL_SZ
    ensures Addr(g, k, b, size) % size == 0
  {
    BlockInside(size, b);
    assert Data(g, k) % 4096 == 0;
    var q := MultipleOfClass(Data(g, k), size);
    assert Addr(g, k, b, size) == (q + b) * size;
    OffsetDivides(size, q + b);
  }

  // Blocks of one class in one page, or of different pages, are apart
  lemma BlocksApart(g: Layout, k: nat, b: nat, size: nat, k2: nat, b2: nat, size2: nat)
    requires Sound(g) && IsClass(size) && b < Blocks(size) && IsClass(size2) && b2 < Blocks(size2)
    requires k == k2 ==> size == size2
    requires Addr(g, k, b, size) < Addr(g, k2, b2, size2)
    ensures Addr(g, k, b, size) + size <= Addr(g, k2, b2, size2)
  {
    BlockPlaced(g, k, b, size);
    BlockPlaced(g, k2, b2, size2);
    if k == k2 {
      if b < b2 { NextBlock(g, k, b, b2, size); }
      else if b2 < b { NextBlock(g, k, b2, b, size); }
    }
  }

  /** A block in use lies in the data area of one initialised page inside the heap, is aligned to its rounded size
      and is large enough for the request. */
  lemma LiveBlockPlaced(g: Layout, h: Heap, a: int)
    requires Sound(g) && Reachable(g, h) && a in h.live
    ensures var size := UpPow2(h.live[a]);
            && size >= h.live[a] && a % size == 0 && g.start <= a
            && var k := PageOf(g, a);
               && k < |h.pages| && h.pages[k].Some? && h.pages[k].value.size == size
               && Data(g, k) <= a && a + size <= Data(g, k) + AVAIL_SZ == g.start + (k + 1) * PAGE_SZ <= g.end
  {
    ReachableInv(g, h);
    assert LiveOk(g, h, a);
    var k, b, size := PageOf(g, a), Index(g, h, a), UpPow2(h.live[a]);
    BlockPlaced(g, k, b, size);
  }

  /** Blocks in use do not overlap. */
  lemma LiveBlocksDisjoint(g: Layout, h: Heap, a: int, a2: int)
    requires Sound(g) && Reachable(g, h) && a in h.live && a2 in h.live && a < a2
    ensures a + UpPow2(h.live[a]) <= a2
  {
    ReachableInv(g, h);
    assert LiveOk(g, h, a) && LiveOk(g, h, a2);
    BlocksApart(g, PageOf(g, a), Index(g, h, a), UpPow2(h.live[a]), PageOf(g, a2), Index(g, h, a2), UpPow2(h.live[a2]));
  }

  /** A block of an initialised page is in use exactly when its bit is clear. */
  lemma LiveIffBitClear(g: Layout, h: Heap, k: nat, b: nat)
    requires Sound(g) && Reachable(g, h) && k < |h.pages| && h.pages[k].Some?
    ensures WellFormed(h.pages[k].value)
    ensures b < Blocks(h.pages[k].value.size) ==>
              (Addr(g, k, b, h.pages[k].value.size) in h.live <==> !IsFree(h.pages[k].value, b))
  {
    ReachableInv(g, h);
    assert PageOk(g, h, k);
    var p := h.pages[k].value;
    if b < Blocks(p.size) {
      if IsFree(p, b) { FreeIsNotLive(g, h, k, b); }
    }
  }

  /** What kalloc returns when the step ends it: the address computed on line 68 or 142. */
  function Returned(g: Layout, h: Heap, e: Event): Option<int>
    requires Enabled(h, e) && Safe(g, h, e)
  {
    match e
    case Visit(c, emptyTest) =>
      var Walking(n, k) := h.cpus[c];
      var p := h.pages[k].value;
      if p.size != UpPow2(n) || p.full then None
      else (match Take(p, emptyTest).1 case None => None case Some(at) => Some(AddrOf(g, k, at, p.size)))
    case Link(c) =>
      var Linking(n, k) := h.cpus[c];
      InitialBits(UpPow2(n), 0);
      FirstIsZero(UpPow2(n));
      Some(AddrOf(g, k, (0, Loc(InitPage(UpPow2(n)).words[0], UpPow2(n))), UpPow2(n)))
    case _ => None
  }

  lemma VisitIsFresh(g: Layout, h: Heap, c: nat, emptyTest: bool, a: int)
    requires Inv(g, h) && Enabled(h, Visit(c, emptyTest)) && Safe(g, h, Visit(c, emptyTest))
    requires Returned(g, h, Visit(c, emptyTest)) == Some(a)
    ensures a !in h.live && DoVisit(g, h, c, emptyTest).live == h.live[a := h.cpus[c].request]
  {
    var Walking(n, k) := h.cpus[c];
    var p', at, b := VisitGives(g, h, c, emptyTest, k, n);
  }

  lemma NewPageIsUnused(g: Layout, h: Heap, k: nat, size: nat)
    requires Inv(g, h) && k < |h.pages| && h.pages[k].None? && IsClass(size)
    ensures Addr(g, k, 0, size) !in h.live
  {
    AddrDecodes(g, k, 0, size);
    assert Addr(g, k, 0, size) in h.live ==> LiveOk(g, h, Addr(g, k, 0, size));
  }

  lemma LinkIsFresh(g: Layout, h: Heap, c: nat, a: int)
    requires Inv(g, h) && Enabled(h, Link(c)) && Safe(g, h, Link(c)) && Returned(g, h, Link(c)) == Some(a)
    ensures a !in h.live && DoLink(g, h, c).live == h.live[a := h.cpus[c].request]
  {
    LinkShape(g, h, c);
    var Linking(n, k) := h.cpus[c];
    FirstBlock(g, k, UpPow2(n));
    assert CpuOk(h, c);
    NewPageIsUnused(g, h, k, UpPow2(n));
  }

  /** The address that an allocation returns was not in use, is in use for its request afterwards, and no other block
      changes; any other step but a free leaves the blocks in use alone, and a free gives up its own block only. */
  lemma AllocationIsFresh(g: Layout, h: Heap, e: Event)
    requires Sound(g) && Reachable(g, h) && Enabled(h, e)
    ensures Safe(g, h, e)
    ensures match Returned(g, h, e)
            case Some(a) => a !in h.live && Do(g, h, e).live == h.live[a := h.cpus[e.c].request]
            case None => Do(g, h, e).live == if e.Free? then h.live - {e.addr} else h.live
  {
    ReachableInv(g, h);
    EnabledIsSafe(g, h, e);
    match e
    case Visit(c, emptyTest) =>
      if Returned(g, h, e).Some? { VisitIsFresh(g, h, c, emptyTest, Returned(g, h, e).value); }
    case Link(c) => LinkIsFresh(g, h, c, Returned(g, h, e).value);
    case Alloc(c, n) =>
    case Grow(c) =>
    case Free(x) =>
  }

  /** A page marked full has at most one free block, the last one: skipping it hides no other. */
  lemma FullHidesAtMostTop(g: Layout, h: Heap, k: nat, b: nat)
    requires Sound(g) && Reachable(g, h) && k < |h.pages| && h.pages[k].Some? && h.pages[k].value.full
    ensures WellFormed(h.pages[k].value)
    ensures b < Blocks(h.pages[k].value.size) && IsFree(h.pages[k].value, b) ==> b == Blocks(h.pages[k].value.size) - 1
  {
    ReachableInv(g, h);
    assert PageOk(g, h, k);
  }

  /** The per-CPU lists partition the pages: a claimed page is on the list of exactly one CPU, once, or is being put
      on it; and walking page_list from page_senti[c] to tail_page[c] visits that list in order. */
  lemma ListsPartitionPages(g: Layout, h: Heap, k: nat) returns (c: nat)
    requires Sound(g) && Reachable(g, h) && k < |h.pages|
    ensures |h.lists| == |h.tail| == |h.cpus| == g.cpus && c < g.cpus
    ensures k in h.lists[c] <==> !(h.cpus[c].Linking? && h.cpus[c].page == k)
    ensures forall d :: 0 <= d < g.cpus && d != c ==> k !in h.lists[d] && !(h.cpus[d].Linking? && h.cpus[d].page == k)
    ensures ListOk(h, c)
  {
    ReachableInv(g, h);
    assert PageOk(g, h, k);
    c := h.owner[k];
    assert ListOk(h, c) && CpuOk(h, c);
    forall d | 0 <= d < g.cpus && d != c ensures k !in h.lists[d] && !(h.cpus[d].Linking? && h.cpus[d].page == k) {
      assert ListOk(h, d) && CpuOk(h, d);
    }
  }

  // ---- conservation

  ghost function FreeBelow(p: Page, n: nat): set<nat>
    requires WellFormed(p) && n <= Blocks(p.size)
  {
    set b | 0 <= b < n && IsFree(p, b)
  }

  ghost function LiveBelow(g: Layout, h: Heap, k: nat, n: nat): set<int>
    requires Initialised(h, k)
  {
    set a | a in h.live && a < Addr(g, k, n, h.pages[k].value.size) && a >= Data(g, k)
  }

  lemma Counted<T>(s: set<T>, s': set<T>, x: T, b: bool)
    requires x !in s && s' == s + if b then {x} else {}
    ensures |s'| == |s| + if b then 1 else 0
  {
  }

  lemma {:induction false} CountBelow(g: Layout, h: Heap, k: nat, n: nat)
    requires Inv(g, h) && k < |h.pages| && h.pages[k].Some? && PageOk(g, h, k) && n <= Blocks(h.pages[k].value.size)
    ensures |FreeBelow(h.pages[k].value, n)| + |LiveBelow(g, h, k, n)| == n
  {
    var p := h.pages[k].value;
    if n == 0 {
      assert FreeBelow(p, 0) == {} && LiveBelow(g, h, k, 0) == {};
    } else {
      CountBelow(g, h, k, n - 1);
      LiveUpTo(g, h, k, n);
      FreeUpTo(p, n);
    }
  }

  lemma FreeSet(p: Page, n: nat)
    requires WellFormed(p) && 0 < n <= Blocks(p.size)
    ensures n - 1 !in FreeBelow(p, n - 1)
    ensures FreeBelow(p, n) == FreeBelow(p, n - 1) + if IsFree(p, n - 1) then {n - 1} else {}
  {
    if IsFree(p, n - 1) { assert FreeBelow(p, n) == FreeBelow(p, n - 1) + {n - 1}; }
    else { assert FreeBelow(p, n) == FreeBelow(p, n - 1); }
  }

  lemma FreeUpTo(p: Page, n: nat)
    requires WellFormed(p) && 0 < n <= Blocks(p.size)
    ensures |FreeBelow(p, n)| == |FreeBelow(p, n - 1)| + if IsFree(p, n - 1) then 1 else 0
  {
    FreeSet(p, n);
    Counted(FreeBelow(p, n - 1), FreeBelow(p, n), n - 1, IsFree(p, n - 1));
  }

  lemma BlockInUse(g: Layout, h: Heap, k: nat, b: nat, p: Page)
    requires Inv(g, h) && k < |h.pages| && h.pages[k] == Some(p) && PageOk(g, h, k) && b < Blocks(p.size)
    ensures Addr(g, k, b, p.size) in h.live <==> !IsFree(p, b)
  {
    if IsFree(p, b) { FreeIsNotLive(g, h, k, b); }
  }

  lemma BlocksAscend(g: Layout, k: nat, n: nat, size: nat)
    requires IsClass(size) && n > 0
    ensures Data(g, k) <= Addr(g, k, n - 1, size) < Addr(g, k, n, size)
  {
    NextBlock(g, k, n - 1, n, size);
    Product(0, n - 1, size);
  }

  // Between blocks n - 1 and n only the address of block n - 1 can be in use, and it is if the block is not free
  lemma LiveBetween(g: Layout, h: Heap, k: nat, n: nat, p: Page, a: int, top: int)
    requires Inv(g, h) && k < |h.pages| && h.pages[k] == Some(p) && PageOk(g, h, k) && 0 < n <= Blocks(p.size)
    requires a == Addr(g, k, n - 1, p.size) && top == Addr(g, k, n, p.size)
    ensures Data(g, k) <= a < top && (a in h.live <==> !IsFree(p, n - 1))
    ensures forall x :: x in h.live && a <= x < top ==> x == a
  {
    BlocksAscend(g, k, n, p.size);
    BlockInUse(g, h, k, n - 1, p);
    forall x | x in h.live && a <= x < top ensures x == a { LiveIsBlock(g, h, k, n, p, x); }
  }

  // The addresses in use below block n are those below block n - 1 and, if it is in use, block n - 1 itself
  lemma LiveSet(g: Layout, h: Heap, k: nat, n: nat, p: Page, a: int)
    requires Inv(g, h) && k < |h.pages| && h.pages[k] == Some(p) && PageOk(g, h, k) && 0 < n <= Blocks(p.size)
    requires a == Addr(g, k, n - 1, p.size)
    ensures a !in LiveBelow(g, h, k, n - 1)
    ensures LiveBelow(g, h, k, n) == LiveBelow(g, h, k, n - 1) + if IsFree(p, n - 1) then {} else {a}
  {
    LiveBetween(g, h, k, n, p, a, Addr(g, k, n, p.size));
  }

  lemma LiveUpTo(g: Layout, h: Heap, k: nat, n: nat)
    requires Inv(g, h) && k < |h.pages| && h.pages[k].Some? && PageOk(g, h, k) && 0 < n <= Blocks(h.pages[k].value.size)
    ensures |LiveBelow(g, h, k, n)| == |LiveBelow(g, h, k, n - 1)| + if IsFree(h.pages[k].value, n - 1) then 0 else 1
  {
    var p := h.pages[k].value;
    var a := Addr(g, k, n - 1, p.size);
    LiveSet(g, h, k, n, p, a);
    Counted(LiveBelow(g, h, k, n - 1), LiveBelow(g, h, k, n), a, !IsFree(p, n - 1));
  }

  lemma NextBlock(g: Layout, k: nat, i: nat, j: nat, size: nat)
    requires IsClass(size) && i < j
    ensures Addr(g, k, i, size) + size <= Addr(g, k, j, size)
    ensures (j == i + 1 ==> Addr(g, k, i, size) + size == Addr(g, k, j, size))
  {
    Product(i + 1, j, size);
    assert (i + 1) * size == i * size + size;
  }

  lemma LiveIsBlock(g: Layout, h: Heap, k: nat, n: nat, p: Page, x: int)
    requires Inv(g, h) && k < |h.pages| && h.pages[k] == Some(p) && WellFormed(p) && 0 < n <= Blocks(p.size)
    requires x in h.live && Addr(g, k, n - 1, p.size) <= x < Addr(g, k, n, p.size)
    ensures x == Addr(g, k, n - 1, p.size)
  {
    assert LiveOk(g, h, x);
    var j, i, q := LiveWhere(g, h, x);
    BetweenBlocks(g, k, n, j, i, q.size, p.size);
  }

  lemma BetweenBlocks(g: Layout, k: nat, n: nat, j: nat, i: nat, size: nat, s2: nat)
    requires Sound(g) && IsClass(size) && IsClass(s2) && (j == k ==> size == s2)
    requires 0 < n <= Blocks(s2) && i < Blocks(size)
    requires Addr(g, k, n - 1, s2) <= Addr(g, j, i, size) < Addr(g, k, n, s2)
    ensures j == k && i == n - 1
  {
    BlockPlaced(g, j, i, size);
    BlockPlaced(g, k, n - 1, s2);
    NextBlock(g, k, n - 1, n, s2);
    assert j == k;
    if i < n - 1 { NextBlock(g, k, i, n - 1, size); }
    else if i > n { NextBlock(g, k, n, i, size); }
  }

  ghost function FreeIn(h: Heap, k: nat): set<nat>
    requires Initialised(h, k)
  {
    FreeBelow(h.pages[k].value, Blocks(h.pages[k].value.size))
  }

  ghost function LiveIn(g: Layout, h: Heap, k: nat): set<int> {
    set a | a in h.live && g.start <= a && PageOf(g, a) == k
  }

  /** Free bits and blocks in use of a page always add up to the 65536 bytes of its data area. */
  lemma BlocksConserved(g: Layout, h: Heap, k: nat)
    requires Sound(g) && Reachable(g, h) && k < |h.pages| && h.pages[k].Some?
    ensures Initialised(h, k) && (|FreeIn(h, k)| + |LiveIn(g, h, k)|) * h.pages[k].value.size == 65536
  {
    ReachableInv(g, h);
    assert PageOk(g, h, k);
    var p := h.pages[k].value;
    CountBelow(g, h, k, Blocks(p.size));
    NumBitmapIsMacro(p.size);
    forall a | a in h.live && g.start <= a
      ensures PageOf(g, a) == k <==> Data(g, k) <= a < Addr(g, k, Blocks(p.size), p.size)
    {
      assert LiveOk(g, h, a);
      LiveBlockPlaced(g, h, a);
    }
    assert LiveIn(g, h, k) == LiveBelow(g, h, k, Blocks(p.size));
  }
}
