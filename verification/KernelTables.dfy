/** The areas of vme.c and the kernel's own tables: built page by page on x86, by start64.S on x86_64. */
module KernelTables {
  import opened Options
  import opened Arithmetic
  import opened Words
  import opened PageTable
  import opened PageTree

  // ---- the areas of lines 24-34; an end of 0 is the top of the 32-bit address space

  datatype Area = Area(start: nat, end: nat, kernel: bool)

  function VmAreas(a: Arch): seq<Area> {
    if a.X64? then
      [Area(0x1000_0000_0000, 0x1080_0000_0000, false), Area(0, 0x80_0000_0000, true)]
    else
      [Area(0x4000_0000, 0x8000_0000, false), Area(0, 0x4000_0000, true), Area(0xfd00_0000, 0, true)]
  }

  predicate InUvm(a: Arch, va: nat) {
    VmAreas(a)[0].start <= va < VmAreas(a)[0].end
  }

  predicate KernelIndex(a: Arch, i: nat) {
    if a.X64? then i == 0 else i < 256 || i >= 1012
  }

  // The level-1 entries that every address space shares with the kernel
  function KernelIndices(a: Arch): set<nat> {
    set i | 0 <= i < Entries(a) && KernelIndex(a, i)
  }

  /** User and kernel pages never share a level-1 entry. */
  lemma UserIsNotKernel(a: Arch, va: nat)
    requires InUvm(a, va)
    ensures va < Reach(a) && PathOf(a, va)[0] !in KernelIndices(a)
  {
    assert PathOf(a, va)[0] == IndexOf(a, va, 1);
  }

  // ---- the kernel's tables

  // A present word that is neither of the lowest level nor a large page
  predicate LeadsOn(a: Arch, level: nat, w: nat) {
    level < Levels(a) && Present(w) && !IsLarge(a, level, w)
  }

  /** levels gives the kernel's table pages with their level; none of them is below a user entry. */
  ghost predicate KernelOk(a: Arch, mem: Memory, kpt: nat, levels: map<nat, nat>) {
    && kpt in levels && levels[kpt] == 1
    && (forall t {:trigger levels[t]} {:trigger mem[t]} :: t in levels ==>
          t in mem && |mem[t]| == Entries(a) && 1 <= levels[t] <= Levels(a))
    && (forall t, i {:trigger mem[t][i]} :: t in levels && 0 <= i < Entries(a) && LeadsOn(a, levels[t], mem[t][i]) ==>
          BaseOf(mem[t][i]) in levels && levels[BaseOf(mem[t][i])] == levels[t] + 1)
    && (forall i {:trigger mem[kpt][i]} :: i in KernelIndices(a) ==> !User(mem[kpt][i]))
  }

  /** What the kernel's tables translate depends on those tables only. */
  lemma {:induction false} KernelLookup(a: Arch, mem: Memory, mem': Memory, kpt: nat, levels: map<nat, nat>, t: nat,
                                        rest: Path)
    requires KernelOk(a, mem, kpt, levels) && t in levels && |rest| == Levels(a) + 1 - levels[t]
    requires forall k :: 0 <= k < |rest| ==> rest[k] < Entries(a)
    requires forall x :: x in levels ==> x in mem' && mem'[x] == mem[x]
    ensures Lookup(a, mem', t, rest) == Lookup(a, mem, t, rest)
    decreases |rest|
  {
    var e := mem[t][rest[0]];
    if Present(e) && |rest| > 1 && !IsLarge(a, levels[t], e) {
      KernelLookup(a, mem, mem', kpt, levels, BaseOf(e), rest[1..]);
    }
  }

  function Wrap(a: Arch, x: nat): nat {
    x % (if a.X86? then 0x1_0000_0000 else 0x1_0000_0000_0000_0000)
  }

  // ---- the 64-bit tables that start64.S builds before the kernel runs

  const PML4_ADDR := 0x1000
  const PDPT_ADDR := 0x2000

  // The two halves that lines 18-25 store: i << 30 and the flags PTE_P, PTE_W and PTE_PS, then i >> 2
  function BootEntry(i: nat): nat {
    Or(BootLow(i), 0x83) + i / 4 * 0x1_0000_0000
  }

  function BootLow(i: nat): nat {
    i * 0x4000_0000 % 0x1_0000_0000
  }

  lemma BootHalves(i: nat)
    requires i < 512
    ensures BootEntry(i) == i * 0x4000_0000 + 0x83
  {
    var low := i % 4 * 0x4000_0000;
    DivModUnique(i * 0x4000_0000, 0x1_0000_0000, i / 4, low);
    BootOr(i % 4);
  }

  lemma BootOr(k: nat)
    ensures Or(k * 0x4000_0000, 0x83) == k * 0x4000_0000 + 0x83
  {
    Pow2Of12();
    LowIsMod(12, k * 0x4000_0000);
    DivModUnique(k * 0x4000_0000, 4096, k * 0x4_0000, 0);
    OrDisjoint(12, k * 0x4000_0000, 0x83);
  }

  /** The two halves make one word: the 1 GiB page number i, present, writable, large, and not for users. */
  lemma BootEntryIs(i: nat)
    requires i < 512
    ensures Present(BootEntry(i)) && Writable(BootEntry(i)) && !User(BootEntry(i)) && Large(BootEntry(i))
    ensures BootEntry(i) - BootEntry(i) % 0x4000_0000 == i * 0x4000_0000
  {
    BootHalves(i);
    LargePageWord(i, BootEntry(i));
  }

  lemma LargePageWord(i: nat, e: nat)
    requires e == i * 0x4000_0000 + 0x83
    ensures Present(e) && Writable(e) && !User(e) && Large(e) && e - e % 0x4000_0000 == i * 0x4000_0000
  {
    LowDigits(i * 0x4_0000, 0x83);
    DivModUnique(e, 0x4000_0000, i, 0x83);
  }

  /** The boot tables: one entry in the top level, 512 pages of 1 GiB below it. */
  ghost predicate BootTables(mem: Memory) {
    && PML4_ADDR in mem && PDPT_ADDR in mem && |mem[PML4_ADDR]| == |mem[PDPT_ADDR]| == 512
    && (forall i :: 0 <= i < 512 ==> mem[PML4_ADDR][i] == if i == 0 then Entry(PDPT_ADDR, true, false) else 0)
    && (forall i :: 0 <= i < 512 ==> mem[PDPT_ADDR][i] == BootEntry(i))
  }

  ghost function BootLevels(): map<nat, nat> {
    map[PML4_ADDR := 1, PDPT_ADDR := 2]
  }

  /** The boot tables can be shared by every address space. */
  lemma BootTablesAreShared(mem: Memory)
    requires BootTables(mem)
    ensures KernelOk(X64, mem, PML4_ADDR, BootLevels())
  {
    EntryFields(PDPT_ADDR, true, false);
    forall i | 0 <= i < 512 ensures IsLarge(X64, 2, mem[PDPT_ADDR][i]) { BootEntryIs(i); }
  }

  // The second level ends the walk with a large page
  lemma BootSecond(mem: Memory, rest: Path, i: nat, tail: Path)
    requires BootTables(mem) && |rest| == 3 && rest[0] == i < 512 && rest[1..] == tail
    ensures Lookup(X64, mem, PDPT_ADDR, rest) == Some(Translation(i * 0x4000_0000 + Offset(X64, tail), true, false))
  {
    BootEntryIs(i);
  }

  // The first level leads to the second, or nowhere
  lemma BootFirst(mem: Memory, r: Path, x: nat)
    requires BootTables(mem) && |r| == 4 && r[0] < 512
    requires Lookup(X64, mem, PDPT_ADDR, r[1..]) == Some(Translation(x, true, false))
    ensures Lookup(X64, mem, PML4_ADDR, r) == if r[0] == 0 then Some(Translation(x, true, false)) else None
  {
    EntryFields(PDPT_ADDR, true, false);
  }

  lemma BootLookup(mem: Memory, r: Path)
    requires BootTables(mem) && IsPath(X64, r)
    ensures Lookup(X64, mem, PML4_ADDR, r) ==
            if r[0] == 0 then Some(Translation(r[1] * 0x4000_0000 + Offset(X64, r[2..]), true, false)) else None
  {
    assert r[1..][1..] == r[2..];
    BootSecond(mem, r[1..], r[1], r[2..]);
    BootFirst(mem, r, r[1] * 0x4000_0000 + Offset(X64, r[2..]));
  }

  // ---- what the kernel's tables translate

  predicate InKernelArea(a: Arch, x: nat) {
    exists area :: area in VmAreas(a) && area.kernel && area.start <= x && (area.end == 0 || x < area.end)
  }

  lemma KernelAreas(a: Arch, x: nat)
    ensures InKernelArea(a, x) <==> if a.X64? then x < 0x80_0000_0000 else x < 0x4000_0000 || 0xfd00_0000 <= x
  {
    assert VmAreas(a)[1] in VmAreas(a);
    if a.X86? { assert VmAreas(a)[2] in VmAreas(a); }
  }

  /** Every page of a kernel area translates to itself, writable and not for users, and nothing else translates. */
  function KernelMap(a: Arch, r: Path): Option<Translation>
    requires IsPath(a, r)
  {
    if InKernelArea(a, Offset(a, r)) then Some(Translation(Offset(a, r), true, false)) else None
  }

  /** The 1 GiB pages of start64.S map the 64-bit kernel area to itself. */
  lemma BootTranslates(mem: Memory, r: Path)
    requires BootTables(mem) && IsPath(X64, r)
    ensures Lookup(X64, mem, PML4_ADDR, r) == KernelMap(X64, r)
  {
    BootLookup(mem, r);
    KernelAreas(X64, Offset(X64, r));
    OffsetX64(r);
    assert r[1..][1..] == r[2..];
  }

  // ---- _vme_init, 32-bit

  // The page number of a 32-bit path
  function PageNo(r: Path): nat
    requires IsPath(X86, r)
  {
    r[0] * 0x400 + r[1]
  }

  lemma PageNoUnique(r: Path, q: Path)
    requires IsPath(X86, r) && IsPath(X86, q)
    ensures PageNo(r) == PageNo(q) <==> r == q
  {
  }

  lemma PageNoOfAddress(n: nat)
    requires n < 0x10_0000
    ensures PageNo(PathOf(X86, n * 4096)) == n
  {
    RecomposeX86(n * 4096);
    DivModUnique(n * 4096, 4096, n, 0);
  }

  predicate KernelPageNo(n: nat) {
    n < 0x4_0000 || 0xf_d000 <= n < 0x10_0000
  }

  /** The pages of done map to themselves, writable and for the kernel only; nothing else is mapped. */
  ghost predicate Identity(v: View, done: set<nat>) {
    forall r {:trigger LeafWord(X86, v, r)} :: IsPath(X86, r) ==>
      LeafWord(X86, v, r) == if PageNo(r) in done then Entry(PageNo(r) * 4096, true, false) else 0
  }

  lemma IdentityStep(v: View, done: set<nat>, n: nat)
    requires TreeOk(X86, v, false, {}) && Identity(v, done) && n < 0x10_0000
    requires PathOf(X86, n * 4096)[..1] in v.tree
    ensures NodeOk(X86, v, {}, PathOf(X86, n * 4096)[..1])
    ensures var v' := SetLeaf(X86, v, PathOf(X86, n * 4096), Entry(n * 4096, true, false));
            TreeOk(X86, v', false, {}) && Identity(v', done + {n})
  {
    var r, w := PathOf(X86, n * 4096), Entry(n * 4096, true, false);
    PageNoOfAddress(n);
    SetLeafKeeps(X86, v, false, {}, r, w);
    var v' := SetLeaf(X86, v, r, w);
    forall o | IsPath(X86, o)
      ensures LeafWord(X86, v', o) == if PageNo(o) in done + {n} then Entry(PageNo(o) * 4096, true, false) else 0
    {
      PageNoUnique(o, r);
      assert LeafWord(X86, v, o) == if PageNo(o) in done then Entry(PageNo(o) * 4096, true, false) else 0;
    }
  }

  // The first page and the number of pages of an area
  function FirstPage(area: Area): nat {
    area.start / 4096
  }

  function PageCount(area: Area): nat {
    var top := if area.end == 0 then 0x1_0000_0000 else area.end;
    if top < area.start then 0 else (top - area.start) / 4096
  }

  // cur after k turns of the loop of lines 102-106
  function PageAt(area: Area, k: nat): nat {
    if k == 0 then area.start else Wrap(X86, PageAt(area, k - 1) + 4096)
  }

  /** That loop meets every page of a kernel area once, wraps around at 4 GiB, and stops. */
  lemma {:induction false} PageStep(area: Area, k: nat)
    requires area in VmAreas(X86) && area.kernel && k <= PageCount(area)
    ensures PageAt(area, k) == if k < PageCount(area) then (FirstPage(area) + k) * 4096 else area.end
    ensures PageAt(area, k) != area.end <==> k < PageCount(area)
    ensures k < PageCount(area) ==> FirstPage(area) + k < 0x10_0000
  {
    if k > 0 {
      PageStep(area, k - 1);
      var i := FirstPage(area) + k;
      if i < 0x10_0000 { DivModUnique(i * 4096, 0x1_0000_0000, 0, i * 4096); }
    }
  }

  ghost function PagesUpTo(area: Area, k: nat): set<nat> {
    set n | 0 <= n < FirstPage(area) + k && IsPageOf(area, n)
  }

  lemma PagesGrow(area: Area, done: set<nat>, k: nat)
    ensures done + PagesUpTo(area, 0) == done
    ensures done + PagesUpTo(area, k) + {FirstPage(area) + k} == done + PagesUpTo(area, k + 1)
  {
  }

  predicate IsPageOf(area: Area, n: nat) {
    FirstPage(area) <= n
  }

  // The pages of the kernel areas among the first m areas
  ghost function KernelPagesOf(m: nat): set<nat>
    requires m <= |VmAreas(X86)|
  {
    if m == 0 then {} else
    KernelPagesOf(m - 1) + var area := VmAreas(X86)[m - 1]; if area.kernel then PagesUpTo(area, PageCount(area)) else {}
  }

  lemma KernelPagesAre(n: nat)
    ensures n in KernelPagesOf(|VmAreas(X86)|) <==> KernelPageNo(n)
  {
    assert KernelPagesOf(1) == {};
    assert KernelPagesOf(2) == KernelPagesOf(1) + PagesUpTo(VmAreas(X86)[1], PageCount(VmAreas(X86)[1]));
    assert KernelPagesOf(3) == KernelPagesOf(2) + PagesUpTo(VmAreas(X86)[2], PageCount(VmAreas(X86)[2]));
  }

  lemma PageIsOffset(r: Path)
    requires IsPath(X86, r)
    ensures Offset(X86, r) == PageNo(r) * 4096 && (InKernelArea(X86, Offset(X86, r)) <==> KernelPageNo(PageNo(r)))
  {
    OffsetX86(r);
    KernelAreas(X86, Offset(X86, r));
  }

  lemma IdentityWord(v: View, r: Path)
    requires Identity(v, KernelPagesOf(|VmAreas(X86)|)) && IsPath(X86, r)
    ensures LeafWord(X86, v, r) == if KernelPageNo(PageNo(r)) then Entry(PageNo(r) * 4096, true, false) else 0
  {
    KernelPagesAre(PageNo(r));
  }

  lemma RootIsFlat(v: View, r: Path)
    requires TreeOk(X86, v, false, {}) && [] in v.tree && IsPath(X86, r)
    ensures Lookup(X86, v.mem, v.tree[[]], r) == Leaf(LeafWord(X86, v, r), false)
  {
    assert r[..0] == [] && r[0..] == r;
    LookupIsFlat(X86, v, false, {}, r, 0);
  }

  // What a leaf word for page n says
  lemma IdentityLeaf(n: nat, r: Path, w: nat)
    requires IsPath(X86, r) && Offset(X86, r) == n * 4096 && (InKernelArea(X86, Offset(X86, r)) <==> KernelPageNo(n))
    requires w == if KernelPageNo(n) then Entry(n * 4096, true, false) else 0
    ensures Leaf(w, false) == KernelMap(X86, r)
  {
    EntryFields(n * 4096, true, false);
  }

  /** The kernel's pages, and no others, translate to themselves. */
  lemma IdentityTranslates(v: View, r: Path)
    requires TreeOk(X86, v, false, {}) && [] in v.tree && Identity(v, KernelPagesOf(|VmAreas(X86)|)) && IsPath(X86, r)
    ensures Lookup(X86, v.mem, v.tree[[]], r) == KernelMap(X86, r)
  {
    PageIsOffset(r);
    RootIsFlat(v, r);
    IdentityWord(v, r);
    IdentityLeaf(PageNo(r), r, LeafWord(X86, v, r));
  }

  // The level of each table page of a tree
  ghost function LevelsOf(tree: map<Path, nat>): map<nat, nat> {
    map t | t in tree.Values :: LevelOf(tree, t)
  }

  ghost function LevelOf(tree: map<Path, nat>, t: nat): nat
    requires t in tree.Values
  {
    var p: Path :| p in tree && tree[p] == t;
    |p| + 1
  }

  lemma LevelOfNode(a: Arch, v: View, u: bool, foreign: set<nat>, p: Path)
    requires TreeOk(a, v, u, foreign) && p in v.tree
    ensures v.tree[p] in LevelsOf(v.tree) && LevelsOf(v.tree)[v.tree[p]] == |p| + 1
  {
  }

  /** The tree that _vme_init builds can be shared: it is closed, of the right depth, and not for users. */
  lemma KernelTree(a: Arch, v: View)
    requires TreeOk(a, v, false, {}) && [] in v.tree
    ensures KernelOk(a, v.mem, v.tree[[]], LevelsOf(v.tree))
  {
    var levels, kpt := LevelsOf(v.tree), v.tree[[]];
    LevelOfNode(a, v, false, {}, []);
    forall t | t in levels ensures t in v.mem && |v.mem[t]| == Entries(a) && 1 <= levels[t] <= Levels(a) {
      var p: Path :| p in v.tree && v.tree[p] == t;
      LevelOfNode(a, v, false, {}, p);
      assert NodeOk(a, v, {}, p);
    }
    forall t, i | t in levels && levels[t] < Levels(a) && 0 <= i < Entries(a) && Present(v.mem[t][i])
      ensures BaseOf(v.mem[t][i]) in levels && levels[BaseOf(v.mem[t][i])] == levels[t] + 1 {
      var p: Path :| p in v.tree && v.tree[p] == t;
      LevelOfNode(a, v, false, {}, p);
      assert NodeOk(a, v, {}, p) && WordOk(a, v, false, {}, p, i);
      LevelOfNode(a, v, false, {}, p + [i]);
    }
    forall i | i in KernelIndices(a)
      ensures !User(v.mem[kpt][i])
    {
      assert NodeOk(a, v, {}, []) && WordOk(a, v, false, {}, [], i);
    }
  }

}
