/** vme.c itself: walking, mapping, protecting and tearing down address spaces in place. */
module AddressSpace {
  import opened Options
  import opened Arithmetic
  import opened Words
  import opened PageTable
  import opened PageTree
  import opened KernelTables

  // ---- one address space

  ghost predicate SpaceOk(a: Arch, v: View, kpt: nat, levels: map<nat, nat>) {
    && TreeOk(a, v, true, KernelIndices(a)) && [] in v.tree
    && KernelOk(a, v.mem, kpt, levels)
    && levels.Keys !! v.tree.Values
    && SameForeign(v.mem, kpt, v.mem, v.tree[[]], KernelIndices(a))
  }

  /** In every address space a kernel page translates as the kernel's own tables say. */
  lemma KernelPages(a: Arch, v: View, kpt: nat, levels: map<nat, nat>, r: Path)
    requires SpaceOk(a, v, kpt, levels) && IsPath(a, r) && r[0] in KernelIndices(a)
    ensures Translate(a, v.mem, v.ptr, r) == Lookup(a, v.mem, kpt, r)
  {
    assert NodeOk(a, v, KernelIndices(a), []);
    assert v.mem[v.tree[[]]][r[0]] == v.mem[kpt][r[0]];
  }

  // Growing a space, or writing leaf words of its tree, leaves the kernel alone
  lemma SpaceFrame(a: Arch, v0: View, v: View, kpt: nat, levels: map<nat, nat>)
    requires SpaceOk(a, v0, kpt, levels) && TreeOk(a, v, true, KernelIndices(a)) && Grown(a, v0, v, KernelIndices(a))
    ensures SpaceOk(a, v, kpt, levels)
    ensures forall r :: IsPath(a, r) ==> Translate(a, v.mem, v.ptr, r) == Translate(a, v0.mem, v0.ptr, r)
  {
    KernelUntouched(a, v0, v, kpt, levels);
    forall r | IsPath(a, r) ensures Translate(a, v.mem, v.ptr, r) == Translate(a, v0.mem, v0.ptr, r) {
      if r[0] in KernelIndices(a) {
        KernelPages(a, v, kpt, levels, r);
        KernelPages(a, v0, kpt, levels, r);
        KernelLookup(a, v0.mem, v.mem, kpt, levels, kpt, r);
      } else {
        TranslateIsFlat(a, v, true, KernelIndices(a), r);
        TranslateIsFlat(a, v0, true, KernelIndices(a), r);
      }
    }
  }

  lemma KernelUntouched(a: Arch, v0: View, v: View, kpt: nat, levels: map<nat, nat>)
    requires SpaceOk(a, v0, kpt, levels) && TreeOk(a, v, true, KernelIndices(a)) && Grown(a, v0, v, KernelIndices(a))
    ensures SpaceOk(a, v, kpt, levels)
    ensures forall x :: x in levels ==> x in v.mem && v.mem[x] == v0.mem[x]
  {
    forall x | x in levels ensures x in v.mem && v.mem[x] == v0.mem[x] {
      assert x in v0.mem && x !in v0.tree.Values;
    }
    forall x | x in levels ensures x !in v.tree.Values { assert x in v0.mem; }
    assert NodeOk(a, v, KernelIndices(a), []);
  }

  /** Writing one leaf word changes the translation of that page alone, kernel pages included. */
  lemma LeafWrite(a: Arch, v: View, kpt: nat, levels: map<nat, nat>, r: Path, w: nat)
    requires SpaceOk(a, v, kpt, levels) && IsPath(a, r) && r[0] !in KernelIndices(a) && r[..Levels(a) - 1] in v.tree
    ensures NodeOk(a, v, KernelIndices(a), r[..Levels(a) - 1])
    ensures var v' := SetLeaf(a, v, r, w);
            && SpaceOk(a, v', kpt, levels)
            && forall o :: IsPath(a, o) ==>
                 Translate(a, v'.mem, v'.ptr, o) == if o == r then Leaf(w, true) else Translate(a, v.mem, v.ptr, o)
  {
    SetLeafKeeps(a, v, true, KernelIndices(a), r, w);
    var v' := SetLeaf(a, v, r, w);
    LeafWriteSpace(a, v, kpt, levels, r, w);
    forall o | IsPath(a, o)
      ensures Translate(a, v'.mem, v'.ptr, o) == if o == r then Leaf(w, true) else Translate(a, v.mem, v.ptr, o)
    {
      if o[0] in KernelIndices(a) {
        KernelPages(a, v, kpt, levels, o);
        KernelPages(a, v', kpt, levels, o);
        KernelLookup(a, v.mem, v'.mem, kpt, levels, kpt, o);
      } else {
        TranslateIsFlat(a, v, true, KernelIndices(a), o);
        TranslateIsFlat(a, v', true, KernelIndices(a), o);
      }
    }
  }

  lemma LeafWriteSpace(a: Arch, v: View, kpt: nat, levels: map<nat, nat>, r: Path, w: nat)
    requires SpaceOk(a, v, kpt, levels) && IsPath(a, r) && r[0] !in KernelIndices(a) && r[..Levels(a) - 1] in v.tree
    requires NodeOk(a, v, KernelIndices(a), r[..Levels(a) - 1])
    requires TreeOk(a, SetLeaf(a, v, r, w), true, KernelIndices(a))
    ensures SpaceOk(a, SetLeaf(a, v, r, w), kpt, levels)
    ensures forall x :: x in levels ==> x in SetLeaf(a, v, r, w).mem && SetLeaf(a, v, r, w).mem[x] == v.mem[x]
  {
    var t := v.tree[r[..Levels(a) - 1]];
    assert t in v.tree.Values;
    assert NodeOk(a, v, KernelIndices(a), []);
    assert v.tree[[]] != t;
  }

  lemma OtherLeaf(a: Arch, v: View, m: Memory, r: Path)
    requires TreeOk(a, v, true, KernelIndices(a)) && IsPath(a, r)
    requires forall t :: t in v.tree.Values ==> t in m && t in v.mem && m[t] == v.mem[t]
    ensures LeafWord(a, v.(mem := m), r) == LeafWord(a, v, r)
  {
    var p := r[..Levels(a) - 1];
    if p in v.tree { assert v.tree[p] in v.tree.Values; }
  }

  // What a table of one address space translates depends on its own pages and on the kernel's
  lemma OtherTree(a: Arch, v: View, m: Memory)
    requires TreeOk(a, v, true, KernelIndices(a))
    requires forall t :: t in v.tree.Values ==> t in m && t in v.mem && m[t] == v.mem[t]
    ensures TreeOk(a, v.(mem := m), true, KernelIndices(a))
  {
    var v' := v.(mem := m);
    forall p | p in v.tree ensures NodeOk(a, v', KernelIndices(a), p) { assert NodeOk(a, v, KernelIndices(a), p); }
    forall p, i | p in v.tree && 0 <= i < Entries(a)
      ensures NodeOk(a, v', KernelIndices(a), p) && WordOk(a, v', true, KernelIndices(a), p, i)
    {
      assert NodeOk(a, v, KernelIndices(a), p) && WordOk(a, v, true, KernelIndices(a), p, i);
    }
  }

  /** While the table pages outside touched stay as they are, an address space that has none there keeps every
      translation. */
  lemma OtherSpaceKept(a: Arch, v: View, m: Memory, kpt: nat, levels: map<nat, nat>, touched: set<nat>)
    requires SpaceOk(a, v, kpt, levels) && touched !! v.tree.Values && touched !! levels.Keys
    requires forall t :: t in v.mem && t !in touched ==> t in m && m[t] == v.mem[t]
    ensures SpaceOk(a, v.(mem := m), kpt, levels)
    ensures forall r :: IsPath(a, r) ==> Translate(a, m, v.ptr, r) == Translate(a, v.mem, v.ptr, r)
  {
    var v' := v.(mem := m);
    forall t | t in v.tree.Values ensures t in v.mem {
      var p: Path :| p in v.tree && v.tree[p] == t;
      assert NodeOk(a, v, KernelIndices(a), p);
    }
    OtherTree(a, v, m);
    assert v.tree[[]] in v.tree.Values;
    forall r | IsPath(a, r) ensures Translate(a, m, v.ptr, r) == Translate(a, v.mem, v.ptr, r) {
      if r[0] in KernelIndices(a) {
        KernelPages(a, v, kpt, levels, r);
        KernelPages(a, v', kpt, levels, r);
        KernelLookup(a, v.mem, m, kpt, levels, kpt, r);
      } else {
        OtherLeaf(a, v, m, r);
        TranslateIsFlat(a, v, true, KernelIndices(a), r);
        TranslateIsFlat(a, v', true, KernelIndices(a), r);
      }
    }
  }

  /** Two address spaces stay apart: while one is protected, mapped into or torn down, the other keeps its pages, and
      with them every translation. */
  lemma SpacesStayApart(a: Arch, m0: Memory, tree0: map<Path, nat>, m: Memory, tree: map<Path, nat>, v: View, kpt: nat,
                        levels: map<nat, nat>)
    requires v.mem == m0 && SpaceOk(a, v, kpt, levels) && tree0.Values !! v.tree.Values && tree0.Values !! levels.Keys
    requires OnlyTree(m0, tree0, m, tree) || (m == m0 - tree0.Values && tree == map[])
    ensures SpaceOk(a, v.(mem := m), kpt, levels) && tree.Values !! v.tree.Values
    ensures forall r :: IsPath(a, r) ==> Translate(a, m, v.ptr, r) == Translate(a, m0, v.ptr, r)
  {
    OtherSpaceKept(a, v, m, kpt, levels, tree0.Values);
    forall t | t in v.tree.Values ensures t in m0 {
      var p: Path :| p in v.tree && v.tree[p] == t;
      assert NodeOk(a, v, KernelIndices(a), p);
    }
  }

  // ---- the state that vme.c keeps

  // The word a pointer into a table, or &as->ptr, points to
  datatype Cell = Root | Slot(page: nat, index: nat)

  class Space {
    var ptr: nat
    ghost var tree: map<Path, nat>

    // An _AddressSpace whose ptr is NULL
    constructor ()
      ensures ptr == 0 && tree == map[]
    {
      ptr, tree := 0, map[];
    }
  }

  datatype Reason = InvalidAddress | InvalidFlags | NotPageBoundary | CannotAllocate | NotMapped | AlreadyMapped
  datatype Outcome = Done | Panic(why: Reason)

  // The pages that a caller got when the supply went from s0 to s1
  ghost function Taken(s0: seq<nat>, s1: seq<nat>): set<nat> {
    set t | t in s0 && t !in s1
  }

  // The pages still to be allocated are aligned, unused and distinct
  ghost predicate Fresh(mem: Memory, supply: seq<nat>) {
    && (forall i :: 0 <= i < |supply| ==> supply[i] % 4096 == 0 && supply[i] !in mem)
    && (forall i, j :: 0 <= i < j < |supply| ==> supply[i] != supply[j])
  }

  // ---- a walk along path r, seen from outside: v0 and s0 are the view and the supply at its start

  ghost predicate Walking(a: Arch, v0: View, s0: seq<nat>, v: View, supply: seq<nat>, u: bool, foreign: set<nat>,
                          r: Path) {
    && IsPath(a, r) && TreeOk(a, v, u, foreign) && Grown(a, v0, v, foreign)
    && v.tree.Values == v0.tree.Values + Taken(s0, supply)
    && (forall t :: t in supply ==> t in s0)
    && (r[..Levels(a) - 1] in v0.tree ==> v == v0 && supply == s0)
  }

  /** The tables that the first n steps of a walk along r look into. */
  ghost function Passed(r: Path, n: nat): set<Path>
    requires n <= |r|
  {
    set j | 0 <= j < n :: r[..j]
  }

  /** How many of them are not among the tables of t0. */
  function Missing(t0: map<Path, nat>, r: Path, n: nat): (k: nat)
    requires n <= |r|
    ensures k <= n
  {
    if n == 0 then 0 else Missing(t0, r, n - 1) + if r[..n - 1] in t0 then 0 else 1
  }

  lemma PassedNext(r: Path, n: nat)
    requires n < |r|
    ensures r[..n] !in Passed(r, n) && Passed(r, n + 1) == Passed(r, n) + {r[..n]}
  {
    forall j | 0 <= j < n ensures r[..j] != r[..n] { assert |r[..j]| == j; }
  }

  lemma {:induction false} MissingIsCount(t0: map<Path, nat>, r: Path, n: nat)
    requires n <= |r|
    ensures Missing(t0, r, n) == |Passed(r, n) - t0.Keys|
  {
    if n == 0 {
      NoneMissing(t0.Keys, Passed(r, 0));
    } else {
      var m := n - 1;
      var p, s, s' := r[..m], Passed(r, m), Passed(r, n);
      MissingIsCount(t0, r, m);
      PassedNext(r, m);
      OneMore(s, t0.Keys, p, s');
    }
  }

  lemma NoneMissing(t: set<Path>, s: set<Path>)
    requires s == {}
    ensures |s - t| == 0
  {
  }

  lemma OneMore(s: set<Path>, t: set<Path>, p: Path, s': set<Path>)
    requires p !in s && s' == s + {p}
    ensures |s' - t| == |s - t| + if p in t then 0 else 1
  {
    assert s' - t == if p in t then s - t else s - t + {p};
  }

  /** A walk that has passed n tables has taken those that were missing, and no other page, from the supply. */
  ghost predicate Paid(t0: map<Path, nat>, s0: seq<nat>, t: map<Path, nat>, supply: seq<nat>, r: Path, n: nat)
    requires n <= |r|
  {
    && t.Keys == t0.Keys + Passed(r, n)
    && Missing(t0, r, n) <= |s0| && supply == s0[Missing(t0, r, n)..]
  }

  lemma PaidNothing(t0: map<Path, nat>, s0: seq<nat>, r: Path)
    ensures Paid(t0, s0, t0, s0, r, 0)
  {
    assert Passed(r, 0) == {};
  }

  // The next table is there
  lemma PaidAlready(t0: map<Path, nat>, s0: seq<nat>, t: map<Path, nat>, supply: seq<nat>, r: Path, n: nat)
    requires n < |r| && Paid(t0, s0, t, supply, r, n) && r[..n] in t
    ensures Paid(t0, s0, t, supply, r, n + 1)
  {
    PassedNext(r, n);
  }

  // The next table has come from the supply
  lemma PaidNow(t0: map<Path, nat>, s0: seq<nat>, t: map<Path, nat>, supply: seq<nat>, r: Path, n: nat, page: nat)
    requires n < |r| && Paid(t0, s0, t, supply, r, n) && r[..n] !in t && supply != []
    ensures Paid(t0, s0, t[r[..n] := page], supply[1..], r, n + 1)
  {
    PassedNext(r, n);
    NextRest(s0, Missing(t0, r, n), supply);
  }

  lemma NextRest(s0: seq<nat>, k: nat, supply: seq<nat>)
    requires k <= |s0| && supply == s0[k..] && supply != []
    ensures k + 1 <= |s0| && supply[1..] == s0[k + 1..]
  {
  }

  lemma {:induction false} MissingGrows(t0: map<Path, nat>, r: Path, n: nat, m: nat)
    requires n <= m <= |r|
    ensures Missing(t0, r, n) <= Missing(t0, r, m)
    decreases m
  {
    if n < m { MissingGrows(t0, r, n, m - 1); }
  }

  // The next table is missing and the supply is empty
  lemma NotPaid(t0: map<Path, nat>, s0: seq<nat>, t: map<Path, nat>, r: Path, n: nat, m: nat)
    requires n < m <= |r| && Paid(t0, s0, t, [], r, n) && r[..n] !in t
    ensures |s0| < Missing(t0, r, m)
  {
    MissingGrows(t0, r, n + 1, m);
  }

  // Where the walk stands before step i
  ghost predicate Standing(v: View, r: Path, i: nat, cur: Option<nat>) {
    i <= |r| && if i == 0 then cur.None? else r[..i - 1] in v.tree && cur == Some(v.tree[r[..i - 1]])
  }

  // The entry that step i looks at is one of a table of the tree
  lemma StandsInTable(a: Arch, v: View, u: bool, foreign: set<nat>, r: Path, i: nat, cur: Option<nat>)
    requires TreeOk(a, v, u, foreign) && IsPath(a, r) && 0 < i <= Levels(a) && Standing(v, r, i, cur)
    ensures r[..i - 1] in v.tree && cur == Some(v.tree[r[..i - 1]]) && cur.value in v.mem
    ensures r[i - 1] < |v.mem[cur.value]|
  {
    assert NodeOk(a, v, foreign, r[..i - 1]);
  }

  // What the word at step i says about the next table
  lemma Descend(a: Arch, v: View, u: bool, foreign: set<nat>, r: Path, i: nat, w: nat)
    requires TreeOk(a, v, u, foreign) && IsPath(a, r) && r[0] !in foreign && i < Levels(a)
    requires i > 0 ==> r[..i - 1] in v.tree && NodeOk(a, v, foreign, r[..i - 1])
    requires w == if i == 0 then v.ptr else v.mem[v.tree[r[..i - 1]]][r[i - 1]]
    ensures if Present(w) then r[..i] in v.tree && v.tree[r[..i]] == BaseOf(w) else r[..i] !in v.tree
  {
    if i > 0 {
      assert WordOk(a, v, u, foreign, r[..i - 1], r[i - 1]);
      assert r[..i - 1] + [r[i - 1]] == r[..i];
    }
  }

  lemma TakenNext(mem: Memory, s0: seq<nat>, supply: seq<nat>)
    requires supply != [] && Fresh(mem, supply) && forall t :: t in supply ==> t in s0
    ensures Taken(s0, supply[1..]) == Taken(s0, supply) + {supply[0]}
    ensures forall t :: t in supply[1..] ==> t in s0
  {
    assert supply == [supply[0]] + supply[1..];
  }

  // The table pages after one more has come from the supply
  lemma TakenAttach(tree: map<Path, nat>, tree0: map<Path, nat>, m: Memory, p: Path, s0: seq<nat>, supply: seq<nat>)
    requires supply != [] && Fresh(m, supply) && p !in tree && tree.Values == tree0.Values + Taken(s0, supply)
    requires forall t :: t in supply ==> t in s0
    ensures tree[p := supply[0]].Values == tree0.Values + Taken(s0, supply[1..])
  {
    ValuesOfUpdate(tree, p, supply[0]);
    TakenNext(m, s0, supply);
  }

  lemma WalkAttach(a: Arch, v0: View, s0: seq<nat>, v: View, supply: seq<nat>, u: bool, foreign: set<nat>, r: Path,
                   i: nat)
    requires Walking(a, v0, s0, v, supply, u, foreign, r) && i < Levels(a)
    requires supply != [] && Fresh(v.mem, supply) && CanAttach(a, v, foreign, r[..i], supply[0])
    ensures Walking(a, v0, s0, Attach(a, v, foreign, r[..i], supply[0], Entry(supply[0], true, u)),
                    supply[1..], u, foreign, r)
  {
    AttachKeeps(a, v, u, foreign, r[..i], supply[0]);
    GrownStep(a, v0, v, u, foreign, r[..i], supply[0]);
    TakenAttach(v.tree, v0.tree, v.mem, r[..i], s0, supply);
    TableIsMissing(a, v0, v, u, foreign, r, i);
  }

  // A walk that allocates did not find the leaf table at its start
  lemma TableIsMissing(a: Arch, v0: View, v: View, u: bool, foreign: set<nat>, r: Path, i: nat)
    requires TreeOk(a, v, u, foreign) && Grown(a, v0, v, foreign) && IsPath(a, r) && i < Levels(a) && r[..i] !in v.tree
    ensures r[..Levels(a) - 1] !in v0.tree
  {
    if r[..Levels(a) - 1] in v.tree { PrefixInTree(a, v, u, foreign, r, i, Levels(a) - 1); }
  }

  function Written(mem: Memory, page: nat, index: nat, w: nat): Memory
    requires page in mem && index < |mem[page]|
  {
    var words: seq<nat> := mem[page][index := w];
    mem[page := words]
  }

  // From m0 to m only table pages of one address space appeared or changed
  ghost predicate OnlyTree(m0: Memory, tree0: map<Path, nat>, m: Memory, tree: map<Path, nat>) {
    && m.Keys == m0.Keys + tree.Values
    && (forall t :: t in m0 && t !in tree0.Values ==> m[t] == m0[t])
    && (forall t :: t in tree.Values ==> t in tree0.Values || t !in m0)
  }

  /** Since m0 and s0 the address space has taken its table pages from the supply and changed nothing else. */
  ghost predicate Owned(m0: Memory, s0: seq<nat>, m: Memory, supply: seq<nat>, tree: map<Path, nat>) {
    OnlyTree(m0, map[], m, tree) && tree.Values == Taken(s0, supply) && forall t :: t in supply ==> t in s0
  }

  lemma OnlyTreeLeaves(m0: Memory, m: Memory, tree: map<Path, nat>)
    requires OnlyTree(m0, map[], m, tree)
    ensures m - tree.Values == m0
  {
  }

  lemma TakenFirst(mem: Memory, s0: seq<nat>)
    requires Fresh(mem, s0) && s0 != []
    ensures Taken(s0, s0[1..]) == {s0[0]} && (forall t :: t in s0[1..] ==> t in s0)
    ensures var m: map<Path, nat> := map[[] := s0[0]]; m.Values == {s0[0]}
  {
    assert s0 == [s0[0]] + s0[1..];
    var m: map<Path, nat> := map[[] := s0[0]];
    assert m[[]] == s0[0];
  }

  lemma OwnedStep(m0: Memory, s0: seq<nat>, m1: Memory, s1: seq<nat>, t1: map<Path, nat>, m2: Memory, s2: seq<nat>,
                  t2: map<Path, nat>)
    requires Owned(m0, s0, m1, s1, t1) && OnlyTree(m1, t1, m2, t2)
    requires t2.Values == t1.Values + Taken(s1, s2) && forall t :: t in s2 ==> t in s1
    ensures Owned(m0, s0, m2, s2, t2)
  {
  }

  // ---- _map

  predicate Unmaps(prot: nat) {
    prot % 2 == 1
  }

  // The verdict of lines 143-146 on the arguments
  function Checked(a: Arch, va: nat, pa: nat, prot: nat): Outcome {
    if !InUvm(a, va) then Panic(InvalidAddress)
    else if Unmaps(prot) && prot != 1 then Panic(InvalidFlags)
    else if va % 4096 != 0 || pa % 4096 != 0 then Panic(NotPageBoundary)
    else Done
  }

  // The verdict of the whole call, reason by reason
  lemma VerdictIs(a: Arch, va: nat, pa: nat, prot: nat, room: bool, t: Option<Translation>, out: Outcome)
    requires out == if Checked(a, va, pa, prot).Panic? then Checked(a, va, pa, prot)
                    else if !room then Panic(CannotAllocate) else Judged(prot, t)
    ensures var user := if a.X86? then 0x4000_0000 <= va < 0x8000_0000
                        else 0x1000_0000_0000 <= va < 0x1080_0000_0000;
            var flags, pages := prot % 2 == 1 ==> prot == 1, va % 4096 == 0 && pa % 4096 == 0;
            && (out == Panic(InvalidAddress) <==> !user)
            && (out == Panic(InvalidFlags) <==> user && !flags)
            && (out == Panic(NotPageBoundary) <==> user && flags && !pages)
            && (out == Panic(CannotAllocate) <==> user && flags && pages && !room)
            && (out == Panic(NotMapped) <==> user && flags && pages && room && prot == 1 && t.None?)
            && (out == Panic(AlreadyMapped) <==> user && flags && pages && room && prot % 2 == 0 && t.Some?)
            && (out.Done? <==> user && flags && pages && room && if prot == 1 then t.Some? else t.None?)
  {
    assert VmAreas(a)[0].start == if a.X86? then 0x4000_0000 else 0x1000_0000_0000;
  }

  // The leaf word that _map writes
  function NewLeaf(pa: nat, prot: nat): nat {
    if Unmaps(prot) then 0 else Entry(pa, prot / 4 % 2 == 1, true)
  }

  // The verdict of lines 150 and 153 on a page that translated to t
  function Judged(prot: nat, t: Option<Translation>): Outcome {
    if Unmaps(prot) then if t.None? then Panic(NotMapped) else Done
    else if t.Some? then Panic(AlreadyMapped) else Done
  }

  /** From v0 to v the page of path r got frame pa and the write permission of prot, or lost its mapping, and no other
      page changed its translation. */
  ghost predicate Remapped(a: Arch, v0: View, v: View, r: Path, pa: nat, prot: nat) {
    forall o {:trigger Translate(a, v.mem, v.ptr, o)} :: IsPath(a, o) ==>
      Translate(a, v.mem, v.ptr, o) ==
      if o != r then Translate(a, v0.mem, v0.ptr, o)
      else if Unmaps(prot) then None else Some(Translation(pa, prot / 4 % 2 == 1, true))
  }

  // ---- sequences of calls to _map after _protect, without page tables

  datatype Call = Call(va: nat, pa: nat, prot: nat)

  /** The user pages that are mapped after the calls. */
  function MappedBy(calls: seq<Call>): set<nat> {
    if calls == [] then {} else After(MappedBy(calls[..|calls| - 1]), calls[|calls| - 1])
  }

  function After(mapped: set<nat>, c: Call): set<nat> {
    if c.prot == 1 then mapped - {c.va} else mapped + {c.va}
  }

  /** The tables that they need, each entry of which is the path that leads to it. */
  ghost function TablesOf(a: Arch, calls: seq<Call>): set<Path> {
    if calls == [] then {[]}
    else TablesOf(a, calls[..|calls| - 1]) + Passed(PathOf(a, calls[|calls| - 1].va), Levels(a))
  }

  /** A call maps an aligned user page that is not mapped, or unmaps one that is. */
  predicate Legal(a: Arch, c: Call, mapped: set<nat>) {
    && (if a.X86? then 0x4000_0000 <= c.va < 0x8000_0000 else 0x1000_0000_0000 <= c.va < 0x1080_0000_0000)
    && c.va % 4096 == 0 && c.pa % 4096 == 0
    && if c.prot == 1 then c.va in mapped else c.prot % 2 == 0 && c.va !in mapped
  }

  /** The first k + 1 calls need no more than n tables, and the last of them is legal. */
  ghost predicate Succeeds(a: Arch, calls: seq<Call>, n: nat, k: nat)
    requires k < |calls|
  {
    Legal(a, calls[k], MappedBy(calls[..k])) && |TablesOf(a, calls[..k + 1])| <= n
  }

  ghost predicate Succeed(a: Arch, calls: seq<Call>, n: nat, m: nat)
    requires m <= |calls|
  {
    forall k :: 0 <= k < m ==> Succeeds(a, calls, n, k)
  }

  ghost predicate AllSucceed(a: Arch, calls: seq<Call>, n: nat) {
    n >= 1 && Succeed(a, calls, n, |calls|)
  }

  lemma SucceedStep(a: Arch, calls: seq<Call>, n: nat, i: nat, ok: bool)
    requires i < |calls| && Succeed(a, calls, n, i) && (ok <==> Succeeds(a, calls, n, i))
    ensures ok ==> Succeed(a, calls, n, i + 1)
    ensures !ok ==> !Succeed(a, calls, n, |calls|)
  {
  }

  // The user pages of v that translate are those of mapped
  ghost predicate MapsOnly(a: Arch, v: View, mapped: set<nat>) {
    forall x {:trigger PathOf(a, x)} :: InUvm(a, x) && x % 4096 == 0 ==>
      (Translate(a, v.mem, v.ptr, PathOf(a, x)).Some? <==> x in mapped)
  }

  lemma UserPagesApart(a: Arch, x: nat, y: nat)
    requires InUvm(a, x) && InUvm(a, y) && x % 4096 == 0 && y % 4096 == 0
    ensures PathOf(a, x) == PathOf(a, y) <==> x == y
  {
    UserIsNotKernel(a, x);
    UserIsNotKernel(a, y);
    PathIsPage(a, x, y);
  }

  lemma MapsAfter(a: Arch, v0: View, v: View, mapped: set<nat>, c: Call)
    requires MapsOnly(a, v0, mapped) && Remapped(a, v0, v, PathOf(a, c.va), c.pa, c.prot)
    requires InUvm(a, c.va) && c.va % 4096 == 0 && (Unmaps(c.prot) ==> c.prot == 1)
    ensures MapsOnly(a, v, After(mapped, c))
  {
    forall x | InUvm(a, x) && x % 4096 == 0
      ensures Translate(a, v.mem, v.ptr, PathOf(a, x)).Some? <==> x in After(mapped, c)
    {
      UserPagesApart(a, x, c.va);
    }
  }

  lemma NothingMapped(a: Arch, v: View)
    requires forall r :: IsPath(a, r) && r[0] !in KernelIndices(a) ==> Translate(a, v.mem, v.ptr, r).None?
    ensures MapsOnly(a, v, {})
  {
    forall x | InUvm(a, x) && x % 4096 == 0 ensures Translate(a, v.mem, v.ptr, PathOf(a, x)).None? {
      UserIsNotKernel(a, x);
    }
  }

  // Tables and supply add up
  lemma TablesAdd(t0: map<Path, nat>, s0: seq<nat>, t: map<Path, nat>, s: seq<nat>, r: Path, n: nat)
    requires n <= |r| && Paid(t0, s0, t, s, r, n)
    ensures |t.Keys| + |s| == |t0.Keys| + |s0|
  {
    MissingIsCount(t0, r, n);
    UnionSize(t0.Keys, Passed(r, n), t.Keys);
  }

  lemma UnionSize(x: set<Path>, y: set<Path>, u: set<Path>)
    requires u == x + y
    ensures |u| == |x| + |y - x|
  {
    assert u == x + (y - x);
  }

  lemma RoomIff(t0: map<Path, nat>, s0: seq<nat>, r: Path, n: nat, total: nat)
    requires n <= |r| && |t0.Keys| + |s0| == total
    ensures |Passed(r, n) - t0.Keys| <= |s0| <==> |t0.Keys + Passed(r, n)| <= total
  {
    UnionSize(t0.Keys, Passed(r, n), t0.Keys + Passed(r, n));
  }

  lemma NextCall(a: Arch, calls: seq<Call>, i: nat)
    requires i < |calls|
    ensures TablesOf(a, calls[..i + 1]) == TablesOf(a, calls[..i]) + Passed(PathOf(a, calls[i].va), Levels(a))
    ensures MappedBy(calls[..i + 1]) == After(MappedBy(calls[..i]), calls[i])
  {
    assert calls[..i + 1][..i] == calls[..i];
  }

  // _map succeeds on call i exactly if the call does
  lemma SucceedsIff(a: Arch, v: View, calls: seq<Call>, i: nat, s1: seq<nat>, total: nat, ok: bool)
    requires i < |calls| && v.tree.Keys == TablesOf(a, calls[..i]) && |v.tree.Keys| + |s1| == total
    requires MapsOnly(a, v, MappedBy(calls[..i]))
    requires var c := calls[i];
             var user := if a.X86? then 0x4000_0000 <= c.va < 0x8000_0000
                         else 0x1000_0000_0000 <= c.va < 0x1080_0000_0000;
             ok <==> user && (c.prot % 2 == 1 ==> c.prot == 1) && c.va % 4096 == 0 && c.pa % 4096 == 0
                     && |Passed(PathOf(a, c.va), Levels(a)) - v.tree.Keys| <= |s1|
                     && if c.prot == 1 then Translate(a, v.mem, v.ptr, PathOf(a, c.va)).Some?
                        else !Translate(a, v.mem, v.ptr, PathOf(a, c.va)).Some?
    ensures ok <==> Succeeds(a, calls, total, i)
  {
    var c := calls[i];
    NextCall(a, calls, i);
    RoomIff(v.tree, s1, PathOf(a, c.va), Levels(a), total);
    assert VmAreas(a)[0].start == if a.X86? then 0x4000_0000 else 0x1000_0000_0000;
  }

  /** With as many pages as there are levels, any aligned page of the user area can be mapped, unmapped and mapped
      again, to any aligned frames. */
  lemma MapUnmapMap(a: Arch, va: nat, pa: nat, prot: nat, pa2: nat, prot2: nat, n: nat)
    requires if a.X86? then 0x4000_0000 <= va < 0x8000_0000 else 0x1000_0000_0000 <= va < 0x1080_0000_0000
    requires va % 4096 == 0 && pa % 4096 == 0 && pa2 % 4096 == 0 && prot % 2 == 0 && prot2 % 2 == 0
    requires n >= Levels(a)
    ensures AllSucceed(a, [Call(va, pa, prot), Call(va, 0, 1), Call(va, pa2, prot2)], n)
  {
    var calls := [Call(va, pa, prot), Call(va, 0, 1), Call(va, pa2, prot2)];
    var tables := Passed(PathOf(a, va), Levels(a));
    PassedSize(PathOf(a, va), Levels(a));
    assert calls[..0] == [] && calls[..1][..0] == [] && calls[..2][..1] == calls[..1] && calls[..3][..2] == calls[..2];
    assert PathOf(a, va)[..0] == [] && [] in tables;
    assert TablesOf(a, calls[..0]) == {[]};
    assert TablesOf(a, calls[..1]) == tables;
    assert TablesOf(a, calls[..2]) == tables;
    assert TablesOf(a, calls[..3]) == tables;
    assert MappedBy(calls[..0]) == {};
    assert MappedBy(calls[..1]) == {va};
    assert MappedBy(calls[..2]) == {};
    forall k | 0 <= k < |calls| ensures Succeeds(a, calls, n, k) { }
  }

  lemma {:induction false} PassedSize(r: Path, n: nat)
    requires n <= |r|
    ensures |Passed(r, n)| == n
  {
    if n > 0 {
      PassedSize(r, n - 1);
      PassedNext(r, n - 1);
    } else {
      assert Passed(r, 0) == {};
    }
  }

  // ---- the tables that _vme_init needs

  /** The root, and one table for each of the 268 level-1 entries of the kernel. */
  ghost function KernelTree32(): set<Path> {
    {[]} + EntryPaths(0, 256) + EntryPaths(1012, 1024)
  }

  ghost function EntryPaths(lo: nat, hi: nat): set<Path> {
    set i | lo <= i < hi :: [i]
  }

  lemma {:induction false} EntryPathsSize(lo: nat, hi: nat)
    requires lo <= hi
    ensures |EntryPaths(lo, hi)| == hi - lo
    decreases hi
  {
    if lo == hi {
      assert EntryPaths(lo, hi) == {};
    } else {
      EntryPathsSize(lo, hi - 1);
      assert EntryPaths(lo, hi) == EntryPaths(lo, hi - 1) + {[hi - 1]};
    }
  }

  lemma DisjointSize(x: set<Path>, y: set<Path>, u: set<Path>)
    requires x !! y && u == x + y
    ensures |u| == |x| + |y|
  {
  }

  lemma KernelTreeSize()
    ensures |KernelTree32()| == 269
  {
    EntryPathsSize(0, 256);
    EntryPathsSize(1012, 1024);
    DisjointSize({[]}, EntryPaths(0, 256), {[]} + EntryPaths(0, 256));
    DisjointSize({[]} + EntryPaths(0, 256), EntryPaths(1012, 1024), KernelTree32());
  }

  /** Only tables of the kernel's tree have been made, and each came from the supply. */
  ghost predicate Building(t: map<Path, nat>, supply: seq<nat>, total: nat) {
    (forall p {:trigger InKernelTree(p)} :: p in t ==> InKernelTree(p)) && |t.Keys| + |supply| == total
  }

  lemma NothingBuilt(v: View, supply: seq<nat>)
    requires v.ptr == 0 && v.tree == map[]
    ensures Building(v.tree, supply, |supply|) && TreeOk(X86, v, false, {}) && Identity(v, KernelPagesOf(0))
  {
  }

  predicate InKernelTree(p: Path) {
    p == [] || (|p| == 1 && p[0] < 1024 && KernelIndex(X86, p[0]))
  }

  lemma KernelTreeIs(p: Path)
    ensures p in KernelTree32() <==> InKernelTree(p)
  {
    if |p| == 1 { assert p == [p[0]]; }
  }

  lemma PassedByKernel(r: Path)
    requires IsPath(X86, r) && KernelIndex(X86, r[0])
    ensures forall p :: p in Passed(r, 2) ==> InKernelTree(p)
  {
  }

  lemma SubsetSize(x: set<Path>, y: set<Path>)
    requires x <= y
    ensures |x| <= |y|
  {
    UnionSize(x, y, y);
  }

  // A walk of _vme_init that finds or makes every table, or fails
  lemma BuildingStep(a: Arch, t0: map<Path, nat>, s0: seq<nat>, t: map<Path, nat>, supply: seq<nat>, r: Path,
                     total: nat, ok: bool)
    requires a.X86? && IsPath(a, r) && KernelIndex(a, r[0]) && Building(t0, s0, total)
    requires if ok then Paid(t0, s0, t, supply, r, Levels(a)) else |s0| < Missing(t0, r, Levels(a))
    ensures if ok then Building(t, supply, total) else total < 269
  {
    if ok {
      PassedByKernel(r);
      TablesAdd(t0, s0, t, supply, r, 2);
    } else {
      BuildingFails(t0, s0, r, total);
    }
  }

  lemma BuildingFails(t0: map<Path, nat>, s0: seq<nat>, r: Path, total: nat)
    requires IsPath(X86, r) && KernelIndex(X86, r[0]) && Building(t0, s0, total) && |s0| < Missing(t0, r, 2)
    ensures total < 269
  {
    PassedByKernel(r);
    MissingIsCount(t0, r, 2);
    UnionSize(t0.Keys, Passed(r, 2), t0.Keys + Passed(r, 2));
    forall p | p in t0.Keys + Passed(r, 2) ensures p in KernelTree32() { KernelTreeIs(p); }
    SubsetSize(t0.Keys + Passed(r, 2), KernelTree32());
    KernelTreeSize();
  }

  lemma EntryIsMade(v: View, i: nat)
    requires Identity(v, KernelPagesOf(|VmAreas(X86)|)) && i < 1024 && KernelIndex(X86, i)
    ensures [i] in v.tree
  {
    var r: Path := [i, 0];
    IdentityWord(v, r);
    EntryFields(PageNo(r) * 4096, true, false);
    assert r[..1] == [i];
  }

  lemma BuildingDone(v: View, supply: seq<nat>, total: nat)
    requires Building(v.tree, supply, total) && Identity(v, KernelPagesOf(|VmAreas(X86)|)) && [] in v.tree
    ensures total >= 269
  {
    forall p | p in KernelTree32() ensures p in v.tree.Keys {
      KernelTreeIs(p);
      if p != [] { EntryIsMade(v, p[0]); }
    }
    SubsetSize(KernelTree32(), v.tree.Keys);
    KernelTreeSize();
  }

  // ---- _protect

  // The level-1 entries of an area
  function First(a: Arch, area: Area): nat {
    area.start / Span(a, 1)
  }

  function Count(a: Arch, area: Area): nat {
    var top := if area.end == 0 then 0x1_0000_0000 else area.end;
    if top < area.start then 0 else (top - area.start) / Span(a, 1)
  }

  // cur after k turns of the loop of lines 124-129
  function CurAt(a: Arch, area: Area, k: nat): nat {
    if k == 0 then area.start else Wrap(a, CurAt(a, area, k - 1) + Span(a, 1))
  }

  // The address of level-1 entry i of the 32-bit tables
  lemma EntryStep(i: nat)
    requires i <= 1025
    ensures i < 1024 ==> Wrap(X86, i * 0x40_0000) == i * 0x40_0000 && IndexOf(X86, i * 0x40_0000, 1) == i
    ensures i == 1024 ==> Wrap(X86, i * 0x40_0000) == 0
  {
    if i < 1024 {
      DivModUnique(i * 0x40_0000, 0x1_0000_0000, 0, i * 0x40_0000);
      DivModUnique(i * 0x40_0000, 0x40_0000, i, 0);
    }
  }

  // Entry First + k for k below Count, and the end of the area at Count
  lemma {:induction false} CurIs(a: Arch, area: Area, k: nat)
    requires area in VmAreas(a) && area.kernel && k <= Count(a, area)
    ensures CurAt(a, area, k) == if k < Count(a, area) then (First(a, area) + k) * Span(a, 1) else area.end
  {
    if k > 0 {
      CurIs(a, area, k - 1);
      if a.X86? { EntryStep(First(a, area) + k); }
    }
  }

  /** The loop of lines 124-129 visits each entry of a kernel area once and stops, though 0xfd000000 counts up past the
      top of the 32-bit address space to reach its end, 0. */
  lemma AreaStep(a: Arch, area: Area, k: nat)
    requires area in VmAreas(a) && area.kernel && k <= Count(a, area)
    ensures CurAt(a, area, k) == area.end <==> k == Count(a, area)
    ensures k < Count(a, area) ==> IndexOf(a, CurAt(a, area, k), 1) == First(a, area) + k < Entries(a)
  {
    CurIs(a, area, k);
    if a.X86? && k < Count(a, area) { EntryStep(First(a, area) + k); }
  }

  // curs are the values of cur in that loop
  ghost predicate Steps(a: Arch, area: Area, curs: seq<nat>) {
    && |curs| == Count(a, area) + 1 && curs[0] == area.start && curs[Count(a, area)] == area.end
    && forall k {:trigger Step(a, area, curs, k)} :: 0 <= k < Count(a, area) ==> Step(a, area, curs, k)
  }

  predicate Step(a: Arch, area: Area, curs: seq<nat>, k: nat)
    requires k + 1 < |curs|
  {
    && curs[k] != area.end && IndexOf(a, curs[k], 1) == First(a, area) + k < Entries(a)
    && Wrap(a, curs[k] + Span(a, 1)) == curs[k + 1]
  }

  lemma AllSteps(a: Arch, area: Area) returns (curs: seq<nat>)
    requires area in VmAreas(a) && area.kernel
    ensures Steps(a, area, curs)
  {
    curs := seq(Count(a, area) + 1, k requires 0 <= k <= Count(a, area) => CurAt(a, area, k));
    AreaStep(a, area, 0);
    AreaStep(a, area, Count(a, area));
    forall k | 0 <= k < Count(a, area) ensures Step(a, area, curs, k) { AreaStep(a, area, k); }
  }

  // Entry i belongs to one of the first m areas, and that is the kernel's
  predicate Covered(a: Arch, m: nat, i: nat)
    requires m <= |VmAreas(a)|
  {
    m > 0 && (Covered(a, m - 1, i) || var area := VmAreas(a)[m - 1];
      area.kernel && First(a, area) <= i < First(a, area) + Count(a, area))
  }

  lemma CoveredIsKernel(a: Arch, i: nat)
    requires i < Entries(a)
    ensures Covered(a, |VmAreas(a)|, i) <==> i in KernelIndices(a)
  {
    if a.X64? {
      assert Covered(a, 2, i) <==> Covered(a, 1, i) || i == 0;
      assert !Covered(a, 1, i);
    } else {
      assert Covered(a, 3, i) <==> Covered(a, 2, i) || 1012 <= i < 1024;
      assert Covered(a, 2, i) <==> Covered(a, 1, i) || 0 <= i < 256;
      assert !Covered(a, 1, i);
    }
  }

  // From m0 to m the entries first to first + n - 1 of the table upt were copied from kpt
  ghost predicate Copied(a: Arch, m0: Memory, m: Memory, upt: nat, kpt: nat, first: nat, n: nat)
    requires kpt in m0 && upt in m0 && |m0[kpt]| == |m0[upt]| == Entries(a)
  {
    && upt in m && |m[upt]| == Entries(a) && m == m0[upt := m[upt]]
    && forall i :: 0 <= i < Entries(a) ==> m[upt][i] == if first <= i < first + n then m0[kpt][i] else m0[upt][i]
  }

  lemma CopiedStep(a: Arch, m0: Memory, m: Memory, upt: nat, kpt: nat, first: nat, n: nat)
    requires kpt in m0 && upt in m0 && upt != kpt && |m0[kpt]| == |m0[upt]| == Entries(a)
    requires Copied(a, m0, m, upt, kpt, first, n) && first + n < Entries(a)
    ensures kpt in m && Copied(a, m0, Written(m, upt, first + n, m[kpt][first + n]), upt, kpt, first, n + 1)
  {
  }

  /** A root table that shares the kernel's entries and is empty otherwise is an address space with no user page. */
  lemma NewSpace(a: Arch, v: View, kpt: nat, levels: map<nat, nat>, upt: nat)
    requires KernelOk(a, v.mem, kpt, levels) && upt !in levels
    requires upt % 4096 == 0 && upt in v.mem && |v.mem[upt]| == Entries(a)
    requires v.ptr == Entry(upt, false, true) && v.tree == map[[] := upt]
    requires forall i :: 0 <= i < Entries(a) ==> v.mem[upt][i] == if i in KernelIndices(a) then v.mem[kpt][i] else 0
    ensures SpaceOk(a, v, kpt, levels)
    ensures forall r :: IsPath(a, r) ==>
              Translate(a, v.mem, v.ptr, r) == if r[0] in KernelIndices(a) then Lookup(a, v.mem, kpt, r) else None
  {
    EntryFields(upt, false, true);
    forall p, i | p in v.tree && 0 <= i < Entries(a)
      ensures NodeOk(a, v, KernelIndices(a), p) && WordOk(a, v, true, KernelIndices(a), p, i) { }
    forall r | IsPath(a, r)
      ensures Translate(a, v.mem, v.ptr, r) == if r[0] in KernelIndices(a) then Lookup(a, v.mem, kpt, r) else None {
      if r[0] in KernelIndices(a) { KernelPages(a, v, kpt, levels, r); }
    }
  }

  // ---- teardown

  // The pages that teardown gives back: at level 0 it looks at the root word, from level 1 on at the table of path p
  ghost function Gone(a: Arch, v: View, level: nat, p: Path): set<nat> {
    if level == 0 then v.tree.Values else if level <= Levels(a) then Below(v.tree, p) else {}
  }

  ghost function GoneUpTo(v: View, level: nat, p: Path, index: nat): set<nat> {
    if level == 0 then if index == 0 then {} else v.tree.Values else BelowUpTo(v.tree, p, index)
  }

  // An entry leads to a table of the address space exactly when it is present and for users
  lemma EntryLeads(a: Arch, v: View, p: Path, index: nat, w: nat, q: Path)
    requires TreeOk(a, v, true, KernelIndices(a)) && p in v.tree && NodeOk(a, v, KernelIndices(a), p)
    requires index < Entries(a) && w == v.mem[v.tree[p]][index] && q == p + [index]
    ensures q in v.tree <==> |q| < Levels(a) && Present(w) && User(w)
    ensures q in v.tree ==> v.tree[q] == BaseOf(w)
  {
    assert WordOk(a, v, true, KernelIndices(a), p, index);
    if q in v.tree {
      assert NodeOk(a, v, KernelIndices(a), q);
      if |p| == 0 { assert q[0] == index; }
    }
  }

  // The pages below it
  lemma EntryGone(a: Arch, v: View, p: Path, index: nat, w: nat, q: Path)
    requires TreeOk(a, v, true, KernelIndices(a)) && p in v.tree && NodeOk(a, v, KernelIndices(a), p)
    requires index < Entries(a) && w == v.mem[v.tree[p]][index] && q == p + [index]
    ensures Below(v.tree, q) == if Present(w) && User(w) && |q| < Levels(a) then Gone(a, v, |q| + 1, q) else {}
  {
    EntryLeads(a, v, p, index, w, q);
    if q !in v.tree { BelowMissing(a, v, true, KernelIndices(a), q); }
  }

  // The word at level 0 leads to the root table
  lemma RootStep(a: Arch, v: View, w: nat)
    requires TreeOk(a, v, true, KernelIndices(a)) && w == v.ptr
    ensures v.tree.Values == if Present(w) && User(w) then Gone(a, v, 1, []) else {}
    ensures Present(w) && User(w) ==> [] in v.tree && v.tree[[]] == BaseOf(w)
  {
    BelowRoot(v);
    if !Present(w) { BelowMissing(a, v, true, KernelIndices(a), []); }
  }

  // A word of the table leads to the pages below it exactly when it is present and for users
  lemma GoneStep(a: Arch, v: View, level: nat, p: Path, index: nat, w: nat)
    requires TreeOk(a, v, true, KernelIndices(a)) && level <= Levels(a)
    requires if level == 0 then index == 0 && w == v.ptr
             else p in v.tree && NodeOk(a, v, KernelIndices(a), p) && |p| == level - 1
                  && index < Entries(a) && w == v.mem[v.tree[p]][index]
    ensures var below := if Present(w) && User(w) then Gone(a, v, level + 1, Deeper(level, p, index)) else {};
            && GoneUpTo(v, level, p, index + 1) == GoneUpTo(v, level, p, index) + below
            && GoneUpTo(v, level, p, index) !! below
    ensures Present(w) && User(w) && level < Levels(a) ==>
              Deeper(level, p, index) in v.tree && v.tree[Deeper(level, p, index)] == BaseOf(w)
  {
    if level == 0 {
      RootStep(a, v, w);
    } else {
      BelowStep(a, v, true, KernelIndices(a), p, index);
      EntryLeads(a, v, p, index, w, p + [index]);
      EntryGone(a, v, p, index, w, p + [index]);
    }
  }

  lemma GoneWithin(a: Arch, v: View, level: nat, p: Path, index: nat)
    requires TreeOk(a, v, true, KernelIndices(a)) && level <= Levels(a)
    requires if level == 0 then index <= 1 else p in v.tree && index <= Entries(a)
    ensures GoneUpTo(v, level, p, index) <= Gone(a, v, level, p)
    ensures level > 0 ==> v.tree[p] in Gone(a, v, level, p) && v.tree[p] !in GoneUpTo(v, level, p, index)
  {
    if level > 0 { BelowSplit(a, v, true, KernelIndices(a), p); }
  }

  function Deeper(level: nat, p: Path, index: nat): Path {
    if level == 0 then [] else p + [index]
  }

  // list holds each page of s once
  ghost predicate Lists(list: seq<nat>, s: set<nat>) {
    multiset(list) == multiset(s)
  }

  lemma ListsJoin(l1: seq<nat>, s1: set<nat>, l2: seq<nat>, s2: set<nat>)
    requires Lists(l1, s1) && Lists(l2, s2) && s1 !! s2
    ensures Lists(l1 + l2, s1 + s2)
  {
    assert multiset(s1 + s2) == multiset(s1) + multiset(s2);
  }

  // From m0 and f0 to m and f the pages of set s, and no others, were freed, each once
  ghost predicate Freed(m0: Memory, f0: seq<nat>, m: Memory, f: seq<nat>, s: set<nat>) {
    m == m0 - s && f0 <= f && Lists(f[|f0|..], s)
  }

  // The pages of s are as they were in v
  ghost predicate Intact(m: Memory, v: View, s: set<nat>) {
    forall t :: t in s ==> t in m && t in v.mem && m[t] == v.mem[t]
  }

  // After the entries before index, the table of path p and the pages below its other entries are still as in v
  lemma StillIntact(a: Arch, m0: Memory, f0: seq<nat>, m: Memory, f: seq<nat>, v: View, level: nat, p: Path, index: nat)
    requires TreeOk(a, v, true, KernelIndices(a)) && level <= Levels(a)
    requires if level == 0 then index <= 1 else p in v.tree && index <= Entries(a)
    requires Intact(m0, v, Gone(a, v, level, p)) && Freed(m0, f0, m, f, GoneUpTo(v, level, p, index))
    ensures Intact(m, v, Gone(a, v, level, p) - GoneUpTo(v, level, p, index))
    ensures level > 0 ==> v.tree[p] in m && v.tree[p] in v.mem && m[v.tree[p]] == v.mem[v.tree[p]]
  {
    GoneWithin(a, v, level, p, index);
  }

  lemma FreedJoin(m0: Memory, f0: seq<nat>, m1: Memory, f1: seq<nat>, s1: set<nat>, m2: Memory, f2: seq<nat>,
                  s2: set<nat>)
    requires Freed(m0, f0, m1, f1, s1) && Freed(m1, f1, m2, f2, s2) && s1 !! s2
    ensures Freed(m0, f0, m2, f2, s1 + s2)
  {
    ListsJoin(f1[|f0|..], s1, f2[|f1|..], s2);
    assert f2[|f0|..] == f1[|f0|..] + f2[|f1|..];
  }

  class Mmu {
    const arch: Arch
    var mem: Memory
    var kpt: nat
    ghost var levels: map<nat, nat>   // the kernel's table pages
    var supply: seq<nat>              // what pgalloc will return, in order; NULL when it is empty
    var freed: seq<nat>               // what pgfree has been given, in order

    ghost predicate SupplyOk()
      reads `mem, `supply
    {
      Fresh(mem, supply)
    }

    ghost function Now(s: Space): View
      reads `mem, s
    {
      View(mem, s.ptr, s.tree)
    }

    /** pgallocz */
    method PgAllocZ() returns (page: Option<nat>)
      requires SupplyOk()
      modifies `mem, `supply
      ensures SupplyOk()
      ensures old(supply) == [] ==> page.None? && mem == old(mem) && supply == []
      ensures old(supply) != [] ==>
                && page == Some(old(supply)[0]) && supply == old(supply)[1..] && page.value % 4096 == 0
                && page.value !in old(mem) && mem == old(mem)[page.value := Zeros(arch)]
    {
      if supply == [] { return None; }
      page := Some(supply[0]);
      supply := supply[1..];
      mem := mem[page.value := Zeros(arch)];
    }

    predicate InMemory(c: Cell)
      reads `mem
    {
      c.Slot? ==> c.page in mem && c.index < |mem[c.page]|
    }

    function Load(s: Space, c: Cell): nat
      requires InMemory(c)
      reads `mem, s`ptr
    {
      if c.Root? then s.ptr else mem[c.page][c.index]
    }

    method Store(s: Space, c: Cell, w: nat)
      requires InMemory(c)
      modifies `mem, s`ptr
      ensures c.Root? ==> s.ptr == w && mem == old(mem)
      ensures c.Slot? ==> s.ptr == old(s.ptr) && mem == Written(old(mem), c.page, c.index, w)
    {
      match c
      case Root => s.ptr := w;
      case Slot(page, index) =>
        mem := Written(mem, page, index, w);
    }

    // indexof
    method IndexAt(addr: nat, i: nat) returns (index: nat)
      requires i <= Levels(arch)
      ensures index == if i == 0 then 0 else PathOf(arch, addr)[i - 1]
    {
      var info := PtInfo(arch, i);
      index := Shr(And(addr, info.mask), info.shift);
      IndexIsMaskAndShift(arch, addr, i);
    }

    /** ptwalk with flags PTE_W, and PTE_U if u: the cell of the leaf word, allocating the tables that are missing. */
    method PtWalk(s: Space, addr: nat, u: bool, ghost foreign: set<nat>) returns (cell: Option<Cell>)
      requires SupplyOk() && TreeOk(arch, Now(s), u, foreign) && PathOf(arch, addr)[0] !in foreign
      modifies `mem, `supply, s
      ensures SupplyOk() && Walking(arch, old(Now(s)), old(supply), Now(s), supply, u, foreign, PathOf(arch, addr))
      ensures cell.None? ==> supply == [] && |old(supply)| < Missing(old(s.tree), PathOf(arch, addr), Levels(arch))
      ensures cell.Some? ==> Paid(old(s.tree), old(supply), s.tree, supply, PathOf(arch, addr), Levels(arch))
      ensures cell.Some? ==>
                var r, last := PathOf(arch, addr), Levels(arch) - 1;
                && r[..last] in s.tree && cell == Some(Slot(s.tree[r[..last]], r[last])) && InMemory(cell.value)
    {
      ghost var r, v0, s0 := PathOf(arch, addr), Now(s), supply;
      GrownRefl(arch, v0, u, foreign);
      PaidNothing(v0.tree, s0, r);
      cell := WalkTables(s, addr, u, r, v0, s0, foreign);
    }

    // Lines 60-75, on the way from v0 and s0 along path r
    method WalkTables(s: Space, addr: nat, u: bool, ghost r: Path, ghost v0: View, ghost s0: seq<nat>,
                      ghost foreign: set<nat>)
      returns (cell: Option<Cell>)
      requires SupplyOk() && r == PathOf(arch, addr) && r[0] !in foreign
      requires Walking(arch, v0, s0, Now(s), supply, u, foreign, r) && Paid(v0.tree, s0, s.tree, supply, r, 0)
      modifies `mem, `supply, s
      ensures SupplyOk() && Walking(arch, v0, s0, Now(s), supply, u, foreign, r)
      ensures cell.None? ==> supply == [] && |s0| < Missing(v0.tree, r, Levels(arch))
      ensures cell.Some? ==> Paid(v0.tree, s0, s.tree, supply, r, Levels(arch))
      ensures cell.Some? ==>
                var last := Levels(arch) - 1;
                && r[..last] in s.tree && cell == Some(Slot(s.tree[r[..last]], r[last])) && InMemory(cell.value)
    {
      var cur: Option<nat> := None;
      var i := 0;
      while i <= Levels(arch)
        invariant i <= Levels(arch) && SupplyOk()
        invariant Walking(arch, v0, s0, Now(s), supply, u, foreign, r) && Standing(Now(s), r, i, cur)
        invariant Paid(v0.tree, s0, s.tree, supply, r, i)
      {
        var index := IndexAt(addr, i);
        var pt := if cur.None? then Root else Slot(cur.value, index);
        if i > 0 { StandsInTable(arch, Now(s), u, foreign, r, i, cur); }
        if i == Levels(arch) { return Some(pt); }
        cur := NextTable(s, pt, u, r, i, v0, s0, foreign);
        if cur.None? { return None; }
        i := i + 1;
      }
      assert false;
    }

    // Lines 66-72: the next table of the walk, or None if pgalloc fails
    method NextTable(s: Space, pt: Cell, u: bool, ghost r: Path, ghost i: nat, ghost v0: View, ghost s0: seq<nat>,
                     ghost foreign: set<nat>)
      returns (next: Option<nat>)
      requires SupplyOk() && IsPath(arch, r) && r[0] !in foreign && i < Levels(arch)
      requires Walking(arch, v0, s0, Now(s), supply, u, foreign, r) && InMemory(pt)
      requires Paid(v0.tree, s0, s.tree, supply, r, i)
      requires if i == 0 then pt == Root else r[..i - 1] in s.tree && pt == Slot(s.tree[r[..i - 1]], r[i - 1])
      modifies `mem, `supply, s
      ensures SupplyOk() && Walking(arch, v0, s0, Now(s), supply, u, foreign, r)
      ensures next.None? ==> supply == [] && |s0| < Missing(v0.tree, r, Levels(arch))
      ensures next.Some? ==> Standing(Now(s), r, i + 1, next) && Paid(v0.tree, s0, s.tree, supply, r, i + 1)
    {
      if i > 0 { assert NodeOk(arch, Now(s), foreign, r[..i - 1]) && r[..i][..i - 1] == r[..i - 1]; }
      Descend(arch, Now(s), u, foreign, r, i, Load(s, pt));
      if !Present(Load(s, pt)) {
        next := NewTable(s, pt, u, r, i, v0, s0, foreign);
      } else {
        next := Some(BaseOf(Load(s, pt)));
        PaidAlready(v0.tree, s0, s.tree, supply, r, i);
      }
    }

    // Lines 67-68
    method NewTable(s: Space, pt: Cell, u: bool, ghost r: Path, ghost i: nat, ghost v0: View, ghost s0: seq<nat>,
                    ghost foreign: set<nat>)
      returns (next: Option<nat>)
      requires SupplyOk() && IsPath(arch, r) && r[0] !in foreign && i < Levels(arch) && r[..i] !in s.tree
      requires Walking(arch, v0, s0, Now(s), supply, u, foreign, r) && InMemory(pt)
      requires Paid(v0.tree, s0, s.tree, supply, r, i) && (i > 0 ==> r[..i][..i - 1] == r[..i - 1])
      requires if i == 0 then pt == Root else r[..i - 1] in s.tree && pt == Slot(s.tree[r[..i - 1]], r[i - 1])
      modifies `mem, `supply, s
      ensures SupplyOk() && Walking(arch, v0, s0, Now(s), supply, u, foreign, r)
      ensures next.None? ==> supply == [] && |s0| < Missing(v0.tree, r, Levels(arch))
      ensures next.Some? ==> Standing(Now(s), r, i + 1, next) && Paid(v0.tree, s0, s.tree, supply, r, i + 1)
    {
      ghost var v, supplied := Now(s), supply;
      next := AddTable(s, pt, u, r[..i], foreign);
      if next.Some? {
        WalkAttach(arch, v0, s0, v, supplied, u, foreign, r, i);
        PaidNow(v0.tree, s0, v.tree, supplied, r, i, next.value);
      } else {
        NotPaid(v0.tree, s0, v.tree, r, i, Levels(arch));
      }
    }

    // A zeroed page entered at path p
    method AddTable(s: Space, pt: Cell, u: bool, ghost p: Path, ghost foreign: set<nat>) returns (next: Option<nat>)
      requires SupplyOk() && TreeOk(arch, Now(s), u, foreign) && InMemory(pt) && p !in s.tree && |p| < Levels(arch)
      requires if |p| == 0 then pt == Root
               else p[..|p| - 1] in s.tree && p[|p| - 1] < Entries(arch) && p[0] !in foreign
                    && pt == Slot(s.tree[p[..|p| - 1]], p[|p| - 1])
      modifies `mem, `supply, s
      ensures SupplyOk()
      ensures next.None? ==> supply == old(supply) == [] && Now(s) == old(Now(s))
      ensures next.Some? ==>
                && old(supply) != [] && next == Some(old(supply)[0]) && supply == old(supply)[1..]
                && CanAttach(arch, old(Now(s)), foreign, p, old(supply)[0])
                && Now(s) == Attach(arch, old(Now(s)), foreign, p, old(supply)[0], Entry(old(supply)[0], true, u))
    {
      if |p| > 0 { assert NodeOk(arch, Now(s), foreign, p[..|p| - 1]); }
      next := PgAllocZ();
      if next.None? { return; }
      Store(s, pt, Entry(next.value, true, u));
      s.tree := s.tree[p := next.value];
    }

    // ---- _map

    // Lines 149-156, on the leaf word of path r
    method SetEntry(s: Space, cell: Cell, pa: nat, prot: nat, ghost r: Path) returns (out: Outcome)
      requires SupplyOk() && SpaceOk(arch, Now(s), kpt, levels) && InMemory(cell) && pa % 4096 == 0
      requires IsPath(arch, r) && r[0] !in KernelIndices(arch) && r[..Levels(arch) - 1] in s.tree
      requires cell == Slot(s.tree[r[..Levels(arch) - 1]], r[Levels(arch) - 1])
      modifies `mem, s`ptr
      ensures SupplyOk() && SpaceOk(arch, Now(s), kpt, levels) && s.tree == old(s.tree)
      ensures out == Judged(prot, Translate(arch, old(mem), old(s.ptr), r))
      ensures !out.Done? ==> Now(s) == old(Now(s))
      ensures out.Done? ==> Remapped(arch, old(Now(s)), Now(s), r, pa, prot)
      ensures OnlyTree(old(mem), old(s.tree), mem, s.tree)
    {
      ghost var v := Now(s);
      GrownRefl(arch, v, true, KernelIndices(arch));
      TranslateIsFlat(arch, v, true, KernelIndices(arch), r);
      assert cell.page in s.tree.Values;
      if Unmaps(prot) {
        if !Present(Load(s, cell)) { return Panic(NotMapped); }
      } else {
        if Present(Load(s, cell)) { return Panic(AlreadyMapped); }
      }
      LeafWrite(arch, v, kpt, levels, r, NewLeaf(pa, prot));
      EntryFields(pa, prot / 4 % 2 == 1, true);
      Store(s, cell, NewLeaf(pa, prot));
      assert Now(s) == SetLeaf(arch, v, r, NewLeaf(pa, prot));
      return Done;
    }

    /** _map: afterwards the page translates to its new frame with the right write permission, or to nothing, and
        every other page, of users or of the kernel, translates as before.  It succeeds exactly for a page of the user
        area, aligned, with flags that are not at odds, not yet mapped (to unmap it: mapped), if the supply covers the
        tables that are missing; otherwise it panics with the first reason that applies. */
    method Map(s: Space, va: nat, pa: nat, prot: nat) returns (out: Outcome)
      requires SupplyOk() && SpaceOk(arch, Now(s), kpt, levels)
      modifies `mem, `supply, s
      ensures SupplyOk() && SpaceOk(arch, Now(s), kpt, levels)
      ensures var r := PathOf(arch, va);
              var user := if arch.X86? then 0x4000_0000 <= va < 0x8000_0000
                          else 0x1000_0000_0000 <= va < 0x1080_0000_0000;
              var flags, pages := prot % 2 == 1 ==> prot == 1, va % 4096 == 0 && pa % 4096 == 0;
              var room := |Passed(r, Levels(arch)) - old(s.tree.Keys)| <= |old(supply)|;
              var mapped := Translate(arch, old(mem), old(s.ptr), r).Some?;
              && (out == Panic(InvalidAddress) <==> !user)
              && (out == Panic(InvalidFlags) <==> user && !flags)
              && (out == Panic(NotPageBoundary) <==> user && flags && !pages)
              && (out == Panic(CannotAllocate) <==> user && flags && pages && !room)
              && (out == Panic(NotMapped) <==> user && flags && pages && room && prot == 1 && !mapped)
              && (out == Panic(AlreadyMapped) <==> user && flags && pages && room && prot % 2 == 0 && mapped)
              && (out.Done? <==> user && flags && pages && room && if prot == 1 then mapped else !mapped)
      ensures out.Done? ==> Remapped(arch, old(Now(s)), Now(s), PathOf(arch, va), pa, prot)
      ensures !out.Done? ==> forall o :: IsPath(arch, o) ==>
                Translate(arch, mem, s.ptr, o) == Translate(arch, old(mem), old(s.ptr), o)
      ensures out.Done? ==> Paid(old(s.tree), old(supply), s.tree, supply, PathOf(arch, va), Levels(arch))
      ensures s.tree.Values == old(s.tree.Values) + Taken(old(supply), supply)
      ensures forall t :: t in supply ==> t in old(supply)
      ensures OnlyTree(old(mem), old(s.tree), mem, s.tree)
    {
      ghost var r, t := PathOf(arch, va), Translate(arch, mem, s.ptr, PathOf(arch, va));
      ghost var room := Missing(s.tree, r, Levels(arch)) <= |supply|;
      MissingIsCount(s.tree, r, Levels(arch));
      if Checked(arch, va, pa, prot).Panic? {
        SameSpace(Now(s));
        out := Checked(arch, va, pa, prot);
      } else {
        out := Enter(s, va, pa, prot);
      }
      VerdictIs(arch, va, pa, prot, room, t, out);
    }

    lemma SameSpace(v: View)
      requires TreeOk(arch, v, true, KernelIndices(arch))
      ensures OnlyTree(v.mem, v.tree, v.mem, v.tree) && Taken(supply, supply) == {}
    {
      GrownRefl(arch, v, true, KernelIndices(arch));
    }

    // Lines 148-157
    method Enter(s: Space, va: nat, pa: nat, prot: nat) returns (out: Outcome)
      requires SupplyOk() && SpaceOk(arch, Now(s), kpt, levels) && Checked(arch, va, pa, prot).Done?
      modifies `mem, `supply, s
      ensures SupplyOk() && SpaceOk(arch, Now(s), kpt, levels)
      ensures out == if Missing(old(s.tree), PathOf(arch, va), Levels(arch)) > |old(supply)| then Panic(CannotAllocate)
                     else Judged(prot, Translate(arch, old(mem), old(s.ptr), PathOf(arch, va)))
      ensures out.Done? ==> Remapped(arch, old(Now(s)), Now(s), PathOf(arch, va), pa, prot)
      ensures out.Done? ==> Paid(old(s.tree), old(supply), s.tree, supply, PathOf(arch, va), Levels(arch))
      ensures !out.Done? ==> forall o :: IsPath(arch, o) ==>
                Translate(arch, mem, s.ptr, o) == Translate(arch, old(mem), old(s.ptr), o)
      ensures s.tree.Values == old(s.tree.Values) + Taken(old(supply), supply)
      ensures forall t :: t in supply ==> t in old(supply)
      ensures OnlyTree(old(mem), old(s.tree), mem, s.tree)
    {
      ghost var v0 := Now(s);
      UserIsNotKernel(arch, va);
      var entry := PtWalk(s, va, true, KernelIndices(arch));
      SpaceFrame(arch, v0, Now(s), kpt, levels);
      if entry.None? { return Panic(CannotAllocate); }
      out := SetAndWalk(s, entry.value, va, pa, prot);
    }

    // Lines 149-157: the second walk finds every table in place
    method SetAndWalk(s: Space, cell: Cell, va: nat, pa: nat, prot: nat) returns (out: Outcome)
      requires SupplyOk() && SpaceOk(arch, Now(s), kpt, levels) && InMemory(cell) && pa % 4096 == 0
      requires var r, last := PathOf(arch, va), Levels(arch) - 1;
               r[0] !in KernelIndices(arch) && r[..last] in s.tree && cell == Slot(s.tree[r[..last]], r[last])
      modifies `mem, `supply, s
      ensures SupplyOk() && SpaceOk(arch, Now(s), kpt, levels) && s.tree == old(s.tree) && supply == old(supply)
      ensures out == Judged(prot, Translate(arch, old(mem), old(s.ptr), PathOf(arch, va)))
      ensures !out.Done? ==> Now(s) == old(Now(s))
      ensures out.Done? ==> Remapped(arch, old(Now(s)), Now(s), PathOf(arch, va), pa, prot)
      ensures OnlyTree(old(mem), old(s.tree), mem, s.tree)
    {
      out := SetEntry(s, cell, pa, prot, PathOf(arch, va));
      if out.Done? { WalkAgain(s, va); }
    }

    // Line 157
    method WalkAgain(s: Space, va: nat)
      requires SupplyOk() && TreeOk(arch, Now(s), true, KernelIndices(arch))
      requires var r := PathOf(arch, va); r[0] !in KernelIndices(arch) && r[..Levels(arch) - 1] in s.tree
      modifies `mem, `supply, s
      ensures Now(s) == old(Now(s)) && supply == old(supply)
    {
      var cell := PtWalk(s, va, true, KernelIndices(arch));
    }

    // ---- _vme_init

    // The leaf word of page n of the kernel, whose cell a walk has found
    method EnterPage(s: Space, cell: Cell, cur: nat, ghost n: nat, ghost done: set<nat>)
      requires arch.X86? && SupplyOk() && TreeOk(X86, Now(s), false, {}) && Identity(Now(s), done)
      requires n < 0x10_0000 && cur == n * 4096 && PathOf(X86, cur)[..1] in s.tree && InMemory(cell)
      requires cell == Slot(s.tree[PathOf(X86, cur)[..1]], PathOf(X86, cur)[1])
      modifies `mem, s`ptr
      ensures SupplyOk() && TreeOk(X86, Now(s), false, {}) && Identity(Now(s), done + {n})
    {
      IdentityStep(Now(s), done, n);
      Store(s, cell, Entry(cur, true, false));
    }

    // The walk of line 105
    method KernelCell(s: Space, cur: nat, ghost total: nat) returns (cell: Option<Cell>)
      requires arch.X86? && SupplyOk() && TreeOk(arch, Now(s), false, {}) && Building(s.tree, supply, total)
      requires KernelIndex(arch, PathOf(arch, cur)[0])
      modifies `mem, `supply, s
      ensures SupplyOk() && TreeOk(arch, Now(s), false, {}) && Grown(arch, old(Now(s)), Now(s), {})
      ensures if cell.None? then total < 269 else Building(s.tree, supply, total)
      ensures cell.Some? ==>
                var r, last := PathOf(arch, cur), Levels(arch) - 1;
                && r[..last] in s.tree && cell == Some(Slot(s.tree[r[..last]], r[last])) && InMemory(cell.value)
    {
      ghost var t0, s0, r := s.tree, supply, PathOf(arch, cur);
      cell := PtWalk(s, cur, false, {});
      BuildingStep(arch, t0, s0, s.tree, supply, r, total, cell.Some?);
    }

    // Line 105, for page n of memory
    method MapPage(s: Space, cur: nat, ghost n: nat, ghost done: set<nat>, ghost total: nat) returns (ok: bool)
      requires arch.X86? && SupplyOk() && TreeOk(X86, Now(s), false, {}) && Identity(Now(s), done)
      requires n < 0x10_0000 && cur == n * 4096 && KernelIndex(X86, PathOf(X86, cur)[0])
      requires Building(s.tree, supply, total)
      modifies `mem, `supply, s
      ensures SupplyOk() && TreeOk(X86, Now(s), false, {})
      ensures ok ==> Identity(Now(s), done + {n}) && [] in s.tree
      ensures if ok then Building(s.tree, supply, total) else total < 269
    {
      var cell := KernelCell(s, cur, total);
      if cell.None? { return false; }
      PrefixInTree(X86, Now(s), false, {}, PathOf(X86, cur), 0, 1);
      EnterPage(s, cell.value, cur, n, done);
      ok := true;
    }

    // And for page k of the area
    method MapKernelPage(s: Space, area: Area, cur: nat, ghost k: nat, ghost done: set<nat>, ghost total: nat)
      returns (ok: bool)
      requires arch.X86? && SupplyOk() && TreeOk(X86, Now(s), false, {}) && Identity(Now(s), done + PagesUpTo(area, k))
      requires Building(s.tree, supply, total)
      requires area in VmAreas(X86) && area.kernel && k < PageCount(area) && cur == PageAt(area, k)
      modifies `mem, `supply, s
      ensures SupplyOk() && TreeOk(X86, Now(s), false, {})
      ensures ok ==> Identity(Now(s), done + PagesUpTo(area, k + 1)) && [] in s.tree
      ensures if ok then Building(s.tree, supply, total) else total < 269
    {
      PageStep(area, k);
      PagesGrow(area, done, k);
      KernelEntry(area, k, cur);
      ok := MapPage(s, cur, FirstPage(area) + k, done + PagesUpTo(area, k), total);
    }

    // Lines 102-106
    method MapKernelArea(s: Space, area: Area, ghost done: set<nat>, ghost total: nat) returns (ok: bool)
      requires arch.X86? && SupplyOk() && TreeOk(X86, Now(s), false, {}) && Identity(Now(s), done)
      requires area in VmAreas(X86) && area.kernel && Building(s.tree, supply, total)
      modifies `mem, `supply, s
      ensures SupplyOk() && TreeOk(X86, Now(s), false, {})
      ensures ok ==> Identity(Now(s), done + PagesUpTo(area, PageCount(area))) && [] in s.tree
      ensures if ok then Building(s.tree, supply, total) else total < 269
    {
      var cur := area.start;
      ghost var k, n := 0, PageCount(area);
      PageStep(area, 0);
      PagesGrow(area, done, 0);
      while cur != area.end
        invariant k <= n && cur == PageAt(area, k) && (k < n <==> cur != area.end) && (k > 0 ==> [] in s.tree)
        invariant SupplyOk() && TreeOk(X86, Now(s), false, {}) && Identity(Now(s), done + PagesUpTo(area, k))
        invariant Building(s.tree, supply, total)
        decreases n - k
      {
        ok := MapKernelPage(s, area, cur, k, done, total);
        if !ok { return; }
        cur := Wrap(X86, cur + 4096);
        k := k + 1;
        PageStep(area, k);
      }
      ok := true;
    }

    /** _vme_init: the kernel's tables map exactly the pages of the kernel areas, each to itself, writable and not for
        users, and are fit to be shared by every address space.  The 32-bit tables take 269 pages. */
    method VmeInit() returns (ok: bool)
      requires SupplyOk() && (arch.X64? ==> BootTables(mem))
      modifies `mem, `supply, `kpt, `levels
      ensures SupplyOk()
      ensures ok <==> arch.X64? || |old(supply)| >= 269
      ensures ok ==> KernelOk(arch, mem, kpt, levels)
      ensures ok ==> forall r :: IsPath(arch, r) ==> Lookup(arch, mem, kpt, r) == KernelMap(arch, r)
    {
      if arch.X64? {
        kpt := PML4_ADDR;
        levels := BootLevels();
        BootTablesAreShared(mem);
        forall r | IsPath(arch, r) ensures Lookup(arch, mem, kpt, r) == KernelMap(arch, r) { BootTranslates(mem, r); }
        return true;
      }
      var s := new Space();
      ok := MapKernel(s);
      if !ok { return; }
      kpt := BaseOf(s.ptr);
      levels := LevelsOf(s.tree);
      KernelTree(X86, Now(s));
      forall r | IsPath(arch, r) ensures Lookup(arch, mem, kpt, r) == KernelMap(arch, r) {
        IdentityTranslates(Now(s), r);
      }
    }

    // Lines 100-107, for area i
    method MapArea(s: Space, i: nat, ghost total: nat) returns (ok: bool)
      requires arch.X86? && SupplyOk() && TreeOk(X86, Now(s), false, {}) && Building(s.tree, supply, total)
      requires i < |VmAreas(X86)| && Identity(Now(s), KernelPagesOf(i))
      modifies `mem, `supply, s
      ensures SupplyOk() && TreeOk(X86, Now(s), false, {})
      ensures if ok then Building(s.tree, supply, total) else total < 269
      ensures ok ==> Identity(Now(s), KernelPagesOf(i + 1)) && (VmAreas(X86)[i].kernel ==> [] in s.tree)
    {
      ok := true;
      if VmAreas(arch)[i].kernel { ok := MapKernelArea(s, VmAreas(arch)[i], KernelPagesOf(i), total); }
    }

    // Lines 99-108
    method MapKernel(s: Space) returns (ok: bool)
      requires arch.X86? && SupplyOk() && s.ptr == 0 && s.tree == map[]
      modifies `mem, `supply, s
      ensures SupplyOk() && TreeOk(X86, Now(s), false, {})
      ensures ok ==> Identity(Now(s), KernelPagesOf(|VmAreas(X86)|)) && [] in s.tree
      ensures ok <==> |old(supply)| >= 269
    {
      ghost var total := |supply|;
      NothingBuilt(Now(s), supply);
      var i := 0;
      while i < |VmAreas(arch)|
        invariant i <= |VmAreas(arch)|
        invariant SupplyOk() && TreeOk(X86, Now(s), false, {}) && Identity(Now(s), KernelPagesOf(i))
        invariant (i == |VmAreas(arch)| ==> [] in s.tree) && Building(s.tree, supply, total)
      {
        ok := MapArea(s, i, total);
        if !ok { return; }
        i := i + 1;
      }
      BuildingDone(Now(s), supply, total);
      ok := true;
    }

    lemma KernelEntry(area: Area, k: nat, cur: nat)
      requires area in VmAreas(X86) && area.kernel && k < PageCount(area) && cur == (FirstPage(area) + k) * 4096
      ensures KernelIndex(X86, PathOf(X86, cur)[0])
    {
      assert PathOf(X86, cur)[0] == IndexOf(X86, cur, 1);
      PageNoOfAddress(FirstPage(area) + k);
    }

    // ---- _protect

    // Lines 127-128
    method CopyEntry(upt: nat, cur: nat, ghost i: nat)
      requires i == IndexOf(arch, cur, 1) < Entries(arch)
      requires kpt in mem && upt in mem && upt != kpt && |mem[kpt]| == |mem[upt]| == Entries(arch)
      modifies `mem
      ensures mem == Written(old(mem), upt, i, old(mem)[kpt][i])
    {
      var index := IndexOf(arch, cur, 1);
      mem := Written(mem, upt, index, mem[kpt][index]);
    }

    // Lines 124-129
    method CopyArea(upt: nat, area: Area)
      requires area in VmAreas(arch) && area.kernel
      requires kpt in mem && upt in mem && upt != kpt && |mem[kpt]| == |mem[upt]| == Entries(arch)
      modifies `mem
      ensures Copied(arch, old(mem), mem, upt, kpt, First(arch, area), Count(arch, area))
    {
      var cur := area.start;
      ghost var curs := AllSteps(arch, area);
      ghost var k, first, n := 0, First(arch, area), Count(arch, area);
      while cur != area.end
        invariant k <= n && cur == curs[k]
        invariant Copied(arch, old(mem), mem, upt, kpt, first, k)
        decreases n - k
      {
        assert k < n && Step(arch, area, curs, k);
        CopiedStep(arch, old(mem), mem, upt, kpt, first, k);
        CopyEntry(upt, cur, first + k);
        cur := Wrap(arch, cur + Span(arch, 1));
        k := k + 1;
      }
      assert k < n ==> Step(arch, area, curs, k);
    }

    /** _protect: a fresh root table in which kernel pages translate as in the kernel's tables and no user page does. */
    method Protect(s: Space) returns (ok: bool)
      requires SupplyOk() && KernelOk(arch, mem, kpt, levels)
      modifies `mem, `supply, s
      ensures SupplyOk()
      ensures !ok ==> old(supply) == []
      ensures ok ==>
                && SpaceOk(arch, Now(s), kpt, levels)
                && old(supply) != [] && supply == old(supply)[1..] && s.tree == map[[] := old(supply)[0]]
                && forall r :: IsPath(arch, r) ==>
                     Translate(arch, mem, s.ptr, r) ==
                     if r[0] in KernelIndices(arch) then Lookup(arch, old(mem), kpt, r) else None
      ensures ok ==> OnlyTree(old(mem), map[], mem, s.tree)
      ensures !ok ==> mem == old(mem)
    {
      ghost var mem0 := mem;
      var page := PgAllocZ();
      if page.None? { return false; }
      var upt := page.value;
      var i := 0;
      while i < |VmAreas(arch)|
        invariant i <= |VmAreas(arch)| && supply == old(supply)[1..] && upt == old(supply)[0] && s.tree == old(s.tree)
        invariant upt in mem && |mem[upt]| == Entries(arch) && mem == mem0[upt := mem[upt]]
        invariant forall e :: 0 <= e < Entries(arch) ==> mem[upt][e] == if Covered(arch, i, e) then mem[kpt][e] else 0
      {
        if VmAreas(arch)[i].kernel { CopyArea(upt, VmAreas(arch)[i]); }
        i := i + 1;
      }
      forall e | 0 <= e < Entries(arch) ensures Covered(arch, i, e) <==> e in KernelIndices(arch) {
        CoveredIsKernel(arch, e);
      }
      s.ptr := Entry(upt, false, true);
      s.tree := map[[] := upt];
      ProtectedSpace(mem0, Now(s), upt);
      return true;
    }

    lemma ProtectedSpace(mem0: Memory, v: View, upt: nat)
      requires KernelOk(arch, mem0, kpt, levels) && upt !in mem0 && upt % 4096 == 0
      requires upt in v.mem && |v.mem[upt]| == Entries(arch) && v.mem == mem0[upt := v.mem[upt]]
      requires v.ptr == Entry(upt, false, true) && v.tree == map[[] := upt]
      requires forall i :: 0 <= i < Entries(arch) ==>
                v.mem[upt][i] == if i in KernelIndices(arch) then mem0[kpt][i] else 0
      ensures SpaceOk(arch, v, kpt, levels)
      ensures forall r :: IsPath(arch, r) ==>
                Translate(arch, v.mem, v.ptr, r) ==
                if r[0] in KernelIndices(arch) then Lookup(arch, mem0, kpt, r) else None
    {
      assert upt !in levels;
      NewSpace(arch, v, kpt, levels, upt);
      forall r | IsPath(arch, r) ensures Lookup(arch, v.mem, kpt, r) == Lookup(arch, mem0, kpt, r) {
        KernelLookup(arch, mem0, v.mem, kpt, levels, kpt, r);
      }
    }

    // ---- teardown

    method PgFree(page: nat)
      modifies `mem, `freed
      ensures Freed(old(mem), old(freed), mem, freed, {page})
    {
      freed := freed + [page];
      mem := mem - {page};
    }

    /** teardown: gives each table page at or below path p to pgfree once, and nothing else; reads no page it has
        given back.  v is the view when the teardown began. */
    method Teardown(s: Space, level: nat, base: Option<nat>, ghost p: Path, ghost v: View)
      requires TreeOk(arch, v, true, KernelIndices(arch)) && s.ptr == v.ptr
      requires level <= Levels(arch) ==>
                 if level == 0 then base.None? else p in v.tree && |p| == level - 1 && base == Some(v.tree[p])
      requires Intact(mem, v, Gone(arch, v, level, p))
      modifies `mem, `freed
      ensures Freed(old(mem), old(freed), mem, freed, Gone(arch, v, level, p))
      decreases Levels(arch) + 1 - level, 3
    {
      if level > Levels(arch) { return; }
      TeardownEntries(s, level, base, p, v);
      if level >= 1 {
        ghost var m1, f1 := mem, freed;
        BelowSplit(arch, v, true, KernelIndices(arch), p);
        PgFree(base.value);
        FreedJoin(old(mem), old(freed), m1, f1, GoneUpTo(v, level, p, Entries(arch)), mem, freed, {base.value});
      }
    }

    // Lines 79-83
    method TeardownEntries(s: Space, level: nat, base: Option<nat>, ghost p: Path, ghost v: View)
      requires TreeOk(arch, v, true, KernelIndices(arch)) && s.ptr == v.ptr && level <= Levels(arch)
      requires if level == 0 then base.None? else p in v.tree && |p| == level - 1 && base == Some(v.tree[p])
      requires Intact(mem, v, Gone(arch, v, level, p))
      modifies `mem, `freed
      ensures Freed(old(mem), old(freed), mem, freed, GoneUpTo(v, level, p, if level == 0 then 1 else Entries(arch)))
      decreases Levels(arch) + 1 - level, 2
    {
      var index, n := 0, if level == 0 then 1 else Entries(arch);
      ghost var m0, f0 := mem, freed;
      while index < n
        invariant index <= n
        invariant Freed(m0, f0, mem, freed, GoneUpTo(v, level, p, index))
      {
        TeardownEntry(s, level, base, index, p, v, m0, f0);
        index := index + 1;
      }
    }

    // Lines 80-82, for entry index; m0 and f0 are as they were before entry 0
    method TeardownEntry(s: Space, level: nat, base: Option<nat>, index: nat, ghost p: Path, ghost v: View,
                         ghost m0: Memory,
                         ghost f0: seq<nat>)
      requires TreeOk(arch, v, true, KernelIndices(arch)) && s.ptr == v.ptr && level <= Levels(arch)
      requires if level == 0 then base.None? && index == 0
               else p in v.tree && |p| == level - 1 && base == Some(v.tree[p]) && index < Entries(arch)
      requires Intact(m0, v, Gone(arch, v, level, p)) && Freed(m0, f0, mem, freed, GoneUpTo(v, level, p, index))
      modifies `mem, `freed
      ensures Freed(m0, f0, mem, freed, GoneUpTo(v, level, p, index + 1))
      decreases Levels(arch) + 1 - level, 1
    {
      if level > 0 { assert NodeOk(arch, v, KernelIndices(arch), p); }
      StillIntact(arch, m0, f0, mem, freed, v, level, p, index);
      var pt := if base.None? then Root else Slot(base.value, index);
      ghost var m1, f1 := mem, freed;
      ghost var below := TeardownWord(s, level, Load(s, pt), p, index, v);
      FreedJoin(m0, f0, m1, f1, GoneUpTo(v, level, p, index), mem, freed, below);
    }

    // Lines 80-82, for the word w of the entry
    method TeardownWord(s: Space, level: nat, w: nat, ghost p: Path, ghost index: nat, ghost v: View)
      returns (ghost below: set<nat>)
      requires TreeOk(arch, v, true, KernelIndices(arch)) && s.ptr == v.ptr && level <= Levels(arch)
      requires if level == 0 then index == 0 && w == v.ptr
               else p in v.tree && NodeOk(arch, v, KernelIndices(arch), p) && |p| == level - 1
                    && index < Entries(arch) && w == v.mem[v.tree[p]][index]
      requires Intact(mem, v, Gone(arch, v, level, p) - GoneUpTo(v, level, p, index))
      modifies `mem, `freed
      ensures Freed(old(mem), old(freed), mem, freed, below)
      ensures GoneUpTo(v, level, p, index + 1) == GoneUpTo(v, level, p, index) + below
      ensures GoneUpTo(v, level, p, index) !! below
      decreases Levels(arch) + 1 - level, 0
    {
      GoneStep(arch, v, level, p, index, w);
      GoneWithin(arch, v, level, p, index + 1);
      below := if Present(w) && User(w) then Gone(arch, v, level + 1, Deeper(level, p, index)) else {};
      assert Intact(mem, v, below);
      if Present(w) && User(w) {
        Teardown(s, level + 1, Some(BaseOf(w)), Deeper(level, p, index), v);
      }
    }

    /** _unprotect: gives exactly the table pages of the address space to pgfree, each once: no mapped frame, no table
        of the kernel, no page twice. */
    method Unprotect(s: Space)
      requires SpaceOk(arch, Now(s), kpt, levels)
      modifies `mem, `freed
      ensures Freed(old(mem), old(freed), mem, freed, s.tree.Values)
      ensures KernelOk(arch, mem, kpt, levels)
    {
      forall t | t in s.tree.Values ensures t in mem {
        var p: Path :| p in s.tree && s.tree[p] == t;
        assert NodeOk(arch, Now(s), KernelIndices(arch), p);
      }
      Teardown(s, 0, None, [], Now(s));
    }

    /** Any sequence of maps and unmaps between _protect and _unprotect: it completes exactly if every call is legal
        and the supply covers the tables, and then the pages given to pgfree are exactly those got from pgalloc, each
        once, and all other memory is as it was.  A panic halts the machine. */
    method Lifetime(s: Space, calls: seq<Call>) returns (completed: bool)
      requires SupplyOk() && KernelOk(arch, mem, kpt, levels)
      modifies `mem, `supply, `freed, s
      ensures completed <==> AllSucceed(arch, calls, |old(supply)|)
      ensures completed ==> old(freed) <= freed && Lists(freed[|old(freed)|..], Taken(old(supply), supply))
      ensures completed ==> mem == old(mem)
    {
      ghost var m0, s0 := mem, supply;
      completed := Work(s, calls);
      if completed { End(s, m0, s0); }
    }

    method Work(s: Space, calls: seq<Call>) returns (ok: bool)
      requires SupplyOk() && KernelOk(arch, mem, kpt, levels)
      modifies `mem, `supply, s
      ensures ok <==> AllSucceed(arch, calls, |old(supply)|)
      ensures ok ==> SpaceOk(arch, Now(s), kpt, levels) && Owned(old(mem), old(supply), mem, supply, s.tree)
    {
      ghost var m0, s0 := mem, supply;
      ok := Begin(s, calls);
      if ok { ok := Perform(s, calls, m0, s0); }
    }

    method Perform(s: Space, calls: seq<Call>, ghost m0: Memory, ghost s0: seq<nat>) returns (ok: bool)
      requires SupplyOk() && SpaceOk(arch, Now(s), kpt, levels) && Owned(m0, s0, mem, supply, s.tree)
      requires Follows(s, calls, 0, s0)
      modifies `mem, `supply, s
      ensures SupplyOk() && SpaceOk(arch, Now(s), kpt, levels) && Owned(m0, s0, mem, supply, s.tree)
      ensures ok <==> Succeed(arch, calls, |s0|, |calls|)
    {
      var i := 0;
      while i < |calls|
        invariant i <= |calls| && SupplyOk() && SpaceOk(arch, Now(s), kpt, levels)
        invariant Owned(m0, s0, mem, supply, s.tree) && Follows(s, calls, i, s0)
      {
        ok := Continue(s, calls, i, m0, s0);
        if !ok { return; }
        i := i + 1;
      }
      ok := true;
    }

    // The address space is as the first i calls say, which have all succeeded
    ghost predicate Follows(s: Space, calls: seq<Call>, i: nat, s0: seq<nat>)
      requires i <= |calls|
      reads `mem, `supply, s
    {
      && MapsOnly(arch, Now(s), MappedBy(calls[..i])) && Succeed(arch, calls, |s0|, i)
      && s.tree.Keys == TablesOf(arch, calls[..i]) && |s.tree.Keys| + |supply| == |s0|
    }

    method End(s: Space, ghost m0: Memory, ghost s0: seq<nat>)
      requires SpaceOk(arch, Now(s), kpt, levels) && Owned(m0, s0, mem, supply, s.tree)
      modifies `mem, `freed
      ensures mem == m0 && old(freed) <= freed && Lists(freed[|old(freed)|..], Taken(s0, supply))
    {
      OnlyTreeLeaves(m0, mem, s.tree);
      Unprotect(s);
    }

    method Begin(s: Space, ghost calls: seq<Call>) returns (ok: bool)
      requires SupplyOk() && KernelOk(arch, mem, kpt, levels)
      modifies `mem, `supply, s
      ensures SupplyOk() && (ok <==> |old(supply)| >= 1)
      ensures (ok ==> SpaceOk(arch, Now(s), kpt, levels) && Owned(old(mem), old(supply), mem, supply, s.tree))
      ensures ok ==> Follows(s, calls, 0, old(supply))
    {
      ghost var m0, s0 := mem, supply;
      ok := Protect(s);
      if ok {
        TakenFirst(m0, s0);
        NothingMapped(arch, Now(s));
        assert calls[..0] == [];
      }
    }

    method Continue(s: Space, calls: seq<Call>, i: nat, ghost m0: Memory, ghost s0: seq<nat>) returns (ok: bool)
      requires SupplyOk() && SpaceOk(arch, Now(s), kpt, levels) && Owned(m0, s0, mem, supply, s.tree)
      requires i < |calls| && Follows(s, calls, i, s0)
      modifies `mem, `supply, s
      ensures SupplyOk() && SpaceOk(arch, Now(s), kpt, levels) && Owned(m0, s0, mem, supply, s.tree)
      ensures if ok then Follows(s, calls, i + 1, s0) else !Succeed(arch, calls, |s0|, |calls|)
    {
      ghost var v1, s1 := Now(s), supply;
      var c := calls[i];
      var out := Map(s, c.va, c.pa, c.prot);
      OwnedStep(m0, s0, v1.mem, s1, v1.tree, mem, supply, s.tree);
      ok := out.Done?;
      SucceedsIff(arch, v1, calls, i, s1, |s0|, ok);
      SucceedStep(arch, calls, |s0|, i, ok);
      if ok { Followed(v1, s1, s, calls, i, s0); }
    }

    lemma Followed(v1: View, s1: seq<nat>, s: Space, calls: seq<Call>, i: nat, s0: seq<nat>)
      requires i < |calls| && v1.tree.Keys == TablesOf(arch, calls[..i]) && |v1.tree.Keys| + |s1| == |s0|
      requires MapsOnly(arch, v1, MappedBy(calls[..i])) && Legal(arch, calls[i], MappedBy(calls[..i]))
      requires Succeed(arch, calls, |s0|, i + 1)
      requires var c := calls[i]; Remapped(arch, v1, Now(s), PathOf(arch, c.va), c.pa, c.prot)
      requires Paid(v1.tree, s1, s.tree, supply, PathOf(arch, calls[i].va), Levels(arch))
      ensures Follows(s, calls, i + 1, s0)
    {
      NextCall(arch, calls, i);
      TablesAdd(v1.tree, s1, s.tree, supply, PathOf(arch, calls[i].va), Levels(arch));
      MapsAfter(arch, v1, Now(s), MappedBy(calls[..i]), calls[i]);
    }
  }
}
