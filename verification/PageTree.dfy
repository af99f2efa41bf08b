/** What the hardware translates through a tree of tables, and the tree of table pages behind one address space. */
module PageTree {
  import opened Options
  import opened Arithmetic
  import opened PageTable

  // The indices an address uses, one for each level
  type Path = seq<nat>

  predicate IsPath(a: Arch, r: Path) {
    |r| == Levels(a) && forall k :: 0 <= k < |r| ==> r[k] < Entries(a)
  }

  function PathOf(a: Arch, addr: nat): (r: Path)
    ensures IsPath(a, r) && forall k :: 0 <= k < |r| ==> r[k] == IndexOf(a, addr, k + 1)
  {
    seq(Levels(a), k requires 0 <= k < Levels(a) => IndexOf(a, addr, k + 1))
  }

  function Reach(a: Arch): nat {
    if a.X86? then 0x1_0000_0000 else 0x1_0000_0000_0000
  }

  /** Below 4 GiB (32-bit) or 256 TiB (64-bit) two addresses share their path exactly when they share their page. */
  lemma PathIsPage(a: Arch, x: nat, y: nat)
    requires x < Reach(a) && y < Reach(a)
    ensures PathOf(a, x) == PathOf(a, y) <==> x / 4096 == y / 4096
  {
    var p, q := PathOf(a, x), PathOf(a, y);
    if x / 4096 == y / 4096 {
      forall k | 0 <= k < Levels(a) ensures p[k] == q[k] { SamePageSameIndex(a, x, y, k + 1); }
    } else if p == q {
      assert p[0] == q[0] && p[1] == q[1];
      if a.X86? { RecomposeX86(x); RecomposeX86(y); }
      else {
        assert p[2] == q[2] && p[3] == q[3];
        RecomposeX64(x);
        RecomposeX64(y);
      }
    }
  }

  // An index depends on the page number alone
  lemma IndexOfPage(a: Arch, x: nat, i: nat)
    requires 1 <= i <= Levels(a)
    ensures IndexOf(a, x, i) == x / 4096 / (Span(a, i) / 4096) % Entries(a)
  {
    var n := Span(a, i) / 4096;
    DivDiv(x, 4096, n);
    assert 4096 * n == Span(a, i);
  }

  lemma SamePageSameIndex(a: Arch, x: nat, y: nat, i: nat)
    requires x / 4096 == y / 4096 && 1 <= i <= Levels(a)
    ensures IndexOf(a, x, i) == IndexOf(a, y, i)
  {
    IndexOfPage(a, x, i);
    IndexOfPage(a, y, i);
  }

  lemma FourDigits(d: nat)
    requires d < 0x10_0000_0000
    ensures d ==
            ((d / 0x800_0000 % 0x200 * 0x200 + d / 0x4_0000 % 0x200) * 0x200 + d / 0x200 % 0x200) * 0x200 + d % 0x200
  {
    DivDiv(d, 0x200, 0x200);
    DivDiv(d, 0x4_0000, 0x200);
    var d1 := d / 0x200;
    var d2 := d1 / 0x200;
    var d3 := d2 / 0x200;
    assert d / 0x4_0000 == d2 && d / 0x800_0000 == d3;
    assert d3 < 0x200;
  }

  lemma RecomposeX86(x: nat)
    requires x < 0x1_0000_0000
    ensures x / 4096 == IndexOf(X86, x, 1) * 0x400 + IndexOf(X86, x, 2)
  {
    IndexOfPage(X86, x, 1);
    IndexOfPage(X86, x, 2);
    assert x / 4096 < 0x10_0000;
  }

  lemma RecomposeX64(x: nat)
    requires x < 0x1_0000_0000_0000
    ensures x / 4096 ==
            ((IndexOf(X64, x, 1) * 0x200 + IndexOf(X64, x, 2)) * 0x200 +
            IndexOf(X64, x, 3)) * 0x200 + IndexOf(X64, x, 4)
  {
    IndexOfPage(X64, x, 1);
    IndexOfPage(X64, x, 2);
    IndexOfPage(X64, x, 3);
    IndexOfPage(X64, x, 4);
    assert Span(X64, 1) / 4096 == 0x800_0000 && Span(X64, 2) / 4096 == 0x4_0000 && Span(X64, 3) / 4096 == 0x200;
    var d := x / 4096;
    assert d < 0x10_0000_0000;
    FourDigits(x / 4096);
  }

  // ---- the hardware's view

  datatype Translation = Translation(frame: nat, writable: bool, user: bool)

  type Memory = map<nat, seq<nat>>

  // The level of the table that the first index of rest selects from
  function LevelAt(a: Arch, rest: Path): (l: nat)
    requires 0 < |rest| <= Levels(a)
    ensures 1 <= l <= Levels(a)
  {
    Levels(a) + 1 - |rest|
  }

  // The bytes that the last indices of a path add up to
  function Offset(a: Arch, rest: Path): nat
    requires |rest| <= Levels(a)
  {
    if rest == [] then 0 else rest[0] * Span(a, LevelAt(a, rest)) + Offset(a, rest[1..])
  }

  lemma OffsetX86(r: Path)
    requires IsPath(X86, r)
    ensures Offset(X86, r) == (r[0] * 0x400 + r[1]) * 0x1000
  {
    assert Offset(X86, r[1..]) == r[1] * 0x1000 + Offset(X86, r[1..][1..]);
  }

  lemma OffsetX64(r: Path)
    requires IsPath(X64, r)
    ensures Offset(X64, r[1..][1..]) == r[2] * 0x20_0000 + r[3] * 0x1000
    ensures Offset(X64, r) == r[0] * 0x80_0000_0000 + r[1] * 0x4000_0000 + r[2] * 0x20_0000 + r[3] * 0x1000
  {
    var p := r[1..][1..];
    assert p == [r[2], r[3]] && p[1..] == [r[3]] && p[1..][1..] == [];
    assert Offset(X64, p[1..]) == r[3] * 0x1000;
    assert Offset(X64, p) == r[2] * 0x20_0000 + Offset(X64, p[1..]);
    assert Offset(X64, r[1..]) == r[1] * 0x4000_0000 + Offset(X64, p);
  }

  /** The offset of an address's path is the address of its page. */
  lemma OffsetOfPath(a: Arch, x: nat)
    requires x < Reach(a)
    ensures Offset(a, PathOf(a, x)) == x - x % 4096
  {
    var r := PathOf(a, x);
    if a.X86? { RecomposeX86(x); OffsetX86(r); }
    else { RecomposeX64(x); OffsetX64(r); }
  }

  /** The translation of the rest of a path from the table at page t.  An entry for a large page ends the walk, and the
      indices left over select the frame inside it; permissions are those of every level. */
  function Lookup(a: Arch, mem: Memory, t: nat, rest: Path): Option<Translation>
    requires 0 < |rest| <= Levels(a)
    decreases |rest|
  {
    if t !in mem || rest[0] >= |mem[t]| || !Present(mem[t][rest[0]]) then None
    else
      var e := mem[t][rest[0]];
      if |rest| == 1 then Some(Translation(BaseOf(e), Writable(e), User(e)))
      else if IsLarge(a, LevelAt(a, rest), e) then
        Some(Translation(e - e % Span(a, LevelAt(a, rest)) + Offset(a, rest[1..]), Writable(e), User(e)))
      else
        match Lookup(a, mem, BaseOf(e), rest[1..])
        case None => None
        case Some(t) => Some(t.(writable := t.writable && Writable(e), user := t.user && User(e)))
  }

  /** An address space is what its root word selects. */
  function Translate(a: Arch, mem: Memory, ptr: nat, r: Path): Option<Translation>
    requires 0 < |r| <= Levels(a)
  {
    if Present(ptr) then Lookup(a, mem, BaseOf(ptr), r) else None
  }

  // ---- the tree of table pages

  /** The memory of all tables, the root word of one address space, and its table pages by path. */
  datatype View = View(mem: Memory, ptr: nat, tree: map<Path, nat>)

  predicate NodeOk(a: Arch, v: View, foreign: set<nat>, p: Path)
    requires p in v.tree
  {
    && |p| < Levels(a)
    && (|p| > 0 ==> p[..|p| - 1] in v.tree && p[|p| - 1] < Entries(a) && p[0] !in foreign)
    && v.tree[p] in v.mem && |v.mem[v.tree[p]]| == Entries(a) && v.tree[p] % 4096 == 0
  }

  // A word above the leaves leads to the next table of the tree, or to nothing; a foreign word is not for users
  predicate WordOk(a: Arch, v: View, u: bool, foreign: set<nat>, p: Path, i: nat)
    requires p in v.tree && NodeOk(a, v, foreign, p) && i < Entries(a)
  {
    |p| + 1 < Levels(a) ==>
      var w := v.mem[v.tree[p]][i];
      if |p| == 0 && i in foreign then !User(w)
      else if Present(w) then
        p + [i] in v.tree && v.tree[p + [i]] == BaseOf(w) && Writable(w) && (User(w) <==> u) && !Large(w)
      else p + [i] !in v.tree && w == 0
  }

  predicate RootOk(v: View, u: bool) {
    if Present(v.ptr) then [] in v.tree && v.tree[[]] == BaseOf(v.ptr) && (User(v.ptr) <==> u)
    else [] !in v.tree && v.ptr == 0
  }

  ghost predicate TreeOk(a: Arch, v: View, u: bool, foreign: set<nat>) {
    && RootOk(v, u)
    && (forall p {:trigger NodeOk(a, v, foreign, p)} :: p in v.tree ==> NodeOk(a, v, foreign, p))
    && (forall p, i {:trigger WordOk(a, v, u, foreign, p, i)} :: p in v.tree && 0 <= i < Entries(a) ==>
          NodeOk(a, v, foreign, p) && WordOk(a, v, u, foreign, p, i))
    && (forall p, q {:trigger v.tree[p], v.tree[q]} :: p in v.tree && q in v.tree && v.tree[p] == v.tree[q] ==> p == q)
  }

  lemma {:induction false} PrefixInTree(a: Arch, v: View, u: bool, foreign: set<nat>, r: Path, k: nat, m: nat)
    requires TreeOk(a, v, u, foreign) && k <= m <= |r| && r[..m] in v.tree
    ensures r[..k] in v.tree
    decreases m
  {
    if k < m {
      assert NodeOk(a, v, foreign, r[..m]);
      assert r[..m][..m - 1] == r[..m - 1];
      PrefixInTree(a, v, u, foreign, r, k, m - 1);
    }
  }

  // ---- the flat map

  function Leaf(w: nat, u: bool): Option<Translation> {
    if Present(w) then Some(Translation(BaseOf(w), Writable(w), User(w) && u)) else None
  }

  function LeafWord(a: Arch, v: View, r: Path): nat
    requires IsPath(a, r)
  {
    var p := r[..Levels(a) - 1];
    if p in v.tree && v.tree[p] in v.mem && r[Levels(a) - 1] < |v.mem[v.tree[p]]| then
    v.mem[v.tree[p]][r[Levels(a) - 1]] else 0
  }

  /** Walking the tree is looking up one word: the tree refines a flat map from pages to leaf words. */
  lemma TranslateIsFlat(a: Arch, v: View, u: bool, foreign: set<nat>, r: Path)
    requires TreeOk(a, v, u, foreign) && IsPath(a, r) && r[0] !in foreign
    ensures Translate(a, v.mem, v.ptr, r) == Leaf(LeafWord(a, v, r), u)
  {
    if Present(v.ptr) {
      assert r[..0] == [] && r[0..] == r;
      LookupIsFlat(a, v, u, foreign, r, 0);
    } else if r[..Levels(a) - 1] in v.tree {
      PrefixInTree(a, v, u, foreign, r, 0, Levels(a) - 1);
    }
  }

  lemma {:induction false} LookupIsFlat(a: Arch, v: View, u: bool, foreign: set<nat>, r: Path, k: nat)
    requires TreeOk(a, v, u, foreign) && IsPath(a, r) && r[0] !in foreign
    requires k < Levels(a) && r[..k] in v.tree
    ensures k == 0 ==> Lookup(a, v.mem, v.tree[r[..k]], r[k..]) == Leaf(LeafWord(a, v, r), u)
    ensures k > 0 ==> (match Lookup(a, v.mem, v.tree[r[..k]], r[k..])
                       case None => Leaf(LeafWord(a, v, r), u).None?
                       case Some(t) => Leaf(LeafWord(a, v, r), u) == Some(t.(user := t.user && u)))
    decreases Levels(a) - k
  {
    var p := r[..k];
    assert NodeOk(a, v, foreign, p) && WordOk(a, v, u, foreign, p, r[k]);
    assert p + [r[k]] == r[..k + 1] && r[k..][1..] == r[k + 1..];
    if k + 1 < Levels(a) {
      if r[..k + 1] in v.tree { LookupIsFlat(a, v, u, foreign, r, k + 1); }
      else if r[..Levels(a) - 1] in v.tree { PrefixInTree(a, v, u, foreign, r, k + 1, Levels(a) - 1); }
    }
  }

  // ---- a new table

  function Zeros(a: Arch): seq<nat> {
    seq(Entries(a), _ => 0)
  }

  // page is a fresh page and p the path of a table that is missing below an existing one
  predicate CanAttach(a: Arch, v: View, foreign: set<nat>, p: Path, page: nat) {
    && p !in v.tree && |p| < Levels(a) && page !in v.mem && page % 4096 == 0
    && (|p| > 0 ==> && p[..|p| - 1] in v.tree && NodeOk(a, v, foreign, p[..|p| - 1])
                    && p[|p| - 1] < Entries(a) && p[0] !in foreign)
  }

  // The view after a zeroed page has been entered at path p
  function Attach(a: Arch, v: View, foreign: set<nat>, p: Path, page: nat, word: nat): View
    requires CanAttach(a, v, foreign, p, page)
  {
    if |p| == 0 then View(v.mem[page := Zeros(a)], word, v.tree[p := page])
    else
      var t := v.tree[p[..|p| - 1]];
      View(v.mem[page := Zeros(a)][t := v.mem[t][p[|p| - 1] := word]], v.ptr, v.tree[p := page])
  }

  lemma AttachNode(a: Arch, v: View, u: bool, foreign: set<nat>, p: Path, page: nat, word: nat, q: Path)
    requires TreeOk(a, v, u, foreign) && CanAttach(a, v, foreign, p, page)
    requires q in Attach(a, v, foreign, p, page, word).tree
    ensures NodeOk(a, Attach(a, v, foreign, p, page, word), foreign, q)
  {
    if q != p { assert NodeOk(a, v, foreign, q); }
  }

  lemma AttachNewWord(a: Arch, v: View, u: bool, foreign: set<nat>, p: Path, page: nat, i: nat)
    requires TreeOk(a, v, u, foreign) && CanAttach(a, v, foreign, p, page) && i < Entries(a)
    requires NodeOk(a, Attach(a, v, foreign, p, page, Entry(page, true, u)), foreign, p)
    ensures WordOk(a, Attach(a, v, foreign, p, page, Entry(page, true, u)), u, foreign, p, i)
  {
    var v' := Attach(a, v, foreign, p, page, Entry(page, true, u));
    assert v'.tree[p] == page && v'.mem[page] == Zeros(a);
    assert (p + [i])[..|p|] == p;
    if p + [i] in v.tree { assert NodeOk(a, v, foreign, p + [i]); }
  }

  lemma AttachOldWord(a: Arch, v: View, u: bool, foreign: set<nat>, p: Path, page: nat, q: Path, i: nat)
    requires TreeOk(a, v, u, foreign) && CanAttach(a, v, foreign, p, page) && i < Entries(a)
    requires q in v.tree && NodeOk(a, Attach(a, v, foreign, p, page, Entry(page, true, u)), foreign, q)
    ensures WordOk(a, Attach(a, v, foreign, p, page, Entry(page, true, u)), u, foreign, q, i)
  {
    EntryFields(page, true, u);
    assert NodeOk(a, v, foreign, q) && WordOk(a, v, u, foreign, q, i);
    if q + [i] == p { assert p[..|p| - 1] == q; }
    else if |p| > 0 { assert q == p[..|p| - 1] && i == p[|p| - 1] ==> q + [i] == p; }
  }

  /** Entering a fresh zeroed page keeps the tree a tree and every leaf word. */
  lemma AttachKeeps(a: Arch, v: View, u: bool, foreign: set<nat>, p: Path, page: nat)
    requires TreeOk(a, v, u, foreign) && CanAttach(a, v, foreign, p, page)
    ensures TreeOk(a, Attach(a, v, foreign, p, page, Entry(page, true, u)), u, foreign)
  {
    var v' := Attach(a, v, foreign, p, page, Entry(page, true, u));
    EntryFields(page, true, u);
    forall q | q in v'.tree ensures NodeOk(a, v', foreign, q) {
      AttachNode(a, v, u, foreign, p, page, Entry(page, true, u), q);
    }
    forall q, i | q in v'.tree && 0 <= i < Entries(a)
      ensures NodeOk(a, v', foreign, q) && WordOk(a, v', u, foreign, q, i)
    {
      AttachNode(a, v, u, foreign, p, page, Entry(page, true, u), q);
      if q == p { AttachNewWord(a, v, u, foreign, p, page, i); }
      else { AttachOldWord(a, v, u, foreign, p, page, q, i); }
    }
    forall q | q in v.tree ensures v.tree[q] != page { assert NodeOk(a, v, foreign, q); }
  }

  lemma AttachKeepsLeaves(a: Arch, v: View, u: bool, foreign: set<nat>, p: Path, page: nat, word: nat, r: Path)
    requires TreeOk(a, v, u, foreign) && CanAttach(a, v, foreign, p, page) && IsPath(a, r)
    ensures LeafWord(a, Attach(a, v, foreign, p, page, word), r) == LeafWord(a, v, r)
  {
    var q := r[..Levels(a) - 1];
    if q in v.tree { assert NodeOk(a, v, foreign, q); }
  }

  // ---- what a walk may do

  /** v is v0 with more tables: the same leaf words, the same tables of everybody else, the same foreign words. */
  ghost predicate Grown(a: Arch, v0: View, v: View, foreign: set<nat>) {
    && (forall r {:trigger LeafWord(a, v, r)} :: IsPath(a, r) ==> LeafWord(a, v, r) == LeafWord(a, v0, r))
    && (forall t {:trigger t in v0.mem} :: t in v0.mem ==>
          t in v.mem && (t !in v0.tree.Values ==> v.mem[t] == v0.mem[t]))
    && (forall p {:trigger p in v0.tree} :: p in v0.tree ==> p in v.tree && v.tree[p] == v0.tree[p])
    && (forall t {:trigger t in v.tree.Values} :: t in v.tree.Values ==>
          t in v.mem && (t in v0.tree.Values || t !in v0.mem))
    && v.mem.Keys == v0.mem.Keys + v.tree.Values
    && ([] in v0.tree ==> [] in v.tree && SameForeign(v0.mem, v0.tree[[]], v.mem, v.tree[[]], foreign))
  }

  ghost predicate SameForeign(m0: Memory, t0: nat, m: Memory, t: nat, foreign: set<nat>) {
    t0 in m0 && t in m && |m0[t0]| == |m[t]| &&
    forall i {:trigger m[t][i]} :: 0 <= i < |m[t]| && i in foreign ==> m[t][i] == m0[t0][i]
  }

  lemma GrownRefl(a: Arch, v: View, u: bool, foreign: set<nat>)
    requires TreeOk(a, v, u, foreign)
    ensures Grown(a, v, v, foreign)
  {
    forall t | t in v.tree.Values ensures t in v.mem {
      var p :| p in v.tree && v.tree[p] == t;
      assert NodeOk(a, v, foreign, p);
    }
    if [] in v.tree { assert NodeOk(a, v, foreign, []); }
  }

  lemma ValuesOfUpdate(m: map<Path, nat>, p: Path, x: nat)
    requires p !in m
    ensures m[p := x].Values == m.Values + {x}
  {
    var m' := m[p := x];
    forall t | t in m.Values + {x} ensures t in m'.Values {
      if t == x { assert m'[p] == x; }
      else { var q :| q in m && m[q] == t; assert m'[q] == t; }
    }
  }

  lemma GrownMemory(a: Arch, v0: View, v: View, u: bool, foreign: set<nat>, p: Path, page: nat, word: nat)
    requires Grown(a, v0, v, foreign) && TreeOk(a, v, u, foreign) && CanAttach(a, v, foreign, p, page)
    ensures var v' := Attach(a, v, foreign, p, page, word);
            && (forall t {:trigger t in v0.mem} :: t in v0.mem ==>
                  t in v'.mem && (t !in v0.tree.Values ==> v'.mem[t] == v0.mem[t]))
            && (forall t {:trigger t in v'.tree.Values} :: t in v'.tree.Values ==>
                  t in v'.mem && (t in v0.tree.Values || t !in v0.mem))
            && v'.mem.Keys == v0.mem.Keys + v'.tree.Values
  {
    var v' := Attach(a, v, foreign, p, page, word);
    ValuesOfUpdate(v.tree, p, page);
    if |p| > 0 {
      var t := v.tree[p[..|p| - 1]];
      assert t in v.tree.Values;
      assert v'.mem.Keys == v.mem.Keys + {page, t};
    } else {
      assert v'.mem.Keys == v.mem.Keys + {page};
    }
  }

  lemma GrownForeign(a: Arch, v0: View, v: View, u: bool, foreign: set<nat>, p: Path, page: nat, word: nat)
    requires Grown(a, v0, v, foreign) && TreeOk(a, v, u, foreign) && CanAttach(a, v, foreign, p, page) && [] in v0.tree
    ensures var v' := Attach(a, v, foreign, p, page, word);
            [] in v'.tree && SameForeign(v0.mem, v0.tree[[]], v'.mem, v'.tree[[]], foreign)
  {
    assert [] in v.tree && NodeOk(a, v, foreign, []);
    assert SameForeign(v0.mem, v0.tree[[]], v.mem, v.tree[[]], foreign);
    forall q | q in v.tree && v.tree[q] == v.tree[[]] ensures q == [] { assert NodeOk(a, v, foreign, q); }
  }

  lemma GrownStep(a: Arch, v0: View, v: View, u: bool, foreign: set<nat>, p: Path, page: nat)
    requires Grown(a, v0, v, foreign) && TreeOk(a, v, u, foreign) && CanAttach(a, v, foreign, p, page)
    ensures Grown(a, v0, Attach(a, v, foreign, p, page, Entry(page, true, u)), foreign)
  {
    var v' := Attach(a, v, foreign, p, page, Entry(page, true, u));
    forall r | IsPath(a, r) ensures LeafWord(a, v', r) == LeafWord(a, v0, r) {
      AttachKeepsLeaves(a, v, u, foreign, p, page, Entry(page, true, u), r);
      assert LeafWord(a, v, r) == LeafWord(a, v0, r);
    }
    GrownMemory(a, v0, v, u, foreign, p, page, Entry(page, true, u));
    if [] in v0.tree { GrownForeign(a, v0, v, u, foreign, p, page, Entry(page, true, u)); }
  }

  // ---- writing a leaf word

  function SetLeaf(a: Arch, v: View, r: Path, w: nat): View
    requires IsPath(a, r) && r[..Levels(a) - 1] in v.tree && v.tree[r[..Levels(a) - 1]] in v.mem
    requires |v.mem[v.tree[r[..Levels(a) - 1]]]| == Entries(a)
  {
    var t := v.tree[r[..Levels(a) - 1]];
    var words: seq<nat> := v.mem[t][r[Levels(a) - 1] := w];
    v.(mem := v.mem[t := words])
  }

  /** Writing the leaf word of r changes no other leaf word. */
  lemma SetLeafKeeps(a: Arch, v: View, u: bool, foreign: set<nat>, r: Path, w: nat)
    requires TreeOk(a, v, u, foreign) && IsPath(a, r) && r[..Levels(a) - 1] in v.tree
    ensures NodeOk(a, v, foreign, r[..Levels(a) - 1]) && TreeOk(a, SetLeaf(a, v, r, w), u, foreign)
    ensures forall o :: IsPath(a, o) ==> LeafWord(a, SetLeaf(a, v, r, w), o) == if o == r then w else LeafWord(a, v, o)
  {
    var p := r[..Levels(a) - 1];
    assert NodeOk(a, v, foreign, p);
    var v' := SetLeaf(a, v, r, w);
    forall q | q in v'.tree ensures NodeOk(a, v', foreign, q) { assert NodeOk(a, v, foreign, q); }
    forall q, i | q in v'.tree && 0 <= i < Entries(a)
      ensures NodeOk(a, v', foreign, q) && WordOk(a, v', u, foreign, q, i)
    {
      assert NodeOk(a, v, foreign, q) && WordOk(a, v, u, foreign, q, i);
    }
    forall o | IsPath(a, o) ensures LeafWord(a, v', o) == if o == r then w else LeafWord(a, v, o) {
      SetLeafAt(a, v, u, foreign, r, w, o);
    }
  }

  lemma SetLeafAt(a: Arch, v: View, u: bool, foreign: set<nat>, r: Path, w: nat, o: Path)
    requires TreeOk(a, v, u, foreign) && IsPath(a, r) && r[..Levels(a) - 1] in v.tree && IsPath(a, o)
    requires NodeOk(a, v, foreign, r[..Levels(a) - 1])
    ensures LeafWord(a, SetLeaf(a, v, r, w), o) == if o == r then w else LeafWord(a, v, o)
  {
    var p, q, l := r[..Levels(a) - 1], o[..Levels(a) - 1], Levels(a) - 1;
    assert r == p + [r[l]] && o == q + [o[l]];
    if q in v.tree { assert NodeOk(a, v, foreign, q); }
  }

  // ---- subtrees

  /** The table pages at or below path p. */
  ghost function Below(tree: map<Path, nat>, p: Path): set<nat> {
    set q | q in tree && p <= q :: tree[q]
  }

  // Those below entries 0 to k - 1 of the table at p
  ghost function BelowUpTo(tree: map<Path, nat>, p: Path, k: nat): set<nat> {
    set q | q in tree && p <= q && |p| < |q| && q[|p|] < k :: tree[q]
  }

  lemma BelowStep(a: Arch, v: View, u: bool, foreign: set<nat>, p: Path, k: nat)
    requires TreeOk(a, v, u, foreign)
    ensures BelowUpTo(v.tree, p, k + 1) == BelowUpTo(v.tree, p, k) + Below(v.tree, p + [k])
    ensures BelowUpTo(v.tree, p, k) !! Below(v.tree, p + [k])
  {
    forall q | q in v.tree && p <= q && |p| < |q| && q[|p|] == k ensures p + [k] <= q { }
    forall q | q in v.tree && p + [k] <= q ensures p <= q && q[|p|] == k {
      assert q[|p|] == (p + [k])[|p|];
    }
    forall t | t in BelowUpTo(v.tree, p, k) ensures t !in Below(v.tree, p + [k]) {
      var q :| q in v.tree && p <= q && |p| < |q| && q[|p|] < k && v.tree[q] == t;
    }
  }

  lemma BelowMissing(a: Arch, v: View, u: bool, foreign: set<nat>, p: Path)
    requires TreeOk(a, v, u, foreign) && p !in v.tree
    ensures Below(v.tree, p) == {}
  {
    forall q | q in v.tree ensures !(p <= q) {
      if p <= q {
        assert q[..|q|] == q && q[..|p|] == p;
        PrefixInTree(a, v, u, foreign, q, |p|, |q|);
      }
    }
  }

  lemma BelowSplit(a: Arch, v: View, u: bool, foreign: set<nat>, p: Path)
    requires TreeOk(a, v, u, foreign) && p in v.tree
    ensures Below(v.tree, p) == BelowUpTo(v.tree, p, Entries(a)) + {v.tree[p]}
    ensures v.tree[p] !in BelowUpTo(v.tree, p, Entries(a))
  {
    forall q | q in v.tree && p <= q && q != p ensures |p| < |q| && q[|p|] < Entries(a) {
      assert q[..|q|] == q;
      PrefixInTree(a, v, u, foreign, q, |p| + 1, |q|);
      assert NodeOk(a, v, foreign, q[..|p| + 1]);
    }
  }

  lemma BelowRoot(v: View)
    ensures Below(v.tree, []) == v.tree.Values
  {
    forall t | t in v.tree.Values ensures t in Below(v.tree, []) {
      var q :| q in v.tree && v.tree[q] == t;
      assert [] <= q;
    }
  }
}
