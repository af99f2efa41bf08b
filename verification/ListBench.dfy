/** core_bench_list: finds, reverses, relinks, sorts, removes, undoes and sorts again, and leaves the list as it was. */
module ListBench {
  import opened CoreList
  import opened ListSort
  import opened MergeSort

  function U16(x: int): nat {
    x % 0x1_0000
  }

  // ee_s16 arithmetic
  function S16(x: int): int {
    (x + 0x8000) % 0x1_0000 - 0x8000
  }

  ghost function Nodes(s: seq<Node>): set<Node> {
    set x | x in s
  }

  ghost predicate AllIn(a: seq<Node>, b: seq<Node>) {
    multiset(a) == multiset(b)
  }

  lemma Same(a: seq<Node>, b: seq<Node>)
    requires AllIn(a, b)
    ensures |a| == |b| && (forall x :: x in a <==> x in b) && forall i :: 0 <= i < |a| ==> a[i] in b
  {
    assert |multiset(a)| == |multiset(b)|;
    forall x ensures x in a <==> x in b { assert x in multiset(a) <==> x in multiset(b); }
  }

  lemma ReversedSame(l: seq<Node>)
    ensures multiset(Reversed(l)) == multiset(l)
  {
    if l != [] {
      ReversedSame(l[1..]);
      assert Reversed(l) == Reversed(l[1..]) + [l[0]];
      assert l == [l[0]] + l[1..];
    }
  }

  // The nodes of s own the items of own
  ghost predicate Setup(s: seq<Node>, own: seq<Info>)
    reads s`info
  {
    |own| == |s| && forall k {:trigger own[k]} :: 0 <= k < |s| ==> s[k].info == own[k]
  }

  predicate Ascending(own: seq<Info>)
    reads own`idx
  {
    forall i, j :: 0 <= i < j < |own| ==> own[i].idx < own[j].idx
  }

  // ---- items as values

  datatype Item = Item(word: nat, idx: int)

  ghost function ItemsOf(nodes: set<Node>): map<Node, Item>
    reads nodes`info, set x | x in nodes :: x.info
  {
    map x | x in nodes :: Item(x.info.data16, x.info.idx)
  }

  predicate Has(items: map<Node, Item>, l: seq<Node>) {
    forall i {:trigger l[i]} :: 0 <= i < |l| ==> l[i] in items
  }

  /** core_list_find looks for an idx or, if that is negative, for a low byte. */
  predicate Fits(it: Item, idx: int, low: nat) {
    if idx >= 0 then it.idx == idx else it.word % 256 == low
  }

  /** k is the place of the first node of l that fits, or one past the last. */
  predicate FirstFit(items: map<Node, Item>, l: seq<Node>, idx: int, low: nat, k: nat)
    requires Has(items, l)
  {
    && k <= |l| && (k < |l| ==> Fits(items[l[k]], idx, low))
    && forall i :: 0 <= i < k ==> !Fits(items[l[i]], idx, low)
  }

  method FindFit(head: Node?, info: Info, ghost l: seq<Node>, ghost nodes: set<Node>) returns (r: Node?, ghost k: nat)
    requires IsList(head, l) && forall x :: x in l ==> x in nodes
    ensures FirstFit(ItemsOf(nodes), l, info.idx, info.data16, k) && r == At(l, k)
  {
    r, k := Find(head, info, l);
  }

  // ---- the finds

  /** The list, the checksum, the counters, and the idx looked for next. */
  datatype Finding = Finding(list: seq<Node>, retval: nat, found: nat, missed: nat, idx: int)

  /** cur is l reversed, with the node that then follows the one at place k of l, if any, moved up to the second place.
  */
  predicate AfterFind(l: seq<Node>, k: nat, cur: seq<Node>)
    requires k <= |l|
  {
    && |cur| == |l|
    && forall i {:trigger cur[i]} :: 0 <= i < |l| ==>
         cur[i] == l[|l| - 1 - if 0 < k < |l| then Source(|l| - 1 - k, i) else i]
  }

  /** A turn in which the node at place k of the list fits first: the list is reversed; if none fits, bit 8 of the node
      that is then second goes into the checksum; otherwise bit 9 of the node found does, if its bit 0 is set, and the
      node that follows it in the reversed list moves up to the second place. */
  ghost predicate Turned(items: map<Node, Item>, f: Finding, g: Finding, k: nat)
    requires Has(items, f.list) && |f.list| >= 3 && k <= |f.list|
  {
    var l, n := f.list, |f.list|;
    && AfterFind(l, k, g.list)
    && g.found == (if k < n then U16(f.found + 1) else f.found)
    && g.missed == (if k < n then f.missed else U16(f.missed + 1))
    && g.retval == (if k == n then U16(f.retval + items[l[n - 2]].word / 256 % 2)
                    else if items[l[k]].word % 2 == 1 then U16(f.retval + items[l[k]].word / 512 % 2) else f.retval)
  }

  // The first fit of a turn is at place k
  ghost predicate FoundAt(items: map<Node, Item>, f: Finding, low: nat, g: Finding, k: nat) {
    && Has(items, f.list) && |f.list| >= 3 && FirstFit(items, f.list, f.idx, low, k) && Turned(items, f, g, k)
  }

  // Turn i leads from f to g
  ghost predicate FindTurn(items: map<Node, Item>, f: Finding, i: nat, g: Finding) {
    && g.idx == (if f.idx >= 0 then S16(f.idx + 1) else f.idx)
    && exists k :: FoundAt(items, f, i % 256, g, k)
  }

  /** The first turns of the loop of lines 144-169, from list s on. */
  ghost predicate Finds(items: map<Node, Item>, trace: seq<Finding>, s: seq<Node>, idx: int) {
    && trace != [] && trace[0] == Finding(s, 0, 0, 0, idx)
    && forall i {:trigger IsTurn(items, trace, i)} :: 0 <= i < |trace| - 1 ==> IsTurn(items, trace, i)
  }

  ghost predicate IsTurn(items: map<Node, Item>, trace: seq<Finding>, i: nat) {
    i < |trace| - 1 && FindTurn(items, trace[i], i, trace[i + 1])
  }

  lemma OneMoreTurn(items: map<Node, Item>, trace: seq<Finding>, s: seq<Node>, idx: int, g: Finding)
    returns (t: seq<Finding>)
    requires Finds(items, trace, s, idx) && FindTurn(items, trace[|trace| - 1], |trace| - 1, g)
    ensures Finds(items, t, s, idx) && |t| == |trace| + 1 && t[|trace|] == g
  {
    t := trace + [g];
    forall i | 0 <= i < |t| - 1 ensures IsTurn(items, t, i) {
      if i < |trace| - 1 { assert IsTurn(items, trace, i); }
    }
  }

  /** The checksum that the finds end with. */
  function FindSum(f: Finding): nat {
    U16(f.retval + f.found * 4 - f.missed)
  }

  // Line 145
  method LookFor(info: Info, low: nat, ghost s: seq<Node>, ghost items: map<Node, Item>)
    requires items == ItemsOf(Nodes(s)) && forall x :: x in s ==> x.info != info
    modifies info`data16
    ensures info.data16 == low && items == ItemsOf(Nodes(s))
  {
    info.data16 := low;
  }

  // Lines 165-166
  method NextIdx(info: Info, ghost s: seq<Node>, ghost items: map<Node, Item>)
    requires items == ItemsOf(Nodes(s)) && forall x :: x in s ==> x.info != info
    modifies info`idx
    ensures info.idx == (if old(info.idx) >= 0 then S16(old(info.idx) + 1) else old(info.idx))
    ensures items == ItemsOf(Nodes(s))
  {
    if info.idx >= 0 { info.idx := S16(info.idx + 1); }
  }

  // Lines 144-169
  method FindPhase(head: Node, info: Info, findNum: int, ghost s: seq<Node>, ghost items: map<Node, Item>)
    returns (list: Node, retval: nat, ghost trace: seq<Finding>)
    requires IsList(head, s) && |s| >= 3 && items == ItemsOf(Nodes(s)) && forall x :: x in s ==> x.info != info
    modifies s`next, info`data16, info`idx
    ensures Finds(items, trace, s, old(info.idx)) && |trace| == (if findNum > 0 then findNum else 0) + 1
    ensures items == ItemsOf(Nodes(s))
    ensures var last := trace[|trace| - 1];
            IsList(list, last.list) && AllIn(last.list, s) && retval == FindSum(last) && info.idx == last.idx
    ensures info.data16 == if findNum > 0 then (findNum - 1) % 256 else old(info.data16)
  {
    var found, missed;
    list, retval, found, missed, trace := FindLoop(head, info, findNum, s, items);
    retval := U16(retval + found * 4 - missed);
  }

  method FindLoop(head: Node, info: Info, findNum: int, ghost s: seq<Node>, ghost items: map<Node, Item>)
    returns (list: Node, retval: nat, found: nat, missed: nat, ghost trace: seq<Finding>)
    requires IsList(head, s) && |s| >= 3 && items == ItemsOf(Nodes(s)) && forall x :: x in s ==> x.info != info
    modifies s`next, info`data16, info`idx
    ensures Finds(items, trace, s, old(info.idx)) && |trace| == (if findNum > 0 then findNum else 0) + 1
    ensures items == ItemsOf(Nodes(s))
    ensures var last := trace[|trace| - 1];
            && IsList(list, last.list) && AllIn(last.list, s)
            && last == Finding(last.list, retval, found, missed, info.idx)
    ensures info.data16 == if findNum > 0 then (findNum - 1) % 256 else old(info.data16)
  {
    var i := 0;
    list, retval, found, missed := head, 0, 0, 0;
    ghost var idx, f := info.idx, Finding(s, 0, 0, 0, info.idx);
    trace := [f];
    while i < findNum
      invariant |trace| == i + 1 && i <= (if findNum > 0 then findNum else 0)
      invariant IsList(list, f.list) && AllIn(f.list, s) && items == ItemsOf(Nodes(s))
      invariant Finds(items, trace, s, idx) && trace[|trace| - 1] == f
      invariant f == Finding(f.list, retval, found, missed, info.idx)
      invariant info.data16 == if i > 0 then (i - 1) % 256 else old(info.data16)
    {
      list, retval, found, missed, f := FindTurnOnce(list, info, i, retval, found, missed, s, items, f);
      trace := OneMoreTurn(items, trace, s, idx, f);
      i := i + 1;
    }
  }

  // The words stay as they are
  method FindAll(head: Node, info: Info, findNum: int, ghost s: seq<Node>, ghost items: map<Node, Item>,
                 ghost own: seq<Info>, ghost infos: set<Info>, ghost w0: map<Info, nat>)
    returns (list: Node, retval: nat, ghost trace: seq<Finding>)
    requires Setup(s, own) && Ascending(own) && IsList(head, s) && |s| >= 3
    requires items == ItemsOf(Nodes(s)) && OwnInfos(Nodes(s), infos) && info !in infos
    requires w0 == WordsOf(infos)
    modifies s`next, info`data16, info`idx
    ensures Finds(items, trace, s, old(info.idx)) && |trace| == (if findNum > 0 then findNum else 0) + 1
    ensures w0 == WordsOf(infos) && Setup(s, own) && Ascending(own)
    ensures var last := trace[|trace| - 1];
            IsList(list, last.list) && AllIn(last.list, s) && retval == FindSum(last) && info.idx == last.idx
    ensures info.data16 == if findNum > 0 then (findNum - 1) % 256 else old(info.data16)
  {
    forall x | x in s ensures x.info != info { assert x in Nodes(s); }
    list, retval, trace := FindPhase(head, info, findNum, s, items);
  }

  // One turn of that loop
  method FindTurnOnce(list0: Node, info: Info, i: nat, retval0: nat, found0: nat, missed0: nat, ghost s: seq<Node>,
                      ghost items: map<Node, Item>, ghost f: Finding)
    returns (list: Node, retval: nat, found: nat, missed: nat, ghost g: Finding)
    requires IsList(list0, f.list) && AllIn(f.list, s) && |s| >= 3 && items == ItemsOf(Nodes(s))
    requires f == Finding(f.list, retval0, found0, missed0, info.idx)
    requires forall x :: x in s ==> x.info != info
    modifies s`next, info`data16, info`idx
    ensures IsList(list, g.list) && AllIn(g.list, s) && g == Finding(g.list, retval, found, missed, info.idx)
    ensures FindTurn(items, f, i, g) && items == ItemsOf(Nodes(s)) && info.data16 == i % 256
  {
    LookFor(info, i % 256, s, items);
    list, retval, found, missed, g := TurnOnce(list0, info, i, retval0, found0, missed0, s, items, f);
  }

  // Lines 146-166
  method TurnOnce(list0: Node, info: Info, ghost i: nat, retval0: nat, found0: nat, missed0: nat, ghost s: seq<Node>,
                  ghost items: map<Node, Item>, ghost f: Finding)
    returns (list: Node, retval: nat, found: nat, missed: nat, ghost g: Finding)
    requires IsList(list0, f.list) && AllIn(f.list, s) && |s| >= 3 && items == ItemsOf(Nodes(s))
    requires f == Finding(f.list, retval0, found0, missed0, info.idx) && info.data16 == i % 256
    requires forall x :: x in s ==> x.info != info
    modifies s`next, info`idx
    ensures IsList(list, g.list) && AllIn(g.list, s) && g == Finding(g.list, retval, found, missed, info.idx)
    ensures FindTurn(items, f, i, g) && items == ItemsOf(Nodes(s))
  {
    SameNodeSet(f.list, s);
    list, retval, found, missed, g := FindAndUse(list0, info, i, retval0, found0, missed0, s, items, f);
    StillSame(g.list, f.list, s);
    NextIdx(info, s, items);
    g := CountedUp(items, f, i, g, info.idx);
  }

  lemma CountedUp(items: map<Node, Item>, f: Finding, i: nat, g: Finding, idx: int) returns (g': Finding)
    requires idx == (if f.idx >= 0 then S16(f.idx + 1) else f.idx) && exists k :: FoundAt(items, f, i % 256, g, k)
    ensures g' == g.(idx := idx) && FindTurn(items, f, i, g')
  {
    g' := g.(idx := idx);
    var k :| FoundAt(items, f, i % 256, g, k);
    assert FoundAt(items, f, i % 256, g', k);
  }

  method FindAndUse(list0: Node, info: Info, ghost i: nat, retval0: nat, found0: nat, missed0: nat, ghost s: seq<Node>,
                    ghost items: map<Node, Item>, ghost f: Finding)
    returns (list: Node, retval: nat, found: nat, missed: nat, ghost g: Finding)
    requires IsList(list0, f.list) && |f.list| >= 3 && items == ItemsOf(Nodes(s))
    requires forall i :: 0 <= i < |f.list| ==> f.list[i] in s
    requires f == Finding(f.list, retval0, found0, missed0, info.idx) && info.data16 == i % 256
    modifies s`next
    ensures IsList(list, g.list) && AllIn(g.list, f.list) && g == Finding(g.list, retval, found, missed, info.idx)
    ensures exists k :: FoundAt(items, f, i % 256, g, k)
  {
    ghost var cur, k;
    list, retval, found, missed, cur, k := FindOnce(list0, info, retval0, found0, missed0, items, s, f.list);
    g := Finding(cur, retval, found, missed, info.idx);
    assert FoundAt(items, f, i % 256, g, k);
  }

  lemma StillSame(a: seq<Node>, b: seq<Node>, c: seq<Node>)
    requires AllIn(a, b) && AllIn(b, c)
    ensures AllIn(a, c)
  {
  }

  lemma SameNodeSet(l: seq<Node>, s: seq<Node>)
    requires AllIn(l, s)
    ensures |l| == |s| && forall i :: 0 <= i < |l| ==> l[i] in s
  {
    Same(l, s);
  }

  // Lines 146-164
  method FindOnce(list0: Node, info: Info, retval0: nat, found0: nat, missed0: nat, ghost items: map<Node, Item>,
                  ghost s: seq<Node>, ghost l: seq<Node>)
    returns (list: Node, retval: nat, found: nat, missed: nat, ghost cur: seq<Node>, ghost k: nat)
    requires IsList(list0, l) && |l| >= 3 && (forall i :: 0 <= i < |l| ==> l[i] in s) && items == ItemsOf(Nodes(s))
    modifies s`next
    ensures Has(items, l) && FirstFit(items, l, info.idx, info.data16, k)
    ensures AfterFind(l, k, cur) && IsList(list, cur) && AllIn(cur, l)
    ensures found == (if k < |l| then U16(found0 + 1) else found0)
    ensures missed == (if k < |l| then missed0 else U16(missed0 + 1))
    ensures retval == (if k == |l| then U16(retval0 + items[l[|l| - 2]].word / 256 % 2)
                       else if items[l[k]].word % 2 == 1 then U16(retval0 + items[l[k]].word / 512 % 2) else retval0)
  {
    var thisFind;
    thisFind, k := FindFit(list0, info, l, Nodes(s));
    list, retval, found, missed, cur := UseFind(list0, thisFind, retval0, found0, missed0, s, items, l, k);
  }

  // Lines 147-163
  method UseFind(list0: Node, thisFind: Node?, retval0: nat, found0: nat, missed0: nat, ghost s: seq<Node>,
                 ghost items: map<Node, Item>, ghost l: seq<Node>, ghost k: nat)
    returns (list: Node, retval: nat, found: nat, missed: nat, ghost cur: seq<Node>)
    requires IsList(list0, l) && |l| >= 3 && (forall i :: 0 <= i < |l| ==> l[i] in s) && items == ItemsOf(Nodes(s))
    requires k <= |l| && thisFind == At(l, k)
    modifies l`next
    ensures Has(items, l) && AfterFind(l, k, cur) && IsList(list, cur) && AllIn(cur, l)
    ensures found == (if k < |l| then U16(found0 + 1) else found0)
    ensures missed == (if k < |l| then missed0 else U16(missed0 + 1))
    ensures retval == (if k == |l| then U16(retval0 + items[l[|l| - 2]].word / 256 % 2)
                       else if items[l[k]].word % 2 == 1 then U16(retval0 + items[l[k]].word / 512 % 2) else retval0)
  {
    list, cur := ReverseList(list0, l);
    if thisFind == null {
      found, missed := found0, U16(missed0 + 1);
      retval := Missed(list, retval0, s, items, l, cur);
    } else {
      found, missed := U16(found0 + 1), missed0;
      retval := HitSum(thisFind, retval0, s, items);
      cur := MoveUp(list, thisFind, l, cur, k);
    }
  }

  predicate IsReverse(l: seq<Node>, r: seq<Node>) {
    |r| == |l| && forall i {:trigger r[i]} :: 0 <= i < |l| ==> r[i] == l[|l| - 1 - i]
  }

  // Line 147
  method ReverseList(list0: Node, ghost l: seq<Node>) returns (list: Node, ghost r: seq<Node>)
    requires IsList(list0, l) && l != []
    modifies l`next
    ensures IsList(list, r) && IsReverse(l, r) && AllIn(r, l)
  {
    r := Reversed(l);
    ReversedSame(l);
    list := Reverse(list0, l);
  }

  // Lines 154-155
  method HitSum(thisFind: Node, retval0: nat, ghost s: seq<Node>, ghost items: map<Node, Item>) returns (retval: nat)
    requires thisFind in s && items == ItemsOf(Nodes(s))
    ensures thisFind in items
    ensures retval == if items[thisFind].word % 2 == 1 then U16(retval0 + items[thisFind].word / 512 % 2) else retval0
  {
    retval := retval0;
    if thisFind.info.data16 % 2 == 1 { retval := U16(retval + thisFind.info.data16 / 512 % 2); }
  }

  // Lines 157-162
  method MoveUp(list: Node, thisFind: Node, ghost l: seq<Node>, ghost r: seq<Node>, ghost k: nat)
    returns (ghost cur: seq<Node>)
    requires IsList(list, r) && IsReverse(l, r) && AllIn(r, l) && k < |l| && thisFind == l[k]
    modifies l`next
    ensures AfterFind(l, k, cur) && IsList(list, cur) && AllIn(cur, l)
  {
    cur := MovedUp(l, r, k);
    Same(r, l);
    CacheNext(list, thisFind, r, |l| - 1 - k);
  }

  lemma MovedUp(l: seq<Node>, r: seq<Node>, k: nat) returns (cur: seq<Node>)
    requires IsReverse(l, r) && AllIn(r, l) && k < |l|
    ensures AfterFind(l, k, cur) && AllIn(cur, l)
    ensures var at := |l| - 1 - k; cur == if at + 1 < |r| then Cached(r, at) else r
  {
    var at := |l| - 1 - k;
    if k > 0 {
      cur := Cached(r, at);
      CachedSame(r, at, l);
    } else {
      cur := r;
    }
  }

  lemma CachedSame(r: seq<Node>, at: nat, l: seq<Node>)
    requires at + 1 < |r| && multiset(r) == multiset(l)
    ensures AllIn(Cached(r, at), l)
  {
    CachedSameNodes(r, at);
  }

  // Line 150
  method Missed(list: Node, retval0: nat, ghost s: seq<Node>, ghost items: map<Node, Item>, ghost l: seq<Node>,
                ghost r: seq<Node>)
    returns (retval: nat)
    requires IsList(list, r) && IsReverse(l, r) && |l| >= 3 && l[|l| - 2] in s && items == ItemsOf(Nodes(s))
    ensures l[|l| - 2] in items && retval == U16(retval0 + items[l[|l| - 2]].word / 256 % 2)
  {
    assert r[0].next == At(r, 1) && r[1] == l[|l| - 2];
    retval := U16(retval0 + list.next.info.data16 / 256 % 2);
  }

  // ---- the CRCs

  /** crc16 of word, n times over. */
  function CrcTimes(crc16: (nat, nat) -> nat, word: nat, r: nat, n: nat): nat {
    if n == 0 then r else U16(crc16(word, CrcTimes(crc16, word, r, n - 1)))
  }

  // Lines 179-182 and 190-194: the CRC of the first item, once for each node from finder on
  method CrcFrom(list: Node, finder0: Node?, retval0: nat, crc16: (nat, nat) -> nat, ghost l: seq<Node>, ghost k0: nat)
    returns (retval: nat)
    requires IsList(list, l) && k0 <= |l| && finder0 == At(l, k0)
    ensures retval == CrcTimes(crc16, list.info.data16, retval0, |l| - k0)
  {
    var finder := finder0;
    ghost var k := k0;
    retval := retval0;
    while finder != null
      invariant k0 <= k <= |l| && finder == At(l, k)
      invariant retval == CrcTimes(crc16, list.info.data16, retval0, k - k0)
      decreases |l| - k
    {
      retval := U16(crc16(list.info.data16, retval));
      assert l[k].next == At(l, k + 1);
      finder := finder.next;
      k := k + 1;
    }
  }

  /** How many nodes the CRC of lines 179-182 is taken over: those from the first fit on, or all but the head. */
  ghost predicate CrcCount(items: map<Node, Item>, rest: seq<Node>, idx: int, low: nat, n: nat)
    requires Has(items, rest) && rest != []
  {
    exists k: nat :: FirstFit(items, rest, idx, low, k) && n + (if k == |rest| then 1 else k) == |rest|
  }

  /** Lines 174-186: removing the second node and undoing it gives back the list, links and items alike; in between the
      item of the second node is missing. */
  method RemovePhase(list: Node, info: Info, retval0: nat, crc16: (nat, nat) -> nat, ghost l: seq<Node>,
                     ghost x: Node, ghost y: Node, ghost items: map<Node, Item>)
    returns (retval: nat, ghost n: nat)
    requires IsList(list, l) && |l| >= 3 && x == l[1] && y == l[2] && items == ItemsOf(Nodes(l))
    modifies x`next, x`info, y`next, y`info
    ensures IsList(list, l) && x.info == old(x.info) && y.info == old(y.info)
    ensures l[0] in items && retval == CrcTimes(crc16, items[l[0]].word, retval0, n)
    ensures Has(items, [l[0]] + l[2..]) && CrcCount(items, [l[0]] + l[2..], info.idx, info.data16, n)
  {
    ghost var m := l[..2] + l[3..];
    var remover, finder;
    ghost var k;
    remover, finder, k := RemoveAndFind(list, info, l, x, y, items);
    assert m[0].next == At(m, 1);
    n := |m| - if finder == null then 1 else k;
    if finder == null {
      finder := list.next;
      k := 1;
    }
    retval := CrcFrom(list, finder, retval0, crc16, m, k);
    remover := UndoRemove(remover, list.next, list, l, 1);
  }

  // Lines 174-178
  method RemoveAndFind(list: Node, info: Info, ghost l: seq<Node>, ghost x: Node, ghost y: Node,
                       ghost items: map<Node, Item>)
    returns (remover: Node, finder: Node?, ghost k: nat)
    requires IsList(list, l) && |l| >= 3 && x == l[1] && y == l[2] && items == ItemsOf(Nodes(l))
    modifies x`next, x`info, y`next, y`info
    ensures remover == y && IsList(list, l[..2] + l[3..]) && finder == At(l[..2] + l[3..], k)
    ensures x.info == old(y.info) && y.info == old(x.info)
    ensures Has(items, [l[0]] + l[2..]) && FirstFit(items, [l[0]] + l[2..], info.idx, info.data16, k)
  {
    ghost var m := l[..2] + l[3..];
    assert l[0].next == At(l, 1);
    RestBelongs(items, l);
    remover := Remove(list.next, y, list, l, 1);
    finder, k := FindFit(list, info, m, Nodes(m));
    SameFit(items, ItemsOf(Nodes(m)), l, m, info.idx, info.data16, k);
  }

  // After the removal the second node holds the third one's item
  lemma SameFit(items: map<Node, Item>, after: map<Node, Item>, l: seq<Node>, m: seq<Node>, idx: int, low: nat, k: nat)
    requires |l| >= 3 && m == l[..2] + l[3..] && Has(items, l) && Has(after, m)
    requires l[0] in after && after[l[0]] == items[l[0]] && l[1] in after && after[l[1]] == items[l[2]]
    requires forall i :: 3 <= i < |l| ==> l[i] in after && after[l[i]] == items[l[i]]
    requires FirstFit(after, m, idx, low, k)
    ensures FirstFit(items, [l[0]] + l[2..], idx, low, k)
  {
    var rest := [l[0]] + l[2..];
    forall i | 0 <= i < |m| ensures items[rest[i]] == after[m[i]] { }
  }

  ghost predicate AscendingNodes(s: seq<Node>)
    reads s`info, set x | x in s :: x.info
  {
    forall i, j :: 0 <= i < j < |s| ==> s[i].info.idx < s[j].info.idx
  }

  lemma SameFirst(s: seq<Node>, t: seq<Node>)
    requires multiset(s) == multiset(t) && s != [] && AscendingNodes(s) && AscendingNodes(t)
    ensures t != [] && s[0] == t[0]
  {
    Same(s, t);
    assert s[0] in t && t[0] in t && t[0] in s;
    var i :| 0 <= i < |t| && t[i] == s[0];
    var j :| 0 <= j < |s| && s[j] == t[0];
  }

  lemma SameTails(s: seq<Node>, t: seq<Node>)
    requires multiset(s) == multiset(t) && s != [] && t != [] && s[0] == t[0]
    ensures multiset(s[1..]) == multiset(t[1..])
  {
    assert s == [s[0]] + s[1..] && t == [s[0]] + t[1..];
    assert multiset(s[1..]) == multiset(s) - multiset{s[0]} && multiset(t[1..]) == multiset(t) - multiset{s[0]};
  }

  lemma AscendingTail(s: seq<Node>)
    requires AscendingNodes(s) && s != []
    ensures AscendingNodes(s[1..])
  {
    forall i, j | 0 <= i < j < |s[1..]| ensures s[1..][i].info.idx < s[1..][j].info.idx {
      assert s[i + 1].info.idx < s[j + 1].info.idx;
    }
  }

  /** Two arrangements of the same nodes in strictly ascending order of idx are equal. */
  lemma {:induction false} AscendingUnique(s: seq<Node>, t: seq<Node>)
    requires multiset(s) == multiset(t) && AscendingNodes(s) && AscendingNodes(t)
    ensures s == t
  {
    Same(s, t);
    if s != [] {
      SameFirst(s, t);
      SameTails(s, t);
      AscendingTail(s);
      AscendingTail(t);
      AscendingUnique(s[1..], t[1..]);
      assert s == [s[0]] + s[1..] && t == [t[0]] + t[1..];
    }
  }

  // The last sort puts the nodes back in their first order
  lemma BackInOrder(s: seq<Node>, cur: seq<Node>, t: seq<Node>)
    requires AllIn(cur, s) && AllIn(t, cur) && Distinct(cur) && (forall x :: x in t ==> x in cur)
    requires StablySorted(ByIndex, cur, t)
    requires AscendingNodes(s)
    ensures t == s
  {
    Same(t, s);
    forall i, j | 0 <= i < j < |t| ensures t[i].info.idx < t[j].info.idx {
      var a :| 0 <= a < |s| && s[a] == t[i];
      var b :| 0 <= b < |s| && s[b] == t[j];
    }
    AscendingUnique(s, t);
  }

  // Settling a regenerated item by value and then by index restores it
  lemma Regenerated(w0: map<Info, nat>, f: Info, w1: nat, w2: nat)
    requires SettledItem(ByValue, w0, f, w1) && Doubled(w0)
    requires w2 == w1 || Settles(ByIndex, w1, w2)
    requires Settled(ByIndex, w2)
    ensures f in w0 && w2 == w0[f]
  {
  }

  // The second node and its successor are among the nodes of s
  method RemoveSecond(list: Node, info: Info, retval0: nat, crc16: (nat, nat) -> nat, ghost l: seq<Node>,
                      ghost s: seq<Node>, ghost own: seq<Info>, ghost items: map<Node, Item>)
    returns (retval: nat, ghost n: nat)
    requires IsList(list, l) && AllIn(l, s) && |s| >= 3 && Setup(s, own) && items == ItemsOf(Nodes(s))
    modifies s`next, s`info
    ensures IsList(list, l) && Setup(s, own) && |l| == |s|
    ensures l[0] in items && retval == CrcTimes(crc16, items[l[0]].word, retval0, n)
    ensures Has(items, [l[0]] + l[2..]) && CrcCount(items, [l[0]] + l[2..], info.idx, info.data16, n)
  {
    Same(l, s);
    assert Nodes(l) == Nodes(s);
    retval, n := RemovePhase(list, info, retval0, crc16, l, l[1], l[2], items);
  }

  lemma RestBelongs(items: map<Node, Item>, l: seq<Node>)
    requires Has(items, l) && |l| >= 3
    ensures Has(items, [l[0]] + l[2..])
  {
  }

  // w0 holds words with equal bytes
  predicate Doubled(w0: map<Info, nat>) {
    forall f :: f in w0 ==> w0[f] % 256 == w0[f] / 256
  }

  /** What lines 172-173 make of the list l: the list cur, sorted by the values in the low bytes, equal ones in the
      order they had, with the items' turns counted; or l itself. */
  ghost predicate Arranged(finderIdx: int, res: Results, w0: map<Info, nat>, t0: Tally, asked0: seq<Info>,
                           l: seq<Node>, cur: seq<Node>, infos: set<Info>)
    reads res, infos`data16, cur`info, set x | x in cur :: x.info
  {
    if finderIdx > 0 then
      (forall x :: x in cur ==> x in l) && StablySorted(ByValue, l, cur) && Accounted(res, w0, t0, asked0, infos)
    else cur == l && WordsOf(infos) == w0 && res.Now() == t0 && res.asked == asked0
  }

  method SortOrNot(list0: Node, finderIdx: int, res: Results, ghost s: seq<Node>, ghost l: seq<Node>,
                   ghost infos: set<Info>, ghost w0: map<Info, nat>)
    returns (list: Node, ghost cur: seq<Node>)
    requires IsList(list0, l) && AllIn(l, s) && |s| >= 3 && OwnInfos(Nodes(s), infos)
    requires w0 == WordsOf(infos) && (forall f :: f in infos ==> Word(f.data16))
    modifies s`next, infos`data16, res
    ensures IsList(list, cur) && AllIn(cur, s) && SettledSince(ByValue, infos, w0)
    ensures Arranged(finderIdx, res, w0, old(res.Now()), old(res.asked), l, cur, infos)
  {
    Same(l, s);
    list, cur := list0, l;
    if finderIdx > 0 {
      assert Nodes(l) == Nodes(s);
      var sorted;
      sorted, cur := Mergesort(list, ByValue, res, l, infos);
      Same(cur, s);
      list := sorted;
    }
  }

  // Lines 172-173
  method SortByValue(list0: Node, finderIdx: int, res: Results, ghost s: seq<Node>, ghost l: seq<Node>,
                     ghost own: seq<Info>, ghost infos: set<Info>, ghost w0: map<Info, nat>)
    returns (list: Node, ghost cur: seq<Node>)
    requires IsList(list0, l) && AllIn(l, s) && |s| >= 3 && OwnInfos(Nodes(s), infos)
    requires w0 == WordsOf(infos) && (forall f :: f in infos ==> Word(f.data16)) && Setup(s, own) && Ascending(own)
    modifies s`next, infos`data16, res
    ensures IsList(list, cur) && AllIn(cur, s) && SettledSince(ByValue, infos, w0) && Setup(s, own) && Ascending(own)
    ensures Arranged(finderIdx, res, w0, old(res.Now()), old(res.asked), l, cur, infos)
  {
    list, cur := SortOrNot(list0, finderIdx, res, s, l, infos, w0);
  }

  // Line 188: the nodes are back in their order, and every item has been settled once more
  method SortByIndex(list: Node, ghost s: seq<Node>, ghost l: seq<Node>, ghost infos: set<Info>) returns (back: Node)
    requires IsList(list, l) && AllIn(l, s) && |s| >= 3 && OwnInfos(Nodes(s), infos) && AscendingNodes(s)
    requires forall f :: f in infos ==> Word(f.data16)
    modifies s`next, infos`data16
    ensures IsList(back, s) && forall x :: x in s ==> Settled(ByIndex, x.info.data16)
    ensures forall f :: f in infos ==> f.data16 == old(f.data16) || Settles(ByIndex, old(f.data16), f.data16)
  {
    Same(l, s);
    assert Nodes(l) == Nodes(s);
    var sorted, t := Mergesort(list, ByIndex, null, l, infos);
    BackInOrder(s, l, t);
    back := sorted;
  }

  method SortBack(list: Node, ghost s: seq<Node>, ghost l: seq<Node>, ghost infos: set<Info>, ghost w0: map<Info, nat>)
    returns (back: Node)
    requires IsList(list, l) && AllIn(l, s) && |s| >= 3 && OwnInfos(Nodes(s), infos) && AscendingNodes(s)
    requires SettledSince(ByValue, infos, w0) && Doubled(w0)
    modifies s`next, infos`data16
    ensures IsList(back, s) && forall x :: x in s ==> x.info in w0 && x.info.data16 == w0[x.info]
  {
    back := SortByIndex(list, s, l, infos);
    forall x | x in s ensures x.info in w0 && x.info.data16 == w0[x.info] {
      assert x in Nodes(s) && x.info in infos;
      Regenerated(w0, x.info, old(x.info.data16), x.info.data16);
    }
  }

  // A list whose items are those of own, all different
  lemma SetupOwns(s: seq<Node>, own: seq<Info>, infos: set<Info>)
    requires Setup(s, own) && Ascending(own) && infos == set f | f in own
    ensures OwnInfos(Nodes(s), infos) && AscendingNodes(s)
  {
    forall x, y | x in Nodes(s) && y in Nodes(s) && x.info == y.info ensures x == y {
      var i :| 0 <= i < |s| && s[i] == x;
      var j :| 0 <= j < |s| && s[j] == y;
      assert own[i] == x.info && own[j] == y.info;
    }
    forall x | x in Nodes(s) ensures x.info in infos {
      var i :| 0 <= i < |s| && s[i] == x;
      assert own[i] in own;
    }
    forall i, j | 0 <= i < j < |s| ensures s[i].info.idx < s[j].info.idx { assert own[i].idx < own[j].idx; }
  }

  /** t holds nodes of l in ascending order of the values in their items, equal ones in the order of l. */
  ghost predicate SortedBy(items: map<Node, Item>, l: seq<Node>, t: seq<Node>) {
    && Has(items, t) && (forall x :: x in t ==> x in l)
    && forall i, j :: 0 <= i < j < |t| ==> InOrder(items, l, t, i, j)
  }

  ghost predicate InOrder(items: map<Node, Item>, l: seq<Node>, t: seq<Node>, i: nat, j: nat)
    requires i < j < |t| && Has(items, t) && t[i] in l && t[j] in l
  {
    var vi, vj := items[t[i]].word % 128, items[t[j]].word % 128;
    vi < vj || (vi == vj && PlaceOf(l, t[i]) < PlaceOf(l, t[j]))
  }

  /** What lines 172-173 do, on values: from the words w0 and the tally t0, the list l becomes cur, the items get the
      words of words, and the tally becomes t, by the calls of calc_func from asked0 to asked. */
  ghost predicate Sorts(finderIdx: int, res: Results, w0: map<Info, nat>, t0: Tally, asked0: seq<Info>, l: seq<Node>,
                        items: map<Node, Item>, cur: seq<Node>, words: map<Info, nat>, t: Tally, asked: seq<Info>) {
    if finderIdx > 0 then
      && SortedBy(items, l, cur) && asked0 <= asked && ListCrc.Known(w0, asked[|asked0|..])
      && ListCrc.Folded(res, w0, t0, ListCrc.Turns(w0, asked[|asked0|..]), words, t)
    else cur == l && words == w0 && t == t0 && asked == asked0
  }

  lemma ArrangedIsSorts(finderIdx: int, res: Results, w0: map<Info, nat>, t0: Tally, asked0: seq<Info>, l: seq<Node>,
                        cur: seq<Node>, infos: set<Info>, nodes: set<Node>)
    requires Arranged(finderIdx, res, w0, t0, asked0, l, cur, infos) && forall i :: 0 <= i < |cur| ==> cur[i] in nodes
    ensures Sorts(finderIdx, res, w0, t0, asked0, l, ItemsOf(nodes), cur, WordsOf(infos), res.Now(), res.asked)
  {
    var items := ItemsOf(nodes);
    if finderIdx > 0 {
      forall i, j | 0 <= i < j < |cur| ensures InOrder(items, l, cur, i, j) { }
    }
  }

  /** The node of own[k] is s[k], and its item has the word of words. */
  predicate Shows(items: map<Node, Item>, s: seq<Node>, own: seq<Info>, words: map<Info, nat>)
    reads own`idx
  {
    && |own| == |s|
    && forall k {:trigger own[k]} :: 0 <= k < |s| ==>
         s[k] in items && own[k] in words && items[s[k]] == Item(words[own[k]], own[k].idx)
  }

  // The low byte that the last find looked for
  function LowByte(findNum: int): nat {
    if findNum > 0 then (findNum - 1) % 256 else 0
  }

  // Lines 135-173
  method Shuffle(res: Results, info: Info, finderIdx: int, ghost s: seq<Node>, ghost own: seq<Info>,
                 ghost infos: set<Info>, ghost w0: map<Info, nat>, ghost items: map<Node, Item>)
    returns (list: Node, retval: nat, ghost trace: seq<Finding>, ghost cur: seq<Node>)
    requires IsList(res.list, s) && |s| >= 3 && Setup(s, own) && info.data16 == 0 && info.idx == finderIdx
    requires Ascending(own) && infos == (set f | f in own) && info !in infos && items == ItemsOf(Nodes(s))
    requires w0 == WordsOf(infos) && forall f :: f in infos ==> Word(f.data16)
    modifies s`next, infos`data16, res, info`data16, info`idx
    ensures IsList(list, cur) && AllIn(cur, s) && SettledSince(ByValue, infos, w0) && Setup(s, own) && Ascending(own)
    ensures Finds(items, trace, s, finderIdx) && |trace| == (if res.seed3 > 0 then res.seed3 else 0) + 1
    ensures var last := trace[|trace| - 1];
            && retval == FindSum(last) && info.idx == last.idx && info.data16 == LowByte(res.seed3)
            && Arranged(finderIdx, res, w0, old(res.Now()), old(res.asked), last.list, cur, infos)
  {
    SetupOwns(s, own, infos);
    list, retval, trace := FindAll(res.list, info, res.seed3, s, items, own, infos, w0);
    list, cur := SortByValue(list, finderIdx, res, s, trace[|trace| - 1].list, own, infos, w0);
  }

  // The same on values
  method ShuffleValues(res: Results, info: Info, finderIdx: int, ghost s: seq<Node>, ghost own: seq<Info>,
                       ghost infos: set<Info>, ghost w0: map<Info, nat>, ghost items0: map<Node, Item>)
    returns (list: Node, retval: nat, ghost trace: seq<Finding>, ghost cur: seq<Node>, ghost items: map<Node, Item>,
             ghost words: map<Info, nat>)
    requires IsList(res.list, s) && |s| >= 3 && Setup(s, own) && info.data16 == 0 && info.idx == finderIdx
    requires Ascending(own) && infos == (set f | f in own) && info !in infos && items0 == ItemsOf(Nodes(s))
    requires w0 == WordsOf(infos) && forall f :: f in infos ==> Word(f.data16)
    modifies s`next, infos`data16, res, info`data16, info`idx
    ensures IsList(list, cur) && AllIn(cur, s) && SettledSince(ByValue, infos, w0)
    ensures Finds(items0, trace, s, finderIdx) && |trace| == (if res.seed3 > 0 then res.seed3 else 0) + 1
    ensures var last := trace[|trace| - 1];
            && retval == FindSum(last) && info.idx == last.idx && info.data16 == LowByte(res.seed3)
            && Sorts(finderIdx, res, w0, old(res.Now()), old(res.asked), last.list, items, cur, words, res.Now(),
                     res.asked)
    ensures items == ItemsOf(Nodes(s)) && Shows(items, s, own, words) && Setup(s, own) && Ascending(own)
  {
    list, retval, trace, cur := Shuffle(res, info, finderIdx, s, own, infos, w0, items0);
    items, words := ItemsOf(Nodes(s)), WordsOf(infos);
    SameNodeSet(cur, s);
    ArrangedIsSorts(finderIdx, res, w0, old(res.Now()), old(res.asked), trace[|trace| - 1].list, cur, infos, Nodes(s));
    ShowsNow(s, own, infos);
  }

  lemma ShowsNow(s: seq<Node>, own: seq<Info>, infos: set<Info>)
    requires Setup(s, own) && infos == set f | f in own
    ensures Shows(ItemsOf(Nodes(s)), s, own, WordsOf(infos))
  {
  }

  // Lines 188-198
  method SortAndCrc(list0: Node, retval0: nat, crc16: (nat, nat) -> nat, ghost cur: seq<Node>, ghost s: seq<Node>,
                    ghost own: seq<Info>, ghost infos: set<Info>, ghost w0: map<Info, nat>)
    returns (list: Node, retval: nat)
    requires IsList(list0, cur) && AllIn(cur, s) && SettledSince(ByValue, infos, w0) && Doubled(w0) && |s| >= 3
    requires Setup(s, own) && Ascending(own) && infos == (set f | f in own)
    modifies s`next, infos`data16
    ensures IsList(list, s)
    ensures forall k {:trigger own[k]} :: 0 <= k < |own| ==> own[k] in w0 && own[k].data16 == w0[own[k]]
    ensures retval == CrcTimes(crc16, own[0].data16, retval0, |s| - 1)
  {
    SetupOwns(s, own, infos);
    list := SortBack(list0, s, cur, infos, w0);
    forall k | 0 <= k < |own| ensures own[k] in w0 && own[k].data16 == w0[own[k]] { assert s[k].info == own[k]; }
    assert s[0].next == At(s, 1);
    retval := CrcFrom(list, list.next, retval0, crc16, s, 1);
  }

  // Lines 174-198
  method Restore(list0: Node, info: Info, retval0: nat, crc16: (nat, nat) -> nat, ghost cur: seq<Node>,
                 ghost s: seq<Node>, ghost own: seq<Info>, ghost infos: set<Info>, ghost w0: map<Info, nat>,
                 ghost items: map<Node, Item>, ghost words: map<Info, nat>)
    returns (list: Node, retval: nat, ghost n: nat)
    requires items == ItemsOf(Nodes(s)) && IsList(list0, cur) && AllIn(cur, s) && |s| >= 3
    requires Shows(items, s, own, words)
    requires SettledSince(ByValue, infos, w0) && Doubled(w0)
    requires Setup(s, own) && Ascending(own) && infos == (set f | f in own)
    modifies s`next, s`info, infos`data16
    ensures IsList(list, s) && Setup(s, own) && Ascending(own) && Shows(items, s, own, words)
    ensures forall k {:trigger own[k]} :: 0 <= k < |own| ==> own[k] in w0 && own[k].data16 == w0[own[k]]
    ensures |cur| == |s| && cur[0] in items
    ensures var mid := CrcTimes(crc16, items[cur[0]].word, retval0, n);
            retval == CrcTimes(crc16, own[0].data16, mid, |s| - 1)
    ensures Has(items, [cur[0]] + cur[2..])
    ensures CrcCount(items, [cur[0]] + cur[2..], old(info.idx), old(info.data16), n)
  {
    retval, n := RemoveSecond(list0, info, retval0, crc16, cur, s, own, items);
    list, retval := SortAndCrc(list0, retval, crc16, cur, s, own, infos, w0);
  }

  /** core_bench_list: any list of at least three nodes, in ascending order of distinct idx and with equal bytes in
      every data16, is the same afterwards: head, order, data items and their contents.  The checksum is that of the
      finds, then the CRC of the head of the sorted list, once for each node from the one looked for on, then that of
      the first item, once for each node behind it; the results record has the checksums of the sort by value. */
  method BenchList(res: Results, finderIdx: int, ghost s: seq<Node>, ghost own: seq<Info>)
    returns (retval: nat, ghost trace: seq<Finding>, ghost cur: seq<Node>, ghost items: map<Node, Item>,
             ghost words: map<Info, nat>, ghost n: nat)
    requires IsList(res.list, s) && |s| >= 3 && Setup(s, own) && Ascending(own)
    requires forall f :: f in own ==> Word(f.data16) && f.data16 % 256 == f.data16 / 256
    modifies s`next, s`info, own`data16, res
    ensures IsList(res.list, s) && Setup(s, own) && Ascending(own)
    ensures forall k :: 0 <= k < |own| ==> own[k].data16 == old(own[k].data16)
    ensures Finds(old(ItemsOf(Nodes(s))), trace, s, finderIdx)
    ensures |trace| == (if res.seed3 > 0 then res.seed3 else 0) + 1 && AllIn(cur, s) && |cur| == |s|
    ensures Shows(items, s, own, words)
    ensures Sorts(finderIdx, res, old(WordsOf(set f | f in own)), old(res.Now()), old(res.asked),
                  trace[|trace| - 1].list, items, cur, words, res.Now(), res.asked)
    ensures Has(items, [cur[0]] + cur[2..])
    ensures CrcCount(items, [cur[0]] + cur[2..], trace[|trace| - 1].idx, LowByte(res.seed3), n)
    ensures cur[0] in items
    ensures var mid := CrcTimes(res.crcu16, items[cur[0]].word, FindSum(trace[|trace| - 1]), n);
            retval == CrcTimes(res.crcu16, own[0].data16, mid, |s| - 1)
  {
    ghost var infos := set f | f in own;
    ghost var w0, items0 := WordsOf(infos), ItemsOf(Nodes(s));
    var info := new Info(0, finderIdx);
    retval, trace, cur, items, words, n := BenchWith(res, info, finderIdx, s, own, infos, w0, items0);
  }

  // Lines 135-198, from words w0 and items items0 on
  method BenchWith(res: Results, info: Info, finderIdx: int, ghost s: seq<Node>, ghost own: seq<Info>,
                   ghost infos: set<Info>, ghost w0: map<Info, nat>, ghost items0: map<Node, Item>)
    returns (retval: nat, ghost trace: seq<Finding>, ghost cur: seq<Node>, ghost items: map<Node, Item>,
             ghost words: map<Info, nat>, ghost n: nat)
    requires IsList(res.list, s) && |s| >= 3 && Setup(s, own) && info.data16 == 0 && info.idx == finderIdx
    requires Ascending(own) && infos == (set f | f in own) && info !in infos && items0 == ItemsOf(Nodes(s))
    requires w0 == WordsOf(infos) && Doubled(w0) && forall f :: f in infos ==> Word(f.data16)
    modifies s`next, s`info, infos`data16, res, info`data16, info`idx
    ensures IsList(res.list, s) && Setup(s, own) && Ascending(own)
    ensures forall k {:trigger own[k]} :: 0 <= k < |own| ==> own[k] in w0 && own[k].data16 == w0[own[k]]
    ensures Finds(items0, trace, s, finderIdx) && |trace| == (if res.seed3 > 0 then res.seed3 else 0) + 1
    ensures AllIn(cur, s) && |cur| == |s| && Shows(items, s, own, words)
    ensures Sorts(finderIdx, res, w0, old(res.Now()), old(res.asked), trace[|trace| - 1].list, items, cur, words,
                  res.Now(), res.asked)
    ensures cur[0] in items && Has(items, [cur[0]] + cur[2..])
    ensures CrcCount(items, [cur[0]] + cur[2..], trace[|trace| - 1].idx, LowByte(res.seed3), n)
    ensures var mid := CrcTimes(res.crcu16, items[cur[0]].word, FindSum(trace[|trace| - 1]), n);
            retval == CrcTimes(res.crcu16, own[0].data16, mid, |s| - 1)
  {
    var list;
    list, retval, trace, cur, items, words := ShuffleValues(res, info, finderIdx, s, own, infos, w0, items0);
    list, retval, n := Restore(list, info, retval, res.crcu16, cur, s, own, infos, w0, items, words);
  }
}
