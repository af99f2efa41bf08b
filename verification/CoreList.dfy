/** The list of core_list_join.c: nodes that point to data items, and the operations that relink them in place. */
module CoreList {
  // 16-bit words as their unsigned value; idx is the signed ee_s16
  class Info {
    var data16: nat
    var idx: int

    constructor (data16: nat, idx: int)
      ensures this.data16 == data16 && this.idx == idx
    {
      this.data16, this.idx := data16, idx;
    }
  }

  class Node {
    var next: Node?
    var info: Info

    constructor (info: Info)
      ensures next == null && this.info == info
    {
      this.next, this.info := null, info;
    }
  }

  function At(l: seq<Node>, i: int): Node? {
    if 0 <= i < |l| then l[i] else null
  }

  predicate Distinct(l: seq<Node>) {
    forall i, j :: 0 <= i < j < |l| ==> l[i] != l[j]
  }

  // Each node leads to the next one; where the last leads is open
  ghost predicate Linked(l: seq<Node>)
    reads l`next
  {
    forall i {:trigger l[i].next} :: 0 <= i < |l| - 1 ==> l[i].next == l[i + 1]
  }

  /** h is the head of the null-terminated list l. */
  ghost predicate IsList(h: Node?, l: seq<Node>)
    reads l`next
  {
    && Distinct(l) && h == At(l, 0)
    && forall i {:trigger l[i].next} :: 0 <= i < |l| ==> l[i].next == At(l, i + 1)
  }

  // ---- reverse

  function Reversed(l: seq<Node>): (r: seq<Node>)
    ensures |r| == |l| && forall i :: 0 <= i < |l| ==> r[i] == l[|l| - 1 - i]
  {
    seq(|l|, i requires 0 <= i < |l| => l[|l| - 1 - i])
  }

  /** core_list_reverse */
  method Reverse(head: Node?, ghost l: seq<Node>) returns (r: Node?)
    requires IsList(head, l)
    modifies l`next
    ensures IsList(r, Reversed(l))
  {
    var list := head;
    r := null;
    ghost var k := 0;
    while list != null
      invariant k <= |l| && list == At(l, k) && r == At(l, k - 1)
      invariant forall i {:trigger l[i].next} :: k <= i < |l| ==> l[i].next == At(l, i + 1)
      invariant forall i {:trigger l[i].next} :: 0 <= i < k ==> l[i].next == At(l, i - 1)
      decreases |l| - k
    {
      var tmp := list.next;
      list.next := r;
      r := list;
      list := tmp;
      k := k + 1;
    }
    ghost var m := Reversed(l);
    forall i | 0 <= i < |m| ensures m[i].next == At(m, i + 1) { assert m[i] == l[|l| - 1 - i]; }
  }

  // ---- find

  ghost predicate Matches(x: Node, info: Info)
    reads x`info, x.info, info
  {
    if info.idx >= 0 then x.info.idx == info.idx else x.info.data16 % 256 == info.data16
  }

  /** core_list_find: the first node with the wanted idx or, for a negative idx, the wanted low byte. */
  method Find(head: Node?, info: Info, ghost l: seq<Node>) returns (r: Node?, ghost k: nat)
    requires IsList(head, l)
    ensures k <= |l| && r == At(l, k) && (k < |l| ==> Matches(l[k], info))
    ensures forall i {:trigger l[i]} :: 0 <= i < k ==> !Matches(l[i], info)
    ensures r == null ==> forall i {:trigger l[i]} :: 0 <= i < |l| ==> !Matches(l[i], info)
    ensures r != null ==> r in l && Matches(r, info)
  {
    r, k := head, 0;
    if info.idx >= 0 {
      while r != null && r.info.idx != info.idx
        invariant k <= |l| && r == At(l, k) && forall i {:trigger l[i]} :: 0 <= i < k ==> !Matches(l[i], info)
        decreases |l| - k
      {
        assert l[k].next == At(l, k + 1);
        r, k := r.next, k + 1;
      }
    } else {
      while r != null && r.info.data16 % 256 != info.data16
        invariant k <= |l| && r == At(l, k) && forall i {:trigger l[i]} :: 0 <= i < k ==> !Matches(l[i], info)
        decreases |l| - k
      {
        assert l[k].next == At(l, k + 1);
        r, k := r.next, k + 1;
      }
    }
  }

  // ---- moving the node after a found one to the second place

  // Where the node that ends up at place i comes from
  function Source(k: nat, i: nat): nat {
    if i == 0 || i > k + 1 then i else if i == 1 then k + 1 else i - 1
  }

  function Cached(l: seq<Node>, k: nat): (r: seq<Node>)
    requires k + 1 < |l|
    ensures |r| == |l| && forall i {:trigger r[i]} :: 0 <= i < |l| ==> r[i] == l[Source(k, i)]
  {
    seq(|l|, i requires 0 <= i < |l| => l[Source(k, i)])
  }

  // The same as pieces of the list
  lemma CachedPieces(l: seq<Node>, k: nat)
    requires 0 < k && k + 1 < |l|
    ensures Cached(l, k) == [l[0]] + [l[k + 1]] + l[1..k + 1] + l[k + 2..]
  {
  }

  lemma ListPieces(l: seq<Node>, k: nat)
    requires k + 1 < |l|
    ensures l == [l[0]] + l[1..k + 1] + [l[k + 1]] + l[k + 2..]
  {
  }

  lemma SwapPieces(a: seq<Node>, b: seq<Node>, c: seq<Node>, d: seq<Node>)
    ensures multiset(a + b + c + d) == multiset(a + c + b + d)
  {
  }

  lemma CachedSameNodes(l: seq<Node>, k: nat)
    requires k + 1 < |l|
    ensures multiset(Cached(l, k)) == multiset(l)
  {
    if k == 0 {
      assert Cached(l, k) == l;
    } else {
      CachedPieces(l, k);
      ListPieces(l, k);
      SwapPieces([l[0]], [l[k + 1]], l[1..k + 1], l[k + 2..]);
    }
  }

  /** Lines 157-162: the node after the found one, if any, becomes the second of the list. */
  method CacheNext(list: Node, found: Node, ghost l: seq<Node>, ghost k: nat)
    requires IsList(list, l) && k < |l| && found == l[k]
    modifies l`next
    ensures IsList(list, if k + 1 < |l| then Cached(l, k) else l)
  {
    assert l[k].next == At(l, k + 1);
    if found.next != null {
      var finder := found.next;
      assert l[k + 1].next == At(l, k + 2);
      found.next := finder.next;
      finder.next := list.next;
      list.next := finder;
      ghost var r := Cached(l, k);
      forall i | 0 <= i < |r| ensures r[i].next == At(r, i + 1) {
        if i + 1 < |r| { assert r[i + 1] == l[Source(k, i + 1)]; }
        assert r[i] == l[Source(k, i)];
      }
    }
  }

  // ---- remove and undo

  /** core_list_remove: the data items of the node and its successor change places, and the successor leaves the list.
      */
  method Remove(item: Node, ghost second: Node, ghost head: Node?, ghost l: seq<Node>, ghost k: nat) returns (r: Node)
    requires IsList(head, l) && k + 1 < |l| && item == l[k] && second == l[k + 1]
    modifies item`next, item`info, second`next, second`info
    ensures r == second && r.next == null && IsList(head, l[..k + 1] + l[k + 2..])
    ensures item.info == old(r.info) && r.info == old(item.info)
  {
    assert l[k].next == l[k + 1];
    r := item.next;
    var tmp := item.info;
    item.info := r.info;
    r.info := tmp;
    item.next := item.next.next;
    r.next := null;
    ghost var m := l[..k + 1] + l[k + 2..];
    forall i | 0 <= i < |m| ensures m[i].next == At(m, i + 1) {
      assert m[i] == if i <= k then l[i] else l[i + 1];
    }
  }

  /** core_list_undo_remove: the inverse of core_list_remove. */
  method UndoRemove(removed: Node, modified: Node, ghost head: Node?, ghost l: seq<Node>, ghost k: nat)
    returns (r: Node)
    requires k + 1 < |l| && Distinct(l) && IsList(head, l[..k + 1] + l[k + 2..])
    requires modified == l[k] && removed == l[k + 1]
    modifies removed`next, removed`info, modified`next, modified`info
    ensures r == removed && IsList(head, l)
    ensures removed.info == old(modified.info) && modified.info == old(removed.info)
  {
    ghost var m := l[..k + 1] + l[k + 2..];
    forall i | 0 <= i < |l| && i != k + 1 ensures l[i] == m[if i <= k then i else i - 1] { }
    var tmp := removed.info;
    removed.info := modified.info;
    modified.info := tmp;
    assert m[k].next == At(m, k + 1);
    removed.next := modified.next;
    modified.next := removed;
    r := removed;
    forall i | 0 <= i < |l| ensures l[i].next == At(l, i + 1) {
      if i != k && i != k + 1 {
        assert m[if i <= k then i else i - 1].next == At(m, (if i <= k then i else i - 1) + 1);
      }
    }
  }
}
