/**
 Circular doubly linked lists with a header, as kmt.c threads through task_t and sem_task_t and co.c
 through struct co.  A ring refines the sequence of its members from header.next round to header.prev.
 */
module Ring {
  class Link<T(0)> {
    var data: T
    var prev: Link?<T>
    var next: Link?<T>

    constructor (data: T)
      ensures this.data == data && prev == null && next == null
    {
      this.data := data;
      prev, next := null, null;
    }
  }

  class Ring<T(0)> {
    const head: Link<T>
    ghost var items: seq<Link<T>>

    ghost predicate Valid()
      reads this, head, items
    {
      && head !in items
      && (forall i, j :: 0 <= i < j < |items| ==> items[i] != items[j])
      && head.next == Item(0) && head.prev == Item(|items| - 1)
      && (forall i {:trigger items[i].next} {:trigger items[i].prev} :: 0 <= i < |items| ==>
            items[i].next == Item(i + 1) && items[i].prev == Item(i - 1))
    }

    ghost function Item(i: int): Link<T>
      reads this
    {
      Nth(items, head, i)
    }

    constructor (h: Link<T>)
      modifies h`prev, h`next
      ensures Valid() && head == h && items == []
    {
      head := h;
      items := [];
      new;
      h.prev, h.next := h, h;
    }

    method InsertEnd(x: Link<T>)
      requires Valid() && x !in items && x != head
      modifies this`items, head`prev, head`next, x`prev, x`next, items`next
      ensures Valid() && items == old(items) + [x]
    {
      x.prev := head.prev;
      x.next := head;
      x.prev.next := x;
      x.next.prev := x;
      items := items + [x];
    }

    /** tasks_deque_ulk: unlink the first member and clear its links, or report an empty ring. */
    method RemoveFront() returns (r: Link?<T>)
      requires Valid()
      modifies this`items, head`next, head`prev, items`prev, items`next
      ensures Valid()
      ensures old(items) == [] ==> r == null && items == []
      ensures old(items) != [] ==> r == old(items)[0] && items == old(items)[1..] && r.prev == null && r.next == null
    {
      r := head.next;
      if head.next == head {
        assert Item(0) == head;
        return null;
      }
      assert items != [];
      assert r == items[0];
      ghost var was := items;
      head.next := r.next;
      r.next.prev := head;
      r.prev, r.next := null, null;
      items := items[1..];
      assert forall i :: 0 <= i < |items| ==> items[i] == was[i + 1];
    }

    // The two assignments that lead the links round x
    method LeadRound(x: Link<T>, ghost k: nat)
      requires Valid() && k < |items| && items[k] == x
      modifies head`prev, head`next, items`prev, items`next
      ensures LedRound(items, k)
    {
      x.prev.next := x.next;
      x.next.prev := x.prev;
    }

    // The links of q's elements pass over the one at position k
    ghost predicate LedRound(q: seq<Link<T>>, k: nat)
      reads head, q
    {
      && head.next == Nth(q, head, if k == 0 then 1 else 0)
      && head.prev == Nth(q, head, if k + 1 == |q| then k - 1 else |q| - 1)
      && (forall i {:trigger q[i].next} :: 0 <= i < |q| ==>
            q[i].next == Nth(q, head, if i + 1 == k then k + 1 else i + 1))
      && (forall i {:trigger q[i].prev} :: 0 <= i < |q| ==>
            q[i].prev == Nth(q, head, if i == k + 1 then k - 1 else i - 1))
    }

    lemma StillLinked(q: seq<Link<T>>, k: nat, i: nat)
      requires k < |q| && LedRound(q, k) && i < |q| - 1
      ensures var l, j := Without(q, k)[i], if i < k then i else i + 1;
              && l == q[j]
              && l.next == Nth(Without(q, k), head, i + 1)
              && l.prev == Nth(Without(q, k), head, i - 1)
    {
      NthWithout(q, head, k, i + 1);
      NthWithout(q, head, k, i - 1);
    }

    lemma StillLinkedAll(q: seq<Link<T>>, k: nat)
      requires k < |q| && LedRound(q, k) && items == Without(q, k)
      ensures forall i {:trigger items[i].next} {:trigger items[i].prev} :: 0 <= i < |items| ==>
                items[i].next == Item(i + 1) && items[i].prev == Item(i - 1)
    {
      forall i | 0 <= i < |items| ensures items[i].next == Item(i + 1) && items[i].prev == Item(i - 1) {
        StillLinked(q, k, i);
      }
    }

    lemma HeadStillLinked(q: seq<Link<T>>, k: nat)
      requires k < |q| && LedRound(q, k) && items == Without(q, k)
      ensures head.next == Item(0) && head.prev == Item(|items| - 1)
    {
      NthWithout(q, head, k, 0);
      NthWithout(q, head, k, |q| - 2);
    }

    lemma StillValid(q: seq<Link<T>>, k: nat)
      requires k < |q| && LedRound(q, k) && items == Without(q, k)
      requires head !in q && forall i, j :: 0 <= i < j < |q| ==> q[i] != q[j]
      ensures Valid()
    {
      WithoutDistinct(q, k);
      StillLinkedAll(q, k);
      HeadStillLinked(q, k);
    }

    /** list_remove_one_nofree, tasks_throw_ulk: unlink a member wherever it is, leaving its own links as they were. */
    method Unlink(x: Link<T>, ghost k: nat)
      requires Valid() && k < |items| && items[k] == x
      modifies this`items, head`prev, head`next, items`prev, items`next
      ensures Valid() && items == Without(old(items), k)
    {
      ghost var was := items;
      LeadRound(x, k);
      items := Without(items, k);
      assert LedRound(was, k);
      StillValid(was, k);
    }
  }

  // The element at position i of q; the header closes the circle at both ends
  function Nth<T>(q: seq<T>, head: T, i: int): T {
    if 0 <= i < |q| then q[i] else head
  }

  lemma NthWithout<T>(q: seq<T>, head: T, k: nat, i: int)
    requires k < |q| && -1 <= i < |q|
    ensures Nth(Without(q, k), head, i) == Nth(q, head, if i < k then i else i + 1)
  {
  }

  lemma WithoutDistinct<T>(q: seq<T>, k: nat)
    requires k < |q| && forall i, j :: 0 <= i < j < |q| ==> q[i] != q[j]
    ensures var r := Without(q, k); forall i, j :: 0 <= i < j < |r| ==> r[i] != r[j]
    ensures forall x {:trigger x in Without(q, k)} :: x in Without(q, k) ==> x in q && x != q[k]
  {
  }

  /** q with the element at position k taken out. */
  ghost function Without<T>(q: seq<T>, k: nat): (r: seq<T>)
    requires k < |q|
    ensures |r| == |q| - 1
    ensures forall i {:trigger r[i]} :: 0 <= i < |r| ==> r[i] == if i < k then q[i] else q[i + 1]
  {
    seq(|q| - 1, i requires 0 <= i < |q| - 1 => if i < k then q[i] else q[i + 1])
  }
}
