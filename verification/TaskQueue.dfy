/** The run queue of kmt.c on its real links, and the selection kmt_schedule makes while it holds queue_lk. */
module TaskQueue {
  import opened Kernel
  import opened Ring

  type TaskLink = Link<Status>

  ghost predicate Running(t: TaskLink)
    reads t`data
  {
    t.data.RUNNING?
  }

  ghost predicate HasRunning(q: seq<TaskLink>)
    reads q`data
  {
    exists i :: 0 <= i < |q| && Running(q[i])
  }

  /** The position of the first runnable task. */
  ghost function FirstRunning(q: seq<TaskLink>): (k: nat)
    requires HasRunning(q)
    reads q`data
    ensures k < |q| && Running(q[k]) && forall i :: 0 <= i < k ==> !Running(q[i])
  {
    if Running(q[0]) then 0
    else
      assert HasRunning(q[1..]) by {
        var i :| 0 <= i < |q| && Running(q[i]);
        assert q[1..][i - 1] == q[i];
      }
      1 + FirstRunning(q[1..])
  }

  /** check_running_ulk */
  method CheckRunning(q: Ring<Status>) returns (found: bool)
    requires q.Valid()
    ensures found <==> HasRunning(q.items)
  {
    var cur := q.head.next;
    ghost var i := 0;
    while cur != q.head
      invariant 0 <= i <= |q.items| && cur == q.Item(i)
      invariant forall j :: 0 <= j < i ==> !Running(q.items[j])
      decreases |q.items| - i
    {
      assert i < |q.items| && cur == q.items[i];
      if cur.data == RUNNING {
        assert Running(q.items[i]);
        return true;
      }
      cur := cur.next;
      i := i + 1;
    }
    assert i == |q.items|;
    return false;
  }

  /** tasks_check_ulk */
  method Contains(q: Ring<Status>, t: TaskLink) returns (found: bool)
    requires q.Valid()
    ensures found <==> t in q.items
  {
    var cur := q.head.next;
    ghost var i := 0;
    while cur != q.head
      invariant 0 <= i <= |q.items| && cur == q.Item(i)
      invariant t !in q.items[..i]
      decreases |q.items| - i
    {
      if cur == t { return true; }
      cur := cur.next;
      i := i + 1;
    }
    assert i == |q.items| && q.items[..i] == q.items;
    return false;
  }

  /** What is left of q when its element at position k is out and those before it have gone to the end. */
  ghost function Rotated(q: seq<TaskLink>, k: nat): seq<TaskLink>
    requires k < |q|
  {
    q[k + 1..] + q[..k]
  }

  lemma RotatedMembers(q: seq<TaskLink>, k: nat)
    requires k < |q| && forall i, j :: 0 <= i < j < |q| ==> q[i] != q[j]
    ensures forall t :: t in Rotated(q, k) ==> t in q && t != q[k]
  {
  }

  lemma RotatedStep(q: seq<TaskLink>, k: nat)
    requires k + 1 < |q|
    ensures (Rotated(q, k) + [q[k]])[0] == q[k + 1]
    ensures (Rotated(q, k) + [q[k]])[1..] == Rotated(q, k + 1)
  {
  }

  /** Lines 226-227: the task in hand goes to the end and the next one comes out. */
  method RotateOnce(q: Ring<Status>, transfer: TaskLink, ghost was: seq<TaskLink>, ghost turns: nat)
    returns (r: TaskLink)
    requires q.Valid() && q.head !in was && forall i, j :: 0 <= i < j < |was| ==> was[i] != was[j]
    requires turns + 1 < |was| && transfer == was[turns] && q.items == Rotated(was, turns)
    modifies q`items, q.head`prev, q.head`next, was`prev, was`next
    ensures q.Valid() && r == was[turns + 1] && q.items == Rotated(was, turns + 1)
  {
    RotatedMembers(was, turns);
    q.InsertEnd(transfer);
    RotatedStep(was, turns);
    r := q.RemoveFront();
  }

  // Lines 224-228: transfer, the first of was, is out of the queue, and k is the position of the first runnable task
  method RotateToRunning(q: Ring<Status>, first: TaskLink, ghost was: seq<TaskLink>, ghost k: nat) returns (r: TaskLink)
    requires q.Valid() && q.head !in was && forall i, j :: 0 <= i < j < |was| ==> was[i] != was[j]
    requires k < |was| && first == was[0] && q.items == Rotated(was, 0)
    requires Running(was[k]) && forall i {:trigger was[i]} :: 0 <= i < k ==> !Running(was[i])
    modifies q`items, q.head`prev, q.head`next, was`prev, was`next
    ensures q.Valid() && r == was[k] && q.items == Rotated(was, k)
  {
    var transfer := first;
    ghost var turns := 0;
    while transfer.data != RUNNING
      invariant 0 <= turns <= k && transfer == was[turns]
      invariant q.Valid() && q.items == Rotated(was, turns)
      decreases k - turns
    {
      transfer := RotateOnce(q, transfer, was, turns);
      turns := turns + 1;
    }
    assert turns == k;
    r := transfer;
  }

  /** Lines 221-236 of kmt_schedule with the lock held: the first runnable task leaves the queue, the
      tasks before it go behind the others in their order, and null stands for the idle task. */
  method PickNext(q: Ring<Status>) returns (r: Link?<Status>)
    requires q.Valid()
    modifies q`items, q.head`prev, q.head`next, q.items`prev, q.items`next
    ensures q.Valid()
    ensures !old(HasRunning(q.items)) ==> r == null && q.items == old(q.items)
    ensures old(HasRunning(q.items)) ==>
              var k := old(FirstRunning(q.items));
              r == old(q.items)[k] && q.items == Rotated(old(q.items), k)
  {
    var any := CheckRunning(q);
    if !any { return null; }
    ghost var was := q.items;
    ghost var k := FirstRunning(was);
    var transfer := q.RemoveFront();
    assert q.items == Rotated(was, 0);
    r := RotateToRunning(q, transfer, was, k);
  }
}
