/** The handler list of os.c: registration in order of `seq`, and dispatch of a trap along the list. */
module Irq {
  import opened Options

  const INT_MIN: int := -0x8000_0000
  const INT_MAX: int := 0x7fff_ffff

  type Int32 = x: int | INT_MIN <= x <= INT_MAX witness 0

  // The event codes of am.h
  const EVENT_NULL: int := 0
  const EVENT_IRQ_TIMER: int := 2
  const EVENT_YIELD: int := 6

  // Handlers are told apart by number
  datatype Entry = Entry(seqno: Int32, event: int, handler: nat)

  predicate Sorted(l: seq<Entry>) {
    forall i, j :: 0 <= i < j < |l| ==> l[i].seqno <= l[j].seqno
  }

  // The loop condition of line 142 at the entry in position i
  predicate Fits(l: seq<Entry>, i: nat, n: Int32)
    requires i < |l|
  {
    l[i].seqno <= n && (i + 1 == |l| || n <= l[i + 1].seqno)
  }

  /** Where os_on_irq puts a new entry; an entry that fits nowhere is not linked at all. */
  function Slot(l: seq<Entry>, from: nat, n: Int32): (r: Option<nat>)
    requires from <= |l|
    ensures r.Some? ==> from < r.value <= |l| && Fits(l, r.value - 1, n)
    ensures r.Some? ==> forall i :: from <= i < r.value - 1 ==> !Fits(l, i, n)
    ensures r.None? ==> forall i :: from <= i < |l| ==> !Fits(l, i, n)
    decreases |l| - from
  {
    if from == |l| then None else if Fits(l, from, n) then Some(from + 1) else Slot(l, from + 1, n)
  }

  /** l with e put at position k. */
  function Inserted<T>(l: seq<T>, k: nat, e: T): seq<T>
    requires k <= |l|
  {
    l[..k] + [e] + l[k..]
  }

  lemma InsertedAt<T>(l: seq<T>, k: nat, e: T)
    requires k <= |l| && e !in l && forall i, j :: 0 <= i < j < |l| ==> l[i] != l[j]
    ensures var r := Inserted(l, k, e);
            && |r| == |l| + 1 && r[k] == e
            && (forall j {:trigger r[j]} :: 0 <= j < k ==> r[j] == l[j])
            && (forall j {:trigger r[j]} :: k < j < |r| ==> r[j] == l[j - 1])
            && (forall i, j :: 0 <= i < j < |r| ==> r[i] != r[j])
  {
  }

  function Registered(l: seq<Entry>, e: Entry): seq<Entry> {
    if l == [] then [e]
    else match Slot(l, 0, e.seqno) case None => l case Some(k) => Inserted(l, k, e)
  }

  lemma InsertedSorted(l: seq<Entry>, k: nat, e: Entry)
    requires Sorted(l) && 0 < k <= |l| && Fits(l, k - 1, e.seqno)
    ensures Sorted(Inserted(l, k, e))
  {
    var r := Inserted(l, k, e);
    forall i, j | 0 <= i < j < |r| ensures r[i].seqno <= r[j].seqno {
      assert i < k ==> l[i].seqno <= l[k - 1].seqno;
      assert j > k ==> l[k].seqno <= l[j - 1].seqno;
    }
  }

  lemma InsertedMembers<T>(l: seq<T>, k: nat, e: T)
    requires k <= |l|
    ensures multiset(Inserted(l, k, e)) == multiset(l) + multiset{e}
  {
    assert l[..k] + l[k..] == l;
  }

  lemma {:induction false} SlotExists(l: seq<Entry>, from: nat, n: Int32)
    requires Sorted(l) && from < |l| && l[from].seqno <= n
    ensures Slot(l, from, n).Some?
    decreases |l| - from
  {
    if !Fits(l, from, n) { SlotExists(l, from + 1, n); }
  }

  /** A registration keeps the list in order, so check_seq never fails.  It takes effect exactly when the list
      is empty or the new number is not below the first one; otherwise os_on_irq drops the handler silently. */
  lemma RegisteredKeepsOrder(l: seq<Entry>, e: Entry)
    requires Sorted(l)
    ensures Sorted(Registered(l, e))
    ensures l == [] || l[0].seqno <= e.seqno ==> multiset(Registered(l, e)) == multiset(l) + multiset{e}
    ensures l != [] && e.seqno < l[0].seqno ==> Registered(l, e) == l
  {
    if l != [] {
      var r := Slot(l, 0, e.seqno);
      if r.Some? {
        assert l[0].seqno <= l[r.value - 1].seqno;
        InsertedSorted(l, r.value, e);
        InsertedMembers(l, r.value, e);
      } else if l[0].seqno <= e.seqno {
        SlotExists(l, 0, e.seqno);
      }
    }
  }

  /** A handler goes behind those with a lower number and in front of those with the same, but never to the front of the
      list. */
  lemma RegisteredPlace(l: seq<Entry>, e: Entry) returns (k: nat)
    requires Sorted(l) && l != [] && l[0].seqno <= e.seqno
    ensures 0 < k <= |l| && Registered(l, e) == l[..k] + [e] + l[k..]
    ensures (forall i :: 0 < i < k ==> l[i].seqno < e.seqno) && forall i :: k <= i < |l| ==> e.seqno <= l[i].seqno
  {
    SlotExists(l, 0, e.seqno);
    k := Slot(l, 0, e.seqno).value;
    forall i | 0 < i < k ensures l[i].seqno < e.seqno {
      assert !Fits(l, i - 1, e.seqno) && l[i - 1].seqno <= l[k - 1].seqno;
    }
    forall i | k <= i < |l| ensures e.seqno <= l[i].seqno { assert l[k].seqno <= l[i].seqno; }
  }

  lemma LowNumberIsLost()
    ensures Registered([Entry(0, EVENT_NULL, 1)], Entry(-1, EVENT_NULL, 2)) == [Entry(0, EVENT_NULL, 1)]
  {
    RegisteredKeepsOrder([Entry(0, EVENT_NULL, 1)], Entry(-1, EVENT_NULL, 2));
  }

  function RegisteredAll(l: seq<Entry>, es: seq<Entry>): seq<Entry>
    decreases es
  {
    if es == [] then l else Registered(RegisteredAll(l, es[..|es| - 1]), es[|es| - 1])
  }

  ghost predicate Framed(l: seq<Entry>, save: Entry, schedule: Entry, es: seq<Entry>) {
    && |l| == |es| + 2 && Sorted(l) && l[0] == save && l[|l| - 1] == schedule
    && multiset(l[..|l| - 1]) == multiset{save} + multiset(es)
  }

  lemma MiddleSlot(l: seq<Entry>, n: Int32)
    requires Sorted(l) && |l| >= 2 && l[0].seqno == INT_MIN && l[|l| - 1].seqno == INT_MAX
    ensures Slot(l, 0, n).Some? && 0 < Slot(l, 0, n).value < |l|
  {
    SlotExists(l, 0, n);
    assert n == INT_MAX ==> Fits(l, |l| - 2, n);
  }

  lemma InsertedFront(l: seq<Entry>, k: nat, e: Entry)
    requires 0 < k < |l|
    ensures var r := Inserted(l, k, e);
            && r[0] == l[0] && r[|r| - 1] == l[|l| - 1]
            && multiset(r[..|r| - 1]) == multiset(l[..|l| - 1]) + multiset{e}
  {
    var r, front := Inserted(l, k, e), l[..|l| - 1];
    assert r[..|r| - 1] == Inserted(front, k, e);
    InsertedMembers(front, k, e);
  }

  lemma FramedStep(l: seq<Entry>, save: Entry, schedule: Entry, es: seq<Entry>, e: Entry)
    requires save.seqno == INT_MIN && schedule.seqno == INT_MAX && Framed(l, save, schedule, es)
    ensures Framed(Registered(l, e), save, schedule, es + [e])
  {
    MiddleSlot(l, e.seqno);
    FramedInsert(l, save, schedule, es, e, Slot(l, 0, e.seqno).value);
  }

  lemma FramedInsert(l: seq<Entry>, save: Entry, schedule: Entry, es: seq<Entry>, e: Entry, k: nat)
    requires Framed(l, save, schedule, es) && 0 < k < |l| && Fits(l, k - 1, e.seqno)
    ensures Framed(Inserted(l, k, e), save, schedule, es + [e])
  {
    InsertedFront(l, k, e);
    InsertedSorted(l, k, e);
    assert multiset(es + [e]) == multiset(es) + multiset{e};
  }

  /** kmt_init registers context-save with INT_MIN and schedule with INT_MAX before any other module; then save
      stays first, schedule stays last, and every later handler is on the list between them. */
  lemma {:induction false} SaveFirstScheduleLast(save: Entry, schedule: Entry, es: seq<Entry>)
    requires save.seqno == INT_MIN && schedule.seqno == INT_MAX
    ensures Framed(RegisteredAll([save, schedule], es), save, schedule, es)
    decreases |es|
  {
    if es == [] {
      assert [save, schedule][..1] == [save];
    } else {
      SaveFirstScheduleLast(save, schedule, es[..|es| - 1]);
      FramedStep(RegisteredAll([save, schedule], es[..|es| - 1]), save, schedule, es[..|es| - 1], es[|es| - 1]);
      assert es == es[..|es| - 1] + [es[|es| - 1]];
    }
  }

  // ---- dispatch

  predicate Answers(e: Entry, event: int) {
    e.event == EVENT_NULL || e.event == event
  }

  /** The handlers a trap runs, in order. */
  function Called(l: seq<Entry>, event: int): seq<Entry> {
    if l == [] then [] else (if Answers(l[0], event) then [l[0]] else []) + Called(l[1..], event)
  }

  datatype Outcome = Next(context: nat) | Panic

  /** os_trap: result maps a handler to the context it returns, None for NULL. */
  function Trap(l: seq<Entry>, event: int, result: nat -> Option<nat>, next: Option<nat>): Outcome {
    if event != EVENT_IRQ_TIMER && event != EVENT_YIELD then Panic
    else if l == [] then (if next.None? then Panic else Next(next.value))
    else if !Answers(l[0], event) then Trap(l[1..], event, result, next)
    else if result(l[0].handler).Some? && next.Some? then Panic
    else Trap(l[1..], event, result, if result(l[0].handler).Some? then result(l[0].handler) else next)
  }

  lemma CalledStep(l: seq<Entry>, event: int, i: nat)
    requires i < |l|
    ensures Called(l[i..], event) == (if Answers(l[i], event) then [l[i]] else []) + Called(l[i + 1..], event)
  {
    assert l[i..][1..] == l[i + 1..];
  }

  lemma TrapStep(l: seq<Entry>, event: int, result: nat -> Option<nat>, next: Option<nat>, i: nat)
    requires i < |l| && (event == EVENT_IRQ_TIMER || event == EVENT_YIELD)
    ensures var r := result(l[i].handler);
            Trap(l[i..], event, result, next) ==
            if !Answers(l[i], event) then Trap(l[i + 1..], event, result, next)
            else if r.Some? && next.Some? then Panic
            else Trap(l[i + 1..], event, result, if r.Some? then r else next)
  {
    assert l[i..][1..] == l[i + 1..];
  }

  lemma {:induction false} CalledLast(l: seq<Entry>, event: int)
    requires l != [] && Answers(l[|l| - 1], event)
    ensures |Called(l, event)| >= 1 && Called(l, event)[|Called(l, event)| - 1] == l[|l| - 1]
  {
    if |l| > 1 { CalledLast(l[1..], event); }
    else { assert Called(l[1..], event) == []; }
  }

  lemma {:induction false} QuietTrap(l: seq<Entry>, event: int, result: nat -> Option<nat>)
    requires event == EVENT_IRQ_TIMER || event == EVENT_YIELD
    requires l != [] && Answers(l[|l| - 1], event) && result(l[|l| - 1].handler).Some?
    requires forall i :: 0 <= i < |l| - 1 ==> result(l[i].handler).None?
    ensures Trap(l, event, result, None) == Next(result(l[|l| - 1].handler).value)
  {
    if |l| > 1 { QuietTrap(l[1..], event, result); }
  }

  /** Every timer or yield trap saves the interrupted context before anything else, schedules last, and returns
      what schedule chose, provided the handlers in between return NULL. */
  lemma TrapSavesThenSchedules(save: Entry, schedule: Entry, es: seq<Entry>, event: int, result: nat -> Option<nat>)
    requires save == Entry(INT_MIN, EVENT_NULL, save.handler)
    requires schedule == Entry(INT_MAX, EVENT_NULL, schedule.handler)
    requires event == EVENT_IRQ_TIMER || event == EVENT_YIELD
    requires result(schedule.handler).Some? && result(save.handler).None?
    requires forall e :: e in es ==> result(e.handler).None?
    ensures var l := RegisteredAll([save, schedule], es);
            && Trap(l, event, result, None) == Next(result(schedule.handler).value)
            && |Called(l, event)| >= 2 && Called(l, event)[0] == save
            && Called(l, event)[|Called(l, event)| - 1] == schedule
  {
    var l := RegisteredAll([save, schedule], es);
    SaveFirstScheduleLast(save, schedule, es);
    CalledLast(l[1..], event);
    forall i | 0 <= i < |l| - 1 ensures result(l[i].handler).None? {
      assert l[..|l| - 1][i] == l[i];
      assert l[i] in multiset(l[..|l| - 1]);
    }
    QuietTrap(l, event, result);
  }

  lemma SortedTail(l: seq<Entry>)
    requires Sorted(l) && l != []
    ensures Sorted(l[1..]) && forall e :: e in l[1..] ==> l[0].seqno <= e.seqno
  {
    forall i, j | 0 <= i < j < |l[1..]| ensures l[1..][i].seqno <= l[1..][j].seqno {
      assert l[i + 1].seqno <= l[j + 1].seqno;
    }
  }

  lemma SortedCons(e: Entry, l: seq<Entry>)
    requires Sorted(l) && forall f :: f in l ==> e.seqno <= f.seqno
    ensures Sorted([e] + l)
  {
    var r := [e] + l;
    forall i, j | 0 <= i < j < |r| ensures r[i].seqno <= r[j].seqno { assert r[j] == l[j - 1] && r[j] in l; }
  }

  /** A trap calls the handlers registered for its event and those registered for every event, each as often as it is
      on the list, no other, and in ascending order of their numbers. */
  lemma {:induction false} CallsThoseRegistered(l: seq<Entry>, event: int)
    ensures forall e: Entry ::
              multiset(Called(l, event))[e] == if e.event == 0 || e.event == event then multiset(l)[e] else 0
    ensures forall e :: e in Called(l, event) <==> e in l && (e.event == 0 || e.event == event)
    ensures Sorted(l) ==> Sorted(Called(l, event))
  {
    if l != [] {
      CallsThoseRegistered(l[1..], event);
      assert l == [l[0]] + l[1..];
      if Sorted(l) {
        SortedTail(l);
        SortedCons(l[0], Called(l[1..], event));
        assert [] + Called(l[1..], event) == Called(l[1..], event);
      }
    }
  }

  /** Behind kmt_init's two registrations every other one takes effect: its handler is called for its event, or for
      every event, and no handler is called for another one. */
  lemma RegisteredIsCalled(save: Entry, schedule: Entry, es: seq<Entry>, event: int)
    requires save.seqno == INT_MIN && schedule.seqno == INT_MAX && save.event == schedule.event == 0
    ensures var l := RegisteredAll([save, schedule], es);
            && (forall e :: e in Called(l, event) <==>
                  e == save || e == schedule || (e in es && (e.event == 0 || e.event == event)))
            && Sorted(Called(l, event))
  {
    var l := RegisteredAll([save, schedule], es);
    SaveFirstScheduleLast(save, schedule, es);
    CallsThoseRegistered(l, event);
    forall e ensures e in l <==> e == save || e == schedule || e in es { FramedMembers(l, save, schedule, es, e); }
  }

  lemma FramedMembers(l: seq<Entry>, save: Entry, schedule: Entry, es: seq<Entry>, e: Entry)
    requires Framed(l, save, schedule, es)
    ensures e in l <==> e == save || e == schedule || e in es
  {
    var front := l[..|l| - 1];
    assert l == front + [l[|l| - 1]];
    assert e in front <==> e in multiset(front);
    assert e in es <==> e in multiset(es);
  }

  // The contexts that the handlers es return, in order
  function Contexts(es: seq<Entry>, result: nat -> Option<nat>): seq<nat> {
    if es == [] then []
    else (match result(es[0].handler) case Some(c) => [c] case None => []) + Contexts(es[1..], result)
  }

  /** os_trap goes on with context c exactly if the event is a timer or a yield and c is the only context that the
      handlers it calls return; otherwise it panics. */
  lemma {:induction false} TrapIff(l: seq<Entry>, event: int, result: nat -> Option<nat>, next: Option<nat>, c: nat)
    ensures Trap(l, event, result, next) == Next(c) <==>
            (event == 2 || event == 6) && Kept(next) + Contexts(Called(l, event), result) == [c]
  {
    if l == [] {
      assert Kept(next) + [] == Kept(next);
      assert next.Some? ==> Kept(next)[0] == next.value;
      assert [c][0] == c;
    } else if !Answers(l[0], event) {
      TrapIff(l[1..], event, result, next, c);
      assert [] + Called(l[1..], event) == Called(l[1..], event);
    } else {
      var r := result(l[0].handler);
      var more := Called(l[1..], event);
      assert ([l[0]] + more)[1..] == more;
      TrapIff(l[1..], event, result, if r.Some? then r else next, c);
      if r.None? { assert [] + Contexts(more, result) == Contexts(more, result); }
      else if next.None? { assert [] + ([r.value] + Contexts(more, result)) == [r.value] + Contexts(more, result); }
    }
  }

  function Kept(next: Option<nat>): seq<nat> {
    match next case Some(c) => [c] case None => []
  }

  // ---- the list on its links

  class Wrapper {
    const entry: Entry
    var next: Wrapper?

    constructor (entry: Entry)
      ensures this.entry == entry && next == null
    {
      this.entry := entry;
      next := null;
    }
  }

  ghost function Entried(ws: seq<Wrapper>): (r: seq<Entry>)
    ensures |r| == |ws| && forall i {:trigger r[i]} :: 0 <= i < |r| ==> r[i] == ws[i].entry
  {
    seq(|ws|, i requires 0 <= i < |ws| => ws[i].entry)
  }

  lemma EntriedInsert(ws: seq<Wrapper>, k: nat, w: Wrapper)
    requires k <= |ws|
    ensures Entried(Inserted(ws, k, w)) == Inserted(Entried(ws), k, w.entry)
  {
  }

  class HandlerList {
    const head: Wrapper
    ghost var items: seq<Wrapper>

    ghost predicate Valid()
      reads this, head, items
    {
      && head !in items
      && (forall i, j :: 0 <= i < j < |items| ==> items[i] != items[j])
      && head.next == Item(0)
      && (forall i {:trigger items[i].next} :: 0 <= i < |items| ==> items[i].next == Item(i + 1))
      && Sorted(Entries())
    }

    ghost function Item(i: nat): Wrapper
      reads this
    {
      if i < |items| then items[i] else head
    }

    ghost function Entries(): seq<Entry>
      reads this
    {
      Entried(items)
    }

    constructor ()
      ensures Valid() && Entries() == [] && fresh(head)
    {
      var h := new Wrapper(Entry(INT_MIN, EVENT_NULL, 0));
      head := h;
      items := [];
      new;
      h.next := h;
    }

    /** check_seq: false stands for the failing assertion of line 32. */
    method CheckSeq() returns (ok: bool)
      requires Valid()
      ensures ok
    {
      var last := INT_MIN;
      var cur := head.next;
      ghost var i := 0;
      while cur != head
        invariant 0 <= i <= |items| && cur == Item(i)
        invariant last == if i == 0 then INT_MIN else items[i - 1].entry.seqno
        decreases |items| - i
      {
        assert i > 0 ==> Entries()[i - 1].seqno <= Entries()[i].seqno;
        if cur.entry.seqno < last { return false; }
        last := cur.entry.seqno;
        cur := cur.next;
        i := i + 1;
      }
      return true;
    }

    // Lines 144-145
    method LinkAfter(cur: Wrapper, w: Wrapper, ghost i: nat)
      requires Valid() && i < |items| && cur == items[i] && w !in items && w != head
      requires Fits(Entries(), i, w.entry.seqno)
      modifies this`items, w`next, cur`next
      ensures Valid() && items == Inserted(old(items), i + 1, w)
      ensures Entries() == Inserted(old(Entries()), i + 1, w.entry)
    {
      InsertedSorted(Entries(), i + 1, w.entry);
      EntriedInsert(items, i + 1, w);
      InsertedAt(items, i + 1, w);
      ghost var was := items;
      assert cur.next == if i + 1 < |was| then was[i + 1] else head;
      w.next := cur.next;
      cur.next := w;
      items := Inserted(was, i + 1, w);
      forall j | 0 <= j < |items| ensures items[j].next == Item(j + 1) {
        if j < i { assert items[j] == was[j] && old(was[j].next) == was[j + 1] && items[j + 1] == was[j + 1]; }
        else if j > i + 1 {
          assert items[j] == was[j - 1] && old(was[j - 1].next) == if j < |was| then was[j] else head;
          assert j < |was| ==> items[j + 1] == was[j];
        }
      }
    }

    // Lines 135-136
    method LinkOnly(w: Wrapper)
      requires Valid() && items == [] && w != head
      modifies this`items, head`next, w`next
      ensures Valid() && items == [w] && Entries() == [w.entry]
    {
      head.next := w;
      w.next := head;
      items := [w];
    }

    // Lines 138-149
    method LinkSorted(w: Wrapper)
      requires Valid() && items != [] && w !in items && w != head
      modifies this`items, items`next, w`next
      ensures Valid() && Entries() == Registered(old(Entries()), w.entry)
      ensures items == old(items) || multiset(items) == multiset(old(items)) + multiset{w}
    {
      var cur := head.next;
      ghost var i := 0;
      while cur != head
        invariant 0 <= i <= |items| && cur == Item(i)
        invariant Slot(Entries(), 0, w.entry.seqno) == Slot(Entries(), i, w.entry.seqno)
        decreases |items| - i
      {
        if (cur.entry.seqno <= w.entry.seqno && w.entry.seqno <= cur.next.entry.seqno)
           || (cur.entry.seqno <= w.entry.seqno && cur.next == head) {
          assert Fits(Entries(), i, w.entry.seqno);
          InsertedMembers(items, i + 1, w);
          LinkAfter(cur, w, i);
          return;
        }
        cur := cur.next;
        i := i + 1;
      }
    }

    /** os_on_irq */
    method OnIrq(seqno: Int32, event: int, handler: nat)
      requires Valid()
      modifies this`items, head`next, items`next
      ensures Valid() && Entries() == Registered(old(Entries()), Entry(seqno, event, handler))
      ensures forall w :: w in items ==> w in old(items) || fresh(w)
    {
      var ok := CheckSeq();
      var w := new Wrapper(Entry(seqno, event, handler));
      if head.next == head {
        assert Item(0) == head;
        LinkOnly(w);
      } else {
        assert Item(0) != head;
        LinkSorted(w);
        forall x | x in items ensures x in old(items) || fresh(x) { assert x in multiset(items); }
      }
    }

    // Lines 108-113, for the entry cur at position i of all; called and next are what the entries before it left
    method RunEntry(cur: Wrapper, event: int, result: nat -> Option<nat>, next: Option<nat>, called: seq<Entry>,
                    ghost all: seq<Entry>, ghost i: nat)
      returns (panicked: bool, next': Option<nat>, called': seq<Entry>)
      requires i < |all| && all[i] == cur.entry && (event == EVENT_IRQ_TIMER || event == EVENT_YIELD)
      ensures called' + Called(all[i + 1..], event) == called + Called(all[i..], event)
      ensures Trap(all[i..], event, result, next) ==
              if panicked then Panic else Trap(all[i + 1..], event, result, next')
    {
      CalledStep(all, event, i);
      TrapStep(all, event, result, next, i);
      next', called' := next, called;
      if cur.entry.event == EVENT_NULL || cur.entry.event == event {
        var r := result(cur.entry.handler);
        called' := called + [cur.entry];
        if r.Some? && next.Some? { return true, next, called'; }
        if r.Some? { next' := r; }
      }
      panicked := false;
    }

    /** os_trap: the handlers run are reported in order. */
    method OsTrap(event: int, result: nat -> Option<nat>) returns (out: Outcome, called: seq<Entry>)
      requires Valid()
      ensures out == Trap(Entries(), event, result, None)
      ensures out.Next? ==> called == Called(Entries(), event)
    {
      called := [];
      if event != EVENT_IRQ_TIMER && event != EVENT_YIELD { return Panic, []; }
      var next: Option<nat> := None;
      var cur := head.next;
      ghost var i := 0;
      ghost var all := Entries();
      assert all[0..] == all;
      while cur != head
        invariant 0 <= i <= |items| && cur == Item(i)
        invariant Trap(all, event, result, None) == Trap(all[i..], event, result, next)
        invariant called + Called(all[i..], event) == Called(all, event)
        decreases |items| - i
      {
        var panicked;
        panicked, next, called := RunEntry(cur, event, result, next, called, all, i);
        if panicked { return Panic, called; }
        cur := cur.next;
        i := i + 1;
      }
      if next.None? { return Panic, called; }
      out := Next(next.value);
    }
  }
}
