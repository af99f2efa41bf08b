/**
 The nesting spin locks of kmt.c as a state machine: pushcli, popcli and holding act on per-CPU
 fields, kmt_spin_lock and kmt_spin_unlock on a lock word that all CPUs access one field at a time.
 */
module SpinLock {
  import opened Options

  type CpuId = nat
  type LockId = nat

  datatype Pc =
    | Out                                    // in the caller
    | LockTest(lk: LockId)                   // line 100, after the pushcli of line 98
    | LockRead(lk: LockId, locked: bool)     // line 292, `locked` read, `cpu` not yet
    | Spin(lk: LockId)                       // line 106
    | Won(lk: LockId)                        // line 108, the exchange returned 0
    | Stuck(lk: LockId)                      // line 103, the caller already held the lock
    | UnlockRead(lk: LockId, locked: bool)   // line 292, reached from line 112
    | Disown(lk: LockId)                     // line 113
    | Free(lk: LockId)                       // line 115
    | Pop(lk: LockId)                        // line 116
    | Panic                                  // one of the panics was reached

  // held and entry are history: the locks taken and not given back, and the interrupt flag at the outermost pushcli
  datatype Cpu = Cpu(intr: bool, ncli: int, intena: bool, pc: Pc, held: set<LockId>, entry: bool)

  // owner is history: the CPU whose exchange last returned 0
  datatype Lock = Lock(locked: bool, cpu: Option<CpuId>, owner: Option<CpuId>)

  datatype State = State(cpus: seq<Cpu>, locks: seq<Lock>)

  datatype Event =
    | SetInterrupts(on: bool) | BeginLock(lk: LockId) | ReadLocked | ReadCpu | Exchange | Claim
    | BeginUnlock(lk: LockId) | CheckHeld | ClearCpu | Store | Leave

  function Pushcli(k: Cpu): Cpu {
    k.(intr := false, ncli := k.ncli + 1,
       intena := if k.ncli == 0 then k.intr else k.intena,
       entry := if k.ncli == 0 then k.intr else k.entry)
  }

  function Popcli(k: Cpu): Cpu {
    if k.intr then k.(pc := Panic)
    else if k.ncli - 1 < 0 then k.(ncli := k.ncli - 1, pc := Panic)
    else k.(ncli := k.ncli - 1, intr := k.ncli == 1 && k.intena)
  }

  predicate Enabled(s: State, c: CpuId, e: Event) {
    c < |s.cpus| &&
    var pc := s.cpus[c].pc;
    match e
    case SetInterrupts(_) => pc.Out? && s.cpus[c].ncli == 0
    case BeginLock(lk) => pc.Out? && lk < |s.locks|
    case ReadLocked => pc.LockTest? && pc.lk < |s.locks|
    case ReadCpu => pc.LockRead? && pc.lk < |s.locks|
    case Exchange => pc.Spin? && pc.lk < |s.locks|
    case Claim => pc.Won? && pc.lk < |s.locks|
    case BeginUnlock(lk) => pc.Out? && lk < |s.locks|
    case CheckHeld => pc.UnlockRead? && pc.lk < |s.locks|
    case ClearCpu => pc.Disown? && pc.lk < |s.locks|
    case Store => pc.Free? && pc.lk < |s.locks|
    case Leave => pc.Pop?
  }

  function Do(s: State, c: CpuId, e: Event): State
    requires Enabled(s, c, e)
  {
    var k := s.cpus[c];
    match e
    case SetInterrupts(on) => SetCpu(s, c, k.(intr := on))
    case BeginLock(lk) => SetCpu(s, c, Pushcli(k).(pc := LockTest(lk)))
    case ReadLocked => SetCpu(s, c, Pushcli(k).(pc := LockRead(k.pc.lk, s.locks[k.pc.lk].locked)))
    case ReadCpu =>
      var r := k.pc.locked && s.locks[k.pc.lk].cpu == Some(c);
      SetCpu(s, c, Popcli(k.(pc := if r then Stuck(k.pc.lk) else Spin(k.pc.lk))))
    case Exchange =>
      var l := s.locks[k.pc.lk];
      if l.locked then s
      else SetLock(SetCpu(s, c, k.(pc := Won(k.pc.lk))), k.pc.lk, l.(locked := true, owner := Some(c)))
    case Claim =>
      SetLock(SetCpu(s, c, k.(pc := Out, held := k.held + {k.pc.lk})), k.pc.lk, s.locks[k.pc.lk].(cpu := Some(c)))
    case BeginUnlock(lk) => SetCpu(s, c, Pushcli(k).(pc := UnlockRead(lk, s.locks[lk].locked)))
    case CheckHeld =>
      var r := k.pc.locked && s.locks[k.pc.lk].cpu == Some(c);
      SetCpu(s, c, Popcli(k.(pc := if r then Disown(k.pc.lk) else Panic)))
    case ClearCpu => SetLock(SetCpu(s, c, k.(pc := Free(k.pc.lk))), k.pc.lk, s.locks[k.pc.lk].(cpu := None))
    case Store =>
      SetLock(SetCpu(s, c, k.(pc := Pop(k.pc.lk))), k.pc.lk, s.locks[k.pc.lk].(locked := false, owner := None))
    case Leave => SetCpu(s, c, Popcli(k.(pc := Out, held := k.held - {k.pc.lk})))
  }

  function SetCpu(s: State, c: CpuId, k: Cpu): State
    requires c < |s.cpus|
  {
    s.(cpus := s.cpus[c := k])
  }

  function SetLock(s: State, l: LockId, w: Lock): State
    requires l < |s.locks|
  {
    s.(locks := s.locks[l := w])
  }

  /** init_cpu_local, and locks as kmt_spin_init leaves them. */
  predicate Init(s: State) {
    && (forall c :: 0 <= c < |s.cpus| ==> s.cpus[c] == Cpu(s.cpus[c].intr, 0, true, Out, {}, s.cpus[c].intr))
    && (forall l :: 0 <= l < |s.locks| ==> s.locks[l] == Lock(false, None, None))
  }

  ghost predicate Behavior(b: seq<State>, ev: seq<(CpuId, Event)>) {
    && |b| == |ev| + 1 && Init(b[0])
    && forall i {:trigger ev[i]} :: 0 <= i < |ev| ==>
          Enabled(b[i], ev[i].0, ev[i].1) && b[i + 1] == Do(b[i], ev[i].0, ev[i].1)
  }

  ghost predicate Reachable(s: State) {
    exists b, ev :: Behavior(b, ev) && b[|b| - 1] == s
  }

  // ---- invariant

  /** The pushcli calls of the operation in progress that have no popcli yet, locks already held apart. */
  function PendingPushes(pc: Pc): nat {
    match pc
    case LockTest(_) => 1
    case LockRead(_, _) => 2
    case Spin(_) => 1
    case Won(_) => 1
    case Stuck(_) => 1
    case UnlockRead(_, _) => 1
    case _ => 0
  }

  /** c is between winning the exchange of line 106 and the exchange of line 115. */
  predicate Inside(s: State, c: CpuId, l: LockId)
    requires c < |s.cpus|
  {
    var k := s.cpus[c];
    k.pc == Won(l) || (l in k.held && k.pc != Pop(l))
  }

  predicate Named(s: State, c: CpuId, l: LockId)
    requires c < |s.cpus|
  {
    var k := s.cpus[c];
    l in k.held && k.pc != Free(l) && k.pc != Pop(l)
  }

  predicate CpuOk(k: Cpu, locks: nat) {
    && (!k.pc.Panic? ==> k.ncli == |k.held| + PendingPushes(k.pc))
    && k.ncli >= |k.held|
    && (k.ncli > 0 ==> !k.intr && k.intena == k.entry)
    && (forall l :: l in k.held ==> l < locks)
    && (k.pc.Spin? || k.pc.Won? ==> k.pc.lk !in k.held)
    && (k.pc.Stuck? || k.pc.Disown? || k.pc.Free? || k.pc.Pop? ==> k.pc.lk in k.held)
    && (k.pc.LockRead? || k.pc.UnlockRead? ==> (k.pc.lk in k.held ==> k.pc.locked))
    && (!k.pc.Out? && !k.pc.Panic? ==> k.pc.lk < locks)
  }

  predicate LockOk(s: State, l: LockId)
    requires l < |s.locks|
  {
    && (s.locks[l].locked <==> s.locks[l].owner.Some?)
    && (s.locks[l].owner.Some? ==> s.locks[l].owner.value < |s.cpus|)
    && (forall c {:trigger Inside(s, c, l)} :: 0 <= c < |s.cpus| ==> (s.locks[l].owner == Some(c) <==> Inside(s, c, l)))
    && (s.locks[l].cpu.Some? ==> s.locks[l].cpu.value < |s.cpus|)
    && (forall c {:trigger Named(s, c, l)} :: 0 <= c < |s.cpus| ==> (s.locks[l].cpu == Some(c) <==> Named(s, c, l)))
  }

  predicate Inv(s: State) {
    && (forall c {:trigger s.cpus[c]} :: 0 <= c < |s.cpus| ==> CpuOk(s.cpus[c], |s.locks|))
    && (forall l {:trigger LockOk(s, l)} :: 0 <= l < |s.locks| ==> LockOk(s, l))
  }

  lemma OthersStay(s: State, c: CpuId, e: Event)
    requires Enabled(s, c, e)
    ensures |Do(s, c, e).cpus| == |s.cpus| && |Do(s, c, e).locks| == |s.locks|
    ensures forall d {:trigger Do(s, c, e).cpus[d]} :: 0 <= d < |s.cpus| && d != c ==>
              Do(s, c, e).cpus[d] == s.cpus[d]
  {
  }

  lemma OwnCpuKeeps(s: State, c: CpuId, e: Event)
    requires Inv(s) && Enabled(s, c, e) && |Do(s, c, e).cpus| == |s.cpus|
    ensures CpuOk(Do(s, c, e).cpus[c], |s.locks|)
  {
    var k := s.cpus[c];
    if e.Claim? { assert |k.held + {k.pc.lk}| == |k.held| + 1; }
    if e.Leave? { assert |k.held - {k.pc.lk}| == |k.held| - 1; }
    if !k.pc.Out? && !k.pc.Panic? {
      assert LockOk(s, k.pc.lk);
      assert Inside(s, c, k.pc.lk) <==> s.locks[k.pc.lk].owner == Some(c);
      assert Named(s, c, k.pc.lk) <==> s.locks[k.pc.lk].cpu == Some(c);
    }
    if e.BeginUnlock? { assert LockOk(s, e.lk); assert Inside(s, c, e.lk) <==> s.locks[e.lk].owner == Some(c); }
  }

  // The owner of l, and the CPU that l names
  lemma StepKeepsOwner(s: State, c: CpuId, e: Event, l: LockId, d: CpuId)
    requires Inv(s) && Enabled(s, c, e) && l < |s.locks| && d < |s.cpus|
    ensures Do(s, c, e).locks[l].owner == Some(d) <==> Inside(Do(s, c, e), d, l)
  {
    assert LockOk(s, l);
    assert s.locks[l].owner == Some(d) <==> Inside(s, d, l);
    assert s.locks[l].owner == Some(c) <==> Inside(s, c, l);
  }

  lemma StepKeepsName(s: State, c: CpuId, e: Event, l: LockId, d: CpuId)
    requires Inv(s) && Enabled(s, c, e) && l < |s.locks| && d < |s.cpus|
    ensures Do(s, c, e).locks[l].cpu == Some(d) <==> Named(Do(s, c, e), d, l)
  {
    assert LockOk(s, l);
    assert s.locks[l].owner == Some(d) <==> Inside(s, d, l);
    assert s.locks[l].owner == Some(c) <==> Inside(s, c, l);
    assert s.locks[l].cpu == Some(d) <==> Named(s, d, l);
    assert s.locks[l].cpu == Some(c) <==> Named(s, c, l);
    if d != c { OthersStay(s, c, e); }
  }

  lemma StepKeepsRange(s: State, c: CpuId, e: Event, l: LockId)
    requires Inv(s) && Enabled(s, c, e) && l < |s.locks|
    ensures var k := Do(s, c, e).locks[l];
            && (k.locked <==> k.owner.Some?)
            && (k.owner.Some? ==> k.owner.value < |s.cpus|) && (k.cpu.Some? ==> k.cpu.value < |s.cpus|)
  {
    assert LockOk(s, l);
  }

  lemma StepKeepsLock(s: State, c: CpuId, e: Event, l: LockId)
    requires Inv(s) && Enabled(s, c, e) && l < |s.locks| && |Do(s, c, e).cpus| == |s.cpus|
    requires |Do(s, c, e).locks| == |s.locks|
    ensures LockOk(Do(s, c, e), l)
  {
    var s' := Do(s, c, e);
    StepKeepsRange(s, c, e, l);
    forall d | 0 <= d < |s.cpus|
      ensures s'.locks[l].owner == Some(d) <==> Inside(s', d, l)
      ensures s'.locks[l].cpu == Some(d) <==> Named(s', d, l)
    {
      StepKeepsOwner(s, c, e, l, d);
      StepKeepsName(s, c, e, l, d);
    }
  }

  lemma StepKeepsInv(s: State, c: CpuId, e: Event)
    requires Inv(s) && Enabled(s, c, e)
    ensures Inv(Do(s, c, e))
  {
    OthersStay(s, c, e);
    OwnCpuKeeps(s, c, e);
    forall l | 0 <= l < |s.locks| ensures LockOk(Do(s, c, e), l) { StepKeepsLock(s, c, e, l); }
  }

  lemma {:induction false} BehaviorKeepsInv(b: seq<State>, ev: seq<(CpuId, Event)>, i: nat)
    requires Behavior(b, ev) && i < |b|
    ensures Inv(b[i])
  {
    if i == 0 {
      forall l | 0 <= l < |b[0].locks| ensures LockOk(b[0], l) {}
    } else {
      BehaviorKeepsInv(b, ev, i - 1);
      StepKeepsInv(b[i - 1], ev[i - 1].0, ev[i - 1].1);
    }
  }

  lemma ReachableInv(s: State)
    requires Reachable(s)
    ensures Inv(s)
  {
    var b, ev :| Behavior(b, ev) && b[|b| - 1] == s;
    BehaviorKeepsInv(b, ev, |b| - 1);
  }

  // ---- the promises

  /** ncli counts the outstanding pushcli calls, and interrupts stay off until the last is undone. */
  lemma NestingCountsAndMasks(s: State, c: CpuId)
    requires Reachable(s) && c < |s.cpus| && !s.cpus[c].pc.Panic?
    ensures s.cpus[c].ncli == |s.cpus[c].held| + PendingPushes(s.cpus[c].pc)
    ensures s.cpus[c].ncli > 0 ==> !s.cpus[c].intr
  {
    ReachableInv(s);
  }

  /** Releases restore the interrupt flag exactly when the outermost one is undone, in whatever order the locks go. */
  lemma OutermostReleaseRestores(s: State, c: CpuId)
    requires Reachable(s) && Enabled(s, c, Leave)
    ensures var k := Do(s, c, Leave).cpus[c];
            && k.pc.Out?
            && (s.cpus[c].held == {s.cpus[c].pc.lk} ==> k.ncli == 0 && k.intr == s.cpus[c].entry)
            && (s.cpus[c].held != {s.cpus[c].pc.lk} ==> k.ncli > 0 && !k.intr)
  {
    ReachableInv(s);
    var k := s.cpus[c];
    assert |k.held - {k.pc.lk}| == |k.held| - 1;
    if k.held != {k.pc.lk} {
      var l :| l in k.held && l != k.pc.lk;
      assert l in k.held - {k.pc.lk};
    } else {
      assert k.held - {k.pc.lk} == {};
    }
  }

  lemma MutualExclusion(s: State, c: CpuId, d: CpuId, l: LockId)
    requires Reachable(s) && c < |s.cpus| && d < |s.cpus| && l < |s.locks|
    ensures Inside(s, c, l) && Inside(s, d, l) ==> c == d
    ensures Inside(s, c, l) ==> s.locks[l].locked
    ensures s.locks[l].cpu == Some(c) ==> Inside(s, c, l)
  {
    ReachableInv(s);
    assert LockOk(s, l);
    assert Inside(s, c, l) <==> s.locks[l].owner == Some(c);
    assert Inside(s, d, l) <==> s.locks[l].owner == Some(d);
    assert Named(s, c, l) <==> s.locks[l].cpu == Some(c);
  }

  /** holding() reads `locked` and `cpu` at different times and still answers whether this CPU holds the lock:
      a re-entrant lock call spins on itself and a release panics exactly when the caller broke the rule. */
  lemma HoldingIsExact(s: State, c: CpuId)
    requires Reachable(s) && c < |s.cpus|
    ensures Enabled(s, c, ReadCpu) ==> (Do(s, c, ReadCpu).cpus[c].pc.Stuck? <==> s.cpus[c].pc.lk in s.cpus[c].held)
                                       && !Do(s, c, ReadCpu).cpus[c].pc.Panic?
    ensures Enabled(s, c, CheckHeld) ==> (Do(s, c, CheckHeld).cpus[c].pc.Panic? <==> s.cpus[c].pc.lk !in s.cpus[c].held)
  {
    ReachableInv(s);
    var k := s.cpus[c];
    if Enabled(s, c, ReadCpu) || Enabled(s, c, CheckHeld) {
      assert LockOk(s, k.pc.lk);
      assert Named(s, c, k.pc.lk) <==> s.locks[k.pc.lk].cpu == Some(c);
    }
  }

  // ---- the lock as its users see it

  /** One step of CPU c on a lock that o holds before and o' afterwards: only a free lock is taken, only its holder
      frees it. */
  predicate LockStep(o: Option<CpuId>, o': Option<CpuId>, c: CpuId) {
    o' == o || (o.None? && o' == Some(c)) || (o == Some(c) && o'.None?)
  }

  /** However lock, unlock and holding interleave field by field, every lock is taken and freed atomically; and the
      holder runs with interrupts off, so it takes no trap. */
  lemma LocksAreAtomic(s: State, c: CpuId, e: Event, l: LockId)
    requires Reachable(s) && Enabled(s, c, e) && l < |s.locks|
    ensures l < |Do(s, c, e).locks| && LockStep(s.locks[l].owner, Do(s, c, e).locks[l].owner, c)
    ensures s.locks[l].owner == Some(c) ==> !s.cpus[c].intr
  {
    ReachableInv(s);
    assert LockOk(s, l);
    assert s.locks[l].owner == Some(c) <==> Inside(s, c, l);
    if s.cpus[c].pc.Free? { assert LockOk(s, s.cpus[c].pc.lk); }
    if l in s.cpus[c].held { assert {l} <= s.cpus[c].held && |{l}| == 1; HoldsOne(s.cpus[c].held, l); }
  }

  lemma HoldsOne(held: set<LockId>, l: LockId)
    requires l in held
    ensures |held| > 0
  {
  }

  // ---- the operations come to an end

  /** The next step of a CPU inside an operation. */
  function NextOf(pc: Pc): Event
    requires !pc.Out? && !pc.Stuck? && !pc.Panic?
  {
    match pc
    case LockTest(_) => ReadLocked
    case LockRead(_, _) => ReadCpu
    case Spin(_) => Exchange
    case Won(_) => Claim
    case UnlockRead(_, _) => CheckHeld
    case Disown(_) => ClearCpu
    case Free(_) => Store
    case Pop(_) => Leave
  }

  /** Only a CPU that locks what it holds, or unlocks what it does not, stops inside an operation; any other has a next
      step, and an exchange fails only while another CPU is inside the lock. */
  lemma GoesOn(s: State, c: CpuId)
    requires Reachable(s) && c < |s.cpus| && !s.cpus[c].pc.Out? && !s.cpus[c].pc.Stuck? && !s.cpus[c].pc.Panic?
    ensures Enabled(s, c, NextOf(s.cpus[c].pc))
    ensures Do(s, c, NextOf(s.cpus[c].pc)) == s ==>
              var k := s.cpus[c];
              k.pc.Spin? && exists d :: 0 <= d < |s.cpus| && d != c && Inside(s, d, k.pc.lk)
  {
    ReachableInv(s);
    var k := s.cpus[c];
    assert LockOk(s, k.pc.lk);
    if k.pc.Spin? && s.locks[k.pc.lk].locked {
      var d := s.locks[k.pc.lk].owner.value;
      assert s.locks[k.pc.lk].owner == Some(d) <==> Inside(s, d, k.pc.lk);
    }
  }

  // s' is s after CPU c has taken its next steps, one for each of es
  ghost predicate Takes(s: State, c: CpuId, es: seq<Event>, s': State)
    decreases |es|
  {
    if es == [] then s' == s else Enabled(s, c, es[0]) && Takes(Do(s, c, es[0]), c, es[1..], s')
  }

  /** Undisturbed, kmt_spin_lock takes a free lock: afterwards the CPU holds it, with interrupts off and one more push,
      and nothing else has changed. */
  lemma LockTakes(s: State, c: CpuId, l: LockId) returns (s': State)
    requires Reachable(s) && c < |s.cpus| && l < |s.locks| && s.cpus[c].pc.Out? && !s.locks[l].locked
    ensures Takes(s, c, [BeginLock(l), ReadLocked, ReadCpu, Exchange, Claim], s') && c < |s'.cpus|
    ensures var k, k' := s.cpus[c], s'.cpus[c];
            && k'.pc.Out? && !k'.intr && k'.ncli == k.ncli + 1 && k'.held == k.held + {l}
            && s'.cpus == s.cpus[c := k'] && s'.locks == s.locks[l := Lock(true, Some(c), Some(c))]
  {
    ReachableInv(s);
    assert LockOk(s, l);
    var s1 := Do(s, c, BeginLock(l));
    var s2 := Do(s1, c, ReadLocked);
    var s3 := Do(s2, c, ReadCpu);
    var s4 := Do(s3, c, Exchange);
    s' := Do(s4, c, Claim);
    assert Takes(s4, c, [Claim], s');
    assert Takes(s3, c, [Exchange, Claim], s');
    assert Takes(s2, c, [ReadCpu, Exchange, Claim], s');
    assert Takes(s1, c, [ReadLocked, ReadCpu, Exchange, Claim], s');
  }

  /** Undisturbed, kmt_spin_unlock frees a lock that the CPU holds: one push fewer, and interrupts as before the first
      if none is left. */
  lemma UnlockFrees(s: State, c: CpuId, l: LockId) returns (s': State)
    requires Reachable(s) && c < |s.cpus| && l < |s.locks| && s.cpus[c].pc.Out? && l in s.cpus[c].held
    ensures Takes(s, c, [BeginUnlock(l), CheckHeld, ClearCpu, Store, Leave], s') && c < |s'.cpus|
    ensures var k, k' := s.cpus[c], s'.cpus[c];
            && k'.pc.Out? && k'.ncli == k.ncli - 1 && k'.held == k.held - {l} && k'.intr == (k.ncli == 1 && k.entry)
            && s'.cpus == s.cpus[c := k'] && s'.locks == s.locks[l := Lock(false, None, None)]
  {
    ReachableInv(s);
    assert LockOk(s, l);
    assert Inside(s, c, l) <==> s.locks[l].owner == Some(c);
    assert Named(s, c, l) <==> s.locks[l].cpu == Some(c);
    HoldsOne(s.cpus[c].held, l);
    var s1 := Do(s, c, BeginUnlock(l));
    var s2 := Do(s1, c, CheckHeld);
    var s3 := Do(s2, c, ClearCpu);
    var s4 := Do(s3, c, Store);
    s' := Do(s4, c, Leave);
    assert Takes(s4, c, [Leave], s');
    assert Takes(s3, c, [Store, Leave], s');
    assert Takes(s2, c, [ClearCpu, Store, Leave], s');
    assert Takes(s1, c, [CheckHeld, ClearCpu, Store, Leave], s');
  }
}
