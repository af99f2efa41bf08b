/** core_list_mergesort and the comparators it is used with. */
module ListSort {
  import opened Arithmetic
  import opened CoreList

  // ---- the comparators

  predicate Word(w: nat) {
    w < 0x1_0000
  }

  // Bit 7
  predicate HasCache(w: nat) {
    w / 128 % 2 == 1
  }

  /** The three checksums of core_results that calc_func updates. */
  datatype Tally = Tally(crc: nat, state: nat, matrix: nat)

  /** The part of core_results that the list benchmark uses, with the state machine, the matrix kernel and the CRC as
      functions of what calc_func passes them; asked lists the items that calc_func has been called for. */
  class Results {
    const list: Node
    const seed3: int
    var crc: nat
    var crcstate: nat
    var crcmatrix: nat
    ghost var asked: seq<Info>
    const benchState: (nat, nat) -> nat
    const benchMatrix: (nat, nat) -> nat
    const crcu16: (nat, nat) -> nat

    constructor (list: Node, seed3: int, state: (nat, nat) -> nat, matrix: (nat, nat) -> nat, crcu16: (nat, nat) -> nat)
      ensures this.list == list && this.seed3 == seed3 && asked == []
      ensures benchState == state && benchMatrix == matrix && this.crcu16 == crcu16 && crc == crcstate == crcmatrix == 0
    {
      this.list, this.seed3 := list, seed3;
      benchState, benchMatrix, this.crcu16 := state, matrix, crcu16;
      crc, crcstate, crcmatrix := 0, 0, 0;
      asked := [];
    }

    function Now(): Tally
      reads this
    {
      Tally(crc, crcstate, crcmatrix)
    }

    // Lines 70-89: what calc_func computes for an item without a cached value
    function Computed(data: nat, c: nat): nat {
      var d := data / 8 % 16 * 17;
      (if data % 8 == 0 then benchState(if d < 0x22 then 0x22 else d, c)
       else if data % 8 == 1 then benchMatrix(d, c)
       else data) % 0x1_0000
    }

    /** Kind 0 runs the state machine, kind 1 the matrix kernel, each on the digit d twice over, and at least 0x22 for
        the state machine; any other kind is the word itself. */
    lemma ComputedOf(high: nat, d: nat, kind: nat, c: nat)
      requires high < 256 && d < 16 && kind < 8
      ensures var data := high * 256 + d * 8 + kind;
              && Word(data) && !HasCache(data)
              && Computed(data, c) == (if kind == 0 && d < 2 then benchState(0x22, c) % 0x1_0000
                                       else if kind == 0 then benchState(0x11 * d, c) % 0x1_0000
                                       else if kind == 1 then benchMatrix(0x11 * d, c) % 0x1_0000
                                       else data)
    {
      var data := high * 256 + d * 8 + kind;
      DivModUnique(data, 8, high * 32 + d, kind);
      DivModUnique(high * 32 + d, 16, high * 2, d);
      DivModUnique(data, 128, high * 2, d * 8 + kind);
    }

    /** What one call of calc_func does to the word of its item and to the tally. */
    function WordAfter(data: nat, c: nat): nat {
      if HasCache(data) then data else data / 256 * 256 + 128 + Computed(data, c) % 128
    }

    function TallyAfter(data: nat, t: Tally): Tally {
      if HasCache(data) then t
      else
        var v := Computed(data, t.crc);
        Tally(crcu16(v, t.crc), if data % 8 == 0 && t.state == 0 then v else t.state,
              if data % 8 == 1 && t.matrix == 0 then v else t.matrix)
    }

    /** What calls for the items of log, in order, do to the words d and the tally t. */
    function Replay(d: map<Info, nat>, t: Tally, log: seq<Info>): (r: (map<Info, nat>, Tally))
      requires forall f :: f in log ==> f in d
      ensures r.0.Keys == d.Keys
    {
      if log == [] then (d, t)
      else
        var f := log[|log| - 1];
        var (e, u) := Replay(d, t, log[..|log| - 1]);
        (e[f := WordAfter(e[f], u.crc)], TallyAfter(e[f], u))
    }
  }

  lemma CachedWord(data: nat, v: nat)
    requires Word(data) && v < 128
    ensures var w := data / 256 * 256 + 128 + v; Word(w) && HasCache(w) && w / 256 == data / 256 && w % 128 == v
  {
    var q := data / 256;
    DivModUnique(q * 256 + 128 + v, 256, q, 128 + v);
    DivModUnique(q * 256 + 128 + v, 128, q * 2 + 1, v);
  }

  // Lines 70-89
  method RunOperation(data: nat, res: Results) returns (retval: nat)
    requires Word(data)
    modifies res`crcstate, res`crcmatrix
    ensures retval == res.Computed(data, res.crc)
    ensures res.crcstate == (if data % 8 == 0 && old(res.crcstate) == 0 then retval else old(res.crcstate))
    ensures res.crcmatrix == (if data % 8 == 1 && old(res.crcmatrix) == 0 then retval else old(res.crcmatrix))
  {
    var flag := data % 8;
    var dtype := data / 8 % 16;
    dtype := dtype + dtype * 16;
    if flag == 0 {
      if dtype < 0x22 { dtype := 0x22; }
      retval := res.benchState(dtype, res.crc) % 0x1_0000;
      if res.crcstate == 0 { res.crcstate := retval; }
    } else if flag == 1 {
      retval := res.benchMatrix(dtype, res.crc) % 0x1_0000;
      if res.crcmatrix == 0 { res.crcmatrix := retval; }
    } else {
      retval := data;
    }
  }

  /** calc_func: a cached value is returned and changes nothing; any other is computed with the present crc, goes into
      the crc uncut, becomes the checksum of its kind unless there is one, and is cached in the low byte. */
  method CalcFunc(f: Info, res: Results) returns (v: nat)
    requires Word(f.data16)
    modifies f`data16, res`crc, res`crcstate, res`crcmatrix, res`asked
    ensures Word(f.data16) && HasCache(f.data16) && f.data16 / 256 == old(f.data16) / 256 && v == f.data16 % 128
    ensures res.asked == old(res.asked) + [f]
    ensures HasCache(old(f.data16)) ==> f.data16 == old(f.data16) && res.Now() == old(res.Now())
    ensures !HasCache(old(f.data16)) ==>
              var x := res.Computed(old(f.data16), old(res.crc));
              && v == x % 128 && f.data16 == old(f.data16) / 256 * 256 + 128 + v
              && res.crc == res.crcu16(x, old(res.crc))
              && res.crcstate == (if old(f.data16) % 8 == 0 && old(res.crcstate) == 0 then x else old(res.crcstate))
              && res.crcmatrix == (if old(f.data16) % 8 == 1 && old(res.crcmatrix) == 0 then x else old(res.crcmatrix))
  {
    var data := f.data16;
    res.asked := res.asked + [f];
    if HasCache(data) { return data % 128; }
    var retval := RunOperation(data, res);
    res.crc := res.crcu16(retval, res.crc);
    v := retval % 128;
    CachedWord(data, v);
    f.data16 := data / 256 * 256 + 128 + v;
  }

  /** The two comparators a sort is called with. */
  datatype Order = ByValue | ByIndex

  // An item that has been compared: its value is cached, or its low byte regenerated
  predicate Settled(o: Order, w: nat) {
    if o.ByValue? then HasCache(w) else w % 256 == w / 256
  }

  function KeyOf(o: Order, data16: nat, idx: int): int {
    if o.ByValue? then data16 % 128 else idx
  }

  /** What a comparison does to an item: it settles it, once and for all, and keeps its high byte. */
  predicate Settles(o: Order, before: nat, after: nat) {
    && Word(after) && Settled(o, after) && after / 256 == before / 256
    && (Settled(o, before) ==> after == before)
  }

  // The results record, if there is one
  function Of(res: Results?): set<Results> {
    if res == null then {} else {res}
  }

  /** cmp_complex, which needs the results record, asks for the value of a, then for that of b; cmp_idx, called without
      one, copies the high byte of both items into the low byte. */
  method Compare(o: Order, a: Info, b: Info, res: Results?) returns (c: int)
    requires a != b && Word(a.data16) && Word(b.data16) && (o.ByValue? <==> res != null)
    modifies a`data16, b`data16, Of(res)`crc, Of(res)`crcstate, Of(res)`crcmatrix, Of(res)`asked
    ensures Settles(o, old(a.data16), a.data16) && Settles(o, old(b.data16), b.data16)
    ensures c == KeyOf(o, a.data16, a.idx) - KeyOf(o, b.data16, b.idx)
    ensures o.ByIndex? ==> a.data16 == old(a.data16) / 256 * 257 && b.data16 == old(b.data16) / 256 * 257
    ensures o.ByValue? ==>
              var t0 := old(res.Now());
              var t1 := res.TallyAfter(old(a.data16), t0);
              && res.asked == old(res.asked) + [a, b]
              && a.data16 == res.WordAfter(old(a.data16), t0.crc) && b.data16 == res.WordAfter(old(b.data16), t1.crc)
              && res.Now() == res.TallyAfter(old(b.data16), t1)
  {
    match o
    case ByValue =>
      var val1: int := CalcFunc(a, res);
      var val2: int := CalcFunc(b, res);
      c := val1 - val2;
    case ByIndex =>
      if res == null {
        a.data16 := a.data16 / 256 * 256 + a.data16 / 256;
        b.data16 := b.data16 / 256 * 256 + b.data16 / 256;
      }
      c := a.idx - b.idx;
  }
}
