/** What a series of calls of calc_func leaves behind: the crc is a fold over the values computed, in the order in which
    items were first asked for, and each value is computed with the crc at its own turn. */
module ListCrc {
  import opened CoreList
  import opened ListSort

  predicate Known(d: map<Info, nat>, log: seq<Info>) {
    forall f :: f in log ==> f in d
  }

  /** The items of log without a cached value in d, each where log first names it. */
  function Turns(d: map<Info, nat>, log: seq<Info>): (ts: seq<Info>)
    requires Known(d, log)
    ensures Known(d, ts)
  {
    if log == [] then []
    else
      var f, ts := log[|log| - 1], Turns(d, log[..|log| - 1]);
      if f in ts || HasCache(d[f]) then ts else ts + [f]
  }

  /** log names f before it names g. */
  ghost predicate NamedBefore(log: seq<Info>, f: Info, g: Info) {
    exists p :: 0 <= p < |log| && log[p] == f && g !in log[..p + 1]
  }

  predicate Different(ts: seq<Info>) {
    forall i, j :: 0 <= i < j < |ts| ==> ts[i] != ts[j]
  }

  lemma NamedLonger(log: seq<Info>, f: Info, g: Info, h: Info)
    requires NamedBefore(log, f, g)
    ensures NamedBefore(log + [h], f, g)
  {
    var p :| 0 <= p < |log| && log[p] == f && g !in log[..p + 1];
    assert (log + [h])[..p + 1] == log[..p + 1] && (log + [h])[p] == f;
  }

  lemma NamedLast(log: seq<Info>, f: Info, h: Info)
    requires f in log && h !in log
    ensures NamedBefore(log + [h], f, h)
  {
    var p :| 0 <= p < |log| && log[p] == f;
    assert (log + [h])[..p + 1] == log[..p + 1] && (log + [h])[p] == f;
  }

  /** They are the items of log without a cached value, each once, in the order in which log first names them. */
  lemma {:induction false} TurnsAre(d: map<Info, nat>, log: seq<Info>)
    requires Known(d, log)
    ensures var ts := Turns(d, log);
            && Different(ts) && (forall f :: f in ts <==> f in log && !HasCache(d[f]))
            && forall i, j :: 0 <= i < j < |ts| ==> NamedBefore(log, ts[i], ts[j])
  {
    if log != [] {
      var log', h := log[..|log| - 1], log[|log| - 1];
      assert log == log' + [h];
      TurnsAre(d, log');
      var us, ts := Turns(d, log'), Turns(d, log);
      forall i, j | 0 <= i < j < |ts| ensures NamedBefore(log, ts[i], ts[j]) {
        assert us[i] in us;
        if j < |us| { NamedLonger(log', ts[i], ts[j], h); } else { NamedLast(log', ts[i], h); }
      }
    }
  }

  /** The crc when k items have had their turn, and the value computed at turn k. */
  function CrcAt(res: Results, d: map<Info, nat>, c0: nat, ts: seq<Info>, k: nat): nat
    requires Known(d, ts) && k <= |ts|
    decreases k, 0
  {
    if k == 0 then c0 else res.crcu16(ValueAt(res, d, c0, ts, k - 1), CrcAt(res, d, c0, ts, k - 1))
  }

  function ValueAt(res: Results, d: map<Info, nat>, c0: nat, ts: seq<Info>, k: nat): nat
    requires Known(d, ts) && k < |ts|
    decreases k, 1
  {
    res.Computed(d[ts[k]], CrcAt(res, d, c0, ts, k))
  }

  /** s is s0 if that is not zero, and the first nonzero value of the kind otherwise, or zero if there is none. */
  ghost predicate KeepsFirst(res: Results, d: map<Info, nat>, c0: nat, ts: seq<Info>, kind: nat, s0: nat, s: nat)
    requires Known(d, ts)
  {
    if s0 != 0 then s == s0
    else if s == 0 then forall k :: 0 <= k < |ts| && d[ts[k]] % 8 == kind ==> ValueAt(res, d, c0, ts, k) == 0
    else exists k :: IsFirst(res, d, c0, ts, kind, s, k)
  }

  ghost predicate IsFirst(res: Results, d: map<Info, nat>, c0: nat, ts: seq<Info>, kind: nat, s: nat, k: nat)
    requires Known(d, ts)
  {
    && k < |ts| && d[ts[k]] % 8 == kind && ValueAt(res, d, c0, ts, k) == s
    && forall i :: 0 <= i < k && d[ts[i]] % 8 == kind ==> ValueAt(res, d, c0, ts, i) == 0
  }

  /** Item k of ts keeps its high byte and has its value in the low one. */
  predicate HasValue(res: Results, d: map<Info, nat>, c0: nat, ts: seq<Info>, w: map<Info, nat>, k: nat)
    requires Known(d, ts) && k < |ts|
  {
    && ts[k] in w && HasCache(w[ts[k]]) && w[ts[k]] / 256 == d[ts[k]] / 256
    && w[ts[k]] % 128 == ValueAt(res, d, c0, ts, k) % 128
  }

  /** From words d and tally t0 to words w and tally t, the items of ts had their turns, one after the other. */
  ghost predicate Folded(res: Results, d: map<Info, nat>, t0: Tally, ts: seq<Info>, w: map<Info, nat>, t: Tally)
    requires Known(d, ts)
  {
    && w.Keys == d.Keys
    && (forall k :: 0 <= k < |ts| ==> HasValue(res, d, t0.crc, ts, w, k))
    && (forall f {:trigger w[f]} :: f in d && f !in ts ==> w[f] == d[f])
    && t.crc == CrcAt(res, d, t0.crc, ts, |ts|)
    && KeepsFirst(res, d, t0.crc, ts, 0, t0.state, t.state) && KeepsFirst(res, d, t0.crc, ts, 1, t0.matrix, t.matrix)
  }

  // Earlier turns do not depend on later ones
  lemma {:induction false} EarlierTurns(res: Results, d: map<Info, nat>, c0: nat, us: seq<Info>, ts: seq<Info>, k: nat)
    requires Known(d, ts) && us <= ts && k <= |us|
    ensures Known(d, us) && CrcAt(res, d, c0, ts, k) == CrcAt(res, d, c0, us, k)
    ensures k < |us| ==> ValueAt(res, d, c0, ts, k) == ValueAt(res, d, c0, us, k)
  {
    forall f | f in us ensures f in d { assert f in ts; }
    if k > 0 { EarlierTurns(res, d, c0, us, ts, k - 1); }
  }

  lemma KeepsFirstStep(res: Results, d: map<Info, nat>, c0: nat, us: seq<Info>, ts: seq<Info>, kind: nat, s0: nat,
                       s: nat, s': nat)
    requires Known(d, ts) && Known(d, us) && |ts| == |us| + 1 && us == ts[..|us|]
    requires KeepsFirst(res, d, c0, us, kind, s0, s)
    requires var k := |us|; s' == if d[ts[k]] % 8 == kind && s == 0 then ValueAt(res, d, c0, ts, k) else s
    ensures KeepsFirst(res, d, c0, ts, kind, s0, s')
  {
    var m := |us|;
    forall k | 0 <= k < m
      ensures ts[k] == us[k] && ValueAt(res, d, c0, ts, k) == ValueAt(res, d, c0, us, k) {
      EarlierTurns(res, d, c0, us, ts, k);
    }
    if s0 == 0 && s != 0 {
      var k :| IsFirst(res, d, c0, us, kind, s, k);
      assert IsFirst(res, d, c0, ts, kind, s, k);
    } else if s0 == 0 && s' != 0 {
      assert IsFirst(res, d, c0, ts, kind, s', m);
    }
  }

  lemma ValueStays(res: Results, d: map<Info, nat>, c0: nat, us: seq<Info>, ts: seq<Info>, e: map<Info, nat>,
                   w: map<Info, nat>, k: nat)
    requires Known(d, ts) && Known(d, us) && us <= ts && k < |us| && HasValue(res, d, c0, us, e, k)
    requires us[k] in w && w[us[k]] == e[us[k]]
    ensures HasValue(res, d, c0, ts, w, k)
  {
    EarlierTurns(res, d, c0, us, ts, k);
  }

  // The value of the item whose turn it is
  lemma ValueIsNew(res: Results, d: map<Info, nat>, c0: nat, us: seq<Info>, ts: seq<Info>, w: map<Info, nat>, f: Info,
                   c: nat)
    requires Known(d, us) && Known(d, ts) && ts == us + [f] && !HasCache(d[f]) && Word(d[f])
    requires c == CrcAt(res, d, c0, us, |us|) && f in w && w[f] == res.WordAfter(d[f], c)
    ensures HasValue(res, d, c0, ts, w, |us|) && ValueAt(res, d, c0, ts, |us|) == res.Computed(d[f], c)
  {
    EarlierTurns(res, d, c0, us, ts, |us|);
    CachedWord(d[f], res.Computed(d[f], c) % 128);
  }

  // A call for an item without a cached value is its turn
  lemma TurnStep(res: Results, d: map<Info, nat>, t0: Tally, us: seq<Info>, ts: seq<Info>, e: map<Info, nat>, u: Tally,
                 f: Info, w: map<Info, nat>, t: Tally)
    requires Known(d, us) && Known(d, ts) && ts == us + [f] && f !in us && !HasCache(d[f]) && Word(d[f])
    requires Folded(res, d, t0, us, e, u) && w == e[f := res.WordAfter(d[f], u.crc)] && t == res.TallyAfter(d[f], u)
    ensures Folded(res, d, t0, ts, w, t)
  {
    ValueIsNew(res, d, t0.crc, us, ts, w, f, u.crc);
    KeepsFirstStep(res, d, t0.crc, us, ts, 0, t0.state, u.state, t.state);
    KeepsFirstStep(res, d, t0.crc, us, ts, 1, t0.matrix, u.matrix, t.matrix);
    EarlierTurns(res, d, t0.crc, us, ts, |us|);
    forall k | 0 <= k < |ts| ensures HasValue(res, d, t0.crc, ts, w, k) {
      if k < |us| { ValueStays(res, d, t0.crc, us, ts, e, w, k); }
    }
  }

  /** Any series of calls is a fold over the turns of the items without a cached value. */
  lemma {:induction false} ReplayIsFold(res: Results, d: map<Info, nat>, t0: Tally, log: seq<Info>)
    requires Known(d, log) && forall f :: f in d ==> Word(d[f])
    ensures var r := res.Replay(d, t0, log); Folded(res, d, t0, Turns(d, log), r.0, r.1)
  {
    if log != [] {
      var log', f := log[..|log| - 1], log[|log| - 1];
      assert Known(d, log');
      ReplayIsFold(res, d, t0, log');
      var us := Turns(d, log');
      var (e, u) := res.Replay(d, t0, log');
      if f in us {
        var k :| 0 <= k < |us| && us[k] == f;
        assert HasValue(res, d, t0.crc, us, e, k);
        assert e[f := e[f]] == e;
      } else if HasCache(d[f]) {
        assert e[f := e[f]] == e;
      } else {
        assert e[f] == d[f];
        var r := res.Replay(d, t0, log);
        TurnStep(res, d, t0, us, us + [f], e, u, f, r.0, r.1);
      }
    }
  }
}
