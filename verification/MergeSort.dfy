/** core_list_mergesort: bottom-up, iterative, in place. */
module MergeSort {
  import opened Arithmetic
  import opened CoreList
  import opened ListSort
  import ListCrc
  import opened SortRuns

  // ---- the data items, seen from the nodes

  // Every node has a data item of its own
  ghost predicate OwnInfos(nodes: set<Node>, infos: set<Info>)
    reads nodes`info
  {
    && (forall x {:trigger x.info} :: x in nodes ==> x.info in infos)
    && (forall x, y {:trigger x.info, y.info} :: x in nodes && y in nodes && x.info == y.info ==> x == y)
  }

  /** key holds the value of every node compared so far. */
  ghost predicate Keyed(o: Order, nodes: set<Node>, infos: set<Info>, key: map<Node, int>)
    reads nodes`info, infos`data16, infos`idx
  {
    forall x {:trigger key[x]} {:trigger x in key} :: x in key ==>
      && x in nodes && x.info in infos
      && Settled(o, x.info.data16) && key[x] == KeyOf(o, x.info.data16, x.info.idx)
  }

  predicate SettledItem(o: Order, d0: map<Info, nat>, f: Info, now: nat) {
    f in d0 && Word(now) && Word(d0[f]) && (now == d0[f] || Settles(o, d0[f], now))
  }

  lemma SettledTwice(o: Order, d0: map<Info, nat>, f: Info, w: nat, w': nat)
    requires SettledItem(o, d0, f, w) && (w' == w || Settles(o, w, w'))
    ensures SettledItem(o, d0, f, w')
  {
  }

  /** Since d0 items were left alone or settled. */
  ghost predicate SettledSince(o: Order, infos: set<Info>, d0: map<Info, nat>)
    reads infos`data16
  {
    forall f {:trigger f.data16} :: f in infos ==> SettledItem(o, d0, f, f.data16)
  }

  /** What stays fixed during a sort: the nodes and their items, the nodes' places, the results record if there is one,
      and the items' words, the tally and the calls of calc_func so far at its start. */
  datatype World = World(nodes: set<Node>, infos: set<Info>, pos: map<Node, nat>, res: Results?,
                         d0: map<Info, nat>, t0: Tally, asked0: seq<Info>)

  ghost function WordsOf(infos: set<Info>): map<Info, nat>
    reads infos`data16
  {
    map f | f in infos :: f.data16
  }

  // Words and tally are what the calls of calc_func since the start of the sort make of those at its start
  predicate Follows(res: Results, d0: map<Info, nat>, t0: Tally, asked0: seq<Info>, asked: seq<Info>, d: map<Info, nat>,
                    t: Tally)
  {
    && asked0 <= asked && ListCrc.Known(d0, asked[|asked0|..])
    && res.Replay(d0, t0, asked[|asked0|..]) == (d, t)
  }

  ghost predicate Counted(o: Order, w: World)
    reads w.infos`data16, if w.res == null then {} else {w.res}
  {
    && (o.ByValue? <==> w.res != null)
    && (w.res != null ==> Follows(w.res, w.d0, w.t0, w.asked0, w.res.asked, WordsOf(w.infos), w.res.Now()))
  }

  // Two more calls
  lemma FollowsTwo(res: Results, d0: map<Info, nat>, t0: Tally, asked0: seq<Info>, asked: seq<Info>, d: map<Info, nat>,
                   t: Tally, a: Info, b: Info, d': map<Info, nat>, t1: Tally)
    requires Follows(res, d0, t0, asked0, asked, d, t) && a in d && b in d && a != b && t1 == res.TallyAfter(d[a], t)
    requires d' == d[a := res.WordAfter(d[a], t.crc)][b := res.WordAfter(d[b], t1.crc)]
    ensures Follows(res, d0, t0, asked0, asked + [a, b], d', res.TallyAfter(d[b], t1))
  {
    var log := asked[|asked0|..];
    assert (asked + [a, b])[|asked0|..] == log + [a] + [b];
    assert (log + [a])[..|log|] == log && (log + [a] + [b])[..|log| + 1] == log + [a];
  }

  /** key is right about the nodes compared so far, and no item changed otherwise. */
  ghost predicate Known(o: Order, w: World, key: map<Node, int>)
    reads w.nodes`info, w.infos`data16, w.infos`idx, if w.res == null then {} else {w.res}
  {
    OwnInfos(w.nodes, w.infos) && Keyed(o, w.nodes, w.infos, key) && SettledSince(o, w.infos, w.d0) && Counted(o, w)
  }

  method CompareItems(o: Order, a: Info, b: Info, res: Results?, ghost w: World) returns (c: int)
    requires a in w.infos && b in w.infos && a != b && Word(a.data16) && Word(b.data16)
    requires res == w.res && Counted(o, w)
    modifies a`data16, b`data16, Of(res)`crc, Of(res)`crcstate, Of(res)`crcmatrix, Of(res)`asked
    ensures Counted(o, w)
    ensures Settles(o, old(a.data16), a.data16) && Settles(o, old(b.data16), b.data16)
    ensures c == KeyOf(o, a.data16, a.idx) - KeyOf(o, b.data16, b.idx)
  {
    if res == null {
      c := Compare(o, a, b, null);
    } else {
      ghost var d, t, asked := WordsOf(w.infos), res.Now(), res.asked;
      c := Compare(o, a, b, res);
      FollowsTwo(res, w.d0, w.t0, w.asked0, asked, d, t, a, b, WordsOf(w.infos), res.TallyAfter(d[a], t));
    }
  }

  method SettleItems(o: Order, a: Info, b: Info, res: Results?, ghost w: World) returns (c: int)
    requires a in w.infos && b in w.infos && a != b && SettledSince(o, w.infos, w.d0)
    requires res == w.res && Counted(o, w)
    modifies a`data16, b`data16, Of(res)`crc, Of(res)`crcstate, Of(res)`crcmatrix, Of(res)`asked
    ensures Counted(o, w) && SettledSince(o, w.infos, w.d0)
    ensures Settles(o, old(a.data16), a.data16) && Settles(o, old(b.data16), b.data16)
    ensures c == KeyOf(o, a.data16, a.idx) - KeyOf(o, b.data16, b.idx)
  {
    assert SettledItem(o, w.d0, a, a.data16) && SettledItem(o, w.d0, b, b.data16);
    c := CompareItems(o, a, b, res, w);
    SettledTwice(o, w.d0, a, old(a.data16), a.data16);
    SettledTwice(o, w.d0, b, old(b.data16), b.data16);
    forall f | f in w.infos ensures SettledItem(o, w.d0, f, f.data16) {
      assert SettledItem(o, w.d0, f, old(f.data16));
    }
  }

  /** Comparing two nodes settles their items and keeps the values of all nodes compared before. */
  method CompareNodes(o: Order, p: Node, q: Node, res: Results?, ghost w: World, ghost key: map<Node, int>)
    returns (c: int, ghost key': map<Node, int>)
    requires p in w.nodes && q in w.nodes && p != q && res == w.res && Known(o, w, key)
    modifies w.infos`data16, Of(res)`crc, Of(res)`crcstate, Of(res)`crcmatrix, Of(res)`asked
    ensures Known(o, w, key') && Extends(key, key') && p in key' && q in key' && c == key'[p] - key'[q]
  {
    ghost var d := WordsOf(w.infos);
    WasKeyed(o, w.nodes, w.infos, key);
    ItemsOf(o, w, p, q);
    var a, b := p.info, q.info;
    c := SettleItems(o, a, b, res, w);
    key' := StillKeyed(o, w.nodes, w.infos, key, d, p, q);
  }

  lemma ItemsOf(o: Order, w: World, p: Node, q: Node)
    requires OwnInfos(w.nodes, w.infos) && SettledSince(o, w.infos, w.d0) && p in w.nodes && q in w.nodes && p != q
    ensures p.info in w.infos && q.info in w.infos && p.info != q.info && Word(p.info.data16) && Word(q.info.data16)
  {
    assert SettledItem(o, w.d0, p.info, p.info.data16) && SettledItem(o, w.d0, q.info, q.info.data16);
  }

  // key was right when the items had words d
  ghost predicate KeyedBy(o: Order, nodes: set<Node>, d: map<Info, nat>, key: map<Node, int>)
    reads nodes`info, d.Keys`idx
  {
    forall x {:trigger key[x]} {:trigger x in key} :: x in key ==>
      x in nodes && x.info in d && Settled(o, d[x.info]) && key[x] == KeyOf(o, d[x.info], x.info.idx)
  }

  lemma WasKeyed(o: Order, nodes: set<Node>, infos: set<Info>, key: map<Node, int>)
    requires Keyed(o, nodes, infos, key)
    ensures KeyedBy(o, nodes, WordsOf(infos), key)
  {
  }

  lemma StillKeyed(o: Order, nodes: set<Node>, infos: set<Info>, key: map<Node, int>, d: map<Info, nat>, p: Node,
                   q: Node)
    returns (key': map<Node, int>)
    requires d.Keys == infos && KeyedBy(o, nodes, d, key) && OwnInfos(nodes, infos)
    requires p in nodes && q in nodes && p != q
    requires Settles(o, d[p.info], p.info.data16) && Settles(o, d[q.info], q.info.data16)
    requires forall f {:trigger f.data16} :: f in infos && f != p.info && f != q.info ==> f.data16 == d[f]
    ensures Keyed(o, nodes, infos, key') && Extends(key, key') && p in key' && q in key'
    ensures key'[p] == KeyOf(o, p.info.data16, p.info.idx) && key'[q] == KeyOf(o, q.info.data16, q.info.idx)
  {
    key' := key[p := KeyOf(o, p.info.data16, p.info.idx)][q := KeyOf(o, q.info.data16, q.info.idx)];
  }

  // ---- the nodes

  /**
   A merge in progress: out is the list merged so far, p what remains of the first run, and q the rest of the input,
   which starts with the second run.
   */
  ghost predicate Merging(list: Node?, tail: Node?, out: seq<Node>, p: Node?, ps: seq<Node>, q: Node?, qs: seq<Node>)
    reads out`next, ps`next, qs`next
  {
    && Distinct(out + ps + qs)
    && Linked(out) && (if out == [] then tail == null else list == out[0] && tail == out[|out| - 1])
    && Linked(ps) && (ps != [] ==> p == ps[0])
    && q == At(qs, 0) && Ends(qs)
  }

  // Each node leads to the next one and the last one nowhere
  ghost predicate Ends(l: seq<Node>)
    reads l`next
  {
    forall i {:trigger l[i].next} :: 0 <= i < |l| ==> l[i].next == At(l, i + 1)
  }

  lemma LinkedTail(l: seq<Node>)
    requires l != []
    ensures Linked(l) ==> Linked(l[1..])
    ensures Ends(l) ==> Ends(l[1..])
  {
    var m := l[1..];
    if Linked(l) {
      forall i | 0 <= i < |m| - 1 ensures m[i].next == m[i + 1] { assert l[i + 1].next == l[i + 2]; }
    }
    if Ends(l) {
      forall i | 0 <= i < |m| ensures m[i].next == At(m, i + 1) { assert l[i + 1].next == At(l, i + 2); }
    }
  }

  // Lines 471-477: e goes to the end of the merged list
  method Emit(list: Node?, tail: Node?, e: Node, ghost out: seq<Node>) returns (list': Node?)
    requires Distinct(out) && e !in out && Linked(out)
    requires if out == [] then tail == null else list == out[0] && tail == out[|out| - 1]
    modifies (if tail == null then {} else {tail})`next
    ensures Linked(out + [e]) && list' == (out + [e])[0]
  {
    list' := list;
    if tail != null { tail.next := e; } else { list' := e; }
  }

  lemma DistinctMove(a: seq<Node>, b: seq<Node>, x: Node, c: seq<Node>)
    requires Distinct(a + b + ([x] + c))
    ensures Distinct(a + [x] + b + c)
  {
    var l, r := a + b + ([x] + c), a + [x] + b + c;
    forall i, j | 0 <= i < j < |r| ensures r[i] != r[j] {
      var f := (k: int) => if k < |a| then k else if k == |a| then |a| + |b| else if k <= |a| + |b| then k - 1 else k;
      assert r[i] == l[f(i)] && r[j] == l[f(j)] && f(i) != f(j);
      assert f(i) < f(j) ==> l[f(i)] != l[f(j)];
      assert f(j) < f(i) ==> l[f(j)] != l[f(i)];
    }
  }

  lemma DistinctParts(a: seq<Node>, b: seq<Node>)
    requires Distinct(a + b)
    ensures Distinct(a) && Distinct(b) && forall x :: x in a ==> x !in b
  {
    var l := a + b;
    forall i, j | 0 <= i < j < |b| ensures b[i] != b[j] { assert l[|a| + i] != l[|a| + j]; }
    forall i, j | 0 <= i < j < |a| ensures a[i] != a[j] { assert l[i] != l[j]; }
    forall i, j | 0 <= i < |a| && 0 <= j < |b| ensures a[i] != b[j] { assert l[i] != l[|a| + j]; }
  }

  // The three lists of a merge share no node
  lemma Apart(out: seq<Node>, ps: seq<Node>, qs: seq<Node>)
    requires Distinct(out + ps + qs)
    ensures Distinct(out) && Distinct(ps) && Distinct(qs)
    ensures forall x :: (x in out ==> x !in ps && x !in qs) && (x in ps ==> x !in qs)
  {
    DistinctParts(out + ps, qs);
    DistinctParts(out, ps);
  }

  // Lines 462, 465: the next node comes from the first run
  method FromP(list: Node?, tail: Node?, p: Node?, ghost out0: seq<Node>, ghost b: seq<Node>, ghost ps: seq<Node>,
               ghost q: Node?, ghost qs: seq<Node>)
    returns (list': Node?, tail': Node?, p': Node?)
    requires Merging(list, tail, out0 + b, p, ps, q, qs) && ps != []
    modifies (if tail == null then {} else {tail})`next
    ensures Merging(list', tail', out0 + (b + [ps[0]]), p', ps[1..], q, qs)
  {
    ghost var out := out0 + b;
    assert out + [ps[0]] == out0 + (b + [ps[0]]);
    var e := p;
    Apart(out, ps, qs);
    assert ps == [ps[0]] + ps[1..];
    assert out + ps + qs == out + [ps[0]] + ps[1..] + qs;
    assert ps[0] == (out + ps + qs)[|out|];
    assert |ps| > 1 ==> ps[0].next == ps[1];
    LinkedTail(ps);
    assert tail != null ==> tail in out && tail !in ps[1..];
    p' := e.next;
    list' := Emit(list, tail, e, out);
    tail' := e;
  }

  // Lines 459, 468: it comes from the second run
  method FromQ(list: Node?, tail: Node?, ghost p: Node?, q: Node?, ghost out0: seq<Node>, ghost b: seq<Node>,
               ghost ps: seq<Node>, ghost qr: seq<Node>, ghost rest: seq<Node>)
    returns (list': Node?, tail': Node?, q': Node?)
    requires Merging(list, tail, out0 + b, p, ps, q, qr + rest) && qr != []
    modifies (if tail == null then {} else {tail})`next
    ensures Merging(list', tail', out0 + (b + [qr[0]]), p, ps, q', qr[1..] + rest)
  {
    ghost var out, qs := out0 + b, qr + rest;
    assert out + [qr[0]] == out0 + (b + [qr[0]]) && qs[1..] == qr[1..] + rest && qs[0] == qr[0];
    var e := q;
    Apart(out, ps, qs);
    assert qs == [qs[0]] + qs[1..];
    DistinctMove(out, ps, qs[0], qs[1..]);
    assert qs[0] == (out + ps + qs)[|out| + |ps|];
    assert qs[0].next == At(qs, 1);
    LinkedTail(qs);
    assert tail != null ==> tail in out && tail !in qs[1..];
    q' := e.next;
    list' := Emit(list, tail, e, out);
    tail' := e;
  }

  // What the merge of runs ps and qs has achieved when b is merged and pr and qr remain
  ghost predicate Progress(key: map<Node, int>, pos: map<Node, nat>, b: seq<Node>, pr: seq<Node>, qr: seq<Node>,
                           ps: seq<Node>, qs: seq<Node>) {
    && Sorted(key, pos, b + pr) && Sorted(key, pos, b + qr) && AllBefore(pos, pr, qr)
    && multiset(b) + multiset(pr) + multiset(qr) == multiset(ps) + multiset(qs)
  }

  lemma ProgressP(k: map<Node, int>, key: map<Node, int>, pos: map<Node, nat>, b: seq<Node>, pr: seq<Node>,
                  qr: seq<Node>,
                  ps: seq<Node>, qs: seq<Node>)
    requires Progress(k, pos, b, pr, qr, ps, qs) && Extends(k, key) && pr != []
    requires qr != [] ==> Below(key, pos, pr[0], qr[0])
    ensures Progress(key, pos, b + [pr[0]], pr[1..], qr, ps, qs)
  {
    MergeStep(key, pos, b, pr, qr);
    assert pr == [pr[0]] + pr[1..];
  }

  lemma ProgressQ(k: map<Node, int>, key: map<Node, int>, pos: map<Node, nat>, b: seq<Node>, pr: seq<Node>,
                  qr: seq<Node>,
                  ps: seq<Node>, qs: seq<Node>)
    requires Progress(k, pos, b, pr, qr, ps, qs) && Extends(k, key) && qr != []
    requires pr != [] ==> Below(key, pos, qr[0], pr[0])
    ensures Progress(key, pos, b + [qr[0]], pr, qr[1..], ps, qs)
  {
    MergeStep(key, pos, b, qr, pr);
    assert qr == [qr[0]] + qr[1..];
  }

  ghost predicate Members(ps: seq<Node>, qs: seq<Node>, nodes: set<Node>) {
    (forall x :: x in ps ==> x in nodes) && forall x :: x in qs ==> x in nodes
  }

  lemma ProgressMembers(key: map<Node, int>, pos: map<Node, nat>, b: seq<Node>, pr: seq<Node>, qr: seq<Node>,
                        ps: seq<Node>, qs: seq<Node>, nodes: set<Node>)
    requires Progress(key, pos, b, pr, qr, ps, qs) && Members(ps, qs, nodes)
    ensures forall x :: x in b ==> x in nodes
    ensures (pr != [] ==> pr[0] in nodes) && (qr != [] ==> qr[0] in nodes)
  {
    forall x | x in b || x in pr || x in qr ensures x in nodes {
      assert x in multiset(b) + multiset(pr) + multiset(qr);
      assert x in multiset(ps) || x in multiset(qs);
    }
  }

  // The loop of lines 454-478 goes on exactly while one of the runs has nodes left
  lemma MoreToMerge(q: Node?, qsize: nat, qr: seq<Node>, rest: seq<Node>)
    requires q == At(qr + rest, 0) && |qr| <= qsize && (rest != [] ==> |qr| == qsize)
    ensures qsize > 0 && q != null <==> qr != []
  {
  }

  lemma ProgressStart(key: map<Node, int>, pos: map<Node, nat>, ps: seq<Node>, qs: seq<Node>)
    requires Sorted(key, pos, ps) && Sorted(key, pos, qs) && AllBefore(pos, ps, qs)
    ensures Progress(key, pos, [], ps, qs, ps, qs)
  {
    assert [] + ps == ps && [] + qs == qs;
  }

  lemma ProgressEnd(key: map<Node, int>, pos: map<Node, nat>, b: seq<Node>, ps: seq<Node>, qs: seq<Node>)
    requires Progress(key, pos, b, [], [], ps, qs)
    ensures Sorted(key, pos, b) && multiset(b) == multiset(ps) + multiset(qs)
  {
    assert b + [] == b;
  }

  // ---- merging two runs

  /** What one merge is about: out was merged before, ps and qs are its runs, rest follows them. */
  datatype Job = Job(w: World, out: seq<Node>, ps: seq<Node>, qs: seq<Node>, rest: seq<Node>)

  /** The variables of lines 454-478. */
  datatype Cursor = Cursor(list: Node?, tail: Node?, p: Node?, psize: nat, q: Node?, qsize: nat)

  /** How far it has come: b is merged, pr and qr remain of the runs, and key is known. */
  datatype Stage = Stage(b: seq<Node>, pr: seq<Node>, qr: seq<Node>, key: map<Node, int>)

  ghost predicate JobOk(j: Job) {
    (forall x :: x in j.out ==> x in j.w.nodes) && Members(j.ps, j.qs, j.w.nodes)
  }

  ghost predicate AtStage(j: Job, c: Cursor, s: Stage)
    reads (j.out + s.b)`next, s.pr`next, (s.qr + j.rest)`next
  {
    && Merging(c.list, c.tail, j.out + s.b, c.p, s.pr, c.q, s.qr + j.rest)
    && |s.pr| == c.psize && |s.qr| <= c.qsize && (j.rest != [] ==> |s.qr| == c.qsize)
    && Progress(s.key, j.w.pos, s.b, s.pr, s.qr, j.ps, j.qs)
  }

  // The stages after a node of either run has moved
  function AfterP(s: Stage, key: map<Node, int>): Stage
    requires s.pr != []
  {
    Stage(s.b + [s.pr[0]], s.pr[1..], s.qr, key)
  }

  function AfterQ(s: Stage, key: map<Node, int>): Stage
    requires s.qr != []
  {
    Stage(s.b + [s.qr[0]], s.pr, s.qr[1..], key)
  }

  lemma StageMembers(j: Job, c: Cursor, s: Stage)
    requires JobOk(j) && AtStage(j, c, s)
    ensures (s.pr != [] ==> s.pr[0] in j.w.nodes) && (s.qr != [] ==> s.qr[0] in j.w.nodes && c.q == s.qr[0])
    ensures c.tail != null ==> c.tail in j.w.nodes
    ensures Distinct(s.pr + s.qr)
  {
    ProgressMembers(s.key, j.w.pos, s.b, s.pr, s.qr, j.ps, j.qs, j.w.nodes);
    RunsDistinct(j.out + s.b, s.pr, s.qr, j.rest);
    if j.out + s.b != [] { assert c.tail in j.out || c.tail in s.b; }
    if s.qr != [] { assert (s.qr + j.rest)[0] == s.qr[0]; }
  }

  lemma RunsDistinct(a: seq<Node>, pr: seq<Node>, qr: seq<Node>, rest: seq<Node>)
    requires Distinct(a + pr + (qr + rest))
    ensures Distinct(pr + qr)
  {
    assert a + pr + (qr + rest) == a + (pr + qr) + rest;
    Apart(a, pr + qr, rest);
  }

  // The run that lines 457-469 take the next node from, once key is known
  predicate Chosen(s: Stage, key: map<Node, int>, pos: map<Node, nat>, fromP: bool) {
    if fromP then s.pr != [] && (s.qr != [] ==> Below(key, pos, s.pr[0], s.qr[0]))
    else s.qr != [] && (s.pr != [] ==> Below(key, pos, s.qr[0], s.pr[0]))
  }

  // What the heads of both runs are, when neither is used up
  lemma HeadsOfRuns(j: Job, c: Cursor, s: Stage)
    requires JobOk(j) && AtStage(j, c, s) && c.psize > 0 && c.qsize > 0 && c.q != null
    ensures s.pr != [] && s.qr != [] && c.p == s.pr[0] && c.q == s.qr[0] && c.p != c.q
    ensures c.p in j.w.nodes && c.q in j.w.nodes && Before(j.w.pos, c.p, c.q)
  {
    StageMembers(j, c, s);
    MoreToMerge(c.q, c.qsize, s.qr, j.rest);
    DistinctParts(s.pr, s.qr);
    assert s.pr[0] in s.pr && s.qr[0] in s.qr;
  }

  // One of the runs is used up: there is nothing to compare
  lemma OneRunLeft(j: Job, c: Cursor, s: Stage)
    requires JobOk(j) && AtStage(j, c, s) && (s.pr != [] || s.qr != [])
    ensures c.psize == 0 ==> s.pr == [] && s.qr != []
    ensures c.psize > 0 && (c.qsize == 0 || c.q == null) ==> s.pr != [] && s.qr == []
  {
    MoreToMerge(c.q, c.qsize, s.qr, j.rest);
  }

  // Line 463
  method CompareHeads(o: Order, res: Results?, p: Node, q: Node, ghost w: World, ghost s: Stage)
    returns (fromP: bool, ghost key: map<Node, int>)
    requires s.pr != [] && s.qr != [] && p == s.pr[0] && q == s.qr[0] && p != q && p in w.nodes && q in w.nodes
    requires Before(w.pos, p, q)
    requires res == w.res && Known(o, w, s.key)
    modifies w.infos`data16, Of(res)`crc, Of(res)`crcstate, Of(res)`crcmatrix, Of(res)`asked
    ensures Known(o, w, key) && Extends(s.key, key) && Chosen(s, key, w.pos, fromP)
  {
    var d;
    d, key := CompareNodes(o, p, q, res, w, s.key);
    fromP := d <= 0;
  }

  method Choose(o: Order, res: Results?, c: Cursor, ghost j: Job, ghost s: Stage)
    returns (fromP: bool, ghost key: map<Node, int>)
    requires JobOk(j) && AtStage(j, c, s) && (s.pr != [] || s.qr != [])
    requires res == j.w.res && Known(o, j.w, s.key)
    modifies j.w.infos`data16, Of(res)`crc, Of(res)`crcstate, Of(res)`crcmatrix, Of(res)`asked
    ensures Known(o, j.w, key) && Extends(s.key, key) && Chosen(s, key, j.w.pos, fromP)
  {
    OneRunLeft(j, c, s);
    if c.psize == 0 {
      fromP, key := false, s.key;
    } else if c.qsize == 0 || c.q == null {
      fromP, key := true, s.key;
    } else {
      HeadsOfRuns(j, c, s);
      fromP, key := CompareHeads(o, res, c.p, c.q, j.w, s);
    }
  }

  // A comparison moves no node
  method ChooseInPlace(o: Order, res: Results?, c: Cursor, ghost j: Job, ghost s: Stage)
    returns (fromP: bool, ghost key: map<Node, int>)
    requires JobOk(j) && AtStage(j, c, s) && (s.pr != [] || s.qr != [])
    requires res == j.w.res && Known(o, j.w, s.key)
    modifies j.w.infos`data16, Of(res)`crc, Of(res)`crcstate, Of(res)`crcmatrix, Of(res)`asked
    ensures Known(o, j.w, key) && Extends(s.key, key) && Chosen(s, key, j.w.pos, fromP) && AtStage(j, c, s)
  {
    fromP, key := Choose(o, res, c, j, s);
  }

  method MoveP(ghost o: Order, c: Cursor, ghost j: Job, ghost s: Stage, ghost key: map<Node, int>) returns (c': Cursor)
    requires AtStage(j, c, s) && Extends(s.key, key) && Chosen(s, key, j.w.pos, true) && Known(o, j.w, key)
    modifies (if c.tail == null then {} else {c.tail})`next
    ensures AtStage(j, c', AfterP(s, key)) && Known(o, j.w, key)
  {
    ProgressP(s.key, key, j.w.pos, s.b, s.pr, s.qr, j.ps, j.qs);
    var list, tail, p := FromP(c.list, c.tail, c.p, j.out, s.b, s.pr, c.q, s.qr + j.rest);
    c' := Cursor(list, tail, p, c.psize - 1, c.q, c.qsize);
  }

  method MoveQ(ghost o: Order, c: Cursor, ghost j: Job, ghost s: Stage, ghost key: map<Node, int>) returns (c': Cursor)
    requires AtStage(j, c, s) && Extends(s.key, key) && Chosen(s, key, j.w.pos, false) && Known(o, j.w, key)
    modifies (if c.tail == null then {} else {c.tail})`next
    ensures AtStage(j, c', AfterQ(s, key)) && Known(o, j.w, key)
  {
    ProgressQ(s.key, key, j.w.pos, s.b, s.pr, s.qr, j.ps, j.qs);
    var list, tail, q := FromQ(c.list, c.tail, c.p, c.q, j.out, s.b, s.pr, s.qr, j.rest);
    c' := Cursor(list, tail, c.p, c.psize, q, c.qsize - 1);
  }

  // One turn of the loop of lines 454-478
  method MoveOne(o: Order, res: Results?, c: Cursor, ghost j: Job, ghost s: Stage) returns (c': Cursor, ghost s': Stage)
    requires JobOk(j) && AtStage(j, c, s) && (s.pr != [] || s.qr != [])
    requires res == j.w.res && Known(o, j.w, s.key)
    modifies (if c.tail == null then {} else {c.tail})`next, j.w.infos`data16, if res == null then {} else {res}
    ensures AtStage(j, c', s') && Known(o, j.w, s'.key) && Extends(s.key, s'.key)
    ensures |s'.pr| + |s'.qr| < |s.pr| + |s.qr|
  {
    var fromP;
    ghost var key;
    fromP, key := ChooseInPlace(o, res, c, j, s);
    c', s' := Move(o, c, j, s, key, fromP);
  }

  method Move(ghost o: Order, c: Cursor, ghost j: Job, ghost s: Stage, ghost key: map<Node, int>, fromP: bool)
    returns (c': Cursor, ghost s': Stage)
    requires AtStage(j, c, s) && Extends(s.key, key) && Chosen(s, key, j.w.pos, fromP) && Known(o, j.w, key)
    modifies (if c.tail == null then {} else {c.tail})`next
    ensures AtStage(j, c', s') && Known(o, j.w, s'.key) && s'.key == key && |s'.pr| + |s'.qr| < |s.pr| + |s.qr|
  {
    if fromP {
      s' := AfterP(s, key);
      c' := MoveP(o, c, j, s, key);
    } else {
      s' := AfterQ(s, key);
      c' := MoveQ(o, c, j, s, key);
    }
  }

  method MergeLoop(o: Order, res: Results?, c0: Cursor, ghost j: Job, ghost s0: Stage)
    returns (c: Cursor, ghost s: Stage)
    requires JobOk(j) && AtStage(j, c0, s0) && res == j.w.res && Known(o, j.w, s0.key)
    modifies j.w.nodes`next, j.w.infos`data16, if res == null then {} else {res}
    ensures AtStage(j, c, s) && s.pr == s.qr == [] && Known(o, j.w, s.key) && Extends(s0.key, s.key)
  {
    c, s := c0, s0;
    MoreToMerge(c.q, c.qsize, s.qr, j.rest);
    while c.psize > 0 || (c.qsize > 0 && c.q != null)
      invariant AtStage(j, c, s) && Known(o, j.w, s.key) && Extends(s0.key, s.key)
      invariant c.qsize > 0 && c.q != null <==> s.qr != []
      decreases |s.pr| + |s.qr|
    {
      StageMembers(j, c, s);
      c, s := MoveOne(o, res, c, j, s);
      MoreToMerge(c.q, c.qsize, s.qr, j.rest);
    }
  }

  /** Lines 454-478: the run ps and the run qs, the first nodes of the list at q, are merged behind out. */
  method MergePair(o: Order, res: Results?, list0: Node?, tail0: Node?, p0: Node?, psize: nat, q0: Node?, insize: nat,
                   ghost j: Job, ghost key0: map<Node, int>)
    returns (list: Node?, tail: Node?, q: Node?, ghost b: seq<Node>, ghost key: map<Node, int>)
    requires JobOk(j) && Merging(list0, tail0, j.out, p0, j.ps, q0, j.qs + j.rest)
    requires |j.ps| == psize && |j.qs| <= insize && (j.rest != [] ==> |j.qs| == insize)
    requires Sorted(key0, j.w.pos, j.ps) && Sorted(key0, j.w.pos, j.qs) && AllBefore(j.w.pos, j.ps, j.qs)
    requires res == j.w.res && Known(o, j.w, key0)
    modifies j.w.nodes`next, j.w.infos`data16, if res == null then {} else {res}
    ensures Known(o, j.w, key) && Extends(key0, key)
    ensures Merging(list, tail, j.out + b, null, [], q, j.rest)
    ensures Sorted(key, j.w.pos, b) && multiset(b) == multiset(j.ps) + multiset(j.qs)
  {
    ProgressStart(key0, j.w.pos, j.ps, j.qs);
    assert j.out + [] == j.out;
    var c;
    ghost var s;
    c, s := MergeLoop(o, res, Cursor(list0, tail0, p0, psize, q0, insize), j, Stage([], j.ps, j.qs, key0));
    ProgressEnd(s.key, j.w.pos, s.b, j.ps, j.qs);
    assert s.qr + j.rest == j.rest;
    list, tail, q, b, key := c.list, c.tail, c.q, s.b, s.key;
  }

  // Lines 442-448: insize places along from p, or to the end
  method Advance(p: Node, insize: nat, ghost l: seq<Node>) returns (q: Node?, psize: nat)
    requires l != [] && p == l[0] && Ends(l) && insize > 0
    ensures psize == Min(insize, |l|) && q == At(l, psize)
  {
    q, psize := p, 0;
    var i := 0;
    while i < insize
      invariant i == psize <= Min(insize, |l|) && (psize == |l| ==> i == insize) && q == At(l, psize)
    {
      psize := psize + 1;
      assert l[i].next == At(l, i + 1);
      q := q.next;
      if q == null { break; }
      i := i + 1;
    }
  }

  lemma Divide(list: Node?, tail: Node?, out: seq<Node>, p: Node?, l: seq<Node>, z: nat)
    returns (ps: seq<Node>, qs: seq<Node>, rest: seq<Node>)
    requires Merging(list, tail, out, null, [], p, l) && l != [] && z > 0
    ensures FrontRuns(l, z, ps, qs, rest) && ps != []
    ensures Merging(list, tail, out, p, ps, At(l, |ps|), qs + rest)
  {
    ps, qs, rest := CutRuns(l, z);
    assert out + [] + l == out + ps + (qs + rest);
    CutLinked(l, |ps|);
  }

  lemma CutRuns(l: seq<Node>, z: nat) returns (ps: seq<Node>, qs: seq<Node>, rest: seq<Node>)
    requires l != [] && z > 0
    ensures FrontRuns(l, z, ps, qs, rest) && ps != [] && |ps| <= |l| && ps == l[..|ps|] && qs + rest == l[|ps|..]
  {
    var m := Min(z, |l|);
    ps, qs, rest := l[..m], l[m..][..Min(z, |l| - m)], l[m..][Min(z, |l| - m)..];
    assert qs + rest == l[m..] && l == ps + (qs + rest);
  }

  lemma CutLinked(l: seq<Node>, m: nat)
    requires Ends(l) && m <= |l|
    ensures Linked(l[..m]) && Ends(l[m..])
  {
    var ps, r := l[..m], l[m..];
    forall i | 0 <= i < m - 1 ensures ps[i].next == ps[i + 1] { assert l[i].next == At(l, i + 1); }
    forall i | 0 <= i < |r| ensures r[i].next == At(r, i + 1) { assert l[m + i].next == At(l, m + i + 1); }
  }

  lemma PassMembers(all: seq<Node>, out: seq<Node>, l: seq<Node>, ps: seq<Node>, qs: seq<Node>, rest: seq<Node>,
                    nodes: set<Node>)
    requires multiset(out) + multiset(l) == multiset(all) && l == ps + (qs + rest) &&
             forall x :: x in all ==> x in nodes
    ensures (forall x :: x in out ==> x in nodes) && Members(ps, qs, nodes)
  {
    forall x | x in out || x in l ensures x in nodes {
      assert x in multiset(out) + multiset(l);
      assert x in multiset(all);
    }
    forall x | x in ps || x in qs ensures x in l { }
  }

  // One turn of the loop of lines 439-482
  method MergeNext(o: Order, res: Results?, list0: Node?, tail0: Node?, p: Node, insize: nat, ghost w: World,
                   ghost out0: seq<Node>, ghost l: seq<Node>, ghost all: seq<Node>, ghost nmerges: nat,
                   ghost key0: map<Node, int>)
    returns (list: Node?, tail: Node?, q: Node?, ghost out: seq<Node>, ghost rest: seq<Node>, ghost key: map<Node, int>)
    requires insize > 0 && Merging(list0, tail0, out0, null, [], p, l) && l != []
    requires PassProgress(key0, w.pos, all, out0, l, insize, nmerges) && (forall x :: x in all ==> x in w.nodes)
    requires Known(o, w, key0) && res == w.res
    modifies w.nodes`next, w.infos`data16, if res == null then {} else {res}
    ensures Known(o, w, key) && Extends(key0, key)
    ensures Merging(list, tail, out, null, [], q, rest) && |rest| < |l|
    ensures PassProgress(key, w.pos, all, out, rest, insize, nmerges + 1)
  {
    ghost var ps, qs;
    ps, qs, rest := Divide(list0, tail0, out0, p, l, insize);
    RunsSplit(key0, w.pos, l, insize, ps, qs, rest);
    PassMembers(all, out0, l, ps, qs, rest, w.nodes);
    var q0, psize := Advance(p, insize, l);
    ghost var b;
    list, tail, q, b, key := MergePair(o, res, list0, tail0, p, psize, q0, insize, Job(w, out0, ps, qs, rest), key0);
    out := out0 + b;
    PassStep(key0, key, w.pos, all, out0, insize, nmerges, ps, qs, rest, b);
  }

  // The loop of lines 439-482
  method MergeAll(o: Order, res: Results?, head: Node, insize: nat, ghost w: World, ghost l: seq<Node>,
                  ghost key0: map<Node, int>)
    returns (list: Node?, tail: Node?, nmerges: nat, ghost out: seq<Node>, ghost key: map<Node, int>)
    requires insize > 0 && Merging(null, null, [], null, [], head, l) && l != []
    requires PassProgress(key0, w.pos, l, [], l, insize, 0) && (forall x :: x in l ==> x in w.nodes)
    requires Known(o, w, key0) && res == w.res
    modifies w.nodes`next, w.infos`data16, if res == null then {} else {res}
    ensures Known(o, w, key) && Extends(key0, key)
    ensures Merging(list, tail, out, null, [], null, [])
    ensures PassProgress(key, w.pos, l, out, [], insize, nmerges) && nmerges > 0
  {
    var p: Node? := head;
    ghost var rest := l;
    list, tail, nmerges, out, key := null, null, 0, [], key0;
    while p != null
      invariant Merging(list, tail, out, null, [], p, rest)
      invariant PassProgress(key, w.pos, l, out, rest, insize, nmerges) && (nmerges == 0 ==> p != null)
      invariant Known(o, w, key) && Extends(key0, key)
      decreases |rest|
    {
      list, tail, p, out, rest, key := MergeNext(o, res, list, tail, p, insize, w, out, rest, l, nmerges, key);
      nmerges := nmerges + 1;
    }
  }

  // Line 484
  method Close(list: Node?, tail: Node?, ghost out: seq<Node>)
    requires Merging(list, tail, out, null, [], null, []) && out != []
    modifies (if tail == null then {} else {tail})`next
    ensures IsList(list, out)
  {
    assert out + [] + [] == out;
    tail.next := null;
  }

  /** Lines 433-484: one pass merges neighbouring runs of insize nodes. */
  method Pass(o: Order, res: Results?, head: Node, insize: nat, ghost w: World, ghost l: seq<Node>,
              ghost key0: map<Node, int>)
    returns (list: Node?, nmerges: nat, ghost out: seq<Node>, ghost key: map<Node, int>)
    requires insize > 0 && IsList(head, l) && l != []
    requires Runs(key0, w.pos, l, insize) && (forall x :: x in l ==> x in w.nodes)
    requires Known(o, w, key0) && res == w.res
    modifies w.nodes`next, w.infos`data16, if res == null then {} else {res}
    ensures Known(o, w, key) && Extends(key0, key)
    ensures IsList(list, out) && PassProgress(key, w.pos, l, out, [], insize, nmerges) && nmerges > 0
  {
    assert [] + [] + l == l;
    var tail;
    list, tail, nmerges, out, key := MergeAll(o, res, head, insize, w, l, key0);
    TailIsMember(list, tail, out, l);
    Close(list, tail, out);
  }

  lemma TailIsMember(list: Node?, tail: Node?, out: seq<Node>, l: seq<Node>)
    requires Merging(list, tail, out, null, [], null, []) && multiset(out) == multiset(l) && l != []
    ensures out != [] && tail != null && tail in l
  {
    assert |multiset(out)| == |multiset(l)|;
    assert tail in multiset(out);
  }

  // ---- the sort

  function PlaceOf(s: seq<Node>, x: Node): (i: nat)
    requires x in s
    ensures i < |s| && s[i] == x && forall j :: 0 <= j < i ==> s[j] != x
  {
    if s[0] == x then 0 else 1 + PlaceOf(s[1..], x)
  }

  function Places(s: seq<Node>): map<Node, nat> {
    map x | x in s :: PlaceOf(s, x)
  }

  /** t is s in ascending order of the values, nodes of equal value in the order they have in s. */
  ghost predicate StablySorted(o: Order, s: seq<Node>, t: seq<Node>)
    requires forall x :: x in t ==> x in s
    reads t`info, set x | x in t :: x.info
  {
    forall i, j :: 0 <= i < j < |t| ==>
      var ki, kj := KeyOf(o, t[i].info.data16, t[i].info.idx), KeyOf(o, t[j].info.data16, t[j].info.idx);
      ki < kj || (ki == kj && PlaceOf(s, t[i]) < PlaceOf(s, t[j]))
  }

  lemma StartingRuns(s: seq<Node>)
    requires Distinct(s)
    ensures Runs(map[], Places(s), s, 1)
  {
    forall i, j | 0 <= i < j < |s| ensures Before(Places(s), s[i], s[j]) { }
    Singletons(Places(s), s);
  }

  lemma SortedMeans(o: Order, s: seq<Node>, t: seq<Node>, nodes: set<Node>, infos: set<Info>, key: map<Node, int>)
    requires Sorted(key, Places(s), t) && Keyed(o, nodes, infos, key) && multiset(t) == multiset(s)
    ensures forall x :: x in t <==> x in s
    ensures StablySorted(o, s, t)
    ensures |t| >= 2 ==> forall x :: x in t ==> Settled(o, x.info.data16)
  {
    forall x ensures x in t <==> x in s { assert x in multiset(t) <==> x in multiset(s); }
    forall i, j | 0 <= i < j < |t|
      ensures var ki, kj := KeyOf(o, t[i].info.data16, t[i].info.idx), KeyOf(o, t[j].info.data16, t[j].info.idx);
              ki < kj || (ki == kj && PlaceOf(s, t[i]) < PlaceOf(s, t[j])) {
      assert Below(key, Places(s), t[i], t[j]);
    }
    if |t| >= 2 {
      forall x | x in t ensures Settled(o, x.info.data16) {
        var i :| 0 <= i < |t| && t[i] == x;
        if i == 0 { assert Below(key, Places(s), t[0], t[1]); } else { assert Below(key, Places(s), t[0], t[i]); }
      }
    }
  }

  lemma SameNodes(s: seq<Node>, t: seq<Node>)
    requires multiset(t) == multiset(s)
    ensures |t| == |s| && forall x :: x in t <==> x in s
  {
    assert |multiset(t)| == |multiset(s)|;
    forall x ensures x in t <==> x in s { assert x in multiset(t) <==> x in multiset(s); }
  }

  /** Since words d0, tally t0 and calls asked0, the items asked for have had their turns: each without a cached value
      when it was first asked for. */
  ghost predicate Accounted(res: Results, d0: map<Info, nat>, t0: Tally, asked0: seq<Info>, infos: set<Info>)
    reads res, infos`data16
  {
    && asked0 <= res.asked && ListCrc.Known(d0, res.asked[|asked0|..])
    && ListCrc.Folded(res, d0, t0, ListCrc.Turns(d0, res.asked[|asked0|..]), WordsOf(infos), res.Now())
  }

  /** core_list_mergesort: it ends, returns the same nodes sorted and stable, and settles the item of every node when
      there are at least two. */
  method Mergesort(head: Node, o: Order, res: Results?, ghost s: seq<Node>, ghost infos: set<Info>)
    returns (list: Node?, ghost t: seq<Node>)
    requires IsList(head, s) && s != [] && (o.ByValue? <==> res != null)
    requires OwnInfos((set x | x in s), infos) && forall f :: f in infos ==> Word(f.data16)
    modifies s`next, infos`data16, if res == null then {} else {res}
    ensures IsList(list, t) && multiset(t) == multiset(s)
    ensures (forall x :: x in t <==> x in s) && StablySorted(o, s, t)
    ensures |s| >= 2 ==> forall x :: x in t ==> Settled(o, x.info.data16)
    ensures forall f :: f in infos ==>
              Word(f.data16) && (f.data16 == old(f.data16) || Settles(o, old(f.data16), f.data16))
    ensures o.ByValue? ==> Accounted(res, old(WordsOf(infos)), old(res.Now()), old(res.asked), infos)
  {
    ghost var w := World((set x | x in s), infos, Places(s), res, WordsOf(infos),
                         if res == null then Tally(0, 0, 0) else res.Now(), if res == null then [] else res.asked);
    AtStart(o, w);
    list, t := SortFrom(head, o, res, s, w);
  }

  method SortFrom(head: Node, o: Order, res: Results?, ghost s: seq<Node>, ghost w: World)
    returns (list: Node?, ghost t: seq<Node>)
    requires IsList(head, s) && s != [] && res == w.res && w.pos == Places(s) && w.nodes == (set x | x in s)
    requires Known(o, w, map[]) && forall f :: f in w.d0 ==> Word(w.d0[f])
    modifies s`next, w.infos`data16, if res == null then {} else {res}
    ensures IsList(list, t) && multiset(t) == multiset(s)
    ensures (forall x :: x in t <==> x in s) && StablySorted(o, s, t)
    ensures |s| >= 2 ==> forall x :: x in t ==> Settled(o, x.info.data16)
    ensures forall f :: f in w.infos ==>
              f in w.d0 && Word(f.data16) && (f.data16 == w.d0[f] || Settles(o, w.d0[f], f.data16))
    ensures o.ByValue? ==> res != null && Accounted(res, w.d0, w.t0, w.asked0, w.infos)
  {
    ghost var key;
    list, t, key := SortLoop(head, o, res, s, w);
    SameNodes(s, t);
    SortedMeans(o, s, t, w.nodes, w.infos, key);
    Concluded(o, w, res, key);
  }

  lemma Concluded(o: Order, w: World, res: Results?, key: map<Node, int>)
    requires res == w.res && Known(o, w, key) && forall f :: f in w.d0 ==> Word(w.d0[f])
    ensures forall f :: f in w.infos ==>
              f in w.d0 && Word(f.data16) && (f.data16 == w.d0[f] || Settles(o, w.d0[f], f.data16))
    ensures o.ByValue? ==> res != null && Accounted(res, w.d0, w.t0, w.asked0, w.infos)
  {
    forall f | f in w.infos
      ensures f in w.d0 && Word(f.data16) && (f.data16 == w.d0[f] || Settles(o, w.d0[f], f.data16)) {
      assert SettledItem(o, w.d0, f, f.data16);
    }
    if res != null { Account(w, res); }
  }

  lemma AtStart(o: Order, w: World)
    requires (o.ByValue? <==> w.res != null) && OwnInfos(w.nodes, w.infos)
    requires forall f :: f in w.infos ==> Word(f.data16)
    requires w.d0 == WordsOf(w.infos) && (w.res != null ==> w.t0 == w.res.Now() && w.asked0 == w.res.asked)
    ensures Known(o, w, map[])
  {
  }

  lemma Account(w: World, res: Results)
    requires res == w.res && Counted(ByValue, w) && forall f :: f in w.d0 ==> Word(w.d0[f])
    ensures Accounted(res, w.d0, w.t0, w.asked0, w.infos)
  {
    ListCrc.ReplayIsFold(res, w.d0, w.t0, res.asked[|w.asked0|..]);
  }

  // Lines 430-491
  method SortLoop(head: Node, o: Order, res: Results?, ghost s: seq<Node>, ghost w: World)
    returns (list: Node?, ghost t: seq<Node>, ghost key: map<Node, int>)
    requires IsList(head, s) && s != [] && res == w.res && w.pos == Places(s) && w.nodes == (set x | x in s)
    requires Known(o, w, map[])
    modifies s`next, w.infos`data16, if res == null then {} else {res}
    ensures IsList(list, t) && multiset(t) == multiset(s) && Known(o, w, key) && Sorted(key, w.pos, t)
  {
    key := map[];
    var insize, nmerges := 1, 2;
    list, t := head, s;
    StartingRuns(s);
    while true
      invariant insize > 0 && IsList(list, t) && t != [] && multiset(t) == multiset(s)
      invariant Runs(key, w.pos, t, insize) && (forall x :: x in t ==> x in w.nodes)
      invariant Known(o, w, key)
      decreases |s| - insize
    {
      ghost var l := t;
      SameNodes(s, l);
      list, nmerges, t, key := Pass(o, res, list, insize, w, l, key);
      SameNodes(s, t);
      if nmerges <= 1 { break; }
      insize := insize * 2;
    }
  }
}
