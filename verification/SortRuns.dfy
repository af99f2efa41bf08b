/**
 Runs of list nodes in a stable order: the pure part of the bottom-up merge sort.  key holds the value of every node
 that has taken part in a comparison, pos the place of every node in the list to be sorted.
 */
module SortRuns {
  import opened Arithmetic

  predicate Before<T>(pos: map<T, nat>, x: T, y: T) {
    x in pos && y in pos && pos[x] < pos[y]
  }

  /** The strict order of the sort: by value, and by old place among equal values. */
  predicate Below<T>(key: map<T, int>, pos: map<T, nat>, x: T, y: T) {
    x in key && y in key && (key[x] < key[y] || (key[x] == key[y] && Before(pos, x, y)))
  }

  predicate Sorted<T>(key: map<T, int>, pos: map<T, nat>, run: seq<T>) {
    forall i, j :: 0 <= i < j < |run| ==> Below(key, pos, run[i], run[j])
  }

  predicate AllBefore<T>(pos: map<T, nat>, a: seq<T>, b: seq<T>) {
    forall x, y :: x in a && y in b ==> Before(pos, x, y)
  }

  predicate Extends<T>(k: map<T, int>, k': map<T, int>) {
    forall x :: x in k ==> x in k' && k'[x] == k[x]
  }

  // ---- one merge step: b is the merged part, x the next element of one run, rest what the other run still has

  lemma AppendLowest<T>(key: map<T, int>, pos: map<T, nat>, b: seq<T>, x: T, rest: seq<T>)
    requires Sorted(key, pos, b + [x]) && Sorted(key, pos, b + rest)
    requires rest != [] ==> Below(key, pos, x, rest[0])
    ensures Sorted(key, pos, b + [x] + rest)
  {
    var l, o, r := b + [x], b + rest, b + [x] + rest;
    forall i, j | 0 <= i < j < |r| ensures Below(key, pos, r[i], r[j]) {
      if j < |l| { assert r[i] == l[i] && r[j] == l[j]; }
      else if i < |b| { assert r[i] == o[i] && r[j] == o[j - 1]; }
      else {
        assert rest[0] == o[|b|] && r[j] == o[j - 1];
        assert j - 1 > |b| ==> Below(key, pos, o[|b|], o[j - 1]);
        assert i > |b| ==> r[i] == o[i - 1];
      }
    }
  }

  lemma SortedPrefix<T>(key: map<T, int>, pos: map<T, nat>, b: seq<T>, rest: seq<T>)
    requires Sorted(key, pos, b + rest)
    ensures Sorted(key, pos, b)
  {
    forall i, j | 0 <= i < j < |b| ensures Below(key, pos, b[i], b[j]) {
      assert b[i] == (b + rest)[i] && b[j] == (b + rest)[j];
    }
  }

  /** Moving the first node of run r behind b keeps both runs sorted when it is below what the other run o still has. */
  lemma MergeStep<T>(key: map<T, int>, pos: map<T, nat>, b: seq<T>, r: seq<T>, o: seq<T>)
    requires r != [] && Sorted(key, pos, b + r) && Sorted(key, pos, b + o)
    requires o != [] ==> Below(key, pos, r[0], o[0])
    ensures Sorted(key, pos, b + [r[0]] + r[1..]) && Sorted(key, pos, b + [r[0]] + o)
  {
    assert b + r == b + [r[0]] + r[1..];
    SortedPrefix(key, pos, b + [r[0]], r[1..]);
    AppendLowest(key, pos, b, r[0], o);
  }

  // ---- lists of runs of z nodes, the last one possibly shorter

  ghost predicate Runs<T>(key: map<T, int>, pos: map<T, nat>, l: seq<T>, z: nat)
    requires z > 0
    decreases |l|
  {
    if |l| <= z then Sorted(key, pos, l)
    else Sorted(key, pos, l[..z]) && AllBefore(pos, l[..z], l[z..]) && Runs(key, pos, l[z..], z)
  }

  // Runs of exactly z nodes
  ghost predicate Full<T>(key: map<T, int>, pos: map<T, nat>, l: seq<T>, z: nat)
    requires z > 0
    decreases |l|
  {
    l == [] || (|l| >= z && Sorted(key, pos, l[..z]) && AllBefore(pos, l[..z], l[z..]) && Full(key, pos, l[z..], z))
  }

  lemma {:induction false} FullThen<T>(key: map<T, int>, pos: map<T, nat>, l: seq<T>, b: seq<T>, z: nat)
    requires z > 0 && Full(key, pos, l, z) && Sorted(key, pos, b) && |b| <= z && AllBefore(pos, l, b)
    ensures Runs(key, pos, l + b, z) && (|b| == z ==> Full(key, pos, l + b, z))
    decreases |l|
  {
    var m := l + b;
    if l == [] {
      assert m == b;
      assert |b| == z ==> b[..z] == b && b[z..] == [];
    } else {
      assert m[..z] == l[..z] && m[z..] == l[z..] + b;
      FullThen(key, pos, l[z..], b, z);
      if |l| == z && b == [] { assert m == l[..z]; }
    }
  }

  lemma {:induction false} RunsExtend<T>(k: map<T, int>, k': map<T, int>, pos: map<T, nat>, l: seq<T>, z: nat)
    requires z > 0 && Extends(k, k')
    ensures Runs(k, pos, l, z) ==> Runs(k', pos, l, z)
    ensures Full(k, pos, l, z) ==> Full(k', pos, l, z)
    decreases |l|
  {
    if |l| >= z && l != [] {
      RunsExtend(k, k', pos, l[z..], z);
    }
  }

  // The two runs at the front of l, and the rest
  ghost predicate FrontRuns<T>(l: seq<T>, z: nat, ps: seq<T>, qs: seq<T>, rest: seq<T>) {
    && l == ps + (qs + rest) && |ps| == Min(z, |l|) && |qs| == Min(z, |l| - |ps|)
  }

  lemma RunsSplit<T>(key: map<T, int>, pos: map<T, nat>, l: seq<T>, z: nat, ps: seq<T>, qs: seq<T>, rest: seq<T>)
    requires z > 0 && Runs(key, pos, l, z) && FrontRuns(l, z, ps, qs, rest)
    ensures Sorted(key, pos, ps) && Sorted(key, pos, qs) && Runs(key, pos, rest, z)
    ensures AllBefore(pos, ps, qs) && AllBefore(pos, ps + qs, rest)
    ensures rest != [] ==> |ps| == |qs| == z
  {
    var r := qs + rest;
    assert l[..|ps|] == ps && l[|ps|..] == r && r[..|qs|] == qs && r[|qs|..] == rest;
    if |l| <= z { assert ps == l && qs == [] && rest == []; }
    else if |r| <= z { assert qs == r && rest == []; }
  }

  /** A pass of the sort so far: out has runs of 2z nodes, rest still has runs of z nodes, and l was the input. */
  ghost predicate PassProgress<T>(key: map<T, int>, pos: map<T, nat>, l: seq<T>, out: seq<T>, rest: seq<T>, z: nat,
                                  nmerges: nat)
    requires z > 0
  {
    && Runs(key, pos, out, 2 * z) && (rest != [] ==> Full(key, pos, out, 2 * z)) && Runs(key, pos, rest, z)
    && AllBefore(pos, out, rest) && multiset(out) + multiset(rest) == multiset(l)
    && (nmerges == 0 ==> out == []) && (nmerges == 1 ==> Sorted(key, pos, out)) && (nmerges >= 1 ==> out != [])
    && (nmerges >= 2 ==> |l| > 2 * z)
  }

  lemma PassStep<T>(k: map<T, int>, key: map<T, int>, pos: map<T, nat>, l: seq<T>, out: seq<T>, z: nat, nmerges: nat,
                    ps: seq<T>, qs: seq<T>, rest: seq<T>, b: seq<T>)
    requires z > 0 && PassProgress(k, pos, l, out, ps + (qs + rest), z, nmerges) && ps != []
    requires FrontRuns(ps + (qs + rest), z, ps, qs, rest) && Extends(k, key)
    requires Sorted(key, pos, b) && multiset(b) == multiset(ps) + multiset(qs)
    ensures PassProgress(key, pos, l, out + b, rest, z, nmerges + 1)
  {
    RunsSplit(k, pos, ps + (qs + rest), z, ps, qs, rest);
    RunsExtend(k, key, pos, out, 2 * z);
    RunsExtend(k, key, pos, rest, z);
    forall x | x in b ensures x in ps + qs { assert x in multiset(b); }
    assert |multiset(b)| == |multiset(ps)| + |multiset(qs)|;
    FullThen(key, pos, out, b, 2 * z);
    if nmerges == 0 { assert out + b == b; }
    else { assert |multiset(l)| == |multiset(out)| + |multiset(ps + (qs + rest))|; }
  }

  /** The runs of one node that a sort starts from. */
  lemma {:induction false} Singletons<T>(pos: map<T, nat>, l: seq<T>)
    requires forall i, j :: 0 <= i < j < |l| ==> Before(pos, l[i], l[j])
    ensures Runs(map[], pos, l, 1)
  {
    if |l| > 1 {
      forall i, j | 0 <= i < j < |l[1..]| ensures Before(pos, l[1..][i], l[1..][j]) {
        assert Before(pos, l[i + 1], l[j + 1]);
      }
      Singletons(pos, l[1..]);
      forall x, y | x in l[..1] && y in l[1..] ensures Before(pos, x, y) {
        var j :| 0 <= j < |l[1..]| && l[1..][j] == y;
        assert Before(pos, l[0], l[j + 1]);
      }
    }
  }
}
