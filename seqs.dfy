/** Sequence operations shared by several pages: `Array.prototype.filter` and the
    first-occurrence de-duplication that `new Set(...)` and a has/set `Map` perform. */
module Seqs {

  /** `xs.filter(keep)`. */
  function Filter<T>(xs: seq<T>, keep: T -> bool): (r: seq<T>)
    ensures |r| <= |xs|
    ensures forall k | 0 <= k < |r| :: r[k] in xs && keep(r[k])
    ensures forall k | 0 <= k < |xs| :: keep(xs[k]) ==> xs[k] in r
  {
    if xs == [] then [] else (if keep(xs[0]) then [xs[0]] else []) + Filter(xs[1..], keep)
  }

  /** Filtering distributes over concatenation: kept elements stay in their original
      relative order. */
  lemma {:induction false} FilterAppend<T>(a: seq<T>, b: seq<T>, keep: T -> bool)
    ensures Filter(a + b, keep) == Filter(a, keep) + Filter(b, keep)
  {
    if a != [] {
      assert (a + b)[0] == a[0];
      assert (a + b)[1..] == a[1..] + b;
      FilterAppend(a[1..], b, keep);
    } else {
      assert a + b == b;
    }
  }

  /** A filter that rejects some element is shorter than its input. */
  lemma {:induction false} FilterRejectShrinks<T>(xs: seq<T>, keep: T -> bool, k: nat)
    requires k < |xs| && !keep(xs[k])
    ensures |Filter(xs, keep)| < |xs|
  {
    if k > 0 {
      FilterRejectShrinks(xs[1..], keep, k - 1);
    }
  }

  /** A filter whose predicate holds everywhere keeps the whole sequence. */
  lemma {:induction false} FilterKeepsAll<T>(xs: seq<T>, keep: T -> bool)
    requires forall k | 0 <= k < |xs| :: keep(xs[k])
    ensures Filter(xs, keep) == xs
  {
    if xs != [] {
      assert keep(xs[0]);
      FilterKeepsAll(xs[1..], keep);
      assert xs == [xs[0]] + xs[1..];
    }
  }

  /** A filter whose predicate fails everywhere keeps nothing. */
  lemma {:induction false} FilterRejectsAll<T>(xs: seq<T>, keep: T -> bool)
    requires forall k | 0 <= k < |xs| :: !keep(xs[k])
    ensures Filter(xs, keep) == []
  {
    if xs != [] {
      assert !keep(xs[0]);
      FilterRejectsAll(xs[1..], keep);
    }
  }

  /** `r` sits inside `xs` at the increasing positions `idx`. */
  ghost predicate EmbedsAt<T>(r: seq<T>, xs: seq<T>, idx: seq<nat>) {
    && |idx| == |r|
    && (forall m | 0 <= m < |r| :: idx[m] < |xs| && r[m] == xs[idx[m]])
    && (forall m, n | 0 <= m < n < |idx| :: idx[m] < idx[n])
  }

  /** Positions into `xs[1..]` shifted to positions into `xs`. */
  lemma EmbedsShift<T>(r: seq<T>, xs: seq<T>, idx0: seq<nat>) returns (idx: seq<nat>)
    requires xs != [] && EmbedsAt(r, xs[1..], idx0)
    ensures EmbedsAt(r, xs, idx) && forall m | 0 <= m < |idx| :: idx[m] > 0
  {
    idx := seq(|idx0|, m requires 0 <= m < |idx0| => idx0[m] + 1);
    forall m | 0 <= m < |r| ensures idx[m] < |xs| && r[m] == xs[idx[m]] {
      assert r[m] == xs[1..][idx0[m]];
    }
  }

  /** Putting the first element in front of an embedding into the tail. */
  lemma EmbedsCons<T>(r: seq<T>, xs: seq<T>, idx0: seq<nat>)
    requires xs != [] && EmbedsAt(r, xs, idx0) && forall m | 0 <= m < |idx0| :: idx0[m] > 0
    ensures EmbedsAt([xs[0]] + r, xs, [0] + idx0)
  {
    var r1, idx := [xs[0]] + r, [0] + idx0;
    forall m | 0 <= m < |r1| ensures idx[m] < |xs| && r1[m] == xs[idx[m]] {
      if m > 0 { assert r1[m] == r[m - 1] && idx[m] == idx0[m - 1]; }
    }
    forall m, n | 0 <= m < n < |idx| ensures idx[m] < idx[n] {
      if m > 0 { assert idx[m] == idx0[m - 1]; }
      assert idx[n] == idx0[n - 1];
    }
  }

  /** The kept elements are a subsequence of the input: `idx` gives their positions,
      which increase. */
  lemma {:induction false} FilterOrder<T>(xs: seq<T>, keep: T -> bool) returns (idx: seq<nat>)
    ensures EmbedsAt(Filter(xs, keep), xs, idx)
  {
    if xs == [] {
      idx := [];
    } else {
      var tail := Filter(xs[1..], keep);
      var idx0 := FilterOrder(xs[1..], keep);
      var shifted := EmbedsShift(tail, xs, idx0);
      if keep(xs[0]) {
        EmbedsCons(tail, xs, shifted);
        idx := [0] + shifted;
        assert Filter(xs, keep) == [xs[0]] + tail;
      } else {
        idx := shifted;
        assert Filter(xs, keep) == tail;
      }
    }
  }

  /** Some element of `xs` has key `k`. */
  predicate HasKey<T, K(==)>(xs: seq<T>, key: T -> K, k: K) {
    exists i | 0 <= i < |xs| :: key(xs[i]) == k
  }

  /** No two elements of `xs` share a key. */
  ghost predicate KeysDistinct<T, K>(xs: seq<T>, key: T -> K) {
    forall i, j | 0 <= i < j < |xs| :: key(xs[i]) != key(xs[j])
  }

  /** Keeps the first element seen for each key, in the order the keys first appear
      (the order in which a `Map` or `Set` is filled by a scan from left to right). */
  function DedupBy<T, K(==)>(xs: seq<T>, key: T -> K): (r: seq<T>)
    ensures |r| <= |xs|
  {
    if xs == [] then []
    else
      var r := DedupBy(xs[..|xs| - 1], key);
      var x := xs[|xs| - 1];
      if HasKey(r, key, key(x)) then r else r + [x]
  }

  /** Scanning one more element: it is kept exactly when its key is new. */
  lemma DedupSnoc<T, K>(xs: seq<T>, x: T, key: T -> K)
    ensures DedupBy(xs + [x], key)
            == if HasKey(DedupBy(xs, key), key, key(x)) then DedupBy(xs, key) else DedupBy(xs, key) + [x]
  {
    assert (xs + [x])[..|xs|] == xs;
  }

  /** Appending an element adds exactly its key. */
  lemma HasKeySnoc<T, K>(xs: seq<T>, x: T, key: T -> K, k: K)
    ensures HasKey(xs + [x], key, k) <==> HasKey(xs, key, k) || key(x) == k
  {
    if HasKey(xs + [x], key, k) && !(key(x) == k) {
      var i :| 0 <= i < |xs| + 1 && key((xs + [x])[i]) == k;
      assert xs[i] == (xs + [x])[i];
    }
    if HasKey(xs, key, k) {
      var i :| 0 <= i < |xs| && key(xs[i]) == k;
      assert (xs + [x])[i] == xs[i];
    }
    if key(x) == k {
      assert (xs + [x])[|xs|] == x;
    }
  }

  /** No two kept elements share a key. */
  lemma {:induction false} DedupKeysDistinct<T, K>(xs: seq<T>, key: T -> K)
    ensures KeysDistinct(DedupBy(xs, key), key)
  {
    if xs != [] {
      var init := xs[..|xs| - 1];
      var x := xs[|xs| - 1];
      var r0 := DedupBy(init, key);
      DedupKeysDistinct(init, key);
      if !HasKey(r0, key, key(x)) {
        var r := r0 + [x];
        forall i, j | 0 <= i < j < |r| ensures key(r[i]) != key(r[j]) {
          if j == |r| - 1 {
            assert r[i] == r0[i] && r[j] == x;
          } else {
            assert r[i] == r0[i] && r[j] == r0[j];
          }
        }
      }
    }
  }

  /** Every key of the input is the key of some kept element. */
  lemma {:induction false} DedupCoversKeys<T, K>(xs: seq<T>, key: T -> K)
    ensures forall i | 0 <= i < |xs| :: HasKey(DedupBy(xs, key), key, key(xs[i]))
  {
    if xs != [] {
      var init := xs[..|xs| - 1];
      var r0 := DedupBy(init, key);
      var r := DedupBy(xs, key);
      DedupCoversKeys(init, key);
      forall i | 0 <= i < |xs| ensures HasKey(r, key, key(xs[i])) {
        if i < |xs| - 1 {
          assert xs[i] == init[i];
          var j :| 0 <= j < |r0| && key(r0[j]) == key(init[i]);
          assert r[j] == r0[j];
        } else if !HasKey(r0, key, key(xs[i])) {
          assert r[|r| - 1] == xs[i];
        }
      }
    }
  }

  /** `r` sits inside `xs` at the increasing positions `idx`, each of which is the
      first position of its key. */
  ghost predicate FirstOccurrencesAt<T, K>(r: seq<T>, xs: seq<T>, key: T -> K, idx: seq<nat>) {
    && EmbedsAt(r, xs, idx)
    && (forall m | 0 <= m < |r| :: forall j | 0 <= j < idx[m] :: key(xs[j]) != key(r[m]))
  }

  /** Positions into a prefix stay valid once one more element is scanned. */
  lemma FirstOccurrencesExtend<T, K>(r: seq<T>, init: seq<T>, x: T, key: T -> K, idx: seq<nat>)
    requires FirstOccurrencesAt(r, init, key, idx)
    ensures FirstOccurrencesAt(r, init + [x], key, idx)
  {
    var xs := init + [x];
    forall m | 0 <= m < |r| ensures idx[m] < |xs| && r[m] == xs[idx[m]] {
      assert xs[idx[m]] == init[idx[m]];
    }
    forall m, j | 0 <= m < |r| && 0 <= j < idx[m] ensures key(xs[j]) != key(r[m]) {
      assert xs[j] == init[j];
    }
  }

  /** An element whose key no earlier element has is a first occurrence. */
  lemma FirstOccurrencesSnoc<T, K>(r: seq<T>, init: seq<T>, x: T, key: T -> K, idx: seq<nat>)
    requires FirstOccurrencesAt(r, init + [x], key, idx)
    requires forall m | 0 <= m < |idx| :: idx[m] < |init|
    requires forall j | 0 <= j < |init| :: key(init[j]) != key(x)
    ensures FirstOccurrencesAt(r + [x], init + [x], key, idx + [|init|])
  {
    var xs, r1, idx1 := init + [x], r + [x], idx + [|init|];
    forall m | 0 <= m < |r1| ensures idx1[m] < |xs| && r1[m] == xs[idx1[m]] {
      if m < |r| { assert r1[m] == r[m] && idx1[m] == idx[m]; }
    }
    forall m, j | 0 <= m < |r1| && 0 <= j < idx1[m] ensures key(xs[j]) != key(r1[m]) {
      if m < |r| {
        assert r1[m] == r[m] && idx1[m] == idx[m];
      } else {
        assert xs[j] == init[j];
      }
    }
    forall m, n | 0 <= m < n < |idx1| ensures idx1[m] < idx1[n] {
      if n < |idx| { assert idx1[m] == idx[m] && idx1[n] == idx[n]; }
      else { assert idx1[m] == idx[m]; }
    }
  }

  /** Each kept element is the first occurrence of its key in the input, and the kept
      elements appear in the order of those first occurrences: `idx` gives their positions. */
  lemma {:induction false} DedupFirstOccurrences<T, K>(xs: seq<T>, key: T -> K) returns (idx: seq<nat>)
    ensures FirstOccurrencesAt(DedupBy(xs, key), xs, key, idx)
  {
    if xs == [] {
      idx := [];
    } else {
      var init := xs[..|xs| - 1];
      var x := xs[|xs| - 1];
      assert xs == init + [x];
      var r0 := DedupBy(init, key);
      var idx0 := DedupFirstOccurrences(init, key);
      FirstOccurrencesExtend(r0, init, x, key, idx0);
      if HasKey(r0, key, key(x)) {
        idx := idx0;
      } else {
        DedupCoversKeys(init, key);
        assert forall j | 0 <= j < |init| :: key(init[j]) != key(x);
        FirstOccurrencesSnoc(r0, init, x, key, idx0);
        idx := idx0 + [|init|];
      }
    }
  }

  /** A rejected element after a run of kept elements is dropped. */
  lemma FilterDropsLast<T>(a: seq<T>, x: T, keep: T -> bool)
    requires forall m | 0 <= m < |a| :: keep(a[m])
    requires !keep(x)
    ensures Filter(a + [x], keep) == a
  {
    FilterAppend(a, [x], keep);
    FilterRejectsAll([x], keep);
    FilterKeepsAll(a, keep);
    assert Filter(a + [x], keep) == a + [];
  }

  /** Dropping one rejected element between two runs of kept elements. */
  lemma FilterDropsOne<T>(a: seq<T>, x: T, b: seq<T>, keep: T -> bool)
    requires forall m | 0 <= m < |a| :: keep(a[m])
    requires !keep(x)
    requires forall m | 0 <= m < |b| :: keep(b[m])
    ensures Filter(a + [x] + b, keep) == a + b
  {
    FilterDropsLast(a, x, keep);
    FilterAppend(a + [x], b, keep);
    FilterKeepsAll(b, keep);
  }



  /** Filtering keeps keys distinct. */
  lemma {:induction false} FilterKeepsKeysDistinct<T, K>(xs: seq<T>, keep: T -> bool, key: T -> K)
    requires KeysDistinct(xs, key)
    ensures KeysDistinct(Filter(xs, keep), key)
  {
    if xs != [] {
      var tail := xs[1..];
      assert KeysDistinct(tail, key) by {
        forall i, j | 0 <= i < j < |tail| ensures key(tail[i]) != key(tail[j]) {
          assert tail[i] == xs[i + 1] && tail[j] == xs[j + 1];
        }
      }
      FilterKeepsKeysDistinct(tail, keep, key);
      var ft := Filter(tail, keep);
      if keep(xs[0]) {
        var r := [xs[0]] + ft;
        forall i, j | 0 <= i < j < |r| ensures key(r[i]) != key(r[j]) {
          if i == 0 {
            assert r[j] in tail;
            var m :| 0 <= m < |tail| && tail[m] == r[j];
            assert xs[m + 1] == r[j];
          } else {
            assert r[i] == ft[i - 1] && r[j] == ft[j - 1];
          }
        }
      }
    }
  }
}
