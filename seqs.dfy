/** Subsequences given by an index map: the shared vocabulary for filters
    that keep the order of their input; and a regrouping fact about
    concatenation. */
module Seqs {

  /** `idx` is an increasing list of positions of `s`, and `r` is `s` read
      at those positions. */
  ghost predicate PicksAt<T>(r: seq<T>, s: seq<T>, idx: seq<nat>) {
    && |idx| == |r|
    && (forall k :: 0 <= k < |idx| ==> idx[k] < |s| && s[idx[k]] == r[k])
    && (forall k, l :: 0 <= k < l < |idx| ==> idx[k] < idx[l])
  }

  /** Every position moved one place to the right. */
  function Shift(idx: seq<nat>): (r: seq<nat>)
    ensures |r| == |idx| && forall k :: 0 <= k < |idx| ==> r[k] == idx[k] + 1
    ensures forall i :: i in r <==> i > 0 && i - 1 in idx
  {
    if idx == [] then []
    else
      var rest := Shift(idx[1..]);
      assert forall i :: i in idx <==> i == idx[0] || i in idx[1..];
      [idx[0] + 1] + rest
  }

  /** Skipping the head of `s`: the positions move one place. */
  lemma PicksSkip<T>(r: seq<T>, x: T, s: seq<T>, idx: seq<nat>)
    requires PicksAt(r, s, idx)
    ensures PicksAt(r, [x] + s, Shift(idx))
  {
    forall k | 0 <= k < |idx| ensures ([x] + s)[Shift(idx)[k]] == r[k] {
      assert ([x] + s)[idx[k] + 1] == s[idx[k]];
    }
  }

  /** Keeping the head of `s`: position 0 comes first. */
  lemma PicksTake<T>(r: seq<T>, x: T, s: seq<T>, idx: seq<nat>)
    requires PicksAt(r, s, idx)
    ensures PicksAt([x] + r, [x] + s, [0] + Shift(idx))
  {
    var sh := Shift(idx);
    var idx' := [0] + sh;
    assert forall k :: 0 < k < |idx'| ==> idx'[k] == sh[k - 1];
    forall k | 0 <= k < |idx'| ensures idx'[k] < |[x] + s| && ([x] + s)[idx'[k]] == ([x] + r)[k] {
      if k > 0 {
        assert ([x] + s)[idx[k - 1] + 1] == s[idx[k - 1]];
        assert ([x] + r)[k] == r[k - 1];
      }
    }
    forall k, l | 0 <= k < l < |idx'| ensures idx'[k] < idx'[l] {
      if k > 0 {
        assert idx[k - 1] < idx[l - 1];
      }
    }
  }

  /** Concatenation regrouped to the right. */
  lemma Assoc<T>(x: seq<T>, y: seq<T>, z: seq<T>)
    ensures x + (y + z) == x + y + z
  {
  }
}
