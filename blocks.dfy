/**
 * Concatenation of equally sized blocks: the layout shared by every buffer the
 * program builds by appending one block per item (three indices per triangle,
 * one run of vertices or indices per particle, three floats per vertex).
 */
module Blocks {

  /** The blocks of `bs`, appended in order. */
  function Concat<T>(bs: seq<seq<T>>): seq<T>
  {
    if |bs| == 0 then [] else Concat(bs[..|bs| - 1]) + bs[|bs| - 1]
  }

  /** Every block has exactly `w` elements. */
  predicate Uniform<T>(bs: seq<seq<T>>, w: nat)
  {
    forall k :: 0 <= k < |bs| ==> |bs[k]| == w
  }

  lemma MulStep(a: nat, w: nat)
    ensures (a + 1) * w == a * w + w
  {
  }

  lemma {:induction false} MulMonotone(a: nat, b: nat, w: nat)
    requires a <= b
    ensures a * w <= b * w
  {
    if a < b {
      MulMonotone(a, b - 1, w);
      MulStep(b - 1, w);
    }
  }

  /** Block `k` of width `w`, where `k < n`, ends no later than `n * w`. */
  lemma BlockEndBelow(k: nat, n: nat, w: nat)
    requires k < n
    ensures 0 <= k * w && k * w + w <= n * w
  {
    MulStep(k, w);
    MulMonotone(k + 1, n, w);
  }

  /** Appending one more block to a prefix extends the concatenation by that block. */
  lemma ConcatSnoc<T>(bs: seq<seq<T>>, p: nat)
    requires p < |bs|
    ensures Concat(bs[..p + 1]) == Concat(bs[..p]) + bs[p]
  {
    assert bs[..p + 1][..p] == bs[..p];
  }

  lemma {:induction false} ConcatLength<T>(bs: seq<seq<T>>, w: nat)
    requires Uniform(bs, w)
    ensures |Concat(bs)| == |bs| * w
  {
    if |bs| > 0 {
      ConcatLength(bs[..|bs| - 1], w);
      MulStep(|bs| - 1, w);
    }
  }

  /** Element `j` of block `k` sits at position `k * w + j` of the concatenation. */
  lemma {:induction false} ConcatAt<T>(bs: seq<seq<T>>, w: nat, k: nat, j: nat)
    requires Uniform(bs, w)
    requires k < |bs| && j < w
    ensures |Concat(bs)| == |bs| * w
    ensures k * w + j < |Concat(bs)| && Concat(bs)[k * w + j] == bs[k][j]
  {
    ConcatLength(bs, w);
    var n := |bs| - 1;
    var init := bs[..n];
    ConcatLength(init, w);
    if k < n {
      ConcatAt(init, w, k, j);
    } else {
      assert Concat(bs) == Concat(init) + bs[n];
    }
  }

  /** Every element of the concatenation comes from one of the blocks. */
  lemma {:induction false} ConcatMember<T>(bs: seq<seq<T>>, e: T)
    requires e in Concat(bs)
    ensures exists k :: 0 <= k < |bs| && e in bs[k]
  {
    var n := |bs| - 1;
    if e in Concat(bs[..n]) {
      ConcatMember(bs[..n], e);
      var k :| 0 <= k < n && e in bs[..n][k];
      assert e in bs[k];
    } else {
      assert e in bs[n];
    }
  }
}
