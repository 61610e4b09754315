/**
 * A list built by appending one block per input item, in input order: the
 * shape of both the draw-command list and the printed report.
 */
module Blocks {

  /** The blocks laid end to end. */
  function Concat<T>(bs: seq<seq<T>>): seq<T> {
    if bs == [] then [] else Concat(bs[..|bs| - 1]) + bs[|bs| - 1]
  }

  /** One more block extends the list by exactly that block. */
  lemma ConcatSnoc<T>(bs: seq<seq<T>>, b: seq<T>)
    ensures Concat(bs + [b]) == Concat(bs) + b
  {
    assert (bs + [b])[..|bs|] == bs;
  }

  /** Blocks of one size give a list of that size per block. */
  lemma {:induction false} ConcatUniformLength<T>(bs: seq<seq<T>>, size: nat)
    requires forall i :: 0 <= i < |bs| ==> |bs[i]| == size
    ensures |Concat(bs)| == size * |bs|
  {
    if bs != [] {
      var n := |bs| - 1;
      assert forall i :: 0 <= i < n ==> bs[..n][i] == bs[i];
      ConcatUniformLength(bs[..n], size);
      assert size * n + size == size * (n + 1);
    }
  }

  /** Block k starts right after blocks 0 to k - 1. */
  lemma {:induction false} ConcatAt<T>(bs: seq<seq<T>>, k: nat, j: nat)
    requires k < |bs| && j < |bs[k]|
    ensures |Concat(bs[..k])| + j < |Concat(bs)|
    ensures Concat(bs)[|Concat(bs[..k])| + j] == bs[k][j]
  {
    var n := |bs| - 1;
    var front := Concat(bs[..n]);
    assert Concat(bs) == front + bs[n];
    if k < n {
      assert bs[..n][..k] == bs[..k];
      ConcatAt(bs[..n], k, j);
    } else {
      assert (front + bs[n])[|front| + j] == bs[n][j];
    }
  }

  /** Every item of the list comes from one of the blocks. */
  lemma {:induction false} ConcatMember<T>(bs: seq<seq<T>>, x: T)
    requires x in Concat(bs)
    ensures exists i :: 0 <= i < |bs| && x in bs[i]
  {
    var n := |bs| - 1;
    if x in Concat(bs[..n]) {
      ConcatMember(bs[..n], x);
      var i :| 0 <= i < n && x in bs[..n][i];
      assert x in bs[i];
    } else {
      assert x in bs[n];
    }
  }
}
