/**
  Sequence helpers shared by the network model: flattening a list of lists
  (the `params.extend(...)` loops of nn.py), runs of consecutive heap slots,
  and sums of counts.
 */
module Seqs {

  /** The flattening of `xss`, built the way an `extend` loop builds it:
      the last piece is appended to the flattening of the others. */
  function Concat<T>(xss: seq<seq<T>>): seq<T>
  {
    if |xss| == 0 then [] else Concat(xss[..|xss| - 1]) + xss[|xss| - 1]
  }

  /** Extending a flattened list with one more piece. */
  lemma ConcatSnoc<T>(xss: seq<seq<T>>, xs: seq<T>)
    ensures Concat(xss + [xs]) == Concat(xss) + xs
  {
    assert (xss + [xs])[..|xss|] == xss;
  }

  /** Flattening distributes over concatenation of the outer list. */
  lemma {:induction false} ConcatAppend<T>(a: seq<seq<T>>, b: seq<seq<T>>)
    ensures Concat(a + b) == Concat(a) + Concat(b)
    decreases |b|
  {
    if |b| == 0 {
      assert a + b == a;
    } else {
      var init := b[..|b| - 1];
      var last := b[|b| - 1];
      assert b == init + [last];
      assert a + b == (a + init) + [last];
      ConcatAppend(a, init);
      ConcatSnoc(a + init, last);
      ConcatSnoc(init, last);
    }
  }

  /** Piece `p` sits in the flattening, in its own position: everything
      before it comes from the earlier pieces, everything after from the later ones.
      The proof is a split at `p`, not an induction; automatic induction here exhausts the solver. */
  lemma {:induction false} ConcatPiece<T>(xss: seq<seq<T>>, p: nat)
    requires p < |xss|
    ensures Concat(xss) == Concat(xss[..p]) + xss[p] + Concat(xss[p + 1..])
  {
    var before := xss[..p] + [xss[p]];
    assert xss == before + xss[p + 1..];
    ConcatAppend(before, xss[p + 1..]);
    ConcatSnoc(xss[..p], xss[p]);
  }

  /** The length of a flattening is the sum of the pieces' lengths. */
  lemma {:induction false} ConcatLength<T>(xss: seq<seq<T>>)
    ensures |Concat(xss)| == Sum(Lengths(xss))
    decreases |xss|
  {
    if |xss| > 0 {
      ConcatLength(xss[..|xss| - 1]);
      assert Lengths(xss)[..|xss| - 1] == Lengths(xss[..|xss| - 1]);
    }
  }

  /** The length of each piece, in order. */
  function Lengths<T>(xss: seq<seq<T>>): (r: seq<nat>)
    ensures |r| == |xss|
    ensures forall i :: 0 <= i < |xss| ==> r[i] == |xss[i]|
  {
    seq(|xss|, i requires 0 <= i < |xss| => |xss[i]|)
  }

  /** The sum of a list of counts, accumulated from the front. */
  function Sum(s: seq<nat>): nat
  {
    if |s| == 0 then 0 else Sum(s[..|s| - 1]) + s[|s| - 1]
  }

  /** The slots lo, lo + 1, ..., hi - 1, in increasing order. */
  function Range(lo: nat, hi: nat): (r: seq<nat>)
    requires lo <= hi
    ensures |r| == hi - lo
    ensures forall i :: 0 <= i < |r| ==> r[i] == lo + i
  {
    seq(hi - lo, i requires 0 <= i < hi - lo => lo + i)
  }

  /** Two adjacent runs of slots make one run. */
  lemma RangeSplit(lo: nat, mid: nat, hi: nat)
    requires lo <= mid <= hi
    ensures Range(lo, mid) + Range(mid, hi) == Range(lo, hi)
  {
  }

  /** A flattening that covers one run of slots, extended by the next run, covers both. */
  lemma ConcatRangeSnoc(xss: seq<seq<nat>>, xs: seq<nat>, lo: nat, mid: nat, hi: nat)
    requires lo <= mid <= hi
    requires Concat(xss) == Range(lo, mid) && xs == Range(mid, hi)
    ensures Concat(xss + [xs]) == Range(lo, hi)
  {
    ConcatSnoc(xss, xs);
    RangeSplit(lo, mid, hi);
  }
}
