/**
 * Pure specification of the range-checked write loop that the strip
 * runs over an address list: what it does to the pixel buffer and which
 * warnings it reports.
 */
module PixelBuffer {
  import opened Palette

  /**
   * The buffer after writing `c`, address by address in list order, into
   * every listed address that lies inside the buffer; other addresses are
   * skipped.
   */
  function Paint(buf: seq<Rgb>, addrs: seq<int>, c: Rgb): (r: seq<Rgb>)
    ensures |r| == |buf|
    decreases |addrs|
  {
    if addrs == [] then buf
    else
      var prev := Paint(buf, addrs[..|addrs| - 1], c);
      var a := addrs[|addrs| - 1];
      if 0 <= a < |buf| then prev[a := c] else prev
  }

  /**
   * Pointwise meaning of a write: a listed in-range address holds exactly
   * `c`, every other index keeps its prior colour.
   */
  lemma {:induction false} PaintAt(buf: seq<Rgb>, addrs: seq<int>, c: Rgb, i: int)
    requires 0 <= i < |buf|
    ensures Paint(buf, addrs, c)[i] == if i in addrs then c else buf[i]
  {
    if addrs != [] {
      var init := addrs[..|addrs| - 1];
      PaintAt(buf, init, c, i);
      assert addrs == init + [addrs[|addrs| - 1]];
    }
  }

  /** Within one write, every listed in-range address ends up with the same colour. */
  lemma PaintUniform(buf: seq<Rgb>, addrs: seq<int>, c: Rgb, i: int, j: int)
    requires 0 <= i < |buf| && 0 <= j < |buf| && i in addrs && j in addrs
    ensures Paint(buf, addrs, c)[i] == Paint(buf, addrs, c)[j]
  {
    PaintAt(buf, addrs, c, i);
    PaintAt(buf, addrs, c, j);
  }

  /**
   * A write depends only on which in-range indices are listed: order,
   * duplicates and out-of-range entries make no difference.
   */
  lemma PaintListedSetOnly(buf: seq<Rgb>, a1: seq<int>, a2: seq<int>, c: Rgb)
    requires forall i :: 0 <= i < |buf| ==> (i in a1 <==> i in a2)
    ensures Paint(buf, a1, c) == Paint(buf, a2, c)
  {
    forall i | 0 <= i < |buf|
      ensures Paint(buf, a1, c)[i] == Paint(buf, a2, c)[i]
    {
      PaintAt(buf, a1, c, i);
      PaintAt(buf, a2, c, i);
    }
  }

  /**
   * Writing the same address list twice leaves what the second write put
   * there: each breathing frame overwrites the previous one, and the
   * cleanup overwrites the last frame.
   */
  lemma PaintTwice(buf: seq<Rgb>, addrs: seq<int>, c1: Rgb, c2: Rgb)
    ensures Paint(Paint(buf, addrs, c1), addrs, c2) == Paint(buf, addrs, c2)
  {
    forall i | 0 <= i < |buf|
      ensures Paint(Paint(buf, addrs, c1), addrs, c2)[i] == Paint(buf, addrs, c2)[i]
    {
      PaintAt(buf, addrs, c1, i);
      PaintAt(Paint(buf, addrs, c1), addrs, c2, i);
      PaintAt(buf, addrs, c2, i);
    }
  }

  /** The out-of-range entries of an address list, in list order, one per occurrence. */
  function OutOfRange(addrs: seq<int>, n: int): (r: seq<int>)
    ensures |r| <= |addrs|
    ensures forall k :: 0 <= k < |r| ==> !(0 <= r[k] < n)
    decreases |addrs|
  {
    if addrs == [] then []
    else
      var prev := OutOfRange(addrs[..|addrs| - 1], n);
      var a := addrs[|addrs| - 1];
      if 0 <= a < n then prev else prev + [a]
  }

  /**
   * Each out-of-range occurrence yields exactly one warning, duplicates
   * counted separately, and an in-range address never yields one.
   */
  lemma {:induction false} OutOfRangeOccurrences(addrs: seq<int>, n: int, a: int)
    ensures multiset(OutOfRange(addrs, n))[a] == if 0 <= a < n then 0 else multiset(addrs)[a]
  {
    if addrs != [] {
      var init := addrs[..|addrs| - 1];
      OutOfRangeOccurrences(init, n, a);
      assert addrs == init + [addrs[|addrs| - 1]];
    }
  }

  /** No warning is reported exactly when every listed address is in range. */
  lemma {:induction false} OutOfRangeEmpty(addrs: seq<int>, n: int)
    ensures OutOfRange(addrs, n) == [] <==> forall a :: a in addrs ==> 0 <= a < n
  {
    if addrs != [] {
      var init := addrs[..|addrs| - 1];
      var last := addrs[|addrs| - 1];
      OutOfRangeEmpty(init, n);
      assert addrs == init + [last];
      if !(0 <= last < n) {
        assert |OutOfRange(addrs, n)| == |OutOfRange(init, n)| + 1;
        assert last in addrs;
      } else {
        assert OutOfRange(addrs, n) == OutOfRange(init, n);
        assert forall a :: a in addrs <==> a in init || a == last;
      }
    }
  }

  /** `s` written out `k` times in a row: the warnings of `k` identical frames. */
  function Repeated(s: seq<int>, k: nat): seq<int>
  {
    if k == 0 then [] else Repeated(s, k - 1) + s
  }

  /**
   * `k` identical frames report each address `k` times as often as one
   * frame does, and `k` times as many warnings in all.
   */
  lemma {:induction false} RepeatedOccurrences(s: seq<int>, k: nat, a: int)
    ensures |Repeated(s, k)| == k * |s|
    ensures multiset(Repeated(s, k))[a] == k * multiset(s)[a]
  {
    if k > 0 {
      RepeatedOccurrences(s, k - 1, a);
      assert multiset(Repeated(s, k)) == multiset(Repeated(s, k - 1)) + multiset(s);
      MulPred(k, |s|);
      MulPred(k, multiset(s)[a]);
    }
  }

  /** Arithmetic step for the repeat count: one fewer copy is `x` less. */
  lemma MulPred(k: int, x: int)
    ensures k * x == (k - 1) * x + x
  {
  }
}
