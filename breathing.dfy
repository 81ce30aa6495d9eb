/**
 * The step schedule of the breathing effect: the steps of one cycle are
 * run over and over, and each frame flushes one buffer.
 */
module Breathing {
  import opened Palette
  import opened PixelBuffer

  /**
   * The step of frame `k` when the steps 0, 1, ..., total - 1 of a cycle
   * are run over and over: the counter restarts at 0 after the last step.
   */
  function StepAt(k: nat, total: int): (s: int)
    requires total > 0
    ensures 0 <= s < total
  {
    if k == 0 then 0
    else if StepAt(k - 1, total) + 1 == total then 0
    else StepAt(k - 1, total) + 1
  }

  /** Restarting the cycle after each of its `total` steps makes frame `k` use step `k % total`. */
  lemma {:induction false} StepAtIsMod(k: nat, total: int)
    requires total > 0
    ensures StepAt(k, total) == k % total
  {
    if k > 0 {
      var prev := StepAt(k - 1, total);
      StepAtIsMod(k - 1, total);
      StepWraps(k - 1, total);
      assert StepAt(k, total) == if prev + 1 == total then 0 else prev + 1;
    }
  }

  /**
   * The buffers flushed by the first `n` frames of a breathing run over
   * `initial`: frame `k` writes the colour of step `StepAt(k, total)`.
   */
  function History(initial: seq<Rgb>, addrs: seq<int>, shade: int -> Rgb, total: int, n: nat)
    : (r: seq<seq<Rgb>>)
    requires total > 0
    ensures |r| == n
  {
    if n == 0 then []
    else History(initial, addrs, shade, total, n - 1) + [Paint(initial, addrs, shade(StepAt(n - 1, total)))]
  }

  /**
   * Frame `k` of a breathing run flushes the initial buffer with only the
   * colour of step `k % total` written into the listed addresses.
   */
  lemma {:induction false} HistoryAt(initial: seq<Rgb>, addrs: seq<int>, shade: int -> Rgb,
                                     total: int, n: nat, k: nat)
    requires total > 0 && k < n
    ensures History(initial, addrs, shade, total, n)[k] == Paint(initial, addrs, shade(k % total))
  {
    if k == n - 1 {
      StepAtIsMod(k, total);
    } else {
      HistoryAt(initial, addrs, shade, total, n - 1, k);
    }
  }

  /** The step counter of a cycle of `total` steps wraps back to 0. */
  lemma StepWraps(k: nat, total: int)
    requires total > 0
    ensures (k + 1) % total == if k % total + 1 == total then 0 else k % total + 1
  {
    var q, r := k / total, k % total;
    assert k == q * total + r;
    var s := if r + 1 == total then 0 else r + 1;
    var q' := if r + 1 == total then q + 1 else q;
    assert q' * total == if r + 1 == total then q * total + total else q * total;
    assert k + 1 == q' * total + s;
    ModUnique(k + 1, q', total, s);
  }

  lemma ModUnique(x: int, q: int, t: int, s: int)
    requires t > 0 && 0 <= s < t && x == q * t + s
    ensures x % t == s
  {
    var q0, s0 := x / t, x % t;
    assert x == q0 * t + s0;
    assert (q0 - q) * t == s - s0 by { Distrib(q0, q, t); }
    if q0 != q {
      if q0 > q { AtLeast(q0 - q, t); } else { AtLeast(q - q0, t); Distrib(q, q0, t); }
    }
  }

  lemma Distrib(a: int, b: int, t: int)
    ensures (a - b) * t == a * t - b * t
  {
  }

  lemma AtLeast(a: int, t: int)
    requires a >= 1 && t > 0
    ensures a * t >= t
  {
  }
}
