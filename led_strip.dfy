/**
 * The 55-pixel strip as the program drives it: a fixed-length buffer that
 * is written in place, a flush that pushes the whole buffer to the LEDs,
 * and the warnings and errors the program reports.
 */
module LedStrip {
  import opened Palette
  import opened PixelBuffer
  import opened Breathing

  /** Number of pixels on the strip. */
  const LedCount: nat := 55

  /** How a breathing run ended. */
  datatype BreatheOutcome =
    | Rejected    // unknown colour name: nothing was written or flushed
    | Stopped     // interrupted; the listed pixels were turned off
    | SleepFailed // the frame delay 1/fps was negative; the exception escaped before cleanup

  class Strip {
    /** The pixel buffer; its length never changes. */
    const pixels: array<Rgb>
    /** Every buffer pushed to the LEDs by a flush, oldest first. */
    var shown: seq<seq<Rgb>>
    /** The address of every out-of-range warning, in the order reported. */
    var warnings: seq<int>
    /** Every colour name rejected as unknown, in the order reported. */
    var errors: seq<string>

    ghost predicate Valid()
      reads this
    {
      pixels.Length == LedCount
    }

    /** A freshly initialised strip: all pixels off, nothing flushed or reported. */
    constructor ()
      ensures Valid() && fresh(pixels)
      ensures pixels[..] == seq(LedCount, _ => Black)
      ensures shown == [] && warnings == [] && errors == []
    {
      pixels := new Rgb[LedCount](_ => Black);
      shown, warnings, errors := [], [], [];
    }

    /** One flush: the whole current buffer goes to the LEDs. */
    method Show()
      modifies this
      ensures shown == old(shown) + [pixels[..]]
      ensures warnings == old(warnings) && errors == old(errors)
    {
      shown := shown + [pixels[..]];
    }

    /**
     * The shared write loop: `color` goes into every listed in-range
     * address, each out-of-range entry is reported once and skipped, and
     * the buffer is flushed once at the end.
     */
    method WriteColor(color: Rgb, addrs: seq<int>)
      requires Valid()
      modifies this, pixels
      ensures Valid()
      ensures pixels[..] == Paint(old(pixels[..]), addrs, color)
      ensures warnings == old(warnings) + OutOfRange(addrs, LedCount)
      ensures shown == old(shown) + [pixels[..]]
      ensures errors == old(errors)
    {
      for i := 0 to |addrs|
        invariant pixels[..] == Paint(old(pixels[..]), addrs[..i], color)
        invariant warnings == old(warnings) + OutOfRange(addrs[..i], LedCount)
        invariant shown == old(shown) && errors == old(errors)
      {
        var addr := addrs[i];
        assert addrs[..i + 1][..i] == addrs[..i];
        if 0 <= addr < LedCount {
          pixels[addr] := color;
        } else {
          warnings := warnings + [addr];
        }
      }
      assert addrs[..|addrs|] == addrs;
      Show();
    }

    /**
     * The cleanup loop: every listed in-range address is turned off,
     * out-of-range entries are skipped without a warning, and the buffer
     * is flushed once.
     */
    method ClearAddrs(addrs: seq<int>)
      requires Valid()
      modifies this, pixels
      ensures Valid()
      ensures pixels[..] == Paint(old(pixels[..]), addrs, Black)
      ensures warnings == old(warnings)
      ensures shown == old(shown) + [pixels[..]]
      ensures errors == old(errors)
    {
      for i := 0 to |addrs|
        invariant pixels[..] == Paint(old(pixels[..]), addrs[..i], Black)
        invariant warnings == old(warnings) && shown == old(shown) && errors == old(errors)
      {
        var addr := addrs[i];
        assert addrs[..i + 1][..i] == addrs[..i];
        if 0 <= addr < LedCount {
          pixels[addr] := Black;
        }
      }
      assert addrs[..|addrs|] == addrs;
      Show();
    }

    /**
     * Sets the listed pixels to a palette colour. An unknown name is
     * reported and changes nothing else; a known one is written into every
     * listed in-range address and flushed once.
     */
    method SetLedColor(colorName: string, addrs: seq<int>)
      requires Valid()
      modifies this, pixels
      ensures Valid()
      ensures colorName !in ColorMap ==>
        && pixels[..] == old(pixels[..])
        && shown == old(shown)
        && warnings == old(warnings)
        && errors == old(errors) + [colorName]
      ensures colorName in ColorMap ==>
        && pixels[..] == Paint(old(pixels[..]), addrs, ColorMap[colorName])
        && shown == old(shown) + [pixels[..]]
        && warnings == old(warnings) + OutOfRange(addrs, LedCount)
        && errors == old(errors)
    {
      if colorName !in ColorMap {
        errors := errors + [colorName];
        return;
      }
      var color := ColorMap[colorName];
      WriteColor(color, addrs);
    }

    /**
     * The breathing effect, up to the interrupt that ends it. `shade(s)` is
     * the colour the effect computes for step `s` of its cycle of
     * `duration * fps` steps, and `frames` is how many frames run before the
     * interrupt arrives. Each frame writes its colour into the listed
     * addresses and flushes once; the interrupt turns the listed pixels off
     * and flushes once more. When the frame delay 1/fps is negative the
     * first delay fails instead, after one frame, and nothing is cleaned up.
     */
    method BreatheEffect(colorName: string, addrs: seq<int>, duration: int, fps: int,
                         shade: int -> Rgb, frames: nat) returns (outcome: BreatheOutcome)
      requires Valid()
      modifies this, pixels
      ensures Valid()
      ensures colorName !in ColorMap ==>
        && outcome == Rejected
        && pixels[..] == old(pixels[..])
        && shown == old(shown)
        && warnings == old(warnings)
        && errors == old(errors) + [colorName]
      ensures colorName in ColorMap && duration * fps > 0 && fps < 0 && frames > 0 ==>
        && outcome == SleepFailed
        && pixels[..] == Paint(old(pixels[..]), addrs, shade(0))
        && shown == old(shown) + [pixels[..]]
        && warnings == old(warnings) + OutOfRange(addrs, LedCount)
        && errors == old(errors)
      ensures colorName in ColorMap && !(duration * fps > 0 && fps < 0 && frames > 0) ==>
        var n := if duration * fps > 0 then frames else 0;
        && outcome == Stopped
        && shown == old(shown)
             + (if n == 0 then [] else History(old(pixels[..]), addrs, shade, duration * fps, n))
             + [pixels[..]]
        && pixels[..] == Paint(old(pixels[..]), addrs, Black)
        && warnings == old(warnings) + Repeated(OutOfRange(addrs, LedCount), n)
        && errors == old(errors)
    {
      if colorName !in ColorMap {
        errors := errors + [colorName];
        return Rejected;
      }
      var totalSteps := duration * fps;
      if totalSteps > 0 {
        var sleepFailed := RunFrames(addrs, totalSteps, fps, shade, frames);
        if sleepFailed {
          return SleepFailed;
        }
        if frames > 0 {
          PaintTwice(old(pixels[..]), addrs, shade((frames - 1) % totalSteps), Black);
        }
      } else {
        // range(total_steps) is empty: the loop spins without a frame until interrupted
        assert Repeated(OutOfRange(addrs, LedCount), 0) == [];
      }
      ClearAddrs(addrs);
      return Stopped;
    }

    /**
     * One breathing frame: the frame colour goes into the listed addresses
     * and the buffer is flushed once. The buffer held either the initial
     * contents (first frame) or the previous frame, so afterwards it holds
     * the initial contents with only this frame's colour on the listed
     * addresses.
     */
    method Frame(addrs: seq<int>, color: Rgb, ghost initial: seq<Rgb>, ghost first: bool, ghost previous: Rgb)
      requires Valid()
      requires first ==> pixels[..] == initial
      requires !first ==> pixels[..] == Paint(initial, addrs, previous)
      modifies this, pixels
      ensures Valid()
      ensures pixels[..] == Paint(initial, addrs, color)
      ensures shown == old(shown) + [pixels[..]]
      ensures warnings == old(warnings) + OutOfRange(addrs, LedCount)
      ensures errors == old(errors)
    {
      WriteColor(color, addrs);
      if !first {
        PaintTwice(initial, addrs, previous, color);
      }
    }

    /**
     * The frames of a breathing run whose cycle has `totalSteps > 0` steps:
     * frame `k` shows the colour of step `k % totalSteps`. Reports whether
     * the first frame delay failed because `fps` is negative.
     */
    method RunFrames(addrs: seq<int>, totalSteps: int, fps: int, shade: int -> Rgb, frames: nat)
      returns (sleepFailed: bool)
      requires Valid() && totalSteps > 0
      modifies this, pixels
      ensures Valid()
      ensures sleepFailed <==> fps < 0 && frames > 0
      ensures sleepFailed ==>
        && pixels[..] == Paint(old(pixels[..]), addrs, shade(0))
        && shown == old(shown) + [pixels[..]]
        && warnings == old(warnings) + OutOfRange(addrs, LedCount)
      ensures !sleepFailed ==>
        && shown == old(shown) + History(old(pixels[..]), addrs, shade, totalSteps, frames)
        && pixels[..] == (if frames == 0 then old(pixels[..])
                          else Paint(old(pixels[..]), addrs, shade((frames - 1) % totalSteps)))
        && warnings == old(warnings) + Repeated(OutOfRange(addrs, LedCount), frames)
      ensures errors == old(errors)
    {
      ghost var initial := old(pixels[..]);
      ghost var pushed := old(shown);
      ghost var reported := old(warnings);
      ghost var perFrame := OutOfRange(addrs, LedCount);
      var step, k := 0, 0;
      while k < frames
        invariant 0 <= k <= frames
        invariant fps < 0 ==> k == 0
        invariant step == StepAt(k, totalSteps)
        invariant shown == pushed + History(initial, addrs, shade, totalSteps, k)
        invariant pixels[..] ==
          if k == 0 then initial else Paint(initial, addrs, shade(StepAt(k - 1, totalSteps)))
        invariant warnings == reported + Repeated(perFrame, k)
        invariant errors == old(errors)
      {
        ghost var shownBefore, warnedBefore := shown, warnings;
        Frame(addrs, shade(step), initial, k == 0,
              if k == 0 then Black else shade(StepAt(k - 1, totalSteps)));
        assert warnings == reported + Repeated(perFrame, k + 1) by {
          assert warnings == warnedBefore + perFrame;
          assert Repeated(perFrame, k + 1) == Repeated(perFrame, k) + perFrame;
        }
        if fps < 0 {
          // time.sleep(1 / fps) raises before the next frame
          assert Repeated(perFrame, 1) == perFrame;
          return true;
        }
        assert shown == pushed + History(initial, addrs, shade, totalSteps, k + 1);
        step := step + 1;
        if step == totalSteps {
          step := 0;
        }
        k := k + 1;
      }
      if frames > 0 {
        StepAtIsMod(frames - 1, totalSteps);
      }
      return false;
    }
  }
}
