# LED strip pixel-buffer model

A Dafny model of the pixel-buffer write discipline of the WS2812B inventory
indicator (`main.py`). The program drives a strip of 55 addressable LEDs
that light up storage bins. It does that in two ways:

- `set_led_color` checks a colour name against a fixed palette. It writes
  that colour into every listed address in `[0, 55)` and warns once for each
  address outside that range. Then it pushes the whole buffer to the strip
  once.
- `breathe_effect` checks the name the same way, then runs frames. Each frame
  writes a brightness-scaled colour with the same range-checked loop and
  flushes once. When the user interrupts it, it turns the listed in-range
  pixels off, without warnings, and flushes once more.

Files:

- `palette.dfy` (module `Palette`): the `Rgb` triple with channels 0–255,
  `Black`, and the immutable `ColorMap` of six named colours (main.py:19-27).
- `pixel_buffer.dfy` (module `PixelBuffer`): the pure meaning of one pass of
  the write loop. `Paint` gives the buffer after the writes. `OutOfRange`
  gives the warnings, one per out-of-range occurrence. Lemmas give their
  pointwise meaning.
- `breathing.dfy` (module `Breathing`): the step schedule of the breathing
  loop. `StepAt` is the step counter that restarts after every cycle.
  `History` is the sequence of buffers flushed by the frames.
- `led_strip.dfy` (module `LedStrip`): class `Strip`. Its fields are:
  - `pixels`, a fixed array of 55 `Rgb` values;
  - `shown`, the buffers pushed by each flush, so the flush count is `|shown|`;
  - `warnings`, the addresses reported as out of range;
  - `errors`, the colour names rejected as unknown.

  Its methods are the loops of the program, each proved against the
  functions of `PixelBuffer`.

Inputs the model takes as parameters:

- The breathing frame colour is computed with floating point at
  main.py:83-87. In the model it is a parameter `shade: int -> Rgb`, the
  colour of step `s` of the cycle.
- The interrupt comes from outside the program. The model takes the number
  of frames that complete before it as the parameter `frames`.

## Model

| member | source | states |
|---|---|---|
| `PixelBuffer.Paint` | main.py:53-55 | The buffer after one write pass has the same length as before, so the write never grows or shrinks the strip |
| `PixelBuffer.PaintAt` | main.py:53-55 | After a write, a listed in-range address holds exactly the written colour; every other index, and every in-range index not listed, keeps its prior colour |
| `PixelBuffer.PaintUniform` | main.py:87-92 | Within one frame, all listed in-range addresses hold the identical colour |
| `PixelBuffer.PaintListedSetOnly` | main.py:53-55 | A write depends only on which in-range indices are listed: order, duplicates and out-of-range entries do not change the buffer |
| `PixelBuffer.PaintTwice` | main.py:90-106 | Writing the same addresses again leaves only the second colour, so each frame replaces the previous one and the cleanup replaces the last frame |
| `PixelBuffer.OutOfRange` | main.py:54-57 | The warnings of one pass are at most one per listed entry, and each names an address outside `[0, n)` |
| `PixelBuffer.OutOfRangeOccurrences` | main.py:54-57 | Each address is warned about once per occurrence in the list if it is out of range, duplicates counted separately, and never if it is in range |
| `PixelBuffer.OutOfRangeEmpty` | main.py:54-57 | A pass warns about nothing exactly when every listed address is in range |
| `PixelBuffer.RepeatedOccurrences` | main.py:80-97 | `k` frames over the same list give `k` times as many warnings in all, and `k` times as many for each address, as one frame gives |
| `LedStrip.Strip.constructor` | main.py:11-17 | The buffer has `LED_COUNT` = 55 pixels, all off; nothing has been flushed or reported |
| `LedStrip.Strip.Show` | main.py:60 | A flush pushes the whole current buffer, adds exactly one flush, and changes nothing else |
| `LedStrip.Strip.WriteColor` | main.py:53-60 | The shared write loop: the new buffer is `Paint` of the old one, the warnings gained are `OutOfRange` of the list, and there is exactly one flush, of the new buffer |
| `LedStrip.Strip.ClearAddrs` | main.py:104-107 | Cleanup turns every listed in-range address off and keeps every other pixel, reports no warning, and flushes exactly once |
| `LedStrip.Strip.SetLedColor` | main.py:37-60 | An unknown name records one error and changes no pixel, flush or warning. A known name writes `ColorMap[name]` into the listed in-range addresses and warns once per out-of-range entry. It flushes exactly once |
| `LedStrip.Strip.BreatheEffect` | main.py:62-108 | An unknown name is rejected before any frame, with nothing changed but one error. If `duration * fps <= 0` no frame runs. Otherwise the flushes are the frames of `History` of the initial buffer, and each frame warns once per out-of-range entry. The interrupt turns the listed in-range pixels off, keeps all others, and flushes one last time. A negative frame delay stops it after one frame without cleanup |
| `LedStrip.Strip.Frame` | main.py:86-97 | One breathing frame over a buffer that holds the initial contents or the previous frame: afterwards it holds the initial contents with only this frame's colour on the listed in-range addresses. It warns once per out-of-range entry and flushes once |
| `LedStrip.Strip.RunFrames` | main.py:80-100 | The frame loop: the flushes are exactly `History` of the initial buffer, and the buffer ends holding the last frame. A negative `fps` stops it at its first delay, after one frame |
| `Breathing.StepAt` | main.py:80-81 | The step counter of the repeated `range(total_steps)` always lies in `[0, total_steps)` |
| `Breathing.StepWraps` | main.py:80-81 | Counting one step further wraps from the last step of the cycle back to step 0 |
| `Breathing.StepAtIsMod` | main.py:80-81 | Rerunning the cycle after its last step makes frame `k` use step `k % total_steps` |
| `Breathing.History` | main.py:80-97 | `n` frames flush exactly `n` buffers |
| `Breathing.HistoryAt` | main.py:83-97 | Frame `k` flushes the initial buffer with only the colour of step `k % total_steps` on the listed in-range addresses, independent of the earlier frames |

## Left out

- Hardware: building the `neopixel.NeoPixel` object on pin D18, its
  global brightness, GRB byte order and the physical push are foreign
  library calls. A flush is modelled as appending the buffer to `shown`.
- The breathing colour (main.py:83, main.py:87): the sine brightness and the
  `int(c * brightness)` truncation are floating-point. The model takes them
  as the parameter `shade`.
- Timing and the interrupt: `time.sleep` is not modelled, apart from its
  failure on a negative delay. Keyboard interrupts are taken to arrive
  between frames. An interrupt in the middle of a frame's address loop
  would stop the frame before its flush; the model does not cover that.
  The cleanup would still turn off the same pixels.
- `duration` and `fps` are integers in the model. A non-integer duration
  would make `range(total_steps)` raise in the source; the model does not
  cover that.
- Message text: the model keeps the offending address of each warning and
  the rejected name of each error, not the printed wording. It also leaves
  out the list of available colours and the final "stopped" message.
- The `__main__` demo block (main.py:114-122) is example wiring.
- `Breathing.ModUnique`, `Breathing.Distrib`, `Breathing.AtLeast` and
  `PixelBuffer.MulPred` are arithmetic helpers and model nothing of the
  source.
