# Linear sliders

This project models the two linear "potentiometer" widgets of the GUI
library: the vertical `Slider` and the horizontal `HorizSlider` in
`gui/widgets/sliders.py`. For each widget it models the constructor, the
incremental redraw `show` and the colour mutator `color`, together with the
module constants `_SLIDE_DEPTH` (6), `_TICK_VISIBLE` (3) and
`_HALF_SLOT_WIDTH` (2).

The project has three modules:

- `PyNumeric` (`numeric.dfy`) models the Python primitives the geometry
  depends on:
  - `x & 0xfe` on Python's unbounded two's-complement integers (`BitAnd`);
  - `int()` on a float, which truncates toward zero (`Trunc`);
  - `round()` on a float, which rounds half to even (`RoundHalfEven`).
- `SliderLayout` (`layout.dfy`) holds:
  - the constants;
  - the draw operations a redraw issues;
  - where the ticks, the legend anchors and the thumb fall, with the facts
    about them (ends, monotonicity, bounds, even spacing);
  - counting and filtering of the labels in a sequence of operations.
- `Sliders` (`sliders.dfy`) holds:
  - a `Display` class, whose `ops` log records every draw call and every
    label created, in order;
  - the classes `Slider` and `HorizSlider`.

  In each widget class:
  - geometry fixed at construction is `const`;
  - the fields the source updates are `var`: `fgcolor`, `drawn`, `draw`, the
    horizontal slider's `slide_x` (`slideX`), and `value`, which the base
    widget owns.
  - `Show` is proved against a specification function `ShowOps` that gives
    a redraw's whole output: ticks, then the slot, then the labels, then the
    thumb.
  - The tick loop and the legend loop of `show` are the methods `DrawTicks`
    and `DrawLegends`. These are loops with invariants over the prefix of
    `TickOps()` or `LabelOps()` issued so far.

The base widget's gate `super().show(False)` is the `Show` parameter
`proceed`. The colours the base widget resolves (`fgcolor` and `bgcolor`)
are constructor parameters. A writer is its line height plus a
`stringlen` function.

### Two behaviours of the code worth knowing

- **Width and height masking.** The comment at `gui/widgets/sliders.py:27`
  (and at line 99) says "ensure divisible by 2". But `w & 0xfe` also clears
  bit 8 and every bit above it:
  - 300 becomes 44;
  - a negative value becomes something in 0..254.

  `PyNumeric.MaskFE` and `PyNumeric.MaskExamples` state this.
- **Thumb rounding.** `round(slide_y0 - value * slot_h)` (line 83) rounds the
  absolute row half to even. So how far the thumb sits above its resting row
  `slide_y0` depends on `row`. For height 100 at value 0.5:
  - at row 0 the thumb is 47 rows above (46.5 rounds to 46);
  - at row 1 it is 46 rows above (47.5 rounds to 48).

  `SliderLayout.VThumbExample` states both.

Floats are exact reals, so `slot_len / divisions * tick` has no rounding
error before `int()`.

## Model

| member | source | states |
|---|---|---|
| PyNumeric.BitAndLowOnes | gui/widgets/sliders.py:27 | Python `&` with a mask of k one-bits keeps exactly the low k bits, for negative operands too: `x == 2^k * (x >> k) + (x & (2^k - 1))` with the masked part in 0..2^k-1, the Euclidean division of x by 2^k |
| PyNumeric.MaskKeepsBits1To7 | gui/widgets/sliders.py:27 | `w & 0xfe` is twice the low seven bits of `w // 2`: bit 0 and every bit above bit 7 are dropped |
| PyNumeric.MaskFE | gui/widgets/sliders.py:27 | `w & 0xfe` equals `w % 256 - w % 2`: even, between 0 and 254, never above a non-negative `w`, and "round down to even" exactly when 0 <= w < 256 |
| PyNumeric.MaskExamples | gui/widgets/sliders.py:99 | 21 masks to 20, 300 to 44 and -1 to 254 |
| PyNumeric.Trunc | gui/widgets/sliders.py:64 | `int()` of a float is the integer next to it toward zero, on each side of zero |
| PyNumeric.TruncMonotone | gui/widgets/sliders.py:64 | truncation toward zero preserves order |
| PyNumeric.TruncOfInt | gui/widgets/sliders.py:64 | truncation leaves whole numbers unchanged |
| PyNumeric.RoundHalfEven | gui/widgets/sliders.py:83 | `round()` returns an integer within one half of its argument, and an even one on a tie |
| PyNumeric.RoundWithin | gui/widgets/sliders.py:83 | rounding stays between any two integer bounds of its argument |
| PyNumeric.RoundOfInt | gui/widgets/sliders.py:83 | rounding leaves whole numbers unchanged |
| PyNumeric.RoundExamples | gui/widgets/sliders.py:154 | 46.5 rounds to 46, 47.5 to 48 and -0.5 to 0 |
| SliderLayout.TickEnds | gui/widgets/sliders.py:59-65 | the first tick is at the slot start, and tick `divisions` is at the slot end |
| SliderLayout.TickMonotone | gui/widgets/sliders.py:130-136 | over a slot of non-negative length, a later tick is never before an earlier one |
| SliderLayout.TickInSlot | gui/widgets/sliders.py:59-65 | every tick 0..divisions lies on the slot, both ends included |
| SliderLayout.VAnchorsSpread | gui/widgets/sliders.py:72-81 | vertical legend anchors: the first is at the bottom of the slot and, with several legends, the last at its top; neighbours are a constant spacing apart (`slot_len / (n-1)`, or 0 for one legend); all of them lie on the slot |
| SliderLayout.HAnchorsSpread | gui/widgets/sliders.py:143-152 | horizontal legend anchors: the first is at the left end of the slot and, with several legends, the last at its right end; neighbours are a constant spacing apart; all of them lie on the slot |
| SliderLayout.SpreadWithin | gui/widgets/sliders.py:75 | fewer than n steps of the legend spacing stay within the travel length |
| SliderLayout.HAnchorsExample | gui/widgets/sliders.py:143-152 | three legends over a 100-pixel slot sit at offsets 0, 50 and 100 |
| SliderLayout.VThumbBounds | gui/widgets/sliders.py:83 | for a value in [0, 1], the vertical thumb row lies between the top of the box and the resting row `row + height - 7`; it is at the resting row at value 0 and at the top at value 1 |
| SliderLayout.HThumbBounds | gui/widgets/sliders.py:154 | for a value in [0, 1], the horizontal thumb column lies between `col` (value 0) and `col + width - 7` (value 1) |
| SliderLayout.VThumbExample | gui/widgets/sliders.py:83 | height 100 at value 0.5: the thumb is at row 46 for row 0 and at row 48 for row 1 |
| SliderLayout.LabelsAppend | gui/widgets/sliders.py:79-80 | counting and filtering the labels of an operation log distributes over concatenation |
| SliderLayout.NoLabelsFacts | gui/widgets/sliders.py:65-68 | a run of pixel operations contains no label and survives filtering |
| SliderLayout.AllLabelsFacts | gui/widgets/sliders.py:79-80 | a run of labels counts as its own length and filters away completely |
| SliderLayout.RedrawLabelCount | gui/widgets/sliders.py:59-84 | a log of pixel operations, then labels, then pixel operations holds exactly as many labels as the label run |
| SliderLayout.RedrawNonLabels | gui/widgets/sliders.py:59-84 | filtering the labels out of such a log leaves the pixel operations in their order |
| Sliders.Slider.constructor | gui/widgets/sliders.py:23-47 | width is masked with 0xfe; font colour defaults to fg and slot colour to bg; slide, slot and thumb geometry derive from the box and the constants; not yet drawn; redraw requested |
| Sliders.Slider.Show | gui/widgets/sliders.py:51-85 | when the base redraw proceeds, it appends exactly `ShowOps(old(drawn))` to the display (ticks, slot fill, slot outline, labels unless already drawn, thumb) and sets `drawn`; otherwise nothing changes |
| Sliders.Slider.DrawTicks | gui/widgets/sliders.py:59-65 | appends one line per tick at `int(slot_y0 + dy * tick)`, and nothing when `divisions <= 0` |
| Sliders.Slider.DrawLegends | gui/widgets/sliders.py:70-81 | creates one label per legend in order, each on row `int(anchor - writer.height / 2)` (truncated after subtracting half the line height), at column `col + width + 4`; nothing when there are no legends or they are already drawn |
| Sliders.Slider.SetColor | gui/widgets/sliders.py:87-90 | a different colour replaces fg and requests a redraw; the same colour changes nothing |
| Sliders.SliderTicks | gui/widgets/sliders.py:59-65 | a redraw issues `divisions + 1` horizontal lines in fg from `col + 1` to `col + width - 1` (none when `divisions <= 0`); the first is at `row + 3` and the last at `row + height - 4`; they never go upwards and stay between those rows |
| Sliders.SliderDrawOrder | gui/widgets/sliders.py:59-84 | redraw order: ticks, slot fill in slot colour, slot outline in fg, labels in font colour, then the 6-pixel thumb in fg at the rounded row |
| Sliders.SliderLabelCount | gui/widgets/sliders.py:71-81 | a redraw creates one label per legend if none were drawn before, and none otherwise |
| Sliders.SliderRedrawSame | gui/widgets/sliders.py:51-85 | with the labels dropped, any redraw's operations equal those of a redraw once the legends are drawn |
| Sliders.SliderLegendPlacement | gui/widgets/sliders.py:72-80 | legend i shows `legends[i]` in the font colour at column `col + width + 4`, centred on its anchor; anchors run from `row + height - 4` up to `row + 3` |
| Sliders.SliderShowTwice | gui/widgets/sliders.py:70-85 | of two successive redraws, only the first creates labels (one per legend, if not drawn before); the second repeats the first one's pixel operations exactly |
| Sliders.HorizSlider.constructor | gui/widgets/sliders.py:94-119 | height is masked with 0xfe; font colour defaults to fg and slot colour to bg; slide and slot geometry derive from the box and the constants; no thumb position yet; not drawn; redraw requested |
| Sliders.HorizSlider.Show | gui/widgets/sliders.py:123-156 | when the base redraw proceeds, it appends exactly `ShowOps(old(drawn))`, records the thumb column `round(col + value * slot_w)` in `slideX` and sets `drawn`; otherwise nothing changes |
| Sliders.HorizSlider.DrawTicks | gui/widgets/sliders.py:130-136 | appends one vertical line per tick at `int(slot_x0 + dx * tick)`, and nothing when `divisions <= 0` |
| Sliders.HorizSlider.DrawLegends | gui/widgets/sliders.py:141-152 | creates one label per legend in order, on row `row - writer.height - 4` and column `int(anchor - stringlen(legend) / 2)`; nothing when there are no legends or they are already drawn |
| Sliders.HorizSlider.SetColor | gui/widgets/sliders.py:158-161 | a different colour replaces fg and requests a redraw; the same colour changes nothing |
| Sliders.HorizSliderTicks | gui/widgets/sliders.py:130-136 | a redraw issues `divisions + 1` vertical lines in fg from `row + 1` to `row + height - 1` (none when `divisions <= 0`); the first is at `col + 3` and the last at `col + width - 4`; they never go leftwards and stay between those columns |
| Sliders.HorizSliderDrawOrder | gui/widgets/sliders.py:130-155 | redraw order: ticks, slot fill, slot outline, labels, then the 6-pixel-wide thumb at the rounded column |
| Sliders.HorizSliderLabelCount | gui/widgets/sliders.py:142-152 | a redraw creates one label per legend if none were drawn before, and none otherwise |
| Sliders.HorizSliderRedrawSame | gui/widgets/sliders.py:123-156 | with the labels dropped, any redraw's operations equal those of a redraw once the legends are drawn |
| Sliders.HorizSliderLegendPlacement | gui/widgets/sliders.py:143-151 | legend i shows `legends[i]` at row `row - writer.height - 4`, centred on its anchor; anchors run from `col + 3` to `col + width - 4` |
| Sliders.HorizSliderShowTwice | gui/widgets/sliders.py:141-156 | of two successive redraws, only the first creates labels; the second repeats the first one's pixel operations exactly |

## Left out

- The `LinearIO` base widget is not part of this model. Its colour resolution, `bdcolor`, the `active` flag, the value setter with its clamping and dirty-marking, and the box clearing in `super().show` are out of scope. Its answer to the redraw is the `proceed` parameter, and the resolved `fgcolor`/`bgcolor` are constructor parameters.
- Callbacks and `args` are left out, including the constructor's call into user code when `active`. Those are calls into code the model cannot see; a callback that changes colours shows up only through `SetColor`.
- `Label` and writer internals are not modelled. A label is an entry in the operation log, and `stringlen` and the line height are parameters of the writer.
- The display driver is an append-only log of calls. Pixel contents, clipping and the screen's display list are not modelled.
- Floating point: floats are exact reals, so IEEE-754 rounding before `int()` and `round()` is not captured.
- The host's clearing of `draw` after a refresh is not modelled.
- The value is read-only here: no core method changes it, and its range [0, 1] is assumed only where a lemma needs it (`VThumbBounds`, `HThumbBounds`).
- The demo script and other widgets are not part of this model.
- The tick and legend loops of each `show` are the helper methods `DrawTicks` and `DrawLegends`. Together they append the same operation log as the single method in the source.
