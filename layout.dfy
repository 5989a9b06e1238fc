/** Pixel geometry shared by the vertical and the horizontal slider: the fixed
    constants, the draw operations a redraw issues, and the positions of ticks,
    legend anchors and the thumb, with the facts the redraw relies on. */
module SliderLayout {
  import opened PyNumeric

  /** Depth of the thumb along the travel axis (must be even). */
  const SLIDE_DEPTH: int := 6
  /** Tick pixels visible on either side of the thumb. */
  const TICK_VISIBLE: int := 3
  /** Half the thickness of the slot. */
  const HALF_SLOT_WIDTH: int := 2

  /** A colour as the display takes it; only compared for equality here. */
  type Color = int

  datatype Option<T> = None | Some(value: T)

  /** The font metrics the legends need: the line height and the rendered
      width of a string, both in pixels. */
  datatype Writer = Writer(height: int, stringlen: string -> int)

  /** One call into the display, or the creation of one text label, in the
      order the redraw makes them. */
  datatype Op =
    | Line(x0: int, y0: int, x1: int, y1: int, color: Color)
    | FillRect(x: int, y: int, w: int, h: int, color: Color)
    | Rect(x: int, y: int, w: int, h: int, color: Color)
    | Label(row: int, col: int, text: string, color: Color)

  // ------------------------------------------------------ real scaling

  /** Scaling by a non-negative factor keeps an order. */
  lemma ScaleMonotone(q: real, a: real, b: real)
    requires q >= 0.0 && a <= b
    ensures q * a <= q * b
  {
    assert q * b - q * a == q * (b - a);
  }

  /** A fraction in [0, 1] of a non-negative length stays within it. */
  lemma ScaleWithin(v: real, n: real)
    requires 0.0 <= v <= 1.0 && n >= 0.0
    ensures 0.0 <= v * n <= n
  {
    assert n - v * n == (1.0 - v) * n;
  }

  /** Moving down from `lo + len` by a fraction in [0, 1] of `len` stays on
      [lo, lo + len]. */
  lemma DownWithin(lo: int, len: int, v: real)
    requires 0.0 <= v <= 1.0 && len >= 0
    ensures lo as real <= (lo + len) as real - v * len as real <= (lo + len) as real
  {
    ScaleWithin(v, len as real);
  }

  /** Moving up from `lo` by a fraction in [0, 1] of `len` stays on
      [lo, lo + len]. */
  lemma UpWithin(lo: int, len: int, v: real)
    requires 0.0 <= v <= 1.0 && len >= 0
    ensures lo as real <= lo as real + v * len as real <= (lo + len) as real
  {
    ScaleWithin(v, len as real);
  }

  // ---------------------------------------------------------------- ticks

  /** Travel-axis coordinate of tick `tick` of `divisions` over a slot of
      length `len` starting at `start`: `int(start + len / divisions * tick)`. */
  function TickPos(start: int, len: int, divisions: int, tick: int): (pos: int)
    requires divisions > 0
  {
    Trunc(start as real + (len as real / divisions as real) * tick as real)
  }

  /** The first tick sits at the slot start and the last one at its end. */
  lemma TickEnds(start: int, len: int, divisions: int)
    requires divisions > 0
    ensures TickPos(start, len, divisions, 0) == start
    ensures TickPos(start, len, divisions, divisions) == start + len
  {
    TruncOfInt(start);
    assert (len as real / divisions as real) * divisions as real == len as real;
    TruncOfInt(start + len);
  }

  /** Over a slot of non-negative length the ticks never go backwards. */
  lemma TickMonotone(start: int, len: int, divisions: int, i: int, j: int)
    requires divisions > 0 && len >= 0 && i <= j
    ensures TickPos(start, len, divisions, i) <= TickPos(start, len, divisions, j)
  {
    var q := len as real / divisions as real;
    ScaleMonotone(q, i as real, j as real);
    var a, b := start as real + q * i as real, start as real + q * j as real;
    TruncMonotone(a, b);
    assert TickPos(start, len, divisions, i) == Trunc(a);
    assert TickPos(start, len, divisions, j) == Trunc(b);
  }

  /** Every tick lies on the slot, both ends included. */
  lemma TickInSlot(start: int, len: int, divisions: int, i: int)
    requires divisions > 0 && len >= 0 && 0 <= i <= divisions
    ensures start <= TickPos(start, len, divisions, i) <= start + len
  {
    TickEnds(start, len, divisions);
    TickMonotone(start, len, divisions, 0, i);
    TickMonotone(start, len, divisions, i, divisions);
  }

  // -------------------------------------------------------------- legends

  /** Distance between neighbouring legend anchors for `n` legends over a
      travel length `len`: none for at most one legend. */
  function Spacing(len: int, n: nat): (step: real)
  {
    if n <= 1 then 0.0 else len as real / (n - 1) as real
  }

  /** Anchor of legend `i` on the vertical slider, counted from the bottom of
      the slot upwards. */
  function VAnchor(slotY0: int, slotH: int, n: nat, i: nat): (y: real)
  {
    (slotY0 + slotH) as real - i as real * Spacing(slotH, n)
  }

  /** Anchor of legend `i` on the horizontal slider, counted from the left of
      the slot rightwards. */
  function HAnchor(slotX0: int, slotW: int, n: nat, i: nat): (x: real)
  {
    slotX0 as real + i as real * Spacing(slotW, n)
  }

  /** Legend anchors are spread evenly from the bottom of the slot to its top;
      a single legend sits at the bottom. */
  lemma VAnchorsSpread(slotY0: int, slotH: int, n: nat)
    ensures n >= 1 ==> VAnchor(slotY0, slotH, n, 0) == (slotY0 + slotH) as real
    ensures n > 1 ==> VAnchor(slotY0, slotH, n, n - 1) == slotY0 as real
    ensures forall i: nat :: VAnchor(slotY0, slotH, n, i) - VAnchor(slotY0, slotH, n, i + 1) == Spacing(slotH, n)
    ensures n > 1 ==> Spacing(slotH, n) * (n - 1) as real == slotH as real
    ensures n > 1 && slotH >= 0 ==>
      forall i: nat :: i < n ==> slotY0 as real <= VAnchor(slotY0, slotH, n, i) <= (slotY0 + slotH) as real
  {
    if n > 1 {
      var dy := Spacing(slotH, n);
      assert dy * (n - 1) as real == slotH as real;
      if slotH >= 0 {
        forall i: nat | i < n
          ensures slotY0 as real <= VAnchor(slotY0, slotH, n, i) <= (slotY0 + slotH) as real
        {
          SpreadWithin(slotH, n, i);
        }
      }
    }
  }

  /** Legend anchors are spread evenly from the left end of the slot to its
      right end; a single legend sits at the left end. */
  lemma HAnchorsSpread(slotX0: int, slotW: int, n: nat)
    ensures n >= 1 ==> HAnchor(slotX0, slotW, n, 0) == slotX0 as real
    ensures n > 1 ==> HAnchor(slotX0, slotW, n, n - 1) == (slotX0 + slotW) as real
    ensures forall i: nat :: HAnchor(slotX0, slotW, n, i + 1) - HAnchor(slotX0, slotW, n, i) == Spacing(slotW, n)
    ensures n > 1 && slotW >= 0 ==>
      forall i: nat :: i < n ==> slotX0 as real <= HAnchor(slotX0, slotW, n, i) <= (slotX0 + slotW) as real
  {
    if n > 1 {
      assert Spacing(slotW, n) * (n - 1) as real == slotW as real;
      if slotW >= 0 {
        forall i: nat | i < n
          ensures slotX0 as real <= HAnchor(slotX0, slotW, n, i) <= (slotX0 + slotW) as real
        {
          SpreadWithin(slotW, n, i);
        }
      }
    }
  }

  /** i steps of the legend spacing stay within the travel length. */
  lemma SpreadWithin(len: int, n: nat, i: nat)
    requires n > 1 && len >= 0 && i < n
    ensures 0.0 <= i as real * Spacing(len, n) <= len as real
  {
    var dy := Spacing(len, n);
    assert dy >= 0.0;
    assert dy * (n - 1) as real == len as real;
    ScaleMonotone(dy, 0.0, i as real);
    ScaleMonotone(dy, i as real, (n - 1) as real);
  }

  /** Three legends over a slot of length 100 sit at its start, middle and end. */
  lemma HAnchorsExample(slotX0: int)
    ensures HAnchor(slotX0, 100, 3, 0) == slotX0 as real
    ensures HAnchor(slotX0, 100, 3, 1) == (slotX0 + 50) as real
    ensures HAnchor(slotX0, 100, 3, 2) == (slotX0 + 100) as real
  {
  }

  // ---------------------------------------------------------------- thumb

  /** Top row of the vertical thumb: `round(slide_y0 - value * slot_h)`. */
  function VThumbRow(slideY0: int, slotH: int, value: real): (y: int)
  {
    RoundHalfEven(slideY0 as real - value * slotH as real)
  }

  /** Left column of the horizontal thumb: `round(col + value * slot_w)`. */
  function HThumbCol(col: int, slotW: int, value: real): (x: int)
  {
    RoundHalfEven(col as real + value * slotW as real)
  }

  /** For a value in [0, 1] the vertical thumb of a box at `row` of height
      `height` stays between the top of the box and its resting row
      `row + height - 7`, which it takes at value 0; at value 1 it is at the top. */
  lemma VThumbBounds(row: int, height: int, value: real)
    requires 0.0 <= value <= 1.0 && height >= SLIDE_DEPTH + 1
    ensures var slideY0, slotH := row + height - SLIDE_DEPTH - 1, height - SLIDE_DEPTH - 1;
      row <= VThumbRow(slideY0, slotH, value) <= slideY0
      && (value == 0.0 ==> VThumbRow(slideY0, slotH, value) == slideY0)
      && (value == 1.0 ==> VThumbRow(slideY0, slotH, value) == row)
  {
    var slideY0, slotH := row + height - SLIDE_DEPTH - 1, height - SLIDE_DEPTH - 1;
    var r := slideY0 as real - value * slotH as real;
    assert VThumbRow(slideY0, slotH, value) == RoundHalfEven(r);
    DownWithin(row, slotH, value);
    RoundWithin(r, row, slideY0);
    if value == 0.0 {
      assert r == slideY0 as real;
      RoundOfInt(slideY0);
    }
    if value == 1.0 {
      assert r == row as real;
      RoundOfInt(row);
    }
  }

  /** For a value in [0, 1] the horizontal thumb of a box at `col` of width
      `width` starts between `col` (value 0) and `col + width - 7` (value 1). */
  lemma HThumbBounds(col: int, width: int, value: real)
    requires 0.0 <= value <= 1.0 && width >= SLIDE_DEPTH + 1
    ensures var slotW := width - SLIDE_DEPTH - 1;
      col <= HThumbCol(col, slotW, value) <= col + slotW
      && (value == 0.0 ==> HThumbCol(col, slotW, value) == col)
      && (value == 1.0 ==> HThumbCol(col, slotW, value) == col + slotW)
  {
    var slotW := width - SLIDE_DEPTH - 1;
    var r := col as real + value * slotW as real;
    assert HThumbCol(col, slotW, value) == RoundHalfEven(r);
    UpWithin(col, slotW, value);
    RoundWithin(r, col, col + slotW);
    if value == 0.0 {
      assert r == col as real;
      RoundOfInt(col);
    }
    if value == 1.0 {
      assert r == (col + slotW) as real;
      RoundOfInt(col + slotW);
    }
  }

  /** A box of height 100 at value 0.5: the thumb rounds the absolute row, so
      at row 0 it sits 47 rows above its resting row 93, and at row 1 only 46
      rows above its resting row 94 (ties go to the even row). */
  lemma VThumbExample()
    ensures VThumbRow(93, 93, 0.5) == 46
    ensures VThumbRow(94, 93, 0.5) == 48
  {
    RoundExamples();
  }

  // ------------------------------------------------------ the label log

  /** Appending a redraw's pieces one after the other appends the redraw. */
  lemma LogGrowth(log: seq<Op>, ticks: seq<Op>, slot: seq<Op>, labels: seq<Op>, thumb: Op)
    ensures log + ticks + slot + labels + [thumb] == log + (ticks + slot + labels + [thumb])
  {
  }

  /** Number of labels created among `ops`. */
  function CountLabels(ops: seq<Op>): (n: nat)
  {
    if ops == [] then 0
    else (if ops[0].Label? then 1 else 0) + CountLabels(ops[1..])
  }

  /** The pixel operations among `ops`, labels dropped. */
  function NonLabels(ops: seq<Op>): (pixels: seq<Op>)
  {
    if ops == [] then []
    else (if ops[0].Label? then [] else [ops[0]]) + NonLabels(ops[1..])
  }

  predicate NoLabels(ops: seq<Op>)
  {
    forall i :: 0 <= i < |ops| ==> !ops[i].Label?
  }

  predicate AllLabels(ops: seq<Op>)
  {
    forall i :: 0 <= i < |ops| ==> ops[i].Label?
  }

  /** Counting and filtering labels distribute over concatenation. */
  lemma {:induction false} LabelsAppend(a: seq<Op>, b: seq<Op>)
    ensures CountLabels(a + b) == CountLabels(a) + CountLabels(b)
    ensures NonLabels(a + b) == NonLabels(a) + NonLabels(b)
  {
    if a == [] {
      assert a + b == b;
    } else {
      assert (a + b)[0] == a[0] && (a + b)[1..] == a[1..] + b;
      LabelsAppend(a[1..], b);
    }
  }

  /** A run of pixel operations holds no label and survives filtering. */
  lemma {:induction false} NoLabelsFacts(ops: seq<Op>)
    requires NoLabels(ops)
    ensures CountLabels(ops) == 0 && NonLabels(ops) == ops
  {
    if ops != [] {
      NoLabelsFacts(ops[1..]);
    }
  }

  /** A run of labels counts its length and filters away completely. */
  lemma {:induction false} AllLabelsFacts(ops: seq<Op>)
    requires AllLabels(ops)
    ensures CountLabels(ops) == |ops| && NonLabels(ops) == []
  {
    if ops != [] {
      AllLabelsFacts(ops[1..]);
    }
  }

  /** A redraw's log (pixel operations, labels, pixel operations) holds one
      label per label created. */
  lemma RedrawLabelCount(ticks: seq<Op>, slot: seq<Op>, labels: seq<Op>, thumb: seq<Op>)
    requires NoLabels(ticks) && NoLabels(slot) && AllLabels(labels) && NoLabels(thumb)
    ensures CountLabels(ticks + slot + labels + thumb) == |labels|
  {
    NoLabelsFacts(ticks);
    NoLabelsFacts(slot);
    AllLabelsFacts(labels);
    NoLabelsFacts(thumb);
    LabelsAppend(ticks + slot + labels, thumb);
    LabelsAppend(ticks + slot, labels);
    LabelsAppend(ticks, slot);
  }

  /** Filtering the labels out of a redraw's log leaves its pixel operations
      in order. */
  lemma RedrawNonLabels(ticks: seq<Op>, slot: seq<Op>, labels: seq<Op>, thumb: seq<Op>)
    requires NoLabels(ticks) && NoLabels(slot) && AllLabels(labels) && NoLabels(thumb)
    ensures NonLabels(ticks + slot + labels + thumb) == ticks + slot + thumb
  {
    NoLabelsFacts(ticks);
    NoLabelsFacts(slot);
    AllLabelsFacts(labels);
    NoLabelsFacts(thumb);
    FilterFour(ticks, slot, labels, thumb);
  }

  /** Filtering four pieces whose filtered forms are known. */
  lemma FilterFour(a: seq<Op>, b: seq<Op>, c: seq<Op>, d: seq<Op>)
    requires NonLabels(a) == a && NonLabels(b) == b && NonLabels(c) == [] && NonLabels(d) == d
    ensures NonLabels(a + b + c + d) == a + b + d
  {
    LabelsAppend(a + b + c, d);
    LabelsAppend(a + b, c);
    LabelsAppend(a, b);
    assert a + b + [] == a + b;
  }
}
