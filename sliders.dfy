/** The two linear "potentiometer" widgets, `Slider` (vertical, value grows
    upwards) and `HorizSlider` (horizontal, value grows rightwards), with their
    constructors, their incremental redraw `Show` and their colour mutator.
    The display and the screen's list of labels are one append-only log of
    draw operations; the base widget's "clear and decide" step is the boolean
    `proceed` that `Show` receives. */
module Sliders {
  import opened PyNumeric
  import opened SliderLayout

  /** The display surface together with the screen's display list: every line,
      rectangle and label the widgets issue, in order. */
  class Display {
    var ops: seq<Op>

    constructor ()
      ensures ops == []
    {
      ops := [];
    }

    method Line(x0: int, y0: int, x1: int, y1: int, color: Color)
      modifies this
      ensures ops == old(ops) + [Op.Line(x0, y0, x1, y1, color)]
    {
      ops := ops + [Op.Line(x0, y0, x1, y1, color)];
    }

    method FillRect(x: int, y: int, w: int, h: int, color: Color)
      modifies this
      ensures ops == old(ops) + [Op.FillRect(x, y, w, h, color)]
    {
      ops := ops + [Op.FillRect(x, y, w, h, color)];
    }

    method Rect(x: int, y: int, w: int, h: int, color: Color)
      modifies this
      ensures ops == old(ops) + [Op.Rect(x, y, w, h, color)]
    {
      ops := ops + [Op.Rect(x, y, w, h, color)];
    }

    /** Creating a text label registers it in the display list. */
    method AddLabel(row: int, col: int, text: string, color: Color)
      modifies this
      ensures ops == old(ops) + [Op.Label(row, col, text, color)]
    {
      ops := ops + [Op.Label(row, col, text, color)];
    }
  }

  // =========================================================== vertical

  class Slider {
    const writer: Writer
    const row: int
    const col: int
    const height: int
    /** Always even and below 256: the constructor masks it with 0xfe. */
    const width: int
    const divisions: int
    const legends: Option<seq<string>>
    var fgcolor: Color
    const bgcolor: Color
    const fontcolor: Color
    const slotcolor: Color
    /** The normalised value, owned by the base widget and read at each redraw. */
    var value: real
    // The thumb at value 0, and the slot.
    const slideX0: int
    const slideW: int
    const slideY0: int
    const slotX0: int
    const slotY0: int
    const slotH: int
    /** True once a redraw has completed; legends are then already on screen. */
    var drawn: bool
    /** Asks the host for a redraw at the next refresh. */
    var draw: bool

    /** The fixed geometry derived from the bounding box. */
    predicate Valid()
    {
      width % 2 == 0 && 0 <= width <= 254
      && slideX0 == col + TICK_VISIBLE && slideW == width - 2 * TICK_VISIBLE
      && slideY0 == row + height - SLIDE_DEPTH - 1
      && slotX0 == col + width / 2 - HALF_SLOT_WIDTH
      && slotY0 == row + SLIDE_DEPTH / 2 && slotH == height - SLIDE_DEPTH - 1
    }

    /** `fgcolor` and `bgcolor` are the colours the base widget resolved. */
    constructor (writer: Writer, row: int, col: int,
                 nameonly height: int := 100, nameonly width: int := 20,
                 nameonly divisions: int := 10, nameonly legends: Option<seq<string>> := None,
                 nameonly fgcolor: Color, nameonly bgcolor: Color,
                 nameonly fontcolor: Option<Color> := None, nameonly slotcolor: Option<Color> := None,
                 nameonly value: real := 0.0)
      ensures Valid()
      ensures this.writer == writer && this.row == row && this.col == col && this.height == height
      ensures this.width == BitAnd(width, 0xFE)
      ensures this.divisions == divisions && this.legends == legends && this.value == value
      ensures this.fgcolor == fgcolor && this.bgcolor == bgcolor
      ensures this.fontcolor == (if fontcolor.None? then fgcolor else fontcolor.value)
      ensures this.slotcolor == (if slotcolor.None? then bgcolor else slotcolor.value)
      ensures slotY0 == row + 3 && slotH == height - 7 && slotX0 == col + this.width / 2 - 2
      ensures slideY0 == row + height - 7 && slideX0 == col + 3 && slideW == this.width - 6
      ensures !drawn && draw
    {
      var w := BitAnd(width, 0xFE);
      MaskFE(width);
      this.writer, this.row, this.col, this.height, this.width := writer, row, col, height, w;
      this.divisions, this.legends := divisions, legends;
      this.fgcolor, this.bgcolor := fgcolor, bgcolor;
      this.fontcolor := if fontcolor.None? then fgcolor else fontcolor.value;
      this.slotcolor := if slotcolor.None? then bgcolor else slotcolor.value;
      this.value := value;
      slideX0 := col + TICK_VISIBLE;
      slideW := w - 2 * TICK_VISIBLE;
      slideY0 := row + height - SLIDE_DEPTH - 1;
      slotX0 := col + w / 2 - HALF_SLOT_WIDTH;
      slotY0 := row + SLIDE_DEPTH / 2;
      slotH := height - SLIDE_DEPTH - 1;
      drawn := false;
      draw := true;
    }

    /** One horizontal line per tick, across the box but its outer pixel columns. */
    function TickOps(): (ticks: seq<Op>)
      reads this`fgcolor
    {
      var fg := fgcolor;
      if divisions > 0 then
        seq(divisions + 1, i requires 0 <= i < divisions + 1 =>
          var y := TickPos(slotY0, slotH, divisions, i);
          Op.Line(col + 1, y, col + width - 1, y, fg))
      else []
    }

    /** The slot filled in its own colour, then outlined in the foreground. */
    function SlotOps(): (slot: seq<Op>)
      reads this`fgcolor
    {
      [Op.FillRect(slotX0, slotY0, 2 * HALF_SLOT_WIDTH, slotH, slotcolor),
       Op.Rect(slotX0, slotY0, 2 * HALF_SLOT_WIDTH, slotH, fgcolor)]
    }

    /** The labels a redraw creates when `legendsDrawn` says whether an
        earlier redraw completed: right of the box, vertically centred on
        their anchors. */
    function LabelOps(legendsDrawn: bool): (labels: seq<Op>)
    {
      if legends.Some? && !legendsDrawn then
        var ls := legends.value;
        seq(|ls|, i requires 0 <= i < |ls| =>
          Op.Label(Trunc(VAnchor(slotY0, slotH, |ls|, i) - writer.height as real / 2.0),
                   col + width + 4, ls[i], fontcolor))
      else []
    }

    function ThumbOp(): (thumb: Op)
      reads this`fgcolor, this`value
    {
      Op.FillRect(slideX0, VThumbRow(slideY0, slotH, value), slideW, SLIDE_DEPTH, fgcolor)
    }

    /** Everything one successful redraw issues, in order. */
    function ShowOps(legendsDrawn: bool): (ops: seq<Op>)
      reads this`fgcolor, this`value
    {
      TickOps() + SlotOps() + LabelOps(legendsDrawn) + [ThumbOp()]
    }

    /** The incremental redraw; `proceed` is what the base widget's own
        redraw answered after clearing the box. */
    method Show(display: Display, proceed: bool)
      modifies this`drawn, display
      ensures proceed ==> display.ops == old(display.ops) + ShowOps(old(drawn)) && drawn
      ensures !proceed ==> display.ops == old(display.ops) && drawn == old(drawn)
    {
      if proceed {
        var slotLen := slotH;
        var slotW := 2 * HALF_SLOT_WIDTH;
        ghost var before := display.ops;
        DrawTicks(display);
        ghost var ticked := display.ops;
        display.FillRect(slotX0, slotY0, slotW, slotLen, slotcolor);
        display.Rect(slotX0, slotY0, slotW, slotLen, fgcolor);
        assert display.ops == ticked + SlotOps();
        ghost var framed := display.ops;
        DrawLegends(display);
        ghost var labelled := display.ops;
        var slideY := VThumbRow(slideY0, slotLen, value);
        display.FillRect(slideX0, slideY, slideW, SLIDE_DEPTH, fgcolor);
        assert display.ops == labelled + [ThumbOp()];
        LogGrowth(before, TickOps(), SlotOps(), LabelOps(drawn), ThumbOp());
        drawn := true;
      }
    }

    /** The tick loop of `Show`: one line per tick, each on the truncated
        position `y + dy * tick`. */
    method DrawTicks(display: Display)
      modifies display
      ensures display.ops == old(display.ops) + TickOps()
    {
      if divisions > 0 {
        var x := col;
        var y := slotY0;
        var dy := slotH as real / divisions as real;
        var xs := x + 1;
        var xe := x + width - 1;
        for tick := 0 to divisions + 1
          invariant display.ops == old(display.ops) + TickOps()[..tick]
        {
          var ypos := Trunc(y as real + dy * tick as real);
          assert TickOps()[tick] == Op.Line(xs, ypos, xe, ypos, fgcolor);
          assert TickOps()[..tick + 1] == TickOps()[..tick] + [TickOps()[tick]];
          display.Line(xs, ypos, xe, ypos, fgcolor);
        }
      }
    }

    /** The legend loop of `Show`: the anchor starts at the bottom of the slot
        and moves up by the spacing after each label. */
    method DrawLegends(display: Display)
      modifies display
      ensures display.ops == old(display.ops) + LabelOps(drawn)
    {
      if legends.None? || drawn {
        return;
      }
      var ls := legends.value;
      var dy: real;
      if |ls| <= 1 {
        dy := 0.0;
      } else {
        dy := slotH as real / (|ls| - 1) as real;
      }
      VAnchorsSpread(slotY0, slotH, |ls|);
      var yl: real := (slotY0 + slotH) as real;
      var fhdelta := writer.height as real / 2.0;
      for i := 0 to |ls|
        invariant yl == VAnchor(slotY0, slotH, |ls|, i)
        invariant display.ops == old(display.ops) + LabelOps(false)[..i]
      {
        assert LabelOps(false)[..i + 1] == LabelOps(false)[..i] + [LabelOps(false)[i]];
        display.AddLabel(Trunc(yl - fhdelta), col + width + 4, ls[i], fontcolor);
        yl := yl - dy;
      }
      assert LabelOps(false)[..|ls|] == LabelOps(drawn);
    }

    /** Changes the foreground colour, asking for a redraw only on a real change. */
    method SetColor(color: Color)
      modifies this`fgcolor, this`draw
      ensures color == old(fgcolor) ==> fgcolor == old(fgcolor) && draw == old(draw)
      ensures color != old(fgcolor) ==> fgcolor == color && draw
    {
      if color != fgcolor {
        fgcolor := color;
        draw := true;
      }
    }
  }

  /** The ticks: `divisions + 1` horizontal lines from column `col + 1` to
      `col + width - 1`, none when `divisions <= 0`; the first on the top of
      the slot, the last on its bottom, in between never going upwards. */
  lemma SliderTicks(s: Slider)
    requires s.Valid()
    ensures |s.TickOps()| == if s.divisions > 0 then s.divisions + 1 else 0
    ensures forall i :: 0 <= i < |s.TickOps()| ==>
      var op := s.TickOps()[i];
      op.Line? && op.x0 == s.col + 1 && op.x1 == s.col + s.width - 1 && op.y0 == op.y1 && op.color == s.fgcolor
    ensures s.divisions > 0 ==>
      s.TickOps()[0].y0 == s.row + 3 && s.TickOps()[s.divisions].y0 == s.row + s.height - 4
    ensures s.divisions > 0 && s.height >= 7 ==>
      (forall i, j :: 0 <= i <= j <= s.divisions ==> s.TickOps()[i].y0 <= s.TickOps()[j].y0)
      && (forall i :: 0 <= i <= s.divisions ==> s.row + 3 <= s.TickOps()[i].y0 <= s.row + s.height - 4)
  {
    if s.divisions > 0 {
      var ticks := s.TickOps();
      TickEnds(s.slotY0, s.slotH, s.divisions);
      if s.height >= 7 {
        forall i, j | 0 <= i <= j <= s.divisions
          ensures ticks[i].y0 <= ticks[j].y0
        {
          TickMonotone(s.slotY0, s.slotH, s.divisions, i, j);
        }
        forall i | 0 <= i <= s.divisions
          ensures s.row + 3 <= ticks[i].y0 <= s.row + s.height - 4
        {
          TickInSlot(s.slotY0, s.slotH, s.divisions, i);
        }
      }
    }
  }

  /** A redraw issues the ticks, then the slot fill and outline, then the
      labels, and paints the thumb last. */
  lemma SliderDrawOrder(s: Slider, legendsDrawn: bool)
    ensures var ops, k, m := s.ShowOps(legendsDrawn), |s.TickOps()|, |s.LabelOps(legendsDrawn)|;
      |ops| == k + m + 3
      && (forall i :: 0 <= i < k ==> ops[i].Line? && ops[i].color == s.fgcolor)
      && ops[k] == Op.FillRect(s.slotX0, s.slotY0, 4, s.slotH, s.slotcolor)
      && ops[k + 1] == Op.Rect(s.slotX0, s.slotY0, 4, s.slotH, s.fgcolor)
      && (forall i :: k + 2 <= i < k + 2 + m ==> ops[i].Label? && ops[i].color == s.fontcolor)
      && ops[k + m + 2] == Op.FillRect(s.slideX0, VThumbRow(s.slideY0, s.slotH, s.value), s.slideW, 6, s.fgcolor)
  {
  }

  /** Labels are created only by the first completed redraw: one per legend
      then, none afterwards and none without legends. */
  lemma SliderLabelCount(s: Slider, legendsDrawn: bool)
    ensures CountLabels(s.ShowOps(legendsDrawn)) ==
      if s.legends.Some? && !legendsDrawn then |s.legends.value| else 0
  {
    RedrawLabelCount(s.TickOps(), s.SlotOps(), s.LabelOps(legendsDrawn), [s.ThumbOp()]);
  }

  /** Any redraw issues exactly the pixel operations of a later one: ticks,
      slot and thumb are reissued identically, only the labels differ. */
  lemma SliderRedrawSame(s: Slider, legendsDrawn: bool)
    ensures NonLabels(s.ShowOps(legendsDrawn)) == s.ShowOps(true)
  {
    RedrawNonLabels(s.TickOps(), s.SlotOps(), s.LabelOps(legendsDrawn), [s.ThumbOp()]);
    assert s.LabelOps(true) == [];
    assert s.ShowOps(true) == s.TickOps() + s.SlotOps() + [s.ThumbOp()];
  }

  /** Legend i reads legends[i], in the font colour, four pixels right of the
      box, on the row of its anchor less half the line height; the anchors
      run from the bottom of the slot (`row + height - 4`) to its top
      (`row + 3`). */
  lemma SliderLegendPlacement(s: Slider)
    requires s.Valid() && s.legends.Some?
    ensures var ls, ops := s.legends.value, s.LabelOps(false);
      |ops| == |ls|
      && (forall i :: 0 <= i < |ls| ==>
            ops[i] == Op.Label(Trunc(VAnchor(s.slotY0, s.slotH, |ls|, i) - s.writer.height as real / 2.0),
                               s.col + s.width + 4, ls[i], s.fontcolor))
      && (|ls| >= 1 ==> VAnchor(s.slotY0, s.slotH, |ls|, 0) == (s.row + s.height - 4) as real)
      && (|ls| > 1 ==> VAnchor(s.slotY0, s.slotH, |ls|, |ls| - 1) == (s.row + 3) as real)
  {
    VAnchorsSpread(s.slotY0, s.slotH, |s.legends.value|);
  }


  /** Two completed redraws in a row: the first creates one label per legend
      unless an earlier redraw did; the second creates none and repeats the
      first one's ticks, slot and thumb exactly. */
  method SliderShowTwice(s: Slider, display: Display) returns (first: seq<Op>, second: seq<Op>)
    modifies s`drawn, display
    ensures first == s.ShowOps(old(s.drawn)) && second == s.ShowOps(true)
    ensures display.ops == old(display.ops) + first + second && s.drawn
    ensures CountLabels(first) == if s.legends.Some? && !old(s.drawn) then |s.legends.value| else 0
    ensures CountLabels(second) == 0 && NonLabels(first) == second
  {
    var start := display.ops;
    s.Show(display, true);
    first := display.ops[|start|..];
    var middle := display.ops;
    s.Show(display, true);
    second := display.ops[|middle|..];
    assert display.ops == start + first + second;
    SliderLabelCount(s, old(s.drawn));
    SliderLabelCount(s, true);
    SliderRedrawSame(s, old(s.drawn));
  }

  // ========================================================= horizontal

  class HorizSlider {
    const writer: Writer
    const row: int
    const col: int
    /** Always even and below 256: the constructor masks it with 0xfe. */
    const height: int
    const width: int
    const divisions: int
    const legends: Option<seq<string>>
    var fgcolor: Color
    const bgcolor: Color
    const fontcolor: Color
    const slotcolor: Color
    /** The normalised value, owned by the base widget and read at each redraw. */
    var value: real
    // The thumb's row and height, and the slot.
    const slideY0: int
    const slideH: int
    const slotX0: int
    const slotW: int
    const slotY0: int
    /** Left column of the thumb; absent until the first completed redraw. */
    var slideX: Option<int>
    /** True once a redraw has completed; legends are then already on screen. */
    var drawn: bool
    /** Asks the host for a redraw at the next refresh. */
    var draw: bool

    /** The fixed geometry derived from the bounding box. */
    predicate Valid()
    {
      height % 2 == 0 && 0 <= height <= 254
      && slideY0 == row + TICK_VISIBLE && slideH == height - 2 * TICK_VISIBLE
      && slotX0 == col + SLIDE_DEPTH / 2 && slotW == width - SLIDE_DEPTH - 1
      && slotY0 == row + height / 2 - HALF_SLOT_WIDTH
    }

    /** `fgcolor` and `bgcolor` are the colours the base widget resolved. */
    constructor (writer: Writer, row: int, col: int,
                 nameonly height: int := 20, nameonly width: int := 100,
                 nameonly divisions: int := 10, nameonly legends: Option<seq<string>> := None,
                 nameonly fgcolor: Color, nameonly bgcolor: Color,
                 nameonly fontcolor: Option<Color> := None, nameonly slotcolor: Option<Color> := None,
                 nameonly value: real := 0.0)
      ensures Valid()
      ensures this.writer == writer && this.row == row && this.col == col && this.width == width
      ensures this.height == BitAnd(height, 0xFE)
      ensures this.divisions == divisions && this.legends == legends && this.value == value
      ensures this.fgcolor == fgcolor && this.bgcolor == bgcolor
      ensures this.fontcolor == (if fontcolor.None? then fgcolor else fontcolor.value)
      ensures this.slotcolor == (if slotcolor.None? then bgcolor else slotcolor.value)
      ensures slotX0 == col + 3 && slotW == width - 7 && slotY0 == row + this.height / 2 - 2
      ensures slideY0 == row + 3 && slideH == this.height - 6
      ensures slideX.None? && !drawn && draw
    {
      var h := BitAnd(height, 0xFE);
      MaskFE(height);
      this.writer, this.row, this.col, this.height, this.width := writer, row, col, h, width;
      this.divisions, this.legends := divisions, legends;
      this.fgcolor, this.bgcolor := fgcolor, bgcolor;
      this.fontcolor := if fontcolor.None? then fgcolor else fontcolor.value;
      this.slotcolor := if slotcolor.None? then bgcolor else slotcolor.value;
      this.value := value;
      slideY0 := row + TICK_VISIBLE;
      slideH := h - 2 * TICK_VISIBLE;
      slotX0 := col + SLIDE_DEPTH / 2;
      slotW := width - SLIDE_DEPTH - 1;
      slotY0 := row + h / 2 - HALF_SLOT_WIDTH;
      slideX := None;
      drawn := false;
      draw := true;
    }

    /** One vertical line per tick, down the box but its outer pixel rows. */
    function TickOps(): (ticks: seq<Op>)
      reads this`fgcolor
    {
      var fg := fgcolor;
      if divisions > 0 then
        seq(divisions + 1, i requires 0 <= i < divisions + 1 =>
          var x := TickPos(slotX0, slotW, divisions, i);
          Op.Line(x, row + 1, x, row + height - 1, fg))
      else []
    }

    /** The slot filled in its own colour, then outlined in the foreground. */
    function SlotOps(): (slot: seq<Op>)
      reads this`fgcolor
    {
      [Op.FillRect(slotX0, slotY0, slotW, 2 * HALF_SLOT_WIDTH, slotcolor),
       Op.Rect(slotX0, slotY0, slotW, 2 * HALF_SLOT_WIDTH, fgcolor)]
    }

    /** The labels a redraw creates when `legendsDrawn` says whether an
        earlier redraw completed: above the box, horizontally centred on
        their anchors by half their rendered width. */
    function LabelOps(legendsDrawn: bool): (labels: seq<Op>)
    {
      if legends.Some? && !legendsDrawn then
        var ls := legends.value;
        seq(|ls|, i requires 0 <= i < |ls| =>
          Op.Label(row - writer.height - 4,
                   Trunc(HAnchor(slotX0, slotW, |ls|, i) - writer.stringlen(ls[i]) as real / 2.0),
                   ls[i], fontcolor))
      else []
    }

    function ThumbOp(): (thumb: Op)
      reads this`fgcolor, this`value
    {
      Op.FillRect(HThumbCol(col, slotW, value), slideY0, SLIDE_DEPTH, slideH, fgcolor)
    }

    /** Everything one successful redraw issues, in order. */
    function ShowOps(legendsDrawn: bool): (ops: seq<Op>)
      reads this`fgcolor, this`value
    {
      TickOps() + SlotOps() + LabelOps(legendsDrawn) + [ThumbOp()]
    }

    /** The incremental redraw; `proceed` is what the base widget's own
        redraw answered after clearing the box. */
    method Show(display: Display, proceed: bool)
      modifies this`drawn, this`slideX, display
      ensures proceed ==> display.ops == old(display.ops) + ShowOps(old(drawn))
                          && slideX == Some(HThumbCol(col, slotW, value)) && drawn
      ensures !proceed ==> display.ops == old(display.ops) && drawn == old(drawn) && slideX == old(slideX)
    {
      if proceed {
        var slotLen := slotW;
        var slotH := 2 * HALF_SLOT_WIDTH;
        ghost var before := display.ops;
        DrawTicks(display);
        ghost var ticked := display.ops;
        display.FillRect(slotX0, slotY0, slotLen, slotH, slotcolor);
        display.Rect(slotX0, slotY0, slotLen, slotH, fgcolor);
        assert display.ops == ticked + SlotOps();
        ghost var framed := display.ops;
        DrawLegends(display);
        ghost var labelled := display.ops;
        var sx := HThumbCol(col, slotLen, value);
        slideX := Some(sx);
        display.FillRect(sx, slideY0, SLIDE_DEPTH, slideH, fgcolor);
        assert display.ops == labelled + [ThumbOp()];
        LogGrowth(before, TickOps(), SlotOps(), LabelOps(drawn), ThumbOp());
        drawn := true;
      }
    }

    /** The tick loop of `Show`: one line per tick, each on the truncated
        position `x + dx * tick`. */
    method DrawTicks(display: Display)
      modifies display
      ensures display.ops == old(display.ops) + TickOps()
    {
      if divisions > 0 {
        var x := slotX0;
        var y := row;
        var dx := slotW as real / divisions as real;
        var ys := y + 1;
        var ye := y + height - 1;
        for tick := 0 to divisions + 1
          invariant display.ops == old(display.ops) + TickOps()[..tick]
        {
          var xpos := Trunc(x as real + dx * tick as real);
          assert TickOps()[tick] == Op.Line(xpos, ys, xpos, ye, fgcolor);
          assert TickOps()[..tick + 1] == TickOps()[..tick] + [TickOps()[tick]];
          display.Line(xpos, ys, xpos, ye, fgcolor);
        }
      }
    }

    /** The legend loop of `Show`: the anchor starts at the left end of the
        slot and moves right by the spacing after each label. */
    method DrawLegends(display: Display)
      modifies display
      ensures display.ops == old(display.ops) + LabelOps(drawn)
    {
      if legends.None? || drawn {
        return;
      }
      var ls := legends.value;
      var dx: real;
      if |ls| <= 1 {
        dx := 0.0;
      } else {
        dx := slotW as real / (|ls| - 1) as real;
      }
      HAnchorsSpread(slotX0, slotW, |ls|);
      var xl: real := slotX0 as real;
      for i := 0 to |ls|
        invariant xl == HAnchor(slotX0, slotW, |ls|, i)
        invariant display.ops == old(display.ops) + LabelOps(false)[..i]
      {
        var offset := writer.stringlen(ls[i]) as real / 2.0;
        assert LabelOps(false)[..i + 1] == LabelOps(false)[..i] + [LabelOps(false)[i]];
        display.AddLabel(row - writer.height - 4, Trunc(xl - offset), ls[i], fontcolor);
        xl := xl + dx;
      }
      assert LabelOps(false)[..|ls|] == LabelOps(drawn);
    }

    /** Changes the foreground colour, asking for a redraw only on a real change. */
    method SetColor(color: Color)
      modifies this`fgcolor, this`draw
      ensures color == old(fgcolor) ==> fgcolor == old(fgcolor) && draw == old(draw)
      ensures color != old(fgcolor) ==> fgcolor == color && draw
    {
      if color != fgcolor {
        fgcolor := color;
        draw := true;
      }
    }
  }

  /** The ticks: `divisions + 1` vertical lines from row `row + 1` to
      `row + height - 1`, none when `divisions <= 0`; the first at the left
      end of the slot, the last at its right end, in between never going left. */
  lemma HorizSliderTicks(s: HorizSlider)
    requires s.Valid()
    ensures |s.TickOps()| == if s.divisions > 0 then s.divisions + 1 else 0
    ensures forall i :: 0 <= i < |s.TickOps()| ==>
      var op := s.TickOps()[i];
      op.Line? && op.y0 == s.row + 1 && op.y1 == s.row + s.height - 1 && op.x0 == op.x1 && op.color == s.fgcolor
    ensures s.divisions > 0 ==>
      s.TickOps()[0].x0 == s.col + 3 && s.TickOps()[s.divisions].x0 == s.col + s.width - 4
    ensures s.divisions > 0 && s.width >= 7 ==>
      (forall i, j :: 0 <= i <= j <= s.divisions ==> s.TickOps()[i].x0 <= s.TickOps()[j].x0)
      && (forall i :: 0 <= i <= s.divisions ==> s.col + 3 <= s.TickOps()[i].x0 <= s.col + s.width - 4)
  {
    if s.divisions > 0 {
      var ticks := s.TickOps();
      TickEnds(s.slotX0, s.slotW, s.divisions);
      if s.width >= 7 {
        forall i, j | 0 <= i <= j <= s.divisions
          ensures ticks[i].x0 <= ticks[j].x0
        {
          TickMonotone(s.slotX0, s.slotW, s.divisions, i, j);
        }
        forall i | 0 <= i <= s.divisions
          ensures s.col + 3 <= ticks[i].x0 <= s.col + s.width - 4
        {
          TickInSlot(s.slotX0, s.slotW, s.divisions, i);
        }
      }
    }
  }

  /** A redraw issues the ticks, then the slot fill and outline, then the
      labels, and paints the thumb last. */
  lemma HorizSliderDrawOrder(s: HorizSlider, legendsDrawn: bool)
    ensures var ops, k, m := s.ShowOps(legendsDrawn), |s.TickOps()|, |s.LabelOps(legendsDrawn)|;
      |ops| == k + m + 3
      && (forall i :: 0 <= i < k ==> ops[i].Line? && ops[i].color == s.fgcolor)
      && ops[k] == Op.FillRect(s.slotX0, s.slotY0, s.slotW, 4, s.slotcolor)
      && ops[k + 1] == Op.Rect(s.slotX0, s.slotY0, s.slotW, 4, s.fgcolor)
      && (forall i :: k + 2 <= i < k + 2 + m ==> ops[i].Label? && ops[i].color == s.fontcolor)
      && ops[k + m + 2] == Op.FillRect(HThumbCol(s.col, s.slotW, s.value), s.slideY0, 6, s.slideH, s.fgcolor)
  {
  }

  /** Labels are created only by the first completed redraw: one per legend
      then, none afterwards and none without legends. */
  lemma HorizSliderLabelCount(s: HorizSlider, legendsDrawn: bool)
    ensures CountLabels(s.ShowOps(legendsDrawn)) ==
      if s.legends.Some? && !legendsDrawn then |s.legends.value| else 0
  {
    RedrawLabelCount(s.TickOps(), s.SlotOps(), s.LabelOps(legendsDrawn), [s.ThumbOp()]);
  }

  /** Any redraw issues exactly the pixel operations of a later one: ticks,
      slot and thumb are reissued identically, only the labels differ. */
  lemma HorizSliderRedrawSame(s: HorizSlider, legendsDrawn: bool)
    ensures NonLabels(s.ShowOps(legendsDrawn)) == s.ShowOps(true)
  {
    RedrawNonLabels(s.TickOps(), s.SlotOps(), s.LabelOps(legendsDrawn), [s.ThumbOp()]);
    assert s.LabelOps(true) == [];
    assert s.ShowOps(true) == s.TickOps() + s.SlotOps() + [s.ThumbOp()];
  }

  /** Legend i reads legends[i], in the font colour, on the row
      `row - height - 4` of the font above the box, in the column of its
      anchor less half its rendered width; the anchors run from the left end
      of the slot (`col + 3`) to its right end (`col + width - 4`). */
  lemma HorizSliderLegendPlacement(s: HorizSlider)
    requires s.Valid() && s.legends.Some?
    ensures var ls, ops := s.legends.value, s.LabelOps(false);
      |ops| == |ls|
      && (forall i :: 0 <= i < |ls| ==>
            ops[i] == Op.Label(s.row - s.writer.height - 4,
                               Trunc(HAnchor(s.slotX0, s.slotW, |ls|, i) - s.writer.stringlen(ls[i]) as real / 2.0),
                               ls[i], s.fontcolor))
      && (|ls| >= 1 ==> HAnchor(s.slotX0, s.slotW, |ls|, 0) == (s.col + 3) as real)
      && (|ls| > 1 ==> HAnchor(s.slotX0, s.slotW, |ls|, |ls| - 1) == (s.col + s.width - 4) as real)
  {
    HAnchorsSpread(s.slotX0, s.slotW, |s.legends.value|);
  }

  /** Two completed redraws in a row: the first creates one label per legend
      unless an earlier redraw did; the second creates none and repeats the
      first one's ticks, slot and thumb exactly. */
  method HorizSliderShowTwice(s: HorizSlider, display: Display) returns (first: seq<Op>, second: seq<Op>)
    modifies s`drawn, s`slideX, display
    ensures first == s.ShowOps(old(s.drawn)) && second == s.ShowOps(true)
    ensures display.ops == old(display.ops) + first + second && s.drawn
    ensures CountLabels(first) == if s.legends.Some? && !old(s.drawn) then |s.legends.value| else 0
    ensures CountLabels(second) == 0 && NonLabels(first) == second
  {
    var start := display.ops;
    s.Show(display, true);
    first := display.ops[|start|..];
    var middle := display.ops;
    s.Show(display, true);
    second := display.ops[|middle|..];
    assert display.ops == start + first + second;
    HorizSliderLabelCount(s, old(s.drawn));
    HorizSliderLabelCount(s, true);
    HorizSliderRedrawSame(s, old(s.drawn));
  }
}
