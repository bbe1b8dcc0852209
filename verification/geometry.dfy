/**
 * Panel geometry and the rectangles the three pixel routines hand to
 * esp_lcd_panel_draw_bitmap. Rectangles use exclusive end coordinates.
 */
module Geometry {

  /** LCD_H_RES, LCD_V_RES: the panel is 320 pixels wide and 240 rows high. */
  const H_RES: int := 320
  const V_RES: int := 240
  /** LINE_COUNT: rows per stripe in the full-frame routines. */
  const LINE_COUNT: int := 24
  /** Number of line buffers. */
  const LINE_BUFFERS: int := 2
  /** Entries in one line buffer: LCD_H_RES * LINE_COUNT. */
  const LINE_LEN: int := 7680
  /** Number of stripes in a full frame: LCD_V_RES / LINE_COUNT. */
  const STRIPES: int := 10

  /** The range of a C `short`, the type of renderGfx's coordinates and counters. */
  const SHORT_MAX: int := 0x7FFF
  type Short = x: int | -0x8000 <= x <= 0x7FFF

  /** The rectangle (x0, y0)-(x1, y1) of one draw_bitmap call, x1 and y1 exclusive. */
  datatype Rect = Rect(x0: int, y0: int, x1: int, y1: int)

  /** Number of pixels the panel takes from the buffer for `r`. */
  function Area(r: Rect): int {
    (r.x1 - r.x0) * (r.y1 - r.y0)
  }

  /** The integers lo, lo+1, ..., hi-1 in increasing order. */
  function Interval(lo: int, hi: int): (s: seq<int>)
    ensures |s| == if lo <= hi then hi - lo else 0
    ensures forall i :: 0 <= i < |s| ==> s[i] == lo + i
    decreases hi - lo
  {
    if lo < hi then [lo] + Interval(lo + 1, hi) else []
  }

  lemma IntervalSplit(a: int, b: int, c: int)
    requires a <= b <= c
    ensures Interval(a, b) + Interval(b, c) == Interval(a, c)
  {
  }

  /** The rows the rectangles cover, rectangle by rectangle, top to bottom within each. */
  function RowsOf(rects: seq<Rect>): seq<int> {
    if rects == [] then [] else Interval(rects[0].y0, rects[0].y1) + RowsOf(rects[1..])
  }

  /**
   * Stripe k of a full frame, as display_send_fb and display_clear submit it
   * when their row counter `y` reaches LINE_COUNT * k: the full width,
   * LINE_COUNT rows from there.
   */
  function Stripe(k: int): Rect {
    Rect(0, LINE_COUNT * k, H_RES, LINE_COUNT * k + LINE_COUNT)
  }

  /**
   * The stripes of a whole frame in the order they are submitted, one per
   * round of `for (y = 0; y < LCD_V_RES; y += LINE_COUNT)`.
   */
  function FrameStripes(): (s: seq<Rect>)
    ensures |s| == STRIPES && forall k :: 0 <= k < STRIPES ==> s[k] == Stripe(k)
  {
    seq(STRIPES, k requires 0 <= k < STRIPES => Stripe(k))
  }

  /**
   * The frame starts at row 0, each stripe starts where the previous one
   * ends, and the last one ends at the bottom of the panel: nothing is left
   * out at the bottom and nothing is drawn below it.
   */
  lemma FrameStripesTile()
    ensures |FrameStripes()| == STRIPES && FrameStripes()[0].y0 == 0
    ensures forall k :: 0 < k < STRIPES ==> FrameStripes()[k].y0 == FrameStripes()[k - 1].y1
    ensures FrameStripes()[STRIPES - 1].y1 == V_RES
    ensures forall r :: r in FrameStripes() ==>
      r.x0 == 0 && r.x1 == H_RES && 0 <= r.y0 && r.y1 == r.y0 + LINE_COUNT <= V_RES
  {
    forall r | r in FrameStripes()
      ensures r.x0 == 0 && r.x1 == H_RES && 0 <= r.y0 && r.y1 == r.y0 + LINE_COUNT <= V_RES
    {
      var k :| 0 <= k < STRIPES && FrameStripes()[k] == r;
    }
  }

  lemma {:induction false} StripesCover(m: nat)
    requires m <= STRIPES
    ensures RowsOf(FrameStripes()[m..]) == Interval(LINE_COUNT * m, V_RES)
    decreases STRIPES - m
  {
    if m < STRIPES {
      StripesCover(m + 1);
      var s := FrameStripes()[m..];
      assert s[0] == Stripe(m);
      assert s[1..] == FrameStripes()[m + 1..];
      IntervalSplit(LINE_COUNT * m, LINE_COUNT * m + LINE_COUNT, V_RES);
    } else {
      assert FrameStripes()[m..] == [];
    }
  }

  /** The stripes of a frame cover every row of the panel once, in increasing order. */
  lemma FrameCoversEveryRowOnce()
    ensures RowsOf(FrameStripes()) == Interval(0, V_RES)
  {
    StripesCover(0);
    assert FrameStripes()[0..] == FrameStripes();
  }

  /**
   * The one-row rectangles renderGfx submits from row y on:
   * `for (; y < top + height; y++)`, each `(left, y, left + width, y + 1)`.
   */
  function RowStripes(left: int, width: int, y: int, end: int): seq<Rect>
    decreases end - y
  {
    if y < end then [Rect(left, y, left + width, y + 1)] + RowStripes(left, width, y + 1, end) else []
  }

  lemma {:induction false} RowStripesShape(left: int, width: int, y: int, end: int)
    requires y <= end
    ensures |RowStripes(left, width, y, end)| == end - y
    ensures forall k :: 0 <= k < end - y ==>
      RowStripes(left, width, y, end)[k] == Rect(left, y + k, left + width, y + k + 1)
    decreases end - y
  {
    if y < end {
      RowStripesShape(left, width, y + 1, end);
      var s := RowStripes(left, width, y, end);
      forall k | 0 < k < end - y
        ensures s[k] == Rect(left, y + k, left + width, y + k + 1)
      {
        assert s[k] == RowStripes(left, width, y + 1, end)[k - 1];
      }
    }
  }

  lemma RowStripesHead(left: int, width: int, y: int, end: int)
    requires y < end
    ensures RowStripes(left, width, y, end) != []
    ensures RowStripes(left, width, y, end)[0] == Rect(left, y, left + width, y + 1)
    ensures RowStripes(left, width, y, end)[1..] == RowStripes(left, width, y + 1, end)
  {
  }

  /**
   * renderGfx covers the rows top .. top+height-1 once each, in increasing
   * order, and does not stop at the bottom of the panel.
   */
  lemma {:induction false} RowStripesCover(left: int, width: int, y: int, end: int)
    requires y <= end
    ensures RowsOf(RowStripes(left, width, y, end)) == Interval(y, end)
    decreases end - y
  {
    if y < end {
      RowStripesCover(left, width, y + 1, end);
      var s := RowStripes(left, width, y, end);
      assert s[1..] == RowStripes(left, width, y + 1, end);
      IntervalSplit(y, y + 1, end);
    }
  }
}
