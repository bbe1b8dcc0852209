/**
 * The ST7789 pixel path of the display driver: two line buffers filled in
 * place by nested loops and handed alternately to esp_lcd_panel_draw_bitmap.
 *
 * The draw_bitmap call itself is recorded in the ghost `log` of the blitter,
 * with a snapshot of the buffer it was given. Each routine is proved against
 * the pure run of the same pattern in module Submissions.
 */
module Display {
  import opened Pixels
  import opened Geometry
  import opened Submissions

  // ------------------------------------------------------------ the blitter

  class Blitter {
    /** `uint16_t *line[LINE_BUFFERS]`: the two DMA line buffers. */
    const line: seq<array<bv16>>
    /** The esp_lcd_panel_draw_bitmap calls made so far, oldest first. */
    ghost var log: seq<Submission>

    ghost predicate Valid() {
      |line| == 2 && line[0].Length == LINE_LEN && line[1].Length == LINE_LEN && line[0] != line[1]
    }

    /** The contents of line[0] and line[1]. */
    ghost function Contents(): (c: seq<seq<bv16>>)
      reads line[0], line[1]
      requires Valid()
      ensures LinesOk(c)
    {
      [line[0][..], line[1][..]]
    }

    /** The allocation of the two line buffers in display_init. */
    constructor ()
      ensures Valid() && log == [] && fresh(line[0]) && fresh(line[1])
    {
      var a := new bv16[LINE_LEN];
      var b := new bv16[LINE_LEN];
      line := [a, b];
      log := [];
    }

    /**
     * esp_lcd_panel_draw_bitmap(panel_handle, x0, y0, x1, y1, line[sending]):
     * the transfer is recorded with the buffer's contents at the call.
     */
    method DrawBitmap(x0: int, y0: int, x1: int, y1: int, sending: int)
      requires Valid() && 0 <= sending < 2
      modifies this
      ensures Contents() == old(Contents())
      ensures log == old(log) + [Submission(Rect(x0, y0, x1, y1), sending, Contents()[sending])]
    {
      log := log + [Submission(Rect(x0, y0, x1, y1), sending, line[sending][..])];
    }

    // ---------------------------------------------------------- filling line[calc_line]

    /** The copy branch of display_send_fb for the stripe at row y: 24 rows of 320 swapped pixels. */
    method ConvertStripe(active: nat, src: seq<bv16>, y: int)
      requires Valid() && active < 2
      requires 0 <= y && y + LINE_COUNT <= V_RES && |src| >= H_RES * V_RES
      modifies line[active]
      ensures Contents() == old(Contents())[active := StripeImage(src, y)]
    {
      var a := line[active];
      var i := 0;
      while i < LINE_COUNT
        invariant 0 <= i <= LINE_COUNT
        invariant forall j :: 0 <= j < i * 320 ==> a[j] == SwapMasked(src[y * 320 + j])
      {
        if y + i >= V_RES {
          break;
        }
        var index := i * H_RES;
        var bufferIndex := (y + i) * H_RES;
        var x := 0;
        while x < H_RES
          invariant 0 <= x <= H_RES
          invariant index == i * 320 + x && bufferIndex == (y + i) * 320 + x
          invariant forall j :: 0 <= j < i * 320 + x ==> a[j] == SwapMasked(src[y * 320 + j])
        {
          var pixel := src[bufferIndex];
          bufferIndex := bufferIndex + 1;
          a[index] := SwapMasked(pixel);
          index := index + 1;
          x := x + 1;
        }
        i := i + 1;
      }
      forall j | 0 <= j < LINE_LEN
        ensures a[j] == StripeImage(src, y)[j]
      {
        StripeImageEntry(src, y, j);
      }
      assert a[..] == StripeImage(src, y);
    }

    /** The NULL branch of display_send_fb, clearing the whole stripe (entry i*320+x of row i). */
    method ZeroStripe(active: nat)
      requires Valid() && active < 2
      modifies line[active]
      ensures Contents() == old(Contents())[active := Fill(0, LINE_LEN)]
    {
      var a := line[active];
      var i := 0;
      while i < LINE_COUNT
        invariant 0 <= i <= LINE_COUNT
        invariant forall j :: 0 <= j < i * 320 ==> a[j] == 0
      {
        var x := 0;
        while x < H_RES
          invariant 0 <= x <= H_RES
          invariant forall j :: 0 <= j < i * 320 + x ==> a[j] == 0
        {
          a[i * H_RES + x] := 0;
          x := x + 1;
        }
        i := i + 1;
      }
      assert a[..] == Fill(0, LINE_LEN);
    }

    /**
     * The NULL branch of display_send_fb as written: `line[calc_line][x] = 0`
     * inside the row loop, so every row clears the same first 320 entries.
     */
    method ZeroStripeAsWritten(active: nat)
      requires Valid() && active < 2
      modifies line[active]
      ensures Contents() == old(Contents())[active := Fill(0, H_RES) + old(Contents())[active][H_RES..]]
    {
      var a := line[active];
      var i := 0;
      while i < LINE_COUNT
        invariant 0 <= i <= LINE_COUNT
        invariant forall j :: H_RES <= j < LINE_LEN ==> a[j] == old(a[j])
        invariant i > 0 ==> forall j :: 0 <= j < H_RES ==> a[j] == 0
      {
        var x := 0;
        while x < H_RES
          invariant 0 <= x <= H_RES
          invariant forall j :: H_RES <= j < LINE_LEN ==> a[j] == old(a[j])
          invariant forall j :: 0 <= j < x ==> a[j] == 0
          invariant i > 0 ==> forall j :: 0 <= j < H_RES ==> a[j] == 0
        {
          a[x] := 0;
          x := x + 1;
        }
        i := i + 1;
      }
      assert a[..] == Fill(0, H_RES) + old(a[H_RES..]);
    }

    /** The NULL branch of renderGfx for one row: `width` zeros, counted by the short x from left. */
    method ZeroRow(active: nat, left: Short, width: Short)
      requires Valid() && active < 2
      requires 1 <= width <= LINE_LEN && 0 <= left && left + width <= SHORT_MAX
      modifies line[active]
      ensures Contents() == old(Contents())[active := Fill(0, width) + old(Contents())[active][width..]]
    {
      var a := line[active];
      var xv: Short := 0;
      var x: Short := left;
      while x < width + left
        invariant left <= x <= left + width && xv == x - left
        invariant forall j :: 0 <= j < xv ==> a[j] == 0
        invariant forall j :: xv <= j < LINE_LEN ==> a[j] == old(a[j])
      {
        a[xv] := 0;
        xv := xv + 1;
        x := x + 1;
      }
      assert a[..] == Fill(0, width) + old(a[width..]);
    }

    /** The copy branch of renderGfx for output row yv: `width` swapped tileset pixels. */
    method ConvertRow(active: nat, t: Tileset, width: Short, yv: Short, left: Short)
      requires Valid() && active < 2
      requires 1 <= width <= LINE_LEN && 0 <= left && RowInTile(t, width, yv)
      modifies line[active]
      ensures Contents() == old(Contents())[active := RowImage(t, width, yv) + old(Contents())[active][width..]]
    {
      var a := line[active];
      var xv: Short := 0;
      var i: int := left;
      while i < left + width
        invariant left <= i <= left + width && xv == i - left
        invariant forall j :: 0 <= j < xv ==> a[j] == SwapShifted(t.pixels[TileIndex(t, yv, j)])
        invariant forall j :: xv <= j < LINE_LEN ==> a[j] == old(a[j])
      {
        assert 0 <= TileIndex(t, yv, xv) < |t.pixels|;
        var pixel := t.pixels[(yv + t.sy) * t.stride + (xv + t.sx)];
        a[xv] := SwapShifted(pixel);
        xv := xv + 1;
        i := i + 1;
      }
      forall j | 0 <= j < width
        ensures a[j] == RowImage(t, width, yv)[j]
      {
        RowImageAt(t, width, yv, j);
      }
      assert a[..] == RowImage(t, width, yv) + old(a[width..]);
    }

    /** display_clear's first loop: every entry of both buffers set to `color`, without a swap. */
    method FillLines(color: bv16)
      requires Valid()
      modifies line[0], line[1]
      ensures Contents() == [Fill(color, LINE_LEN), Fill(color, LINE_LEN)]
    {
      var i := 0;
      while i < LINE_BUFFERS
        invariant 0 <= i <= LINE_BUFFERS
        invariant forall b :: 0 <= b < i ==> line[b][..] == Fill(color, LINE_LEN)
      {
        var a := line[i];
        var j := 0;
        while j < H_RES * LINE_COUNT
          invariant 0 <= j <= LINE_LEN
          invariant forall k :: 0 <= k < j ==> a[k] == color
          invariant forall b :: 0 <= b < i ==> line[b][..] == Fill(color, LINE_LEN)
        {
          a[j] := color;
          j := j + 1;
        }
        assert a[..] == Fill(color, LINE_LEN);
        i := i + 1;
      }
    }

    // ---------------------------------------------------------- one round of each loop

    /**
     * One round of display_send_fb's loop at row y: build the stripe in
     * line[calc_line] and submit it.
     */
    method SendStripe(buffer: Option<seq<bv16>>, y: int, calcLine: nat)
      requires Valid() && FrameSourceOk(buffer) && calcLine < 2 && 0 <= y && y + LINE_COUNT <= V_RES
      modifies this, line[calcLine]
      ensures Contents() == old(Contents())[calcLine := FrameImage(buffer, y)]
      ensures log == old(log) + [Submission(Rect(0, y, H_RES, y + LINE_COUNT), calcLine, FrameImage(buffer, y))]
    {
      if buffer.None? {
        ZeroStripe(calcLine);
      } else {
        ConvertStripe(calcLine, buffer.value, y);
      }
      DrawBitmap(0, y, H_RES, y + LINE_COUNT, calcLine);
    }

    /** One round of display_send_fb(NULL)'s loop as written: only the first 320 entries are zeroed. */
    method SendBlankStripeAsWritten(y: int, calcLine: nat)
      requires Valid() && calcLine < 2
      modifies this, line[calcLine]
      ensures Contents() == old(Contents())[calcLine := Fill(0, H_RES) + old(Contents())[calcLine][H_RES..]]
      ensures log == old(log) +
        [Submission(Rect(0, y, H_RES, y + LINE_COUNT), calcLine, Fill(0, H_RES) + old(Contents())[calcLine][H_RES..])]
    {
      ZeroStripeAsWritten(calcLine);
      DrawBitmap(0, y, H_RES, y + LINE_COUNT, calcLine);
    }

    /**
     * One round of renderGfx's loop: output row yv at panel row y, written
     * into line[calc_line] and submitted as a one-row rectangle.
     */
    method RenderRow(left: Short, width: Short, y: Short, yv: Short,
                     buffer: Option<seq<bv16>>, sx: Short, sy: Short, tileSetWidth: Short, calcLine: nat)
      requires Valid() && calcLine < 2 && 1 <= width <= LINE_LEN && 0 <= left
      requires buffer.None? ==> left + width <= SHORT_MAX
      requires buffer.Some? ==> RowInTile(Tileset(buffer.value, sx, sy, tileSetWidth), width, yv)
      modifies this, line[calcLine]
      ensures var row := RegionRow(buffer, sx, sy, tileSetWidth, width, yv) + old(Contents())[calcLine][width..];
        Contents() == old(Contents())[calcLine := row] &&
        log == old(log) + [Submission(Rect(left, y, left + width, y + 1), calcLine, row)]
    {
      if buffer.None? {
        ZeroRow(calcLine, left, width);
      } else {
        ConvertRow(calcLine, Tileset(buffer.value, sx, sy, tileSetWidth), width, yv, left);
      }
      DrawBitmap(left, y, left + width, y + 1, calcLine);
    }

    // ---------------------------------------------------------- the routines

    /**
     * display_send_fb: ten stripes of 24 rows, from the frame with each
     * pixel byte swapped, or all zero for NULL.
     */
    method SendFb(buffer: Option<seq<bv16>>)
      requires Valid() && FrameSourceOk(buffer)
      modifies this, line[0], line[1]
      ensures Valid()
      ensures log == old(log) + FrameRun(buffer, old(Contents())).log
      ensures Contents() == FrameRun(buffer, old(Contents())).lines
    {
      ghost var p := FrameProducer(buffer);
      ghost var total := FrameRun(buffer, Contents());
      ghost var expected := log + total.log;
      ghost var k := 0;
      var calcLine: nat := 0;
      var y := 0;
      while y < V_RES
        invariant y == 24 * k && StripesPending(p, k, Contents(), calcLine, log, expected, total.lines)
      {
        FrameFromStep(buffer, k, y, Contents(), calcLine, log, expected, total.lines);
        SendStripe(buffer, y, calcLine);
        calcLine := Toggle(calcLine);
        y := y + LINE_COUNT;
        k := k + 1;
      }
      StripesPendingDone(p, Contents(), calcLine, log, expected, total.lines);
    }

    /** display_send_fb(NULL) as written: only the first row of each stripe is cleared. */
    method SendBlankFrameAsWritten()
      requires Valid()
      modifies this, line[0], line[1]
      ensures Valid()
      ensures log == old(log) + BlankFrameRunAsWritten(old(Contents())).log
      ensures Contents() == BlankFrameRunAsWritten(old(Contents())).lines
    {
      ghost var p := Blank(H_RES);
      ghost var total := BlankFrameRunAsWritten(Contents());
      ghost var expected := log + total.log;
      ghost var k := 0;
      var calcLine: nat := 0;
      var y := 0;
      while y < V_RES
        invariant y == 24 * k && StripesPending(p, k, Contents(), calcLine, log, expected, total.lines)
      {
        BlankAsWrittenFromStep(k, y, Contents(), calcLine, log, expected, total.lines);
        SendBlankStripeAsWritten(y, calcLine);
        calcLine := Toggle(calcLine);
        y := y + LINE_COUNT;
        k := k + 1;
      }
      StripesPendingDone(p, Contents(), calcLine, log, expected, total.lines);
    }

    /**
     * renderGfx: aborts on a negative origin; otherwise clamps width and
     * height to at least 1 and sends the region one row per submission.
     */
    method RenderGfx(left: Short, top: Short, width: Short, height: Short,
                     buffer: Option<seq<bv16>>, sx: Short, sy: Short, tileSetWidth: Short)
      returns (aborted: bool)
      requires Valid()
      requires left >= 0 && top >= 0 ==>
        RenderGfxDefined(left, top, AtLeastOne(width), AtLeastOne(height), buffer, sx, sy, tileSetWidth)
      modifies this, line[0], line[1]
      ensures Valid()
      ensures aborted == (left < 0 || top < 0)
      ensures aborted ==> log == old(log) && Contents() == old(Contents())
      ensures !aborted ==>
        var run := RegionRun(left, top, AtLeastOne(width), AtLeastOne(height), buffer, sx, sy, tileSetWidth, old(Contents()));
        log == old(log) + run.log && Contents() == run.lines
    {
      if left < 0 || top < 0 {
        return true;
      }
      var w := width;
      var h := height;
      if w < 1 {
        w := 1;
      }
      if h < 1 {
        h := 1;
      }
      assert RenderGfxDefined(left, top, w, h, buffer, sx, sy, tileSetWidth);
      RenderRegion(left, top, w, h, buffer, sx, sy, tileSetWidth);
      return false;
    }

    /** renderGfx's row loop, on a region with a non-negative origin and clamped size. */
    method RenderRegion(left: Short, top: Short, w: Short, h: Short,
                        buffer: Option<seq<bv16>>, sx: Short, sy: Short, tileSetWidth: Short)
      requires Valid() && 0 <= left && 0 <= top && 1 <= w && 1 <= h
      requires RenderGfxDefined(left, top, w, h, buffer, sx, sy, tileSetWidth)
      modifies this, line[0], line[1]
      ensures log == old(log) + RegionRun(left, top, w, h, buffer, sx, sy, tileSetWidth, old(Contents())).log
      ensures Contents() == RegionRun(left, top, w, h, buffer, sx, sy, tileSetWidth, old(Contents())).lines
    {
      ghost var total := RegionRun(left, top, w, h, buffer, sx, sy, tileSetWidth, Contents());
      ghost var expected := log + total.log;
      var calcLine: nat := 0;
      var yv: Short := 0;
      var y: Short := top;
      while y < top + h
        invariant top <= y <= top + h && yv == y - top && calcLine < 2
        invariant expected == log + RegionFrom(left, top, w, h, buffer, sx, sy, tileSetWidth, y, Contents(), calcLine).log
        invariant total.lines == RegionFrom(left, top, w, h, buffer, sx, sy, tileSetWidth, y, Contents(), calcLine).lines
      {
        RegionFromStep(left, top, w, h, buffer, sx, sy, tileSetWidth, y, yv, Contents(), calcLine, expected, total.lines, log);
        RenderRow(left, w, y, yv, buffer, sx, sy, tileSetWidth, calcLine);
        calcLine := Toggle(calcLine);
        y := y + 1;
        yv := yv + 1;
      }
    }

    /**
     * display_clear: fill both buffers with `color` (no byte swap), then
     * send the ten stripes from them without writing them again.
     */
    method Clear(color: bv16)
      requires Valid()
      modifies this, line[0], line[1]
      ensures Valid()
      ensures log == old(log) + ClearRun(color).log
      ensures Contents() == ClearRun(color).lines
    {
      FillLines(color);
      ghost var p := Keep;
      ghost var total := ClearRun(color);
      ghost var expected := log + total.log;
      ghost var k := 0;
      var calcLine: nat := 0;
      var y := 0;
      while y < V_RES
        invariant y == 24 * k && StripesPending(p, k, Contents(), calcLine, log, expected, total.lines)
      {
        ClearFromStep(k, y, Contents(), calcLine, log, expected, total.lines);
        DrawBitmap(0, y, H_RES, y + LINE_COUNT, calcLine);
        calcLine := Toggle(calcLine);
        y := y + LINE_COUNT;
        k := k + 1;
      }
      StripesPendingDone(p, Contents(), calcLine, log, expected, total.lines);
    }

    /**
     * display_show_splash: clear to white, then reveal the splash image
     * centred on the panel in 150 steps, step i drawing its first i columns.
     * The delays between steps are not modelled.
     */
    method ShowSplash(splashWidth: int, splashHeight: int, pixelData: seq<bv16>)
      requires Valid() && 0 <= splashWidth <= H_RES && 1 <= splashHeight <= V_RES
      requires |pixelData| >= splashHeight * SPLASH_STRIDE
      modifies this, line[0], line[1]
      ensures Valid()
      ensures log == old(log) + SplashRun(splashWidth, splashHeight, pixelData).log
      ensures Contents() == SplashRun(splashWidth, splashHeight, pixelData).lines
    {
      SplashStart(splashWidth, splashHeight, pixelData, log);
      Clear(0xFFFF);
      Wipe((H_RES - splashWidth) / 2, (V_RES - splashHeight) / 2, splashHeight, pixelData);
    }

    /** The wipe loop of display_show_splash: renderGfx(left, top, i, height, data, 0, 0, 150) for i = 1 .. 150. */
    method Wipe(left: Short, top: Short, height: int, data: seq<bv16>)
      requires Valid() && 0 <= left && 0 <= top && 1 <= height && top + height <= V_RES
      requires |data| >= height * SPLASH_STRIDE
      modifies this, line[0], line[1]
      ensures Valid()
      ensures log == old(log) + WipeFrom(left, top, height, data, 1, old(Contents())).log
      ensures Contents() == WipeFrom(left, top, height, data, 1, old(Contents())).lines
    {
      ghost var total := WipeFrom(left, top, height, data, 1, Contents());
      ghost var expected := log + total.log;
      var i: Short := 1;
      while i < 151
        invariant Valid() && WipePending(left, top, height, data, i, Contents(), log, expected, total.lines)
      {
        WipeFromStep(left, top, height, data, i, Contents(), log, expected, total.lines);
        var aborted := RenderGfx(left, top, i, height, Some(data), 0, 0, 150);
        i := i + 1;
      }
      WipePendingDone(left, top, height, data, Contents(), log, expected, total.lines);
    }
  }
}
