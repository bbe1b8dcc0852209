/**
 * What the pixel routines hand to the panel, as a pure specification.
 *
 * All three routines share one pattern: write pixels into `line[calc_line]`,
 * set `sending_line = calc_line`, toggle `calc_line = !calc_line`, then call
 * esp_lcd_panel_draw_bitmap with a rectangle and `line[sending_line]`.
 * `Blit` is that pattern run over a sequence of rectangles: it returns the
 * draw_bitmap calls made (each with a snapshot of the buffer it was given)
 * and the contents of the two line buffers afterwards. What each routine
 * writes per rectangle is a `Producer`.
 */
module Submissions {
  import opened Pixels
  import opened Geometry

  datatype Option<T> = None | Some(value: T)

  /**
   * One esp_lcd_panel_draw_bitmap call: the rectangle, the index of the line
   * buffer passed (`sending_line`), and that buffer's contents at the call.
   */
  datatype Submission = Submission(rect: Rect, line: nat, pixels: seq<bv16>)

  /** The pixels the panel reads for a submission: the first Area(rect) entries. */
  function Shown(s: Submission): seq<bv16>
    requires 0 <= Area(s.rect) <= |s.pixels|
  {
    s.pixels[..Area(s.rect)]
  }

  /** n copies of one pixel value. */
  function Fill(c: bv16, n: nat): (r: seq<bv16>)
    ensures |r| == n && forall j :: 0 <= j < n ==> r[j] == c
  {
    seq(n, _ => c)
  }

  /**
   * renderGfx's pixel source: the tileset buffer, the offset (sx, sy) of the
   * sub-rectangle to copy, and the row stride tileSetWidth.
   */
  datatype Tileset = Tileset(pixels: seq<bv16>, sx: int, sy: int, stride: int)

  /** `(yv + sy) * tileSetWidth + (xv + sx)`: the source index of output column xv of output row yv. */
  function TileIndex(t: Tileset, yv: int, xv: int): int {
    (yv + t.sy) * t.stride + (xv + t.sx)
  }

  /** Columns 0 .. width-1 of output row yv are all inside the tileset buffer. */
  predicate RowInTile(t: Tileset, width: int, yv: int) {
    forall xv :: 0 <= xv < width ==> 0 <= TileIndex(t, yv, xv) < |t.pixels|
  }

  /** Every pixel renderGfx reads for a width x height region is inside the tileset buffer. */
  predicate RegionInTile(t: Tileset, width: int, height: int) {
    forall yv :: 0 <= yv < height ==> RowInTile(t, width, yv)
  }

  /**
   * The stripe display_send_fb builds for rows y .. y+23 of a 320x240 frame:
   * entry i*320+x is the swapped pixel (y+i)*320+x, so the stripe is the
   * swapped image of the 7680 consecutive frame pixels from row y on.
   */
  function StripeImage(src: seq<bv16>, y: int): (r: seq<bv16>)
    requires 0 <= y && y + LINE_COUNT <= V_RES && |src| >= H_RES * V_RES
    ensures |r| == LINE_LEN
  {
    SwapAllMasked(src[y * 320 .. y * 320 + LINE_LEN])
  }

  /** Entry j of a stripe is the swapped frame pixel j places after the stripe's first pixel. */
  lemma StripeImageEntry(src: seq<bv16>, y: int, j: int)
    requires 0 <= y && y + LINE_COUNT <= V_RES && |src| >= H_RES * V_RES && 0 <= j < LINE_LEN
    ensures StripeImage(src, y)[j] == SwapMasked(src[y * 320 + j])
  {
    SwapAllMaskedAt(src[y * 320 .. y * 320 + LINE_LEN], j);
  }

  /** Entry (i, x) of a stripe is the swapped frame pixel at row y+i, column x. */
  lemma StripeImageAt(src: seq<bv16>, y: int, i: int, x: int)
    requires 0 <= y && y + LINE_COUNT <= V_RES && |src| >= H_RES * V_RES
    requires 0 <= i < LINE_COUNT && 0 <= x < H_RES
    ensures StripeImage(src, y)[i * 320 + x] == SwapMasked(src[(y + i) * 320 + x])
  {
    StripeImageEntry(src, y, i * 320 + x);
  }

  /** The unswapped pixels of output row yv: `buffer[(yv+sy)*tileSetWidth + xv+sx]` for xv < width. */
  function TileRow(t: Tileset, width: nat, yv: int): (r: seq<bv16>)
    requires RowInTile(t, width, yv)
    ensures |r| == width
  {
    seq(width, xv requires 0 <= xv < width => t.pixels[TileIndex(t, yv, xv)])
  }

  /** The row renderGfx builds for output row yv: each pixel of the tileset row swapped. */
  function RowImage(t: Tileset, width: nat, yv: int): (r: seq<bv16>)
    requires RowInTile(t, width, yv)
    ensures |r| == width
  {
    SwapAllShifted(TileRow(t, width, yv))
  }

  /** Entry xv of a row is the swapped tileset pixel of column xv. */
  lemma RowImageAt(t: Tileset, width: nat, yv: int, xv: int)
    requires RowInTile(t, width, yv) && 0 <= xv < width
    ensures RowImage(t, width, yv)[xv] == SwapShifted(t.pixels[TileIndex(t, yv, xv)])
  {
    SwapAllShiftedAt(TileRow(t, width, yv), xv);
  }

  /** What a routine writes into the free line buffer before each submission. */
  datatype Producer =
    | Keep                                     // display_clear: the buffers were filled beforehand
    | Blank(width: nat)                        // zero the first `width` entries
    | Frame(src: seq<bv16>)                    // display_send_fb: swapped copy of a 24-row stripe
    | Tiles(tiles: Tileset, top: int, width: nat)  // renderGfx: swapped copy of one tileset row

  /** How many leading entries of the buffer a producer writes. */
  function Written(p: Producer): nat {
    match p
    case Keep => 0
    case Blank(w) => w
    case Frame(_) => LINE_LEN
    case Tiles(_, _, w) => w
  }

  /** The producer fits the line buffer and reads only inside its source for rectangle r. */
  predicate CanProduce(p: Producer, r: Rect) {
    Written(p) <= LINE_LEN &&
    match p
    case Keep => true
    case Blank(_) => true
    case Frame(src) => 0 <= r.y0 && r.y0 + LINE_COUNT <= V_RES && |src| >= H_RES * V_RES
    case Tiles(t, top, w) => RowInTile(t, w, r.y0 - top)
  }

  /** The producer can produce every rectangle of `rects`. */
  predicate AllProducible(p: Producer, rects: seq<Rect>)
    decreases |rects|
  {
    rects == [] || (CanProduce(p, rects[0]) && AllProducible(p, rects[1..]))
  }

  lemma {:induction false} AllProducibleAt(p: Producer, rects: seq<Rect>, k: int)
    requires AllProducible(p, rects) && 0 <= k < |rects|
    ensures CanProduce(p, rects[k])
    decreases k
  {
    if k > 0 {
      AllProducibleAt(p, rects[1..], k - 1);
    }
  }

  /** The entries a producer writes, from index 0, for rectangle r. */
  function Produce(p: Producer, r: Rect): (s: seq<bv16>)
    requires CanProduce(p, r)
    ensures |s| == Written(p)
  {
    match p
    case Keep => []
    case Blank(w) => Fill(0, w)
    case Frame(src) => StripeImage(src, r.y0)
    case Tiles(t, top, w) => RowImage(t, w, r.y0 - top)
  }

  /** The two line buffers, each LCD_H_RES * LINE_COUNT pixels. */
  predicate LinesOk(lines: seq<seq<bv16>>) {
    |lines| == 2 && |lines[0]| == LINE_LEN && |lines[1]| == LINE_LEN
  }

  /** C's `!calc_line` on a buffer index 0 or 1. */
  function Toggle(active: nat): nat {
    if active == 0 then 1 else 0
  }

  /** A buffer after `prefix` is written at its start; the rest keeps its old contents. */
  function Overwrite(buf: seq<bv16>, prefix: seq<bv16>): (r: seq<bv16>)
    requires |prefix| <= |buf|
    ensures |r| == |buf|
  {
    prefix + buf[|prefix|..]
  }

  /** Writing a whole buffer's worth replaces the buffer. */
  lemma OverwriteWhole(buf: seq<bv16>, prefix: seq<bv16>)
    requires |prefix| == |buf|
    ensures Overwrite(buf, prefix) == prefix
  {
    assert buf[|prefix|..] == [];
  }

  /** Zeroing the first w entries of a buffer. */
  lemma BlankProduced(w: nat, buf: seq<bv16>, r: Rect)
    requires w <= LINE_LEN && w <= |buf|
    ensures CanProduce(Blank(w), r) && Overwrite(buf, Produce(Blank(w), r)) == Fill(0, w) + buf[w..]
  {
  }

  /** Buffer k mod 2 is one of the two line buffers. */
  lemma ParityLine(lines: seq<seq<bv16>>, k: int)
    requires LinesOk(lines)
    ensures 0 <= k % 2 < 2 && |lines[k % 2]| == LINE_LEN
  {
    var b := k % 2;
    assert b == 0 || b == 1;
  }

  /** The draw_bitmap calls of a routine and the line buffers it leaves behind. */
  datatype Run = Run(log: seq<Submission>, lines: seq<seq<bv16>>)

  /**
   * For each rectangle in turn: write the producer's pixels into
   * `line[active]`, submit the rectangle with that buffer, and toggle active.
   */
  function Blit(p: Producer, rects: seq<Rect>, lines: seq<seq<bv16>>, active: nat): (run: Run)
    requires LinesOk(lines) && active < 2
    requires AllProducible(p, rects)
    ensures LinesOk(run.lines) && |run.log| == |rects|
    decreases |rects|
  {
    if rects == [] then Run([], lines)
    else
      var filled := lines[active := Overwrite(lines[active], Produce(p, rects[0]))];
      var rest := Blit(p, rects[1..], filled, Toggle(active));
      Run([Submission(rects[0], active, filled[active])] + rest.log, rest.lines)
  }

  /** One step of Blit: fill the active buffer for the first rectangle, submit it, go on with the other buffer. */
  lemma BlitUnfold(p: Producer, rects: seq<Rect>, lines: seq<seq<bv16>>, active: nat, filled: seq<seq<bv16>>)
    requires LinesOk(lines) && active < 2 && rects != []
    requires AllProducible(p, rects)
    requires filled == lines[active := Overwrite(lines[active], Produce(p, rects[0]))]
    ensures LinesOk(filled) && AllProducible(p, rects[1..])
    ensures Blit(p, rects, lines, active).log ==
      [Submission(rects[0], active, filled[active])] + Blit(p, rects[1..], filled, Toggle(active)).log
    ensures Blit(p, rects, lines, active).lines == Blit(p, rects[1..], filled, Toggle(active)).lines
  {
  }

  lemma ConcatAssoc<T>(a: seq<T>, b: seq<T>, c: seq<T>)
    ensures a + (b + c) == (a + b) + c
  {
  }

  /**
   * The loop step of every blitting routine: when `expected` is what is
   * logged so far followed by the run of `rects`, writing `pixels` (the
   * producer's output for the first rectangle over the active buffer) and
   * submitting that buffer leaves the rest of `rects` to run from the other
   * buffer.
   */
  lemma BlitStep(p: Producer, rects: seq<Rect>, lines: seq<seq<bv16>>, active: nat, rect: Rect, pixels: seq<bv16>,
                 expected: seq<Submission>, final: seq<seq<bv16>>, done: seq<Submission>)
    requires LinesOk(lines) && active < 2 && rects != [] && rects[0] == rect
    requires AllProducible(p, rects)
    requires pixels == Overwrite(lines[active], Produce(p, rect))
    requires expected == done + Blit(p, rects, lines, active).log
    requires final == Blit(p, rects, lines, active).lines
    ensures LinesOk(lines[active := pixels]) && AllProducible(p, rects[1..])
    ensures expected == (done + [Submission(rect, active, pixels)]) +
      Blit(p, rects[1..], lines[active := pixels], Toggle(active)).log
    ensures final == Blit(p, rects[1..], lines[active := pixels], Toggle(active)).lines
  {
    var filled := lines[active := pixels];
    BlitUnfold(p, rects, lines, active, filled);
    assert filled[active] == pixels;
    ConcatAssoc(done, [Submission(rect, active, pixels)], Blit(p, rects[1..], filled, Toggle(active)).log);
  }

  /**
   * Submission k goes out with rectangle k from buffer (active + k) mod 2, so
   * consecutive submissions alternate buffers; its pixels are what the
   * producer wrote for rectangle k followed by the untouched rest of that
   * buffer as it was before the routine began.
   */
  lemma {:induction false} BlitAt(p: Producer, rects: seq<Rect>, lines: seq<seq<bv16>>, active: nat, k: int)
    requires LinesOk(lines) && active < 2
    requires AllProducible(p, rects)
    requires 0 <= k < |rects|
    ensures CanProduce(p, rects[k])
    ensures Blit(p, rects, lines, active).log[k] ==
      Submission(rects[k], (active + k) % 2, Overwrite(lines[(active + k) % 2], Produce(p, rects[k])))
    decreases k
  {
    var filled := lines[active := Overwrite(lines[active], Produce(p, rects[0]))];
    var rest := Blit(p, rects[1..], filled, Toggle(active));
    assert Blit(p, rects, lines, active).log == [Submission(rects[0], active, filled[active])] + rest.log;
    if k > 0 {
      assert rects[1..][k - 1] == rects[k];
      BlitAt(p, rects[1..], filled, Toggle(active), k - 1);
      assert (Toggle(active) + (k - 1)) % 2 == (active + k) % 2;
      var w := |Produce(p, rects[0])|;
      assert filled[active][w..] == lines[active][w..];
      assert filled[0][Written(p)..] == lines[0][Written(p)..];
      assert filled[1][Written(p)..] == lines[1][Written(p)..];
    }
  }

  /** Consecutive submissions of one routine never use the same line buffer. */
  lemma BlitAlternates(p: Producer, rects: seq<Rect>, lines: seq<seq<bv16>>, active: nat, k: int)
    requires LinesOk(lines) && active < 2
    requires AllProducible(p, rects)
    requires 0 <= k && k + 1 < |rects|
    ensures Blit(p, rects, lines, active).log[k].line != Blit(p, rects, lines, active).log[k + 1].line
  {
    BlitAt(p, rects, lines, active, k);
    BlitAt(p, rects, lines, active, k + 1);
  }

  /** A single submission leaves the other buffer as it was. */
  lemma BlitOneKeepsOther(p: Producer, rects: seq<Rect>, lines: seq<seq<bv16>>, active: nat)
    requires LinesOk(lines) && active < 2 && |rects| == 1
    requires AllProducible(p, rects)
    ensures Blit(p, rects, lines, active).lines[Toggle(active)] == lines[Toggle(active)]
  {
    var filled := lines[active := Overwrite(lines[active], Produce(p, rects[0]))];
    BlitUnfold(p, rects, lines, active, filled);
    assert rects[1..] == [];
  }

  /** Afterwards the buffer used last holds what the last submission sent. */
  lemma {:induction false} BlitLastSent(p: Producer, rects: seq<Rect>, lines: seq<seq<bv16>>, active: nat)
    requires LinesOk(lines) && active < 2 && rects != []
    requires AllProducible(p, rects)
    ensures Blit(p, rects, lines, active).lines[(active + |rects| - 1) % 2] ==
            Blit(p, rects, lines, active).log[|rects| - 1].pixels
    decreases |rects|
  {
    var n := |rects|;
    var filled := lines[active := Overwrite(lines[active], Produce(p, rects[0]))];
    BlitUnfold(p, rects, lines, active, filled);
    var rest := Blit(p, rects[1..], filled, Toggle(active));
    if n == 1 {
      assert rects[1..] == [];
      assert (active + n - 1) % 2 == active;
    } else {
      BlitLastSent(p, rects[1..], filled, Toggle(active));
      ParityAfterToggle(active, n);
      assert Blit(p, rects, lines, active).log[n - 1] == rest.log[n - 2];
    }
  }

  /** Afterwards the other buffer holds what the second-to-last submission sent. */
  lemma {:induction false} BlitSecondLastSent(p: Producer, rects: seq<Rect>, lines: seq<seq<bv16>>, active: nat)
    requires LinesOk(lines) && active < 2 && |rects| >= 2
    requires AllProducible(p, rects)
    ensures Blit(p, rects, lines, active).lines[(active + |rects|) % 2] ==
            Blit(p, rects, lines, active).log[|rects| - 2].pixels
    decreases |rects|
  {
    var n := |rects|;
    var filled := lines[active := Overwrite(lines[active], Produce(p, rects[0]))];
    BlitUnfold(p, rects, lines, active, filled);
    var rest := Blit(p, rects[1..], filled, Toggle(active));
    ParityAfterToggle(active, n);
    if n == 2 {
      BlitOneKeepsOther(p, rects[1..], filled, Toggle(active));
      assert (active + n) % 2 == active;
    } else {
      BlitSecondLastSent(p, rects[1..], filled, Toggle(active));
      assert Blit(p, rects, lines, active).log[n - 2] == rest.log[n - 3];
    }
  }

  lemma ParityAfterToggle(active: nat, n: int)
    requires active < 2 && n >= 1
    ensures (Toggle(active) + (n - 1) - 1) % 2 == (active + n - 1) % 2
    ensures (Toggle(active) + (n - 1)) % 2 == (active + n) % 2
    ensures (active + 2) % 2 == active && (active + 1) % 2 == Toggle(active) && Toggle(Toggle(active)) == active
  {
  }


  /** With nothing written per stripe, the buffers are sent as they are and left unchanged. */
  lemma {:induction false} BlitKeep(rects: seq<Rect>, lines: seq<seq<bv16>>, active: nat)
    requires LinesOk(lines) && active < 2 && AllProducible(Keep, rects)
    ensures Blit(Keep, rects, lines, active).lines == lines
    decreases |rects|
  {
    if rects != [] {
      assert Overwrite(lines[active], []) == lines[active];
      assert lines[active := Overwrite(lines[active], [])] == lines;
      BlitKeep(rects[1..], lines, Toggle(active));
    }
  }

  // ---------------------------------------------------------------- full-frame routines

  /** A producer a full-frame routine can use: a whole-stripe copy, zeros, or nothing. */
  predicate StripeProducer(p: Producer) {
    match p
    case Keep => true
    case Blank(w) => w <= LINE_LEN
    case Frame(src) => |src| >= H_RES * V_RES
    case Tiles(_, _, _) => false
  }

  /** Such a producer can produce every stripe of the frame from stripe k on. */
  lemma {:induction false} StripesProducible(p: Producer, k: int)
    requires StripeProducer(p) && 0 <= k <= STRIPES
    ensures AllProducible(p, FrameStripes()[k..])
    decreases STRIPES - k
  {
    var todo := FrameStripes()[k..];
    if k < STRIPES {
      StripesProducible(p, k + 1);
      assert todo[0] == Stripe(k);
      assert todo[1..] == FrameStripes()[k + 1..];
    } else {
      assert todo == [];
    }
  }

  /** The stripes of a frame from stripe k on, starting from `lines` with `active` as calc_line. */
  function StripesFrom(p: Producer, k: int, lines: seq<seq<bv16>>, active: nat): Run
    requires StripeProducer(p) && 0 <= k <= STRIPES && LinesOk(lines) && active < 2
  {
    StripesProducible(p, k);
    Blit(p, FrameStripes()[k..], lines, active)
  }

  /**
   * The state of a full-frame loop before stripe k: the submissions `done`
   * so far followed by those of the remaining stripes are `expected`, and
   * the remaining stripes leave `final` in the buffers.
   */
  ghost predicate StripesPending(p: Producer, k: int, lines: seq<seq<bv16>>, active: int,
                                 done: seq<Submission>, expected: seq<Submission>, final: seq<seq<bv16>>) {
    StripeProducer(p) && 0 <= k <= STRIPES && LinesOk(lines) && 0 <= active < 2 &&
    expected == done + StripesFrom(p, k, lines, active).log && final == StripesFrom(p, k, lines, active).lines
  }

  /** After the last stripe nothing is pending: everything expected has been done. */
  lemma StripesPendingDone(p: Producer, lines: seq<seq<bv16>>, active: int,
                           done: seq<Submission>, expected: seq<Submission>, final: seq<seq<bv16>>)
    requires StripesPending(p, STRIPES, lines, active, done, expected, final)
    ensures expected == done && final == lines
  {
    assert FrameStripes()[STRIPES..] == [];
  }

  /**
   * One round of a full-frame loop at row y = 24k: after `pixels` (what the
   * producer writes for the stripe, over the active buffer) is submitted,
   * the remaining stripes run from the other buffer.
   */
  lemma StripesFromStep(p: Producer, k: int, y: int, lines: seq<seq<bv16>>, active: nat, pixels: seq<bv16>,
                        expected: seq<Submission>, final: seq<seq<bv16>>, done: seq<Submission>)
    requires StripeProducer(p) && 0 <= k < STRIPES && y == 24 * k && LinesOk(lines) && active < 2
    requires CanProduce(p, Rect(0, y, H_RES, y + LINE_COUNT))
    requires pixels == Overwrite(lines[active], Produce(p, Rect(0, y, H_RES, y + LINE_COUNT)))
    requires expected == done + StripesFrom(p, k, lines, active).log
    requires final == StripesFrom(p, k, lines, active).lines
    ensures LinesOk(lines[active := pixels])
    ensures expected == (done + [Submission(Rect(0, y, H_RES, y + LINE_COUNT), active, pixels)]) +
      StripesFrom(p, k + 1, lines[active := pixels], Toggle(active)).log
    ensures final == StripesFrom(p, k + 1, lines[active := pixels], Toggle(active)).lines
  {
    StripesProducible(p, k);
    var todo := FrameStripes()[k..];
    assert todo[0] == Rect(0, y, H_RES, y + LINE_COUNT);
    BlitStep(p, todo, lines, active, todo[0], pixels, expected, final, done);
    assert todo[1..] == FrameStripes()[k + 1..];
  }

  /** A full-frame routine run from stripe 0 is the run over the whole frame. */
  lemma StripesFromEnds(p: Producer, lines: seq<seq<bv16>>)
    requires StripeProducer(p) && LinesOk(lines)
    ensures AllProducible(p, FrameStripes())
    ensures StripesFrom(p, 0, lines, 0) == Blit(p, FrameStripes(), lines, 0)
  {
    StripesProducible(p, 0);
    assert FrameStripes()[0..] == FrameStripes();
  }

  /**
   * Stripe k of a full-frame routine goes out from buffer k mod 2, which
   * then holds what the producer wrote for the stripe over its old contents.
   */
  lemma StripesAt(p: Producer, lines: seq<seq<bv16>>, k: int)
    requires StripeProducer(p) && LinesOk(lines) && 0 <= k < STRIPES
    ensures CanProduce(p, Rect(0, 24 * k, H_RES, 24 * k + LINE_COUNT))
    ensures |StripesFrom(p, 0, lines, 0).log| == STRIPES
    ensures StripesFrom(p, 0, lines, 0).log[k] ==
      Submission(Rect(0, 24 * k, H_RES, 24 * k + LINE_COUNT), k % 2,
                 Overwrite(lines[k % 2], Produce(p, Rect(0, 24 * k, H_RES, 24 * k + LINE_COUNT))))
  {
    StripesFromEnds(p, lines);
    BlitAt(p, FrameStripes(), lines, 0, k);
    assert FrameStripes()[k] == Rect(0, 24 * k, H_RES, 24 * k + LINE_COUNT);
  }

  // ---------------------------------------------------------------- display_send_fb

  /** display_send_fb's source: a 320x240 frame, or NULL. */
  predicate FrameSourceOk(buffer: Option<seq<bv16>>) {
    buffer.Some? ==> |buffer.value| >= H_RES * V_RES
  }

  /** What display_send_fb writes per stripe (the NULL branch as intended: the whole stripe). */
  function FrameProducer(buffer: Option<seq<bv16>>): Producer {
    match buffer
    case None => Blank(LINE_LEN)
    case Some(src) => Frame(src)
  }

  /** The stripe image display_send_fb sends for rows y .. y+23. */
  function FrameImage(buffer: Option<seq<bv16>>, y: int): (r: seq<bv16>)
    requires FrameSourceOk(buffer) && 0 <= y && y + LINE_COUNT <= V_RES
  {
    match buffer
    case None => Fill(0, LINE_LEN)
    case Some(src) => StripeImage(src, y)
  }

  /** display_send_fb(buffer) run from line buffers `lines`. */
  function FrameRun(buffer: Option<seq<bv16>>, lines: seq<seq<bv16>>): Run
    requires FrameSourceOk(buffer) && LinesOk(lines)
  {
    StripesFrom(FrameProducer(buffer), 0, lines, 0)
  }

  /**
   * display_send_fb makes ten submissions; submission k covers rows 24k to
   * 24k+24 over the full width, uses buffer k mod 2, and sends the swapped
   * stripe of the frame (all zero for NULL), whatever the buffers held.
   */
  lemma FrameRunAt(buffer: Option<seq<bv16>>, lines: seq<seq<bv16>>, k: int)
    requires FrameSourceOk(buffer) && LinesOk(lines) && 0 <= k < STRIPES
    ensures |FrameRun(buffer, lines).log| == STRIPES
    ensures FrameRun(buffer, lines).log[k] ==
      Submission(Rect(0, 24 * k, H_RES, 24 * k + 24), k % 2, FrameImage(buffer, 24 * k))
  {
    StripesAt(FrameProducer(buffer), lines, k);
    ParityLine(lines, k);
    FrameStripeProduced(buffer, lines[k % 2], 24 * k);
  }

  /** The buffer display_send_fb hands over for the stripe at row y: its image, whatever the buffer held. */
  lemma FrameStripeProduced(buffer: Option<seq<bv16>>, buf: seq<bv16>, y: int)
    requires FrameSourceOk(buffer) && |buf| == LINE_LEN && 0 <= y && y + LINE_COUNT <= V_RES
    ensures CanProduce(FrameProducer(buffer), Rect(0, y, H_RES, y + LINE_COUNT))
    ensures Overwrite(buf, Produce(FrameProducer(buffer), Rect(0, y, H_RES, y + LINE_COUNT))) == FrameImage(buffer, y)
  {
    OverwriteWhole(buf, Produce(FrameProducer(buffer), Rect(0, y, H_RES, y + LINE_COUNT)));
  }

  /** One round of display_send_fb's loop at row y = 24k: the stripe image is sent from the active buffer. */
  lemma FrameFromStep(buffer: Option<seq<bv16>>, k: int, y: int, lines: seq<seq<bv16>>, active: nat,
                      done: seq<Submission>, expected: seq<Submission>, final: seq<seq<bv16>>)
    requires FrameSourceOk(buffer) && k < STRIPES && y == 24 * k
    requires StripesPending(FrameProducer(buffer), k, lines, active, done, expected, final)
    ensures StripesPending(FrameProducer(buffer), k + 1, lines[active := FrameImage(buffer, y)], Toggle(active),
                           done + [Submission(Rect(0, y, H_RES, y + LINE_COUNT), active, FrameImage(buffer, y))], expected, final)
  {
    FrameStripeProduced(buffer, lines[active], y);
    StripesFromStep(FrameProducer(buffer), k, y, lines, active, FrameImage(buffer, y), expected, final, done);
  }

  /** With no source every stripe sent is all 0, whatever was drawn before. */
  lemma BlankFrameIsBlack(lines: seq<seq<bv16>>, k: int)
    requires LinesOk(lines) && 0 <= k < STRIPES
    ensures |FrameRun(None, lines).log| == STRIPES
    ensures Area(FrameRun(None, lines).log[k].rect) == LINE_LEN
    ensures Shown(FrameRun(None, lines).log[k]) == Fill(0, LINE_LEN)
  {
    FrameRunAt(None, lines, k);
  }

  /**
   * The NULL branch of display_send_fb as written: `line[calc_line][x] = 0`
   * for x < 320, repeated once per row of the stripe, so only the first row
   * of each stripe is cleared.
   */
  function BlankFrameRunAsWritten(lines: seq<seq<bv16>>): Run
    requires LinesOk(lines)
  {
    StripesFrom(Blank(H_RES), 0, lines, 0)
  }

  /** One round of the as-written NULL loop at row y = 24k: only the first 320 entries are zeroed. */
  lemma BlankAsWrittenFromStep(k: int, y: int, lines: seq<seq<bv16>>, active: nat,
                               done: seq<Submission>, expected: seq<Submission>, final: seq<seq<bv16>>)
    requires k < STRIPES && y == 24 * k
    requires StripesPending(Blank(H_RES), k, lines, active, done, expected, final)
    ensures var pixels := Fill(0, H_RES) + lines[active][H_RES..];
      StripesPending(Blank(H_RES), k + 1, lines[active := pixels], Toggle(active),
                     done + [Submission(Rect(0, y, H_RES, y + LINE_COUNT), active, pixels)], expected, final)
  {
    BlankProduced(H_RES, lines[active], Rect(0, y, H_RES, y + LINE_COUNT));
    StripesFromStep(Blank(H_RES), k, y, lines, active, Fill(0, H_RES) + lines[active][H_RES..], expected, final, done);
  }

  /** As written, rows 1..23 of each stripe carry whatever the buffer held before. */
  lemma BlankFrameAsWrittenAt(lines: seq<seq<bv16>>, k: int)
    requires LinesOk(lines) && 0 <= k < STRIPES
    ensures |BlankFrameRunAsWritten(lines).log| == STRIPES
    ensures BlankFrameRunAsWritten(lines).log[k].pixels == Fill(0, H_RES) + lines[k % 2][H_RES..]
  {
    StripesAt(Blank(H_RES), lines, k);
    ParityLine(lines, k);
    BlankProduced(H_RES, lines[k % 2], Rect(0, 24 * k, H_RES, 24 * k + LINE_COUNT));
  }

  /**
   * After display_clear(0xFFFF) the blank frame as written sends the second
   * row of its first stripe still white.
   */
  lemma BlankFrameAsWrittenShowsClearColour()
    ensures Shown(BlankFrameRunAsWritten(ClearRun(0xFFFF).lines).log[0])[H_RES] == 0xFFFF
  {
    ClearRunAt(0xFFFF, 0);
    var cleared := ClearRun(0xFFFF).lines;
    BlankFrameAsWrittenAt(cleared, 0);
    FrameStripesTile();
  }

  // ---------------------------------------------------------------- display_clear

  /** display_clear(color): both buffers filled with color, then ten stripes sent unchanged. */
  function ClearRun(color: bv16): Run {
    StripesFrom(Keep, 0, [Fill(color, LINE_LEN), Fill(color, LINE_LEN)], 0)
  }

  /** One round of display_clear's second loop at row y = 24k: the active buffer is sent as it is. */
  lemma ClearFromStep(k: int, y: int, lines: seq<seq<bv16>>, active: nat,
                      done: seq<Submission>, expected: seq<Submission>, final: seq<seq<bv16>>)
    requires k < STRIPES && y == 24 * k
    requires StripesPending(Keep, k, lines, active, done, expected, final)
    ensures StripesPending(Keep, k + 1, lines, Toggle(active),
                           done + [Submission(Rect(0, y, H_RES, y + LINE_COUNT), active, lines[active])], expected, final)
  {
    assert Overwrite(lines[active], []) == lines[active];
    assert lines[active := lines[active]] == lines;
    StripesFromStep(Keep, k, y, lines, active, lines[active], expected, final, done);
  }

  /**
   * display_clear makes ten submissions with the frame's stripes, alternating
   * buffers from 0, each all `color` (not byte swapped), and leaves both
   * buffers filled with `color`.
   */
  lemma ClearRunAt(color: bv16, k: int)
    requires 0 <= k < STRIPES
    ensures |ClearRun(color).log| == STRIPES
    ensures ClearRun(color).log[k] ==
      Submission(Rect(0, 24 * k, H_RES, 24 * k + 24), k % 2, Fill(color, LINE_LEN))
    ensures ClearRun(color).lines == [Fill(color, LINE_LEN), Fill(color, LINE_LEN)]
  {
    var lines := [Fill(color, LINE_LEN), Fill(color, LINE_LEN)];
    StripesAt(Keep, lines, k);
    assert Overwrite(lines[k % 2], []) == lines[k % 2];
    StripesFromEnds(Keep, lines);
    BlitKeep(FrameStripes(), lines, 0);
  }

  // ---------------------------------------------------------------- renderGfx

  /** renderGfx's clamp: a width or height below 1 is taken as 1. */
  function AtLeastOne(v: int): (r: int)
    ensures r >= 1 && (v >= 1 ==> r == v) && (v < 1 ==> r == 1)
  {
    if v < 1 then 1 else v
  }

  /** renderGfx never reads outside its tileset for a width x height region. */
  predicate RegionSourceOk(buffer: Option<seq<bv16>>, sx: int, sy: int, stride: int, width: int, height: int) {
    buffer.Some? ==> RegionInTile(Tileset(buffer.value, sx, sy, stride), width, height)
  }

  /**
   * What renderGfx needs of its caller once the origin is non-negative and
   * width and height are clamped: the row fits a line buffer, the short row
   * counter (and for NULL the short column counter) cannot overflow, and
   * every tileset pixel read is inside the tileset.
   */
  predicate RenderGfxDefined(left: int, top: int, width: int, height: int,
                             buffer: Option<seq<bv16>>, sx: int, sy: int, stride: int) {
    width <= LINE_LEN && top + height <= SHORT_MAX &&
    (buffer.None? ==> left + width <= SHORT_MAX) &&
    RegionSourceOk(buffer, sx, sy, stride, width, height)
  }

  /** What renderGfx writes per row: `width` zeros for NULL, else the swapped tileset row. */
  function RegionProducer(buffer: Option<seq<bv16>>, sx: int, sy: int, stride: int, top: int, width: nat): Producer {
    match buffer
    case None => Blank(width)
    case Some(b) => Tiles(Tileset(b, sx, sy, stride), top, width)
  }

  /** The row renderGfx sends for output row yv of its region. */
  function RegionRow(buffer: Option<seq<bv16>>, sx: int, sy: int, stride: int, width: nat, yv: int): seq<bv16>
    requires buffer.Some? ==> RowInTile(Tileset(buffer.value, sx, sy, stride), width, yv)
  {
    match buffer
    case None => Fill(0, width)
    case Some(b) => RowImage(Tileset(b, sx, sy, stride), width, yv)
  }

  lemma {:induction false} RegionProducible(buffer: Option<seq<bv16>>, sx: int, sy: int, stride: int,
                                           left: int, top: int, width: nat, y: int, height: int)
    requires 1 <= width <= LINE_LEN && top <= y <= top + height
    requires RegionSourceOk(buffer, sx, sy, stride, width, height)
    ensures AllProducible(RegionProducer(buffer, sx, sy, stride, top, width), RowStripes(left, width, y, top + height))
    decreases top + height - y
  {
    if y < top + height {
      RegionProducible(buffer, sx, sy, stride, left, top, width, y + 1, height);
      RowStripesHead(left, width, y, top + height);
    }
  }

  /** The buffer renderGfx hands over for rectangle r: the region's row, then the buffer's old tail. */
  lemma RegionRowProduced(buffer: Option<seq<bv16>>, sx: int, sy: int, stride: int, top: int, width: nat,
                          buf: seq<bv16>, r: Rect)
    requires CanProduce(RegionProducer(buffer, sx, sy, stride, top, width), r) && |buf| == LINE_LEN
    ensures buffer.Some? ==> RowInTile(Tileset(buffer.value, sx, sy, stride), width, r.y0 - top)
    ensures Overwrite(buf, Produce(RegionProducer(buffer, sx, sy, stride, top, width), r)) ==
      RegionRow(buffer, sx, sy, stride, width, r.y0 - top) + buf[width..]
  {
  }

  /** renderGfx's rows from panel row y on, starting from `lines` with `active` as calc_line. */
  function RegionFrom(left: int, top: int, width: nat, height: int,
                      buffer: Option<seq<bv16>>, sx: int, sy: int, stride: int,
                      y: int, lines: seq<seq<bv16>>, active: nat): Run
    requires 1 <= width <= LINE_LEN && 1 <= height && top <= y <= top + height && LinesOk(lines) && active < 2
    requires RegionSourceOk(buffer, sx, sy, stride, width, height)
  {
    RegionProducible(buffer, sx, sy, stride, left, top, width, y, height);
    Blit(RegionProducer(buffer, sx, sy, stride, top, width), RowStripes(left, width, y, top + height), lines, active)
  }

  /** renderGfx on a region already clamped and with a non-negative origin, run from `lines`. */
  function RegionRun(left: int, top: int, width: nat, height: int,
                     buffer: Option<seq<bv16>>, sx: int, sy: int, stride: int,
                     lines: seq<seq<bv16>>): Run
    requires 1 <= width <= LINE_LEN && 1 <= height && LinesOk(lines)
    requires RegionSourceOk(buffer, sx, sy, stride, width, height)
  {
    RegionFrom(left, top, width, height, buffer, sx, sy, stride, top, lines, 0)
  }

  /**
   * One round of renderGfx's loop at panel row y: the row it writes reads
   * inside the tileset, and after submitting it the remaining rows run from
   * the other buffer.
   */
  lemma RegionFromStep(left: int, top: int, width: nat, height: int,
                       buffer: Option<seq<bv16>>, sx: int, sy: int, stride: int,
                       y: int, yv: int, lines: seq<seq<bv16>>, active: nat,
                       expected: seq<Submission>, final: seq<seq<bv16>>, done: seq<Submission>)
    requires 1 <= width <= LINE_LEN && 1 <= height && top <= y < top + height && yv == y - top
    requires LinesOk(lines) && active < 2
    requires RegionSourceOk(buffer, sx, sy, stride, width, height)
    requires expected == done + RegionFrom(left, top, width, height, buffer, sx, sy, stride, y, lines, active).log
    requires final == RegionFrom(left, top, width, height, buffer, sx, sy, stride, y, lines, active).lines
    ensures buffer.Some? ==> RowInTile(Tileset(buffer.value, sx, sy, stride), width, yv)
    ensures var row := RegionRow(buffer, sx, sy, stride, width, yv) + lines[active][width..];
      LinesOk(lines[active := row]) &&
      expected == (done + [Submission(Rect(left, y, left + width, y + 1), active, row)]) +
        RegionFrom(left, top, width, height, buffer, sx, sy, stride, y + 1, lines[active := row], Toggle(active)).log &&
      final == RegionFrom(left, top, width, height, buffer, sx, sy, stride, y + 1, lines[active := row], Toggle(active)).lines
  {
    var p := RegionProducer(buffer, sx, sy, stride, top, width);
    RegionProducible(buffer, sx, sy, stride, left, top, width, y, height);
    var todo := RowStripes(left, width, y, top + height);
    var rect := Rect(left, y, left + width, y + 1);
    RowStripesHead(left, width, y, top + height);
    RegionRowProduced(buffer, sx, sy, stride, top, width, lines[active], rect);
    assert rect.y0 - top == yv;
    BlitStep(p, todo, lines, active, rect, Overwrite(lines[active], Produce(p, rect)), expected, final, done);
  }

  /** Row k of a region is submitted from buffer k % 2, which then holds what the region's producer wrote over it. */
  lemma RegionRunAtOverwrite(left: int, top: int, width: nat, height: int,
                             buffer: Option<seq<bv16>>, sx: int, sy: int, stride: int,
                             lines: seq<seq<bv16>>, k: int)
    requires 1 <= width <= LINE_LEN && 1 <= height && LinesOk(lines)
    requires RegionSourceOk(buffer, sx, sy, stride, width, height)
    requires 0 <= k < height
    ensures CanProduce(RegionProducer(buffer, sx, sy, stride, top, width), Rect(left, top + k, left + width, top + k + 1))
    ensures |RegionRun(left, top, width, height, buffer, sx, sy, stride, lines).log| == height
    ensures RegionRun(left, top, width, height, buffer, sx, sy, stride, lines).log[k] ==
      Submission(Rect(left, top + k, left + width, top + k + 1), k % 2,
                 Overwrite(lines[k % 2], Produce(RegionProducer(buffer, sx, sy, stride, top, width),
                                                 Rect(left, top + k, left + width, top + k + 1))))
  {
    var p := RegionProducer(buffer, sx, sy, stride, top, width);
    var rects := RowStripes(left, width, top, top + height);
    RowStripesShape(left, width, top, top + height);
    RegionProducible(buffer, sx, sy, stride, left, top, width, top, height);
    assert RegionRun(left, top, width, height, buffer, sx, sy, stride, lines) == Blit(p, rects, lines, 0);
    BlitAt(p, rects, lines, 0, k);
    assert rects[k] == Rect(left, top + k, left + width, top + k + 1);
  }

  /**
   * renderGfx makes `height` submissions, one per row top+k in increasing
   * order, with rectangle (left, top+k, left+width, top+k+1) and buffer
   * k mod 2; the first `width` entries are the region's row k and the rest
   * of the buffer is left as it was.
   */
  lemma RegionRunAt(left: int, top: int, width: nat, height: int,
                    buffer: Option<seq<bv16>>, sx: int, sy: int, stride: int,
                    lines: seq<seq<bv16>>, k: int)
    requires 1 <= width <= LINE_LEN && 1 <= height && LinesOk(lines)
    requires RegionSourceOk(buffer, sx, sy, stride, width, height)
    requires 0 <= k < height
    ensures |RegionRun(left, top, width, height, buffer, sx, sy, stride, lines).log| == height
    ensures RegionRun(left, top, width, height, buffer, sx, sy, stride, lines).log[k] ==
      Submission(Rect(left, top + k, left + width, top + k + 1), k % 2,
                 RegionRow(buffer, sx, sy, stride, width, k) + lines[k % 2][width..])
  {
    var rect := Rect(left, top + k, left + width, top + k + 1);
    RegionRunAtOverwrite(left, top, width, height, buffer, sx, sy, stride, lines, k);
    ParityLine(lines, k);
    RegionRowProduced(buffer, sx, sy, stride, top, width, lines[k % 2], rect);
    assert rect.y0 - top == k;
  }

  /** The pixels the panel reads for row k of a region are exactly that row; stale entries are never shown. */
  lemma RegionShown(left: int, top: int, width: nat, height: int,
                    buffer: Option<seq<bv16>>, sx: int, sy: int, stride: int,
                    lines: seq<seq<bv16>>, k: int)
    requires 1 <= width <= LINE_LEN && 1 <= height && LinesOk(lines)
    requires RegionSourceOk(buffer, sx, sy, stride, width, height)
    requires 0 <= k < height
    ensures |RegionRun(left, top, width, height, buffer, sx, sy, stride, lines).log| == height
    ensures var s := RegionRun(left, top, width, height, buffer, sx, sy, stride, lines).log[k];
      Area(s.rect) == width && |s.pixels| == LINE_LEN
    ensures Shown(RegionRun(left, top, width, height, buffer, sx, sy, stride, lines).log[k]) ==
      RegionRow(buffer, sx, sy, stride, width, k)
  {
    RegionRunAt(left, top, width, height, buffer, sx, sy, stride, lines, k);
  }

  // ---------------------------------------------------------------- display_show_splash

  /** The splash wipe copies from a tileset 150 pixels wide and grows to 150 columns. */
  const SPLASH_STRIDE: int := 150
  const SPLASH_STEPS: int := 150

  lemma SplashInTile(data: seq<bv16>, height: int, width: int)
    requires 1 <= width <= SPLASH_STRIDE && 1 <= height && |data| >= height * SPLASH_STRIDE
    ensures RegionSourceOk(Some(data), 0, 0, SPLASH_STRIDE, width, height)
  {
    var t := Tileset(data, 0, 0, SPLASH_STRIDE);
    forall yv | 0 <= yv < height ensures RowInTile(t, width, yv) {
      forall xv | 0 <= xv < width ensures 0 <= TileIndex(t, yv, xv) < |data| {
        assert TileIndex(t, yv, xv) == yv * 150 + xv;
        assert yv * 150 <= (height - 1) * 150;
      }
    }
  }

  /**
   * The wipe steps i .. 150 of display_show_splash: renderGfx(left, top, i,
   * height, data, 0, 0, 150), each step starting from the buffers the
   * previous one left.
   */
  function WipeFrom(left: int, top: int, height: int, data: seq<bv16>, i: int, lines: seq<seq<bv16>>): (run: Run)
    requires 1 <= i <= SPLASH_STEPS + 1 && 1 <= height && |data| >= height * SPLASH_STRIDE
    requires LinesOk(lines)
    ensures LinesOk(run.lines)
    decreases SPLASH_STEPS + 1 - i
  {
    if i <= SPLASH_STEPS then
      SplashInTile(data, height, i);
      var step := RegionRun(left, top, i, height, Some(data), 0, 0, SPLASH_STRIDE, lines);
      var rest := WipeFrom(left, top, height, data, i + 1, step.lines);
      Run(step.log + rest.log, rest.lines)
    else
      Run([], lines)
  }

  /** Wipe steps i .. 150 are still to be made from `lines`, after the submissions `done`. */
  ghost predicate WipePending(left: int, top: int, height: int, data: seq<bv16>, i: int, lines: seq<seq<bv16>>,
                              done: seq<Submission>, expected: seq<Submission>, final: seq<seq<bv16>>) {
    1 <= i <= SPLASH_STEPS + 1 && 1 <= height && |data| >= height * SPLASH_STRIDE && LinesOk(lines) &&
    expected == done + WipeFrom(left, top, height, data, i, lines).log &&
    final == WipeFrom(left, top, height, data, i, lines).lines
  }

  /** Step i of the wipe is one renderGfx of the first i columns; the rest follows from where it leaves the buffers. */
  lemma WipeFromStep(left: int, top: int, height: int, data: seq<bv16>, i: int, lines: seq<seq<bv16>>,
                     done: seq<Submission>, expected: seq<Submission>, final: seq<seq<bv16>>)
    requires WipePending(left, top, height, data, i, lines, done, expected, final) && i <= SPLASH_STEPS
    requires 0 <= left && 0 <= top && top + height <= V_RES
    ensures RenderGfxDefined(left, top, AtLeastOne(i), AtLeastOne(height), Some(data), 0, 0, SPLASH_STRIDE)
    ensures var step := RegionRun(left, top, AtLeastOne(i), AtLeastOne(height), Some(data), 0, 0, SPLASH_STRIDE, lines);
      WipePending(left, top, height, data, i + 1, step.lines, done + step.log, expected, final)
  {
    SplashInTile(data, height, i);
    var step := RegionRun(left, top, i, height, Some(data), 0, 0, SPLASH_STRIDE, lines);
    ConcatAssoc(done, step.log, WipeFrom(left, top, height, data, i + 1, step.lines).log);
  }

  /** After step 150 nothing is left to do. */
  lemma WipePendingDone(left: int, top: int, height: int, data: seq<bv16>, lines: seq<seq<bv16>>,
                        done: seq<Submission>, expected: seq<Submission>, final: seq<seq<bv16>>)
    requires WipePending(left, top, height, data, SPLASH_STEPS + 1, lines, done, expected, final)
    ensures expected == done && final == lines
  {
  }

  /** The wipe from step i on makes (151 - i) * height submissions, one row each. */
  lemma {:induction false} WipeFromLength(left: int, top: int, height: int, data: seq<bv16>, i: int, lines: seq<seq<bv16>>)
    requires 1 <= i <= SPLASH_STEPS + 1 && 1 <= height && |data| >= height * SPLASH_STRIDE
    requires LinesOk(lines)
    ensures |WipeFrom(left, top, height, data, i, lines).log| == (SPLASH_STEPS + 1 - i) * height
    decreases SPLASH_STEPS + 1 - i
  {
    if i <= SPLASH_STEPS {
      SplashInTile(data, height, i);
      var step := RegionRun(left, top, i, height, Some(data), 0, 0, SPLASH_STRIDE, lines);
      RegionRunAt(left, top, i, height, Some(data), 0, 0, SPLASH_STRIDE, lines, 0);
      WipeFromLength(left, top, height, data, i + 1, step.lines);
      assert (SPLASH_STEPS + 1 - i) * height == height + (SPLASH_STEPS - i) * height;
    }
  }

  /** display_show_splash: clear to white, then the 150 wipe steps. */
  function SplashRun(splashWidth: int, splashHeight: int, data: seq<bv16>): Run
    requires 0 <= splashWidth <= H_RES && 1 <= splashHeight <= V_RES
    requires |data| >= splashHeight * SPLASH_STRIDE
  {
    var cleared := ClearRun(0xFFFF);
    ClearRunAt(0xFFFF, 0);
    var wipe := WipeFrom((H_RES - splashWidth) / 2, (V_RES - splashHeight) / 2, splashHeight, data, 1, cleared.lines);
    Run(cleared.log + wipe.log, wipe.lines)
  }

  /** display_show_splash is display_clear(0xFFFF) followed by the wipe from step 1 on the buffers it leaves. */
  lemma SplashStart(splashWidth: int, splashHeight: int, data: seq<bv16>, done: seq<Submission>)
    requires 0 <= splashWidth <= H_RES && 1 <= splashHeight <= V_RES
    requires |data| >= splashHeight * SPLASH_STRIDE
    ensures var wipe := WipeFrom((H_RES - splashWidth) / 2, (V_RES - splashHeight) / 2, splashHeight, data, 1,
                                 ClearRun(0xFFFF).lines);
      done + SplashRun(splashWidth, splashHeight, data).log == (done + ClearRun(0xFFFF).log) + wipe.log &&
      SplashRun(splashWidth, splashHeight, data).lines == wipe.lines
  {
    ClearRunAt(0xFFFF, 0);
    var wipe := WipeFrom((H_RES - splashWidth) / 2, (V_RES - splashHeight) / 2, splashHeight, data, 1, ClearRun(0xFFFF).lines);
    ConcatAssoc(done, ClearRun(0xFFFF).log, wipe.log);
  }

  /** The splash makes 10 + 150 * height submissions. */
  lemma SplashRunLength(splashWidth: int, splashHeight: int, data: seq<bv16>)
    requires 0 <= splashWidth <= H_RES && 1 <= splashHeight <= V_RES
    requires |data| >= splashHeight * SPLASH_STRIDE
    ensures |SplashRun(splashWidth, splashHeight, data).log| == STRIPES + SPLASH_STEPS * splashHeight
  {
    ClearRunAt(0xFFFF, 0);
    WipeFromLength((H_RES - splashWidth) / 2, (V_RES - splashHeight) / 2, splashHeight, data, 1, ClearRun(0xFFFF).lines);
  }
}
