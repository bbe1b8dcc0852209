# ST7789 display driver: pixel path and init-command walk

This project models the core of the ESPlay display driver
(`components/drivers/display/display.c`, `display.h`). The driver feeds a
320x240 ST7789 panel through two DMA line buffers of 320 x 24 pixels each.

- `display_send_fb` sends a 320x240 frame as ten 24-row stripes. Each RGB565
  pixel is byte swapped on the way.
- `renderGfx` sends a sub-rectangle of a tileset one row at a time.
- `display_clear` fills both buffers with one colour and sends the ten stripes.
- `display_show_splash` clears to white, then wipes the splash image in over
  150 `renderGfx` calls.
- `display_init` walks the `lcd_init_cmd_t` table and sends each command with
  the parameter count and delay flag encoded in `dataBytes`.

The model has five modules:

- `Pixels`: the two C forms of the byte swap. The 32-bit promotion and the
  truncating `uint16_t` store are written out.
- `Geometry`: the panel constants and the rectangles each routine submits.
- `Submissions`: the pure specification. `Blit` runs the shared pattern over
  a list of rectangles. The pattern is: fill `line[calc_line]`, set
  `sending_line = calc_line`, toggle `calc_line`, then call
  `esp_lcd_panel_draw_bitmap`. `Blit` returns the calls made and the buffers
  left behind.
- `Display`: class `Blitter`. It holds the two line buffers as arrays and
  records every draw_bitmap call in a ghost log. Its methods carry the source's
  nested loops, and each routine is proved equal to its pure run.
- `InitCommands`: the init table, the `dataBytes` decoding, the `while` walk,
  and the concrete ST7789 table.

## Model

| member | source | states |
|---|---|---|
| Pixels.SwapMasked | components/drivers/display/display.c:184 | the stored result has the input's low byte as its high byte, and the input's high byte as its low byte |
| Pixels.SwapShifted | components/drivers/display/display.c:231 | the same byte exchange for renderGfx's shift-left-then-or form, once the store to `uint16_t` truncates it |
| Pixels.SwapFormsAgree | components/drivers/display/display.c:231 | the renderGfx form and the display_send_fb form give the same value for every pixel |
| Pixels.ShiftedFormNeedsStore | components/drivers/display/display.c:231 | for every pixel with a non-zero high byte, the shifted form before the truncating store exceeds 0xFFFF and keeps that high byte in bits 16-23, so the store is what makes it a swap |
| Pixels.SwapInvolution | components/drivers/display/display.c:184 | swapping twice gives the pixel back, in either form |
| Pixels.SwapAllMaskedAt | components/drivers/display/display.c:181-185 | entry j of a swapped run is pixel j swapped |
| Pixels.SwapAllShiftedAt | components/drivers/display/display.c:228-233 | entry j of a row swapped in renderGfx's form is pixel j swapped |
| Pixels.SwapAllFormsAgree | components/drivers/display/display.c:231 | both forms swap a whole run identically |
| Geometry.FrameStripesTile | components/drivers/display/display.c:172-189 | a frame's stripes start at row 0, each starts where the previous ends, all are full width and 24 rows, and the last ends at row 240 |
| Geometry.FrameCoversEveryRowOnce | components/drivers/display/display.c:172-189 | the stripes cover rows 0..239 exactly once, in increasing order |
| Geometry.RowStripesShape | components/drivers/display/display.c:225-237 | renderGfx submits `height` one-row rectangles; rectangle k is (left, top+k, left+width, top+k+1) |
| Geometry.RowStripesCover | components/drivers/display/display.c:225-239 | renderGfx's rows cover top..top+height-1 exactly once, in increasing order, and are not clipped at the panel's bottom |
| Submissions.StripeImageAt | components/drivers/display/display.c:174-186 | entry i*320+x of the stripe at row y is frame pixel (y+i)*320+x, swapped |
| Submissions.RowImageAt | components/drivers/display/display.c:228-233 | entry xv of renderGfx's row yv is tileset pixel (yv+sy)*tileSetWidth+(xv+sx), swapped |
| Submissions.BlankProduced | components/drivers/display/display.c:158-163 | zeroing the first w entries leaves w zeros followed by the buffer's old tail |
| Submissions.BlitStep | components/drivers/display/display.c:187-189 | one loop round submits the freshly written active buffer; the rest of the run continues from the other buffer |
| Submissions.BlitAt | components/drivers/display/display.c:187-189 | submission k carries rectangle k and buffer (active+k) mod 2; that buffer holds the producer's output over its contents before the routine |
| Submissions.BlitAlternates | components/drivers/display/display.c:187-188 | consecutive submissions never use the same line buffer |
| Submissions.BlitLastSent | components/drivers/display/display.c:187-189 | afterwards the buffer used last holds exactly what the last submission sent |
| Submissions.BlitSecondLastSent | components/drivers/display/display.c:187-189 | afterwards the other buffer holds exactly what the second-to-last submission sent |
| Submissions.BlitKeep | components/drivers/display/display.c:275-280 | a run that writes nothing leaves both buffers unchanged |
| Submissions.StripesAt | components/drivers/display/display.c:172-189 | a full-frame routine makes ten submissions; stripe k goes out from buffer k mod 2 with the producer's output for rows 24k..24k+23 |
| Submissions.FrameRunAt | components/drivers/display/display.c:149-192 | display_send_fb makes ten submissions; submission k is rows 24k..24k+23, full width, buffer k mod 2, carrying the swapped frame stripe whatever the buffers held; with the NULL branch corrected, all zeros for NULL |
| Submissions.FrameStripeProduced | components/drivers/display/display.c:174-186 | the buffer handed over for a stripe is exactly the stripe image (all zeros for NULL, with the NULL branch corrected); no stale entry survives |
| Submissions.FrameFromStep | components/drivers/display/display.c:172-190 | one round of display_send_fb's loop, with the NULL branch corrected, sends the stripe image from the active buffer and leaves the remaining stripes to the other |
| Submissions.BlankFrameIsBlack | components/drivers/display/display.c:154-169 | with the NULL branch corrected, every pixel the panel reads is 0 |
| Submissions.BlankAsWrittenFromStep | components/drivers/display/display.c:156-168 | one round of the NULL loop as written zeroes only the first 320 entries of the active buffer |
| Submissions.BlankFrameAsWrittenAt | components/drivers/display/display.c:156-168 | as written, stripe k sends 320 zeros followed by rows 1-23 of what buffer k mod 2 held before |
| Submissions.BlankFrameAsWrittenShowsClearColour | components/drivers/display/display.c:162 | after display_clear(0xFFFF), the as-written NULL frame still sends pixel 320 (row 1 of stripe 0) as 0xFFFF |
| Submissions.ClearFromStep | components/drivers/display/display.c:275-280 | one round of display_clear's loop sends the active buffer as it is |
| Submissions.ClearRunAt | components/drivers/display/display.c:261-281 | display_clear makes ten submissions; submission k is stripe k from buffer k mod 2, all `color` with no byte swap; both buffers end filled with `color` |
| Submissions.AtLeastOne | components/drivers/display/display.c:202-205 | a clamped width or height equals the argument when that is at least 1, and is exactly 1 otherwise |
| Submissions.RegionRowProduced | components/drivers/display/display.c:208-233 | the buffer handed over for a row is the region's row followed by the buffer's old tail |
| Submissions.RegionFromStep | components/drivers/display/display.c:225-239 | one round of renderGfx's loop reads only inside the tileset; it sends the row from the active buffer and leaves the remaining rows to the other |
| Submissions.RegionRunAtOverwrite | components/drivers/display/display.c:206-240 | renderGfx makes `height` submissions; row k goes out from buffer k mod 2, holding the producer's output over that buffer's old contents |
| Submissions.RegionRunAt | components/drivers/display/display.c:206-240 | submission k is (left, top+k, left+width, top+k+1) from buffer k mod 2; it holds the row (zeros for NULL, swapped tileset row otherwise) and then the buffer's old tail |
| Submissions.RegionShown | components/drivers/display/display.c:237 | the pixels the panel reads for row k are exactly that row; stale buffer contents are never shown |
| Submissions.SplashInTile | components/drivers/display/display.c:248-255 | every wipe step of at most 150 columns reads inside the splash image's 150-wide pixel data |
| Submissions.WipeFromStep | components/drivers/display/display.c:246-255 | wipe step i is one renderGfx of the first i columns that the caller's arguments make well defined; the rest continues from the buffers it leaves |
| Submissions.WipeFromLength | components/drivers/display/display.c:246-257 | the wipe from step i on makes (151 - i) * height submissions |
| Submissions.SplashStart | components/drivers/display/display.c:243-259 | display_show_splash is display_clear(0xFFFF) followed by the wipe from step 1, starting from the white buffers |
| Submissions.SplashRunLength | components/drivers/display/display.c:243-259 | the splash makes 10 + 150 * height submissions |
| Display.Blitter.constructor | components/drivers/display/display.c:286-292 | two distinct line buffers of 320 * 24 entries are allocated, and nothing has been sent yet |
| Display.Blitter.DrawBitmap | components/drivers/display/display.c:167 | a draw_bitmap call records the rectangle, the buffer index and that buffer's contents, and changes no buffer |
| Display.Blitter.ConvertStripe | components/drivers/display/display.c:174-186 | the stripe loops leave the active buffer equal to the swapped stripe image and the other buffer unchanged |
| Display.Blitter.ZeroStripe | components/drivers/display/display.c:156-164 | the corrected NULL loops zero all 7680 entries of the active buffer |
| Display.Blitter.ZeroStripeAsWritten | components/drivers/display/display.c:158-164 | the NULL loops as written zero entries 0..319 only; entries 320..7679 keep their old values |
| Display.Blitter.ZeroRow | components/drivers/display/display.c:210-215 | renderGfx's NULL row loop zeroes the first `width` entries and keeps the rest |
| Display.Blitter.ConvertRow | components/drivers/display/display.c:227-233 | renderGfx's copy loop writes the swapped tileset row into the first `width` entries and keeps the rest |
| Display.Blitter.FillLines | components/drivers/display/display.c:267-273 | both buffers are filled entirely with `color` |
| Display.Blitter.SendStripe | components/drivers/display/display.c:172-189 | one stripe round of display_send_fb writes the stripe image into the active buffer and submits it |
| Display.Blitter.SendBlankStripeAsWritten | components/drivers/display/display.c:156-168 | one stripe round of the NULL branch as written submits 320 zeros followed by the buffer's old tail |
| Display.Blitter.RenderRow | components/drivers/display/display.c:208-239 | one row round of renderGfx writes the row into the active buffer and submits the one-row rectangle |
| Display.Blitter.SendFb | components/drivers/display/display.c:149-192 | display_send_fb makes exactly the submissions of `FrameRun` and leaves its buffers (with NULL treated as intended) |
| Display.Blitter.SendBlankFrameAsWritten | components/drivers/display/display.c:154-169 | display_send_fb(NULL) as written makes the submissions of `BlankFrameRunAsWritten` |
| Display.Blitter.RenderGfx | components/drivers/display/display.c:194-241 | returns aborted exactly when left or top is negative, then with no submission and no buffer change; otherwise it clamps width and height to at least 1 and makes the submissions of `RegionRun` |
| Display.Blitter.RenderRegion | components/drivers/display/display.c:206-240 | the row loop makes exactly the submissions of `RegionRun` |
| Display.Blitter.Clear | components/drivers/display/display.c:261-281 | display_clear makes exactly the submissions of `ClearRun` |
| Display.Blitter.ShowSplash | components/drivers/display/display.c:243-259 | display_show_splash makes exactly the submissions of `SplashRun`: the white clear, then 150 wipe steps |
| Display.Blitter.Wipe | components/drivers/display/display.c:246-257 | the wipe loop for i = 1..150 makes exactly the submissions of `WipeFrom` |
| InitCommands.ParamCount | components/drivers/display/display.c:369 | the parameter count `dataBytes & 0x1F` is at most 31 |
| InitCommands.DataBytesRoundTrip | components/drivers/display/display.h:20 | an entry encoded with n <= 16 parameter bytes and a delay flag decodes back to n and that flag |
| InitCommands.EndMarkerIsNoEntry | components/drivers/display/display.h:20 | no encoded entry with at most 16 parameter bytes equals the 0xFF end marker |
| InitCommands.EndMarkerDecodes | components/drivers/display/display.c:367-370 | the end marker would decode as 31 bytes with a delay, more than `data[16]` holds; the walk stops before sending it |
| InitCommands.EndFrom | components/drivers/display/display.c:367 | the walk stops at the first entry whose `dataBytes` is 0xFF, and every entry before it is sendable |
| InitCommands.InitTxsShape | components/drivers/display/display.c:366-375 | the walk sends entries 0 .. e-1 in table order, e being the first end marker; each carries its command, its first `dataBytes & 0x1F` data bytes and bit 7 as the delay |
| InitCommands.WalkableUpTo | components/drivers/display/display.c:367 | a table with an end marker at e and only sendable entries before it is walked up to e |
| InitCommands.InitTxsIgnoresTail | components/drivers/display/display.c:367 | entries after the end marker are never read; appending to the table changes nothing |
| InitCommands.SendInitCommands | components/drivers/display/display.c:366-375 | the `while` loop with its `uint16_t` counter sends exactly the transactions of `InitTxs` |
| InitCommands.Data | components/drivers/display/display.h:19 | a short initialiser for `uint8_t data[16]` gives 16 bytes, starting with the listed ones |
| InitCommands.St7789Walkable | components/drivers/display/display.c:338-364 | the table's first end marker is entry 19, and entries 0..18 each send their listed transaction |
| InitCommands.St7789Sequence | components/drivers/display/display.c:338-375 | display_init sends the 19 listed commands in order, with the listed parameters, waiting only after 0x01 (reset) and 0x29 (display on) |
| InitCommands.E1SendsFourteenOfFifteen | components/drivers/display/display.c:359 | the E1 entry lists 15 gamma bytes but sends only the first 14; the trailing 0x1F is never sent |

## Left out

- Backlight, brightness, power-off and `display_prepare` are not modelled. They drive LEDC and RTC GPIOs and do not touch the line buffers.
- `display_show_hourglass` and `display_show_empty_battery` are declared in `display.h` but defined nowhere in `display.c`, so there is nothing to model.
- Bus and panel setup in `display_init` is not modelled: SPI bus, panel IO, ST7789 panel object, reset, invert, gap, swap_xy, mirror. These are calls into esp_lcd.
- The allocation failure `abort()` in `display_init` is not modelled. The constructor always allocates.
- Freshly allocated buffer contents are arbitrary in C. Every theorem holds for any initial contents.
- `esp_lcd_panel_draw_bitmap` is modelled as taking a snapshot of the buffer at the call, and its transport errors are not modelled. The real transfer is queued DMA. Whether the next fill of the same buffer can race the transfer is not modelled.
- `vTaskDelay` is not modelled. In the init walk the delay is kept as the `delayAfter` flag of each transaction. In the splash, the delays between wipe steps are dropped.
- `splash.h` is not part of this model. `ShowSplash` takes the image's width, height and pixel data as parameters. It requires the image to fit the panel and the data to hold `height` rows of 150 pixels.
- Display.Blitter.RenderGfx: its `abort()` is modelled as returning `aborted = true` with nothing changed, rather than as process termination.
- Display.Blitter.RenderGfx: requires that every tileset read is in bounds, that a row fits a line buffer, and that the `short` counters `y` and `x` do not step past 32767. The source checks none of these. An out-of-bounds read or write is undefined behaviour in C. When `top + height` (or `left + width`) exceeds 32767, the increment wraps the `short` counter to a negative value (an implementation-defined conversion), `y < height + top` stays true, and the loop does not terminate; the model has no terminating run to give for such input.
- InitCommands.SendInitCommands: requires that the table holds an end marker within reach of the `uint16_t` counter, with at most 16 parameter bytes per entry before it. Otherwise the source reads past the table or past `data[16]`. `St7789Walkable` proves this for the table display_init uses.
- `renderGfx` does not stop at the bottom of the panel. The model follows the code and submits rows beyond 239 if asked to.

## Findings

| source | as written | input that shows it | evidently intended | confidence | as-written member | corrected member |
|---|---|---|---|---|---|---|
| components/drivers/display/display.c:162 | the NULL branch of `display_send_fb` writes `line[calc_line][x] = 0` inside the row loop, so each stripe zeroes only entries 0..319 (its first row) 24 times | `display_clear(0xFFFF)` then `display_send_fb(NULL)`: pixel 320 of the first stripe is still 0xFFFF | `line[calc_line][i * LCD_H_RES + x] = 0`, clearing all 24 rows so that the panel goes black | high; not executed | Submissions.BlankFrameAsWrittenShowsClearColour | Submissions.BlankFrameIsBlack |
