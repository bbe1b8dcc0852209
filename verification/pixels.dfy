/**
 * RGB565 pixels and the byte swap that turns the in-memory pixel order into
 * the order the ST7789 expects on the SPI wire.
 *
 * The driver writes the swap in two different ways. Both operate on a
 * `uint16_t` that C promotes to a 32-bit `int` before shifting, and both
 * store the result back into a `uint16_t`, which keeps the low 16 bits.
 * The promotion and the truncating store are written out here.
 */
module Pixels {

  /** The high (first on the wire after swapping) byte of a 16-bit pixel. */
  function HighByte(p: bv16): bv8 {
    (p >> 8) as bv8
  }

  /** The low byte of a 16-bit pixel. */
  function LowByte(p: bv16): bv8 {
    (p & 0xFF) as bv8
  }

  /** C's integer promotion of a `uint16_t` operand to a 32-bit `int`. */
  function Promote(p: bv16): bv32 {
    p as bv32
  }

  /** Assigning a 32-bit `int` to a `uint16_t` keeps its low 16 bits. */
  function StoreU16(v: bv32): bv16 {
    (v & 0xFFFF) as bv16
  }

  /** `(pixel >> 8) | ((pixel & 0xff) << 8)`, the form used by display_send_fb. */
  function SwapMasked(p: bv16): (r: bv16)
    ensures HighByte(r) == LowByte(p) && LowByte(r) == HighByte(p)
  {
    StoreU16((Promote(p) >> 8) | ((Promote(p) & 0xFF) << 8))
  }

  /**
   * `(pixel << 8) | (pixel >> 8)`, the form used by renderGfx. Before the
   * store the value can exceed 16 bits: the old high byte is shifted into
   * bits 16..23 and only the truncation discards it.
   */
  function SwapShifted(p: bv16): (r: bv16)
    ensures HighByte(r) == LowByte(p) && LowByte(r) == HighByte(p)
  {
    StoreU16((Promote(p) << 8) | (Promote(p) >> 8))
  }

  /** A pixel is determined by its two bytes. */
  lemma BytesDetermine(a: bv16, b: bv16)
    requires HighByte(a) == HighByte(b) && LowByte(a) == LowByte(b)
    ensures a == b
  {
  }

  /** The two forms of the swap agree on every 16-bit value once stored. */
  lemma SwapFormsAgree(p: bv16)
    ensures SwapMasked(p) == SwapShifted(p)
  {
    BytesDetermine(SwapMasked(p), SwapShifted(p));
  }

  /**
   * Without the truncating store the shifted form is not a 16-bit value:
   * whenever the high byte is non-zero it survives in bits 16-23.
   */
  lemma ShiftedFormNeedsStore(p: bv16)
    requires HighByte(p) != 0
    ensures ((Promote(p) << 8) | (Promote(p) >> 8)) > 0xFFFF
    ensures (((Promote(p) << 8) | (Promote(p) >> 8)) >> 16) as bv8 == HighByte(p)
  {
  }

  /** Swapping twice gives the pixel back, in either form. */
  lemma SwapInvolution(p: bv16)
    ensures SwapMasked(SwapMasked(p)) == p
    ensures SwapShifted(SwapShifted(p)) == p
  {
    BytesDetermine(SwapMasked(SwapMasked(p)), p);
    BytesDetermine(SwapShifted(SwapShifted(p)), p);
  }

  /** Every pixel of a run swapped with display_send_fb's form, in order. */
  function SwapAllMasked(s: seq<bv16>): (r: seq<bv16>)
    ensures |r| == |s|
  {
    if s == [] then [] else [SwapMasked(s[0])] + SwapAllMasked(s[1..])
  }

  /** Every pixel of a run swapped with renderGfx's form, in order. */
  function SwapAllShifted(s: seq<bv16>): (r: seq<bv16>)
    ensures |r| == |s|
  {
    if s == [] then [] else [SwapShifted(s[0])] + SwapAllShifted(s[1..])
  }

  lemma {:induction false} SwapAllMaskedAt(s: seq<bv16>, j: int)
    requires 0 <= j < |s|
    ensures SwapAllMasked(s)[j] == SwapMasked(s[j])
    decreases j
  {
    if j > 0 {
      SwapAllMaskedAt(s[1..], j - 1);
    }
  }

  lemma {:induction false} SwapAllShiftedAt(s: seq<bv16>, j: int)
    requires 0 <= j < |s|
    ensures SwapAllShifted(s)[j] == SwapShifted(s[j])
    decreases j
  {
    if j > 0 {
      SwapAllShiftedAt(s[1..], j - 1);
    }
  }

  /** Both forms swap a whole run of pixels the same way. */
  lemma {:induction false} SwapAllFormsAgree(s: seq<bv16>)
    ensures SwapAllMasked(s) == SwapAllShifted(s)
    decreases |s|
  {
    if s != [] {
      SwapFormsAgree(s[0]);
      SwapAllFormsAgree(s[1..]);
    }
  }
}
