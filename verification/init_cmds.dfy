/**
 * The ST7789 initialisation table of display_init: a list of `lcd_init_cmd_t`
 * entries walked in order, each sent to the panel with
 * esp_lcd_panel_io_tx_param, until the entry whose `dataBytes` is 0xFF.
 *
 * The panel IO call and the delay are recorded as `PanelTx` values in the
 * order the walk makes them.
 */
module InitCommands {

  /** `lcd_init_cmd_t`: command byte, `uint8_t data[16]`, and the `dataBytes` encoding. */
  datatype InitCmd = InitCmd(cmd: bv8, data: seq<bv8>, dataBytes: bv8)

  /** Length of the `data` array of an entry. */
  const DATA_LEN: int := 16
  /** `dataBytes` of the entry that ends the table. */
  const END_MARKER: bv8 := 0xFF
  /** Bit 7 of `dataBytes`: wait after sending the entry. */
  const DELAY_FLAG: bv8 := 0x80
  /** The low five bits of `dataBytes` hold the number of parameter bytes sent. */
  const COUNT_MASK: bv8 := 0x1F

  /** `dataBytes & 0x1F`. */
  function ParamCount(c: InitCmd): (n: nat)
    ensures n <= 31
  {
    (c.dataBytes & COUNT_MASK) as nat
  }

  /** `dataBytes & 0x80` is non-zero. */
  predicate DelayAfter(c: InitCmd) {
    c.dataBytes & DELAY_FLAG != 0
  }

  /** `dataBytes == 0xFF`: the walk stops here and sends nothing for this entry. */
  predicate IsEnd(c: InitCmd) {
    c.dataBytes == END_MARKER
  }

  /** The parameter bytes the walk reads lie inside the entry's 16-byte `data`. */
  predicate Sendable(c: InitCmd) {
    |c.data| == DATA_LEN && ParamCount(c) <= DATA_LEN
  }

  /**
   * The `dataBytes` value for `count` parameter bytes, with bit 7 set when a
   * delay should follow.
   */
  function DataBytes(count: nat, delay: bool): (b: bv8)
    requires count <= DATA_LEN
  {
    (if delay then DELAY_FLAG else 0) | (count as bv8)
  }

  /** Decoding an encoded `dataBytes` gives back the count and the delay flag. */
  lemma DataBytesRoundTrip(cmd: bv8, data: seq<bv8>, count: nat, delay: bool)
    requires count <= DATA_LEN
    ensures ParamCount(InitCmd(cmd, data, DataBytes(count, delay))) == count
    ensures DelayAfter(InitCmd(cmd, data, DataBytes(count, delay))) == delay
  {
    var b := DataBytes(count, delay);
    var c := count as bv8;
    assert c & COUNT_MASK == c && c & DELAY_FLAG == 0 by {
      assert c <= 16;
    }
  }

  /** No entry with at most 16 parameter bytes can be mistaken for the end of the table. */
  lemma EndMarkerIsNoEntry(count: nat, delay: bool)
    requires count <= DATA_LEN
    ensures DataBytes(count, delay) != END_MARKER
  {
    var c := count as bv8;
    assert c & 0x7F == c by {
      assert c <= 16;
    }
  }

  /** The marker itself would decode as 31 parameter bytes with a delay. */
  lemma EndMarkerDecodes(c: InitCmd)
    requires IsEnd(c)
    ensures ParamCount(c) == 31 && DelayAfter(c) && !Sendable(c)
  {
  }

  /** The `uint16_t` counter of the walk. */
  const U16_MAX: int := 0xFFFF
  newtype U16 = x: int | 0 <= x <= U16_MAX

  /** What one round of the walk does: tx_param(cmd, data, count), then maybe vTaskDelay. */
  datatype PanelTx = PanelTx(cmd: bv8, params: seq<bv8>, delayAfter: bool)

  function Tx(c: InitCmd): (t: PanelTx)
    requires Sendable(c)
  {
    PanelTx(c.cmd, c.data[..ParamCount(c)], DelayAfter(c))
  }

  /**
   * The walk can start at entry i: an end marker comes at or after i, and
   * every entry before it can be sent.
   */
  predicate WalkableFrom(table: seq<InitCmd>, i: nat)
    decreases |table| - i
  {
    i < |table| && (IsEnd(table[i]) || (Sendable(table[i]) && WalkableFrom(table, i + 1)))
  }

  /** The transactions of the walk from entry i on. */
  function InitTxs(table: seq<InitCmd>, i: nat): seq<PanelTx>
    requires WalkableFrom(table, i)
    decreases |table| - i
  {
    if IsEnd(table[i]) then [] else [Tx(table[i])] + InitTxs(table, i + 1)
  }

  /** The index of the first end marker at or after i. */
  function EndFrom(table: seq<InitCmd>, i: nat): (e: nat)
    requires WalkableFrom(table, i)
    ensures i <= e < |table| && IsEnd(table[e])
    ensures forall j :: i <= j < e ==> !IsEnd(table[j]) && Sendable(table[j])
    decreases |table| - i
  {
    if IsEnd(table[i]) then i else EndFrom(table, i + 1)
  }

  /**
   * The walk from entry i sends exactly the entries i .. e-1, e being the
   * first end marker, in table order, each with its first
   * `dataBytes & 0x1F` data bytes and its delay flag.
   */
  lemma {:induction false} InitTxsShape(table: seq<InitCmd>, i: nat)
    requires WalkableFrom(table, i)
    ensures |InitTxs(table, i)| == EndFrom(table, i) - i
    ensures forall k :: 0 <= k < |InitTxs(table, i)| ==>
      Sendable(table[i + k]) && InitTxs(table, i)[k] == Tx(table[i + k])
    decreases |table| - i
  {
    if !IsEnd(table[i]) {
      InitTxsShape(table, i + 1);
      var rest := InitTxs(table, i + 1);
      forall k | 0 < k < |InitTxs(table, i)|
        ensures InitTxs(table, i)[k] == Tx(table[i + k])
      {
        assert InitTxs(table, i)[k] == rest[k - 1];
      }
    }
  }

  /** A table with an end marker at e and only sendable entries before it can be walked from any i <= e. */
  lemma {:induction false} WalkableUpTo(table: seq<InitCmd>, i: nat, e: nat)
    requires i <= e < |table| && IsEnd(table[e])
    requires forall j :: i <= j < e ==> !IsEnd(table[j]) && Sendable(table[j])
    ensures WalkableFrom(table, i) && EndFrom(table, i) == e
    decreases e - i
  {
    if i < e {
      WalkableUpTo(table, i + 1, e);
    }
  }

  /** Entries after the end marker are never read: appending to the table changes nothing. */
  lemma {:induction false} InitTxsIgnoresTail(table: seq<InitCmd>, tail: seq<InitCmd>, i: nat)
    requires WalkableFrom(table, i)
    ensures WalkableFrom(table + tail, i) && InitTxs(table + tail, i) == InitTxs(table, i)
    decreases |table| - i
  {
    assert (table + tail)[i] == table[i];
    if !IsEnd(table[i]) {
      InitTxsIgnoresTail(table, tail, i + 1);
    }
  }

  /**
   * The loop of display_init: `while (st_init_cmds[cmd].dataBytes != 0xff)`
   * send the entry with `dataBytes & 0x1F` bytes, delay if bit 7 is set,
   * `cmd++`. The `uint16_t` counter reaches every entry up to the marker.
   */
  method SendInitCommands(table: seq<InitCmd>) returns (sent: seq<PanelTx>)
    requires WalkableFrom(table, 0) && EndFrom(table, 0) <= U16_MAX
    ensures sent == InitTxs(table, 0)
  {
    var cmd: U16 := 0;
    sent := [];
    while table[cmd].dataBytes != 0xFF
      invariant cmd as int <= EndFrom(table, 0) && WalkableFrom(table, cmd as int)
      invariant EndFrom(table, cmd as int) == EndFrom(table, 0)
      invariant sent + InitTxs(table, cmd as int) == InitTxs(table, 0)
      decreases EndFrom(table, 0) - cmd as int
    {
      var entry := table[cmd];
      var tx := PanelTx(entry.cmd, entry.data[..ParamCount(entry)], DelayAfter(entry));
      assert InitTxs(table, cmd as int) == [tx] + InitTxs(table, cmd as int + 1);
      sent := sent + [tx];
      cmd := cmd + 1;
    }
  }

  // ---------------------------------------------------------------- the ST7789 table

  /** A C initialiser `{b0, b1, ...}` for `uint8_t data[16]`: the missing bytes are zero. */
  function Data(bytes: seq<bv8>): (d: seq<bv8>)
    requires |bytes| <= DATA_LEN
    ensures |d| == DATA_LEN && d[..|bytes|] == bytes
  {
    bytes + seq(DATA_LEN - |bytes|, _ => 0)
  }

  /** The `E1` gamma values as listed: fifteen bytes. */
  const E1_LISTED: seq<bv8> :=
    [0xD0, 0x05, 0x09, 0x09, 0x08, 0x03, 0x24, 0x32, 0x32, 0x3B, 0x14, 0x13, 0x28, 0x2F, 0x1F]

  /** Entry i of `st_init_cmds`; entry 19 is the end marker `{0, {0}, 0xff}`. */
  function St7789Entry(i: nat): InitCmd
    requires i < 20
  {
    match i
    case 0 => InitCmd(0x01, Data([0]), 0x80)
    case 1 => InitCmd(0x3A, Data([0x05]), 1)
    case 2 => InitCmd(0xC5, Data([0x1A]), 1)
    case 3 => InitCmd(0xB2, Data([0x05, 0x05, 0x00, 0x33, 0x33]), 5)
    case 4 => InitCmd(0xB7, Data([0x05]), 1)
    case 5 => InitCmd(0xBB, Data([0x3F]), 1)
    case 6 => InitCmd(0xC0, Data([0x2C]), 1)
    case 7 => InitCmd(0xC2, Data([0x01]), 1)
    case 8 => InitCmd(0xC3, Data([0x0F]), 1)
    case 9 => InitCmd(0xC4, Data([0xBE]), 1)
    case 10 => InitCmd(0xC6, Data([0x01]), 1)
    case 11 => InitCmd(0xD0, Data([0xA4, 0xA1]), 2)
    case 12 => InitCmd(0xE8, Data([0x03]), 1)
    case 13 => InitCmd(0xE9, Data([0x09, 0x09, 0x08]), 3)
    case 14 => InitCmd(0xE0, Data([0xD0, 0x05, 0x09, 0x09, 0x08, 0x14, 0x28, 0x33, 0x3F, 0x07, 0x13, 0x14, 0x28, 0x30]), 14)
    case 15 => InitCmd(0xE1, Data(E1_LISTED), 14)
    case 16 => InitCmd(0x20, Data([0]), 0)
    case 17 => InitCmd(0x11, Data([0]), 0)
    case 18 => InitCmd(0x29, Data([0]), 0x80)
    case _ => InitCmd(0, Data([0]), 0xFF)
  }

  /** `st_init_cmds` of display_init, end marker included. */
  function St7789Table(): (t: seq<InitCmd>)
    ensures |t| == 20
  {
    seq(20, i requires 0 <= i < 20 => St7789Entry(i))
  }

  /** Transaction k of display_init: what the walk should send for entry k. */
  function St7789Tx(k: nat): PanelTx
    requires k < 19
  {
    match k
    case 0 => PanelTx(0x01, [], true)
    case 1 => PanelTx(0x3A, [0x05], false)
    case 2 => PanelTx(0xC5, [0x1A], false)
    case 3 => PanelTx(0xB2, [0x05, 0x05, 0x00, 0x33, 0x33], false)
    case 4 => PanelTx(0xB7, [0x05], false)
    case 5 => PanelTx(0xBB, [0x3F], false)
    case 6 => PanelTx(0xC0, [0x2C], false)
    case 7 => PanelTx(0xC2, [0x01], false)
    case 8 => PanelTx(0xC3, [0x0F], false)
    case 9 => PanelTx(0xC4, [0xBE], false)
    case 10 => PanelTx(0xC6, [0x01], false)
    case 11 => PanelTx(0xD0, [0xA4, 0xA1], false)
    case 12 => PanelTx(0xE8, [0x03], false)
    case 13 => PanelTx(0xE9, [0x09, 0x09, 0x08], false)
    case 14 => PanelTx(0xE0, [0xD0, 0x05, 0x09, 0x09, 0x08, 0x14, 0x28, 0x33, 0x3F, 0x07, 0x13, 0x14, 0x28, 0x30], false)
    case 15 => PanelTx(0xE1, [0xD0, 0x05, 0x09, 0x09, 0x08, 0x03, 0x24, 0x32, 0x32, 0x3B, 0x14, 0x13, 0x28, 0x2F], false)
    case 16 => PanelTx(0x20, [], false)
    case 17 => PanelTx(0x11, [], false)
    case _ => PanelTx(0x29, [], true)
  }

  /** Entry j of the table is an ordinary command and the walk sends transaction j for it. */
  predicate SendsListed(j: nat)
    requires j < 19
  {
    !IsEnd(St7789Table()[j]) && Sendable(St7789Table()[j]) && Tx(St7789Table()[j]) == St7789Tx(j)
  }

  /** Entries 0 to 4: reset, pixel format, VCOM offset, porch control, gate control. */
  lemma St7789Entries0To4()
    ensures forall j :: 0 <= j < 5 ==> SendsListed(j)
  {
  }

  /** Entries 5 to 9: VCOM and power settings. */
  lemma St7789Entries5To9()
    ensures forall j :: 5 <= j < 10 ==> SendsListed(j)
  {
  }

  /** Entries 10 to 14: frame rate, power control, positive gamma. */
  lemma St7789Entries10To14()
    ensures forall j :: 10 <= j < 15 ==> SendsListed(j)
  {
  }

  /** Entries 15 to 18: negative gamma, inversion, sleep out, display on. */
  lemma St7789Entries15To18()
    ensures forall j :: 15 <= j < 19 ==> SendsListed(j)
  {
  }

  /** Every entry of the table before the marker at 19 is a command the walk sends. */
  lemma St7789Walkable()
    ensures WalkableFrom(St7789Table(), 0) && EndFrom(St7789Table(), 0) == 19
    ensures forall j :: 0 <= j < 19 ==> SendsListed(j)
  {
    St7789Entries0To4();
    St7789Entries5To9();
    St7789Entries10To14();
    St7789Entries15To18();
    WalkableUpTo(St7789Table(), 0, 19);
  }

  /**
   * display_init sends the nineteen ST7789 commands in table order, each
   * with the number of parameter bytes its `dataBytes` gives, and waits
   * only after software reset (0x01) and display on (0x29).
   */
  lemma St7789Sequence()
    ensures WalkableFrom(St7789Table(), 0) && |InitTxs(St7789Table(), 0)| == 19
    ensures forall k :: 0 <= k < 19 ==> InitTxs(St7789Table(), 0)[k] == St7789Tx(k)
  {
    St7789Walkable();
    InitTxsShape(St7789Table(), 0);
    var sent := InitTxs(St7789Table(), 0);
    forall k | 0 <= k < 19
      ensures sent[k] == St7789Tx(k)
    {
      assert SendsListed(k);
    }
  }

  /**
   * The E1 entry lists fifteen gamma bytes but its `dataBytes` is 14: the
   * first fourteen are sent and the last one, 0x1F, never is.
   */
  lemma E1SendsFourteenOfFifteen()
    ensures WalkableFrom(St7789Table(), 0)
    ensures |InitTxs(St7789Table(), 0)| == 19
    ensures InitTxs(St7789Table(), 0)[15].cmd == 0xE1
    ensures InitTxs(St7789Table(), 0)[15].params == E1_LISTED[..14]
    ensures |E1_LISTED| == 15 && E1_LISTED[14] == 0x1F
  {
    St7789Sequence();
    assert St7789Tx(15).params == E1_LISTED[..14];
  }
}
