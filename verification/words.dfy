/** The packed operand words: a local address with flags, and the number of columns and rows above it. */
module Words {
  import opened State

  const BIT26 := 0x400_0000
  const BIT29 := 0x2000_0000
  const BIT30 := 0x4000_0000
  const BIT31 := 0x8000_0000
  const BIT32 := 0x1_0000_0000
  const BIT48 := 0x1_0000_0000_0000
  const HALF := 0x1_0000

  /** The all-ones address: no operand. */
  const GARBAGE := BIT32 - 1

  function Pack(rows: nat, cols: nat, local: nat): nat { rows * BIT48 + cols * BIT32 + local }

  function RowsIn(w: nat): nat { w / BIT48 % HALF }
  function ColsIn(w: nat): nat { w / BIT32 % HALF }
  function LocalIn(w: nat): nat { w % BIT32 }

  lemma PackRoundTrip(rows: nat, cols: nat, local: nat)
    requires rows < HALF && cols < HALF && local < BIT32
    ensures RowsIn(Pack(rows, cols, local)) == rows && ColsIn(Pack(rows, cols, local)) == cols
    ensures LocalIn(Pack(rows, cols, local)) == local
  {
    var w := Pack(rows, cols, local);
    assert w / BIT32 == rows * HALF + cols;
    assert w / BIT48 == rows;
  }

  // Destinations, as mvin and compute decode them: 29 row bits.

  function EncodeDest(d: Option<Dest>): nat {
    if d.None? then GARBAGE
    else (if d.value.accumulator then BIT31 else 0) + (if d.value.accumulate then BIT30 else 0) + d.value.row
  }

  function DecodeDest(local: nat): Option<Dest> {
    if local == GARBAGE then None
    else Some(Dest(local / BIT31 % 2 == 1, local / BIT30 % 2 == 1, local % BIT29))
  }

  lemma DestRoundTrip(d: Option<Dest>)
    requires d.Some? ==> d.value.row < BIT29
    ensures EncodeDest(d) < BIT32 && DecodeDest(EncodeDest(d)) == d
  {
    if d.Some? { DestBits(d.value.accumulator, d.value.accumulate, d.value.row); }
  }

  lemma DestBits(a: bool, b: bool, row: nat)
    requires row < BIT29
    ensures var w := (if a then BIT31 else 0) + (if b then BIT30 else 0) + row;
            w < GARBAGE && (w / BIT31 % 2 == 1 <==> a) && (w / BIT30 % 2 == 1 <==> b) && w % BIT29 == row
  {
  }

  // Sources, as mvout decodes them: a width flag, a norm command and 26 row bits.

  function CmdCode(c: NormCmd): nat {
    match c
    case RESET => 0 case SUM => 1 case MEAN => 2 case VARIANCE => 3
    case INV_STDDEV => 4 case MAX => 5 case SUM_EXP => 6 case INV_SUM_EXP => 7
  }

  function CmdOf(code: nat): NormCmd {
    if code == 0 then RESET else if code == 1 then SUM else if code == 2 then MEAN else if code == 3 then VARIANCE
    else if code == 4 then INV_STDDEV else if code == 5 then MAX else if code == 6 then SUM_EXP else INV_SUM_EXP
  }

  function EncodeSource(s: Source): nat {
    (if s.accumulator then BIT31 else 0) + (if s.full then BIT29 else 0) + CmdCode(s.cmd) * BIT26 + s.row
  }

  function DecodeSource(local: nat): Source {
    Source(local / BIT31 % 2 == 1, local / BIT29 % 2 == 1, CmdOf(local / BIT26 % 8), local % BIT26)
  }

  lemma SourceRoundTrip(s: Source)
    requires s.row < BIT26
    ensures EncodeSource(s) < BIT32 && DecodeSource(EncodeSource(s)) == s
  {
    SourceBits(s.accumulator, s.full, CmdCode(s.cmd), s.row);
    assert CmdOf(CmdCode(s.cmd)) == s.cmd;
  }

  lemma SourceBits(a: bool, f: bool, c: nat, row: nat)
    requires row < BIT26 && c < 8
    ensures var w := (if a then BIT31 else 0) + (if f then BIT29 else 0) + c * BIT26 + row;
            w < BIT32 && (w / BIT31 % 2 == 1 <==> a) && (w / BIT29 % 2 == 1 <==> f) && w / BIT26 % 8 == c
              && w % BIT26 == row
  {
  }

  /** mvin and compute reach rows mvout cannot name: an address reads back plainly, as int8 and without a norm command,
      exactly below row 2^26. */
  lemma SameRowBothWays(d: Dest)
    requires d.row < BIT29
    ensures DecodeSource(EncodeDest(Some(d))) == Source(d.accumulator, false, RESET, d.row) <==> d.row < BIT26
  {
    var w := EncodeDest(Some(d));
    assert w % BIT26 < BIT26;
    if d.row < BIT26 { PlainBits(d.accumulator, d.accumulate, d.row); }
  }

  /** The accumulate bit is invisible to mvout. */
  lemma PlainBits(a: bool, b: bool, row: nat)
    requires row < BIT26
    ensures var w := (if a then BIT31 else 0) + (if b then BIT30 else 0) + row;
            (w / BIT31 % 2 == 1 <==> a) && w / BIT29 % 2 == 0 && w / BIT26 % 8 == 0 && w % BIT26 == row
  {
  }
  /** The fields are where the instruction set has them: rows from bit 48, columns from bit 32; bit 31 the accumulator,
      bit 30 accumulate, bit 29 full width, bits 26 to 28 the norm command. */
  lemma FieldsInPlace(rows: nat, cols: nat, local: nat, d: Dest, s: Source)
    requires d.row < 0x2000_0000 && s.row < 0x400_0000
    ensures Pack(rows, cols, local) == rows * 0x1_0000_0000_0000 + cols * 0x1_0000_0000 + local
    ensures EncodeDest(Some(d))
            == (if d.accumulator then 0x8000_0000 else 0) + (if d.accumulate then 0x4000_0000 else 0)
                                   + d.row
    ensures EncodeDest(None) == 0xffff_ffff
    ensures EncodeSource(s) == (if s.accumulator then 0x8000_0000 else 0) + (if s.full then 0x2000_0000 else 0)
                               + CmdCode(s.cmd) * 0x400_0000 + s.row
    ensures CmdOf(1) == SUM && CmdOf(2) == MEAN && CmdOf(3) == VARIANCE && CmdOf(4) == INV_STDDEV
    ensures CmdOf(0) == RESET && CmdOf(5) == MAX && CmdOf(6) == SUM_EXP && CmdOf(7) == INV_SUM_EXP
  {
  }
}
