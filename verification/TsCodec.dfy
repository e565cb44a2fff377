/**
 The headers of TsFields written to and read from a SimpleBuffer
 (3rd/mpegts/ts_packet.cpp, 3rd/mpegts/common.cpp). Reads come back signed and are
 narrowed by assignment to unsigned members, as in the source.
 */
module TsCodec {
  import opened Bytes
  import opened Bitwise
  import opened Buffers
  import opened TsFields

  // ---------- Writing ----------

  // A two-byte write of an unsigned value.
  method WriteU16(sb: SimpleBuffer, v: u16)
    modifies sb`data
    ensures sb.data == old(sb.data) + Be16(v)
  {
    sb.Write2Bytes(v);
  }

  method WriteTsHeader(h: TsHeader, sb: SimpleBuffer)
    modifies sb`data
    ensures sb.data == old(sb.data) + EncodeTs(h)
  {
    hide Low, Be16;
    sb.Write1Byte(h.syncByte);
    var b1b2 := PidWord(h);
    WriteU16(sb, b1b2);
    var b3 := ControlByte(h);
    sb.Write1Byte(b3);
  }

  method PidWord(h: TsHeader) returns (b1b2: u16)
    ensures b1b2 == Low(h.pid, 0x2000) + Low(h.priority, 2) * 0x2000 + Low(h.unitStart, 2) * 0x4000
                    + Low(h.transportError, 2) * 0x8000
  {
    hide Low, Pow2, Mask, Insert;
    Powers();
    b1b2 := Mask(h.pid, 13);
    b1b2 := Insert(b1b2, h.priority, 13, 1);
    b1b2 := Insert(b1b2, h.unitStart, 14, 1);
    b1b2 := Insert(b1b2, h.transportError, 15, 1);
  }

  method ControlByte(h: TsHeader) returns (b3: byte)
    ensures b3 == Low(h.counter, 16) + Low(h.adaptation, 4) * 16 + Low(h.scrambling, 4) * 64
  {
    hide Low, Pow2, Mask, Insert;
    Powers();
    b3 := Mask(h.counter, 4);
    b3 := Insert(b3, h.adaptation, 4, 2);
    b3 := Insert(b3, h.scrambling, 6, 2);
  }

  method WriteAdaptationHeader(h: AdaptationHeader, sb: SimpleBuffer)
    modifies sb`data
    ensures sb.data == old(sb.data) + EncodeAdaptation(h)
  {
    hide Low;
    sb.Write1Byte(h.length);
    if h.length != 0 {
      var val := AdaptationFlags(h);
      sb.Write1Byte(val);
    }
  }

  method AdaptationFlags(h: AdaptationHeader) returns (val: byte)
    ensures val == Low(h.extension, 2) + Low(h.privateData, 2) * 2 + Low(h.splicing, 2) * 4 + Low(h.opcr, 2) * 8
                   + Low(h.pcr, 2) * 16 + Low(h.esPriority, 2) * 32 + Low(h.randomAccess, 2) * 64
                   + Low(h.discontinuity, 2) * 128
  {
    hide Low, Pow2, Mask, Insert;
    Powers();
    val := Mask(h.extension, 1);
    val := Insert(val, h.privateData, 1, 1);
    val := Insert(val, h.splicing, 2, 1);
    val := Insert(val, h.opcr, 3, 1);
    val := Insert(val, h.pcr, 4, 1);
    val := Insert(val, h.esPriority, 5, 1);
    val := Insert(val, h.randomAccess, 6, 1);
    val := Insert(val, h.discontinuity, 7, 1);
  }

  method WritePcr(sb: SimpleBuffer, pcr: u64)
    modifies sb`data
    ensures sb.data == old(sb.data) + EncodePcr(pcr)
  {
    hide Or, Pow2;
    Powers();
    OrBelow(pcr, 7, 0x7E);
    LastClockByte(pcr);
    sb.Write1Byte(pcr / 0x200_0000);
    sb.Write1Byte(pcr / 0x2_0000);
    sb.Write1Byte(pcr / 0x200);
    sb.Write1Byte(pcr / 2);
    sb.Write1Byte(Or(pcr * 128, 0x7E));
    sb.Write1Byte(0);
  }

  lemma LastClockByte(pcr: nat)
    ensures (pcr * 128 + 0x7E) % 256 == Low(pcr, 2) * 128 + 0x7E
  {
    ModUnique(pcr * 128 + 0x7E, 256, pcr / 2, (pcr % 2) * 128 + 0x7E);
  }

  // The prefix is cut to its low four bits when the byte is written.
  method WritePts(sb: SimpleBuffer, prefix: u32, pts: u64)
    modifies sb`data
    ensures sb.data == old(sb.data) + EncodePts(prefix, pts)
  {
    hide Low, Bits, Pow2, Or, Extract, Mask;
    Powers();
    var top, mid, low := Extract(pts, 30, 3), Extract(pts, 15, 15), Mask(pts, 15);
    OrBelow(prefix, 4, top * 2);
    OrBelow(prefix * 8 + top, 1, 1);
    OrBelow(mid, 1, 1);
    OrBelow(low, 1, 1);
    PrefixByte(prefix, top);
    var val := Or(Or(prefix * 16, top * 2), 1);
    sb.Write1Byte(val);
    val := Or(mid * 2, 1);
    WriteU16(sb, val);
    val := Or(low * 2, 1);
    WriteU16(sb, val);
  }

  lemma PrefixByte(prefix: nat, top: nat)
    requires top < 8
    ensures (prefix * 16 + top * 2 + 1) % 256 == Low(prefix, 16) * 16 + top * 2 + 1
  {
    ModUnique(prefix * 16 + top * 2 + 1, 256, prefix / 16, (prefix % 16) * 16 + top * 2 + 1);
  }

  lemma StartCodeBytes(startCode: nat, streamId: byte)
    ensures BigEndian(Low(startCode, 0x100_0000) * 256 + streamId, 4)
         == [Bits(startCode, 0x1_0000, 256), Bits(startCode, 0x100, 256), Low(startCode, 256), streamId]
  {
    var sc := Low(startCode, 0x100_0000);
    var v := sc * 256 + streamId;
    var s := BigEndian(v, 4);
    assert s[3] == ByteOf(v, 0) && s[2] == ByteOf(v, 1) && s[1] == ByteOf(v, 2) && s[0] == ByteOf(v, 3);
    assert ByteOf(v, 1) == ByteOf(v / 256, 0) && v / 256 == sc;
    assert ByteOf(v, 2) == ByteOf(v / 256, 1) == ByteOf(sc / 256, 0);
    assert ByteOf(v, 3) == ByteOf(sc, 2) == ByteOf(sc / 256, 1) == ByteOf(sc / 256 / 256, 0);
    StartCodeDigits(startCode);
  }

  lemma StartCodeDigits(startCode: nat)
    ensures var sc := Low(startCode, 0x100_0000);
            sc % 256 == Low(startCode, 256) && (sc / 256) % 256 == Bits(startCode, 0x100, 256)
            && (sc / 256 / 256) % 256 == Bits(startCode, 0x1_0000, 256)
  {
    var hi := startCode / 0x100_0000;
    var sc := startCode % 0x100_0000;
    assert startCode == sc + 0x100_0000 * hi;
    assert startCode / 256 == sc / 256 + 0x1_0000 * hi;
    assert startCode / 0x1_0000 == sc / 0x1_0000 + 0x100 * hi;
    assert sc / 256 / 256 == sc / 0x1_0000;
  }

  method WritePesHeader(h: PesHeader, sb: SimpleBuffer)
    modifies sb`data
    ensures sb.data == old(sb.data) + EncodePes(h)
  {
    hide Low, Bits, Be16;
    WriteStartCode(h, sb);
    WriteU16(sb, h.length);
    var b6 := FirstFlags(h);
    sb.Write1Byte(b6);
    var b7 := SecondFlags(h);
    sb.Write1Byte(b7);
    sb.Write1Byte(h.headerDataLength);
  }

  method WriteStartCode(h: PesHeader, sb: SimpleBuffer)
    modifies sb`data
    ensures sb.data == old(sb.data) + [Bits(h.startCode, 0x1_0000, 256), Bits(h.startCode, 0x100, 256),
                                       Low(h.startCode, 256), h.streamId]
  {
    hide Low, Bits, ByteOf;
    var b0b1b2b3 := StartCodeWord(h);
    sb.Write4Bytes(b0b1b2b3);
    StartCodeBytes(h.startCode, h.streamId);
  }

  method StartCodeWord(h: PesHeader) returns (v: nat)
    ensures v == Low(h.startCode, 0x100_0000) * 256 + h.streamId
  {
    hide Low, Pow2, Field, Or;
    Powers();
    OrBelow(Low(h.startCode, 0x100_0000), 8, Low(h.streamId, 256));
    LowIs(h.streamId, h.streamId, 256, 0);
    v := Or(Field(h.startCode, 8, 24), Mask(h.streamId, 8));
  }

  method FirstFlags(h: PesHeader) returns (b6: byte)
    ensures b6 == Low(h.original, 2) + Low(h.copyright, 2) * 2 + Low(h.alignment, 2) * 4 + Low(h.pesPriority, 2) * 8
                  + Low(h.pesScrambling, 4) * 16 + Low(h.marker, 4) * 64
  {
    hide Low, Bits, Pow2, Mask, Insert, Extract;
    Powers();
    b6 := Mask(h.original, 1);
    b6 := Insert(b6, h.copyright, 1, 1);
    b6 := Insert(b6, h.alignment, 2, 1);
    b6 := Insert(b6, h.pesPriority, 3, 1);
    b6 := Insert(b6, h.pesScrambling, 4, 2);
    b6 := Insert(b6, h.marker, 6, 2);
  }

  method SecondFlags(h: PesHeader) returns (b7: byte)
    ensures b7 == Low(h.extension, 2) + Low(h.crc, 2) * 2 + Low(h.copyInfo, 2) * 4 + Low(h.trickMode, 2) * 8
                  + Low(h.esRate, 2) * 16 + Low(h.escr, 2) * 32 + Low(h.ptsDtsFlags, 4) * 64
  {
    hide Low, Bits, Pow2, Mask, Insert, Extract;
    Powers();
    b7 := Mask(h.extension, 1);
    b7 := Insert(b7, h.crc, 1, 1);
    b7 := Insert(b7, h.copyInfo, 2, 1);
    b7 := Insert(b7, h.trickMode, 3, 1);
    b7 := Insert(b7, h.esRate, 4, 1);
    b7 := Insert(b7, h.escr, 5, 1);
    b7 := Insert(b7, h.ptsDtsFlags, 6, 2);
  }

  method WritePatHeader(h: PatHeader, sb: SimpleBuffer)
    modifies sb`data
    ensures sb.data == old(sb.data) + EncodePat(h)
  {
    hide Low, Be16;
    sb.Write1Byte(h.tableId);
    var b1b2 := PatLengthWord(h);
    WriteU16(sb, b1b2);
    WriteU16(sb, h.transportStreamId);
    var b5 := VersionByte(h.currentNext, h.version, h.reserved1);
    sb.Write1Byte(b5);
    sb.Write1Byte(h.sectionNumber);
    sb.Write1Byte(h.lastSectionNumber);
  }

  method PatLengthWord(h: PatHeader) returns (b1b2: u16)
    ensures b1b2 == Low(h.sectionLength, 0x1000) + Low(h.reserved0, 4) * 0x1000 + Low(h.b0, 2) * 0x4000
                    + Low(h.syntaxIndicator, 2) * 0x8000
  {
    hide Low, Pow2, Mask, Insert;
    Powers();
    b1b2 := Mask(h.sectionLength, 12);
    b1b2 := Insert(b1b2, h.reserved0, 12, 2);
    b1b2 := Insert(b1b2, h.b0, 14, 1);
    b1b2 := Insert(b1b2, h.syntaxIndicator, 15, 1);
  }

  method WritePmtInfo(e: PmtInfo, sb: SimpleBuffer)
    modifies sb`data
    ensures sb.data == old(sb.data) + EncodeInfo(e)
  {
    hide Low, Bits, Pow2, Mask, Insert, Extract;
    Powers();
    sb.Write1Byte(e.streamType);
    var b1b2 := Mask(e.pid, 13);
    b1b2 := Insert(b1b2, e.reserved0, 13, 3);
    WriteU16(sb, b1b2);
    var b3b4 := Mask(e.infoLength, 12);
    b3b4 := Insert(b3b4, e.reserved1, 12, 4);
    WriteU16(sb, b3b4);
  }

  lemma {:induction false} InfosSnoc(es: seq<PmtInfo>, e: PmtInfo)
    ensures EncodeInfos(es + [e]) == EncodeInfos(es) + EncodeInfo(e)
    decreases |es|
  {
    hide EncodeInfo;
    if es == [] {
      assert [e][1..] == [] && es + [e] == [e];
      assert EncodeInfo(e) + [] == EncodeInfo(e);
    } else {
      assert (es + [e])[1..] == es[1..] + [e];
      InfosSnoc(es[1..], e);
      assert EncodeInfo(es[0]) + (EncodeInfos(es[1..]) + EncodeInfo(e))
             == EncodeInfo(es[0]) + EncodeInfos(es[1..]) + EncodeInfo(e);
    }
  }

  method WritePmtFixed(h: PmtHeader, sb: SimpleBuffer)
    modifies sb`data
    ensures sb.data == old(sb.data) + EncodePmtFixed(h)
  {
    hide Low, LengthWord, Be16;
    ghost var before := sb.data;
    WritePmtFront(h, sb);
    ghost var front := sb.data[|before|..];
    WritePmtTail(h, sb);
    ghost var tail := sb.data[|before| + |front|..];
    assert before + front + tail == before + (front + tail);
  }

  method WritePmtFront(h: PmtHeader, sb: SimpleBuffer)
    modifies sb`data
    ensures sb.data == old(sb.data) + ([h.tableId] + Be16(LengthWord(h)) + Be16(h.programNumber)
                       + [Low(h.currentNext, 2) + Low(h.version, 32) * 2 + Low(h.reserved1, 4) * 64,
                          h.sectionNumber, h.lastSectionNumber])
  {
    hide Low, LengthWord, Be16;
    sb.Write1Byte(h.tableId);
    var b1b2 := PmtLengthWord(h);
    WriteU16(sb, b1b2);
    WriteU16(sb, h.programNumber);
    var b5 := VersionByte(h.currentNext, h.version, h.reserved1);
    sb.Write1Byte(b5);
    sb.Write1Byte(h.sectionNumber);
    sb.Write1Byte(h.lastSectionNumber);
  }

  method VersionByte(currentNext: byte, version: byte, reserved1: byte) returns (b5: byte)
    ensures b5 == Low(currentNext, 2) + Low(version, 32) * 2 + Low(reserved1, 4) * 64
  {
    hide Low, Pow2, Mask, Insert;
    Powers();
    b5 := Mask(currentNext, 1);
    b5 := Insert(b5, version, 1, 5);
    b5 := Insert(b5, reserved1, 6, 2);
  }

  // The length is masked to sixteen bits, so one that exceeds twelve runs into the bits above.
  method PmtLengthWord(h: PmtHeader) returns (b1b2: u16)
    ensures b1b2 == LengthWord(h)
  {
    hide Low, Pow2, Field, Or, Mask;
    Powers();
    LengthWordFits(h);
    LowIs(h.sectionLength, h.sectionLength, 0x1_0000, 0);
    var word := Mask(h.sectionLength, 16);
    word := Or(word, Field(h.reserved0, 12, 2));
    word := Or(word, Field(h.b0, 14, 1));
    word := Or(word, Field(h.syntaxIndicator, 15, 1));
    b1b2 := word;
  }

  method WritePmtTail(h: PmtHeader, sb: SimpleBuffer)
    modifies sb`data
    ensures sb.data == old(sb.data) + (Be16(Low(h.pcrPid, 0x2000) + Low(h.reserved2, 8) * 0x2000)
                                       + Be16(Low(h.programInfoLength, 0x1000) + Low(h.reserved3, 16) * 0x1000))
  {
    hide Low, Bits, Pow2, Mask, Insert, Extract;
    Powers();
    var b8b9 := Mask(h.pcrPid, 13);
    b8b9 := Insert(b8b9, h.reserved2, 13, 3);
    WriteU16(sb, b8b9);
    var b10b11 := Mask(h.programInfoLength, 12);
    b10b11 := Insert(b10b11, h.reserved3, 12, 4);
    WriteU16(sb, b10b11);
  }

  method WritePmtHeader(h: PmtHeader, sb: SimpleBuffer)
    modifies sb`data
    ensures sb.data == old(sb.data) + EncodePmt(h)
  {
    hide EncodePmtFixed, EncodeInfo;
    WritePmtFixed(h, sb);
    for i := 0 to |h.infos|
      invariant sb.data == old(sb.data) + (EncodePmtFixed(h) + EncodeInfos(h.infos[..i]))
    {
      InfosSnoc(h.infos[..i], h.infos[i]);
      assert h.infos[..i + 1] == h.infos[..i] + [h.infos[i]];
      WritePmtInfo(h.infos[i], sb);
    }
    assert h.infos[..|h.infos|] == h.infos;
  }

  // ---------- Reading ----------

  // The value of an unsigned member assigned from a one-byte or two-byte read.
  method ReadU8(sb: SimpleBuffer) returns (v: byte)
    requires sb.Require(1)
    modifies sb`pos
    ensures sb.pos == old(sb.pos) + 1 && v == At(sb.data, old(sb.pos))
  {
    var signed := sb.Read1Byte();
    SignedBack(sb.data[old(sb.pos)], 0x100);
    v := signed % 0x100;
  }

  method ReadU16(sb: SimpleBuffer) returns (v: u16)
    requires sb.Require(2)
    modifies sb`pos
    ensures sb.pos == old(sb.pos) + 2 && v == Word(sb.data, old(sb.pos))
  {
    var signed := sb.Read2Bytes();
    SignedBack(Word(sb.data, old(sb.pos)), 0x1_0000);
    v := signed % 0x1_0000;
  }

  method ReadTsHeader(sb: SimpleBuffer) returns (h: TsHeader)
    requires sb.Require(4)
    modifies sb`pos
    ensures sb.pos == old(sb.pos) + 4 && h == DecodeTs(sb.data, old(sb.pos))
  {
    hide Low, Bits, Pow2, Mask, Insert, Extract;
    Powers();
    h := DEFAULT_TS_HEADER;
    var syncByte := ReadU8(sb);
    var b1b2 := ReadU16(sb);
    h := h.(syncByte := syncByte, pid := Mask(b1b2, 13));
    h := h.(transportError := Extract(b1b2, 13, 1));
    h := h.(unitStart := Extract(b1b2, 14, 1));
    h := h.(transportError := Extract(b1b2, 15, 1));
    var b3 := ReadU8(sb);
    h := h.(counter := Mask(b3, 4), adaptation := Extract(b3, 4, 2), scrambling := Extract(b3, 6, 2));
  }

  // A header whose read would run past the end of the buffer fails its assertion.
  method ReadAdaptationHeader(sb: SimpleBuffer) returns (ok: bool, h: AdaptationHeader)
    requires 0 <= sb.pos
    modifies sb`pos
    ensures h == DecodeAdaptation(sb.data, old(sb.pos)) || !ok
    ensures ok <==> old(sb.pos) + AdaptationSize(DecodeAdaptation(sb.data, old(sb.pos))) <= |sb.data|
    ensures ok ==> sb.pos == old(sb.pos) + AdaptationSize(h)
  {
    hide Low, Bits, Pow2, Mask, Insert, Extract;
    Powers();
    h := DEFAULT_ADAPTATION_HEADER;
    if !sb.Require(1) {
      return false, h;
    }
    var length := ReadU8(sb);
    if length != 0 {
      if !sb.Require(1) {
        return false, h;
      }
      var v := ReadU8(sb);
      h := AdaptationHeader(length, Mask(v, 1), Extract(v, 1, 1), Extract(v, 2, 1), Extract(v, 3, 1), Extract(v, 4, 1),
                            Extract(v, 5, 1), Extract(v, 6, 1), Extract(v, 7, 1));
    }
    ok := true;
  }

  lemma ExtendedStamp(b: byte)
    ensures (Bits(Signed(b, 0x100) % 0x1_0000_0000, 2, 8) * 0x4000_0000) % 0x1_0000_0000 == Bits(b, 2, 4) * 0x4000_0000
  {
    hide Bits;
    var v := Signed(b, 0x100) % 0x1_0000_0000;
    var above := if b >= 0x80 then 0xFFFF_FF00 else 0;
    assert v == b + above;
    var low, x, rest := b % 2, (b / 2) % 8, b / 16;
    assert b == low + 2 * (x + 8 * rest);
    BitsAre(v, low, 2, x, 8, rest + above / 16);
    BitsAre(b, low, 2, x % 4, 4, x / 4 + 2 * rest);
    ModUnique(x * 0x4000_0000, 0x1_0000_0000, x / 4, (x % 4) * 0x4000_0000);
  }

  lemma ExtendedWord(w: u16)
    ensures Bits(Signed(w, 0x1_0000) % 0x1_0000_0000, 2, 0x8000) == Bits(w, 2, 0x8000)
  {
    hide Bits;
    var v := Signed(w, 0x1_0000) % 0x1_0000_0000;
    var above := if w >= 0x8000 then 0xFFFF_0000 else 0;
    assert v == w + above;
    BitsAre(v, w % 2, 2, w / 2, 0x8000, above / 0x1_0000);
    BitsAre(w, w % 2, 2, w / 2, 0x8000, 0);
  }

  // The parts are sign-extended to 32 bits before they are shifted and masked.
  method ReadPts(sb: SimpleBuffer) returns (pts: u32)
    requires sb.Require(5)
    modifies sb`pos
    ensures sb.pos == old(sb.pos) + 5 && pts == DecodePts(sb.data, old(sb.pos))
  {
    hide Bits, Signed, Or, Pow2, Extract;
    Powers();
    ghost var p := sb.pos;
    ghost var top, mid := Bits(At(sb.data, p), 2, 4), Bits(Word(sb.data, p + 1), 2, 0x8000);
    var signed := sb.Read1Byte();
    ExtendedStamp(sb.data[p]);
    var parts := (Extract(signed % 0x1_0000_0000, 1, 3) * 0x4000_0000) % 0x1_0000_0000;
    signed := sb.Read2Bytes();
    ExtendedWord(Word(sb.data, p + 1));
    OrBelow(top, 30, mid * 0x8000);
    parts := Or(parts, Extract(signed % 0x1_0000_0000, 1, 15) * 0x8000);
    signed := sb.Read2Bytes();
    ExtendedWord(Word(sb.data, p + 3));
    OrBelow(top * 0x8000 + mid, 15, Bits(Word(sb.data, p + 3), 2, 0x8000));
    parts := Or(parts, Extract(signed % 0x1_0000_0000, 1, 15));
    pts := parts;
  }

  // The masks keep the low eight bits of each byte, whose sign has been extended to 64 bits.
  method ReadPcr(sb: SimpleBuffer) returns (pcr: u64)
    requires sb.Require(6)
    modifies sb`pos
    ensures sb.pos == old(sb.pos) + 6 && pcr == DecodePcr(sb.data, old(sb.pos))
  {
    hide Low, Bits, Pow2, Or, Extract, Field64;
    Powers();
    ghost var p := sb.pos;
    ghost var b0: nat, b1: nat, b2: nat, b3: nat :=
      At(sb.data, p), At(sb.data, p + 1), At(sb.data, p + 2), At(sb.data, p + 3);
    var v := ReadExtended(sb);
    OrNothing(b0 * 0x200_0000);
    var parts := Or(0, Field64(v, 25, 8));
    v := ReadExtended(sb);
    OrBelow(b0, 25, b1 * 0x2_0000);
    parts := Or(parts, Field64(v, 17, 8));
    v := ReadExtended(sb);
    OrBelow(b0 * 0x100 + b1, 17, b2 * 0x200);
    parts := Or(parts, Field64(v, 9, 8));
    v := ReadExtended(sb);
    OrBelow((b0 * 0x100 + b1) * 0x100 + b2, 9, b3 * 2);
    parts := Or(parts, Field64(v, 1, 8));
    v := ReadExtended(sb);
    OrBelow(((b0 * 0x100 + b1) * 0x100 + b2) * 0x100 + b3, 1, Bits(At(sb.data, p + 4), 128, 2));
    parts := Or(parts, Extract(v, 7, 1));
    v := ReadExtended(sb);
    pcr := parts;
  }

  // A one-byte read assigned to an unsigned 64-bit integer: the sign is extended.
  method ReadExtended(sb: SimpleBuffer) returns (v: u64)
    requires sb.Require(1)
    modifies sb`pos
    ensures sb.pos == old(sb.pos) + 1
    ensures var b := At(sb.data, old(sb.pos)); Low(v, 256) == b && Bits(v, 128, 2) == Bits(b, 128, 2)
  {
    var signed := sb.Read1Byte();
    ghost var b: int := sb.data[old(sb.pos)];
    v := signed % 0x1_0000_0000_0000_0000;
    assert v == if b >= 0x80 then b + 0xFFFF_FFFF_FFFF_FF00 else b;
  }

  method ReadPesHeader(sb: SimpleBuffer) returns (h: PesHeader)
    requires sb.Require(9)
    modifies sb`pos
    ensures sb.pos == old(sb.pos) + 9 && h == DecodePes(sb.data, old(sb.pos))
  {
    hide Low, Bits, Pow2, Mask, Insert, Extract;
    Powers();
    var startCode, streamId := ReadStartCode(sb);
    var length := ReadU16(sb);
    var b6 := ReadU8(sb);
    var b7 := ReadU8(sb);
    var headerDataLength := ReadU8(sb);
    h := PesHeader(
      startCode, streamId, length,
      Mask(b6, 1), Extract(b6, 1, 1), Extract(b6, 2, 1), Extract(b6, 3, 1), Extract(b6, 4, 2), Extract(b6, 6, 2),
      Mask(b7, 1), Extract(b7, 1, 1), Extract(b7, 2, 1), Extract(b7, 3, 1), Extract(b7, 4, 1), Extract(b7, 5, 1),
      Extract(b7, 6, 2),
      headerDataLength);
  }

  method ReadStartCode(sb: SimpleBuffer) returns (startCode: u32, streamId: byte)
    requires sb.Require(4)
    modifies sb`pos
    ensures sb.pos == old(sb.pos) + 4
    ensures startCode == At(sb.data, old(sb.pos)) * 0x1_0000 + At(sb.data, old(sb.pos) + 1) * 0x100
            + At(sb.data, old(sb.pos) + 2)
    ensures streamId == At(sb.data, old(sb.pos) + 3)
  {
    hide Signed, Low, Bits, Pow2, Extract, Mask;
    Powers();
    var signed := sb.Read4Bytes();
    var s := sb.data[old(sb.pos)..sb.pos];
    FourBytes(s);
    SignedBack(Value(s), 0x1_0000_0000);
    var v := signed % 0x1_0000_0000;
    ghost var high: nat := (s[0] as int * 0x100 + s[1] as int) * 0x100 + s[2] as int;
    BitsAre(v, s[3], 0x100, high, 0x100_0000, 0);
    LowIs(v, s[3], 0x100, high);
    startCode := Extract(v, 8, 24);
    streamId := Mask(v, 8);
  }

  method ReadPatHeader(sb: SimpleBuffer) returns (h: PatHeader)
    requires sb.Require(8)
    modifies sb`pos
    ensures sb.pos == old(sb.pos) + 8 && h == DecodePat(sb.data, old(sb.pos))
  {
    hide Low, Bits, Pow2, Mask, Insert, Extract;
    Powers();
    var tableId := ReadU8(sb);
    var b1b2 := ReadU16(sb);
    var transportStreamId := ReadU16(sb);
    var b5 := ReadU8(sb);
    var sectionNumber := ReadU8(sb);
    var lastSectionNumber := ReadU8(sb);
    h := PatHeader(tableId, Extract(b1b2, 15, 1), Extract(b1b2, 14, 1), 0, Mask(b1b2, 12), transportStreamId,
                   Extract(b5, 6, 2), Extract(b5, 1, 5), Mask(b5, 1), sectionNumber, lastSectionNumber);
  }

  method ReadPmtInfo(sb: SimpleBuffer) returns (e: PmtInfo)
    requires sb.Require(5)
    modifies sb`pos
    ensures sb.pos == old(sb.pos) + 5 && e == DecodeInfo(sb.data, old(sb.pos))
  {
    hide Low, Bits, Pow2, Mask, Insert, Extract;
    Powers();
    var streamType := ReadU8(sb);
    var b1b2 := ReadU16(sb);
    var b3b4 := ReadU16(sb);
    e := PmtInfo(streamType, Extract(b1b2, 13, 3), Mask(b1b2, 13), Extract(b3b4, 12, 4), Mask(b3b4, 12));
  }

  method ReadPmtFixed(sb: SimpleBuffer) returns (h: PmtHeader)
    requires sb.Require(12)
    modifies sb`pos
    ensures sb.pos == old(sb.pos) + 12 && h == DecodePmtFixed(sb.data, old(sb.pos))
  {
    hide Low, Bits, Pow2, Mask, Insert, Extract;
    Powers();
    var tableId := ReadU8(sb);
    var b1b2 := ReadU16(sb);
    var programNumber := ReadU16(sb);
    var b5 := ReadU8(sb);
    var sectionNumber := ReadU8(sb);
    var lastSectionNumber := ReadU8(sb);
    var b8b9 := ReadU16(sb);
    var b10b11 := ReadU16(sb);
    h := PmtHeader(tableId, Extract(b1b2, 15, 1), Extract(b1b2, 14, 1), Extract(b1b2, 12, 2), Mask(b1b2, 12),
                   programNumber, Extract(b5, 6, 2), Extract(b5, 1, 5), Mask(b5, 1), sectionNumber, lastSectionNumber,
                   Extract(b8b9, 13, 3), Mask(b8b9, 13), Extract(b10b11, 12, 4), Mask(b10b11, 12), []);
  }

  // The element loop. Descriptors are stepped over; like every read they must lie in the buffer.
  method ReadPmtHeader(sb: SimpleBuffer, already: seq<PmtInfo>) returns (ok: bool, h: PmtHeader)
    requires 0 <= sb.pos
    modifies sb`pos
    ensures ok <==> PmtEnd(sb.data, old(sb.pos)) <= |sb.data|
    ensures ok ==> h == DecodePmt(already, sb.data, old(sb.pos)) && sb.pos == PmtEnd(sb.data, old(sb.pos))
  {
    hide DecodePmtFixed, DecodeInfo;
    h := DEFAULT_PMT_HEADER;
    if !sb.Require(12) {
      return false, h;
    }
    h := ReadPmtFixed(sb);
    if !sb.Require(h.programInfoLength) {
      return false, h;
    }
    sb.Skip(h.programInfoLength);
    var infos, remaining := already, InfosBytes(h);
    ghost var start, all := sb.pos, remaining;
    while remaining > 0
      invariant 0 <= sb.pos <= |sb.data|
      invariant infos + DecodeInfos(sb.data, sb.pos, remaining) == already + DecodeInfos(sb.data, start, all)
      invariant InfosEnd(sb.data, sb.pos, remaining) == InfosEnd(sb.data, start, all)
    {
      ghost var p := sb.pos;
      assert InfosEnd(sb.data, p, remaining) >= p + InfoSize(DecodeInfo(sb.data, p));
      if !sb.Require(5) {
        return false, h;
      }
      var e := ReadPmtInfo(sb);
      if !sb.Require(e.infoLength) {
        return false, h;
      }
      sb.Skip(e.infoLength);
      infos := infos + [e];
      remaining := remaining - InfoSize(e);
    }
    assert DecodeInfos(sb.data, sb.pos, remaining) == [];
    h := h.(infos := infos);
    ok := true;
  }
}
