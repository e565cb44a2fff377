/**
 The bit fields of transport packets (ISO/IEC 13818-1, sections 2.4.3.2 to 2.4.3.7,
 2.4.4.3 and 2.4.4.8) as byte strings: how each header is laid out, how it is read
 back, and what survives the trip.
 */
module TsFields {
  import opened Bytes
  import opened Bitwise

  const PACKET_SIZE := 188

  lemma WholePackets(a: nat, b: nat)
    requires a % PACKET_SIZE == 0 && b % PACKET_SIZE == 0
    ensures (a + b) % PACKET_SIZE == 0
  {
    ModUnique(a + b, 188, a / 188 + b / 188, 0);
  }

  const PAYLOAD_ONLY: byte := 0x01
  const ADAPTATION_ONLY: byte := 0x02
  const ADAPTATION_AND_PAYLOAD: byte := 0x03

  predicate HasAdaptation(control: byte) {
    control == ADAPTATION_ONLY || control == ADAPTATION_AND_PAYLOAD
  }

  predicate HasPayload(control: byte) {
    control == PAYLOAD_ONLY || control == ADAPTATION_AND_PAYLOAD
  }

  // Masking leaves fields that are in width as they are.
  lemma InWidth4(a: nat, n: nat, b: nat, m: nat, c: nat, k: nat, d: nat, j: nat)
    requires a < n && b < m && c < k && d < j
    ensures Low(a, n) == a && Low(b, m) == b && Low(c, k) == c && Low(d, j) == d
  {
    LowIs(a, a, n, 0);
    LowIs(b, b, m, 0);
    LowIs(c, c, k, 0);
    LowIs(d, d, j, 0);
  }

  // ---------- Transport packet header ----------

  datatype TsHeader = TsHeader(
    syncByte: byte, transportError: byte, unitStart: byte, priority: byte, pid: u16,
    scrambling: byte, adaptation: byte, counter: byte)

  const DEFAULT_TS_HEADER := TsHeader(0x47, 0, 0, 0, 0, 0, 0, 0)

  function EncodeTs(h: TsHeader): (s: seq<byte>)
    ensures |s| == 4
  {
    [h.syncByte]
    + Be16(Low(h.pid, 0x2000) + Low(h.priority, 2) * 0x2000 + Low(h.unitStart, 2) * 0x4000
           + Low(h.transportError, 2) * 0x8000)
    + [Low(h.counter, 16) + Low(h.adaptation, 4) * 16 + Low(h.scrambling, 4) * 64]
  }

  // The priority bit is read into the error indicator, which is then overwritten:
  // the priority of a decoded header is the default.
  function DecodeTs(w: seq<byte>, p: nat): TsHeader {
    var word, last := Word(w, p + 1), At(w, p + 3);
    TsHeader(At(w, p), Bits(word, 0x8000, 2), Bits(word, 0x4000, 2), 0, Low(word, 0x2000),
             Bits(last, 64, 4), Bits(last, 16, 4), Low(last, 16))
  }

  predicate TsInWidth(h: TsHeader) {
    h.transportError < 2 && h.unitStart < 2 && h.pid < 0x2000 && h.scrambling < 4 && h.adaptation < 4 && h.counter < 16
  }

  lemma TsRoundTrip(h: TsHeader, w: seq<byte>, p: nat)
    requires TsInWidth(h)
    requires p + 4 <= |w| && w[p..p + 4] == EncodeTs(h)
    ensures DecodeTs(w, p) == h.(priority := 0)
  {
    hide Low, Bits;
    var s := w[p..p + 4];
    var priority := Low(h.priority, 2);
    var word, last := Word(w, p + 1), At(w, p + 3);
    InWidth4(h.pid, 0x2000, h.unitStart, 2, h.transportError, 2, h.counter, 16);
    InWidth4(h.adaptation, 4, h.scrambling, 4, 0, 1, 0, 1);
    assert At(w, p) == s[0] && last == s[3];
    assert word == h.pid + priority * 0x2000 + h.unitStart * 0x4000 + h.transportError * 0x8000 by {
      Be16Word(w, p + 1, h.pid + priority * 0x2000 + h.unitStart * 0x4000 + h.transportError * 0x8000);
    }
    LowIs(word, h.pid, 0x2000, priority + h.unitStart * 2 + h.transportError * 4);
    BitsAre(word, h.pid, 0x2000, priority, 2, h.unitStart + h.transportError * 2);
    BitsAre(word, h.pid + priority * 0x2000, 0x4000, h.unitStart, 2, h.transportError);
    BitsAre(word, h.pid + priority * 0x2000 + h.unitStart * 0x4000, 0x8000, h.transportError, 2, 0);
    LowIs(last, h.counter, 16, h.adaptation + h.scrambling * 4);
    BitsAre(last, h.counter, 16, h.adaptation, 4, h.scrambling);
    BitsAre(last, h.counter + h.adaptation * 16, 64, h.scrambling, 4, 0);
  }

  // ---------- Adaptation field header ----------

  datatype AdaptationHeader = AdaptationHeader(
    length: byte, extension: byte, privateData: byte, splicing: byte, opcr: byte, pcr: byte,
    esPriority: byte, randomAccess: byte, discontinuity: byte)

  const DEFAULT_ADAPTATION_HEADER := AdaptationHeader(0, 0, 0, 0, 0, 0, 0, 0, 0)

  function EncodeAdaptation(h: AdaptationHeader): (s: seq<byte>)
    ensures |s| == if h.length == 0 then 1 else 2
  {
    if h.length == 0 then [h.length] else
      [h.length,
       Low(h.extension, 2) + Low(h.privateData, 2) * 2 + Low(h.splicing, 2) * 4 + Low(h.opcr, 2) * 8
       + Low(h.pcr, 2) * 16
       + Low(h.esPriority, 2) * 32 + Low(h.randomAccess, 2) * 64 + Low(h.discontinuity, 2) * 128]
  }

  function DecodeAdaptation(w: seq<byte>, p: nat): AdaptationHeader {
    var length := At(w, p);
    if length == 0 then DEFAULT_ADAPTATION_HEADER else
      var v := At(w, p + 1);
      AdaptationHeader(length, Low(v, 2), Bits(v, 2, 2), Bits(v, 4, 2), Bits(v, 8, 2), Bits(v, 16, 2), Bits(v, 32, 2),
                       Bits(v, 64, 2), Bits(v, 128, 2))
  }

  function AdaptationSize(h: AdaptationHeader): nat { if h.length == 0 then 1 else 2 }

  predicate AdaptationInWidth(h: AdaptationHeader) {
    h.extension < 2 && h.privateData < 2 && h.splicing < 2 && h.opcr < 2 && h.pcr < 2 && h.esPriority < 2
    && h.randomAccess < 2 && h.discontinuity < 2
  }

  lemma AdaptationRoundTrip(h: AdaptationHeader, w: seq<byte>, p: nat)
    requires AdaptationInWidth(h)
    requires p + AdaptationSize(h) <= |w| && w[p..p + AdaptationSize(h)] == EncodeAdaptation(h)
    ensures DecodeAdaptation(w, p) == if h.length == 0 then DEFAULT_ADAPTATION_HEADER else h
  {
    hide Low, Bits;
    var s := w[p..p + AdaptationSize(h)];
    assert At(w, p) == s[0];
    if h.length != 0 {
      var v := At(w, p + 1);
      assert v == s[1];
      InWidth4(h.extension, 2, h.privateData, 2, h.splicing, 2, h.opcr, 2);
      InWidth4(h.pcr, 2, h.esPriority, 2, h.randomAccess, 2, h.discontinuity, 2);
      LowIs(v, h.extension, 2, h.privateData + h.splicing * 2 + h.opcr * 4 + h.pcr * 8 + h.esPriority * 16
            + h.randomAccess * 32 + h.discontinuity * 64);
      BitsAre(v, h.extension, 2, h.privateData, 2, h.splicing + h.opcr * 2 + h.pcr * 4 + h.esPriority * 8
              + h.randomAccess * 16 + h.discontinuity * 32);
      BitsAre(v, h.extension + h.privateData * 2, 4, h.splicing, 2, h.opcr + h.pcr * 2 + h.esPriority * 4
              + h.randomAccess * 8 + h.discontinuity * 16);
      BitsAre(v, h.extension + h.privateData * 2 + h.splicing * 4, 8, h.opcr, 2, h.pcr + h.esPriority * 2
              + h.randomAccess * 4 + h.discontinuity * 8);
      BitsAre(v, h.extension + h.privateData * 2 + h.splicing * 4 + h.opcr * 8, 16, h.pcr, 2, h.esPriority
              + h.randomAccess * 2 + h.discontinuity * 4);
      BitsAre(v, h.extension + h.privateData * 2 + h.splicing * 4 + h.opcr * 8 + h.pcr * 16, 32, h.esPriority, 2,
              h.randomAccess + h.discontinuity * 2);
      BitsAre(v, h.extension + h.privateData * 2 + h.splicing * 4 + h.opcr * 8 + h.pcr * 16 + h.esPriority * 32, 64,
              h.randomAccess, 2, h.discontinuity);
      BitsAre(v, h.extension + h.privateData * 2 + h.splicing * 4 + h.opcr * 8 + h.pcr * 16 + h.esPriority * 32
              + h.randomAccess * 64, 128, h.discontinuity, 2, 0);
    }
  }

  // ---------- Time stamps and clock references ----------

  // Five bytes carry 33 bits of a time stamp behind a four-bit prefix.
  function EncodePts(prefix: u32, pts: u64): (s: seq<byte>)
    ensures |s| == 5
  {
    [Low(prefix, 16) * 16 + Bits(pts, 0x4000_0000, 8) * 2 + 1]
    + Be16(Bits(pts, 0x8000, 0x8000) * 2 + 1)
    + Be16(Low(pts, 0x8000) * 2 + 1)
  }

  // The top three bits are shifted in 32-bit arithmetic, so the highest is lost.
  function DecodePts(w: seq<byte>, p: nat): u32 {
    Bits(At(w, p), 2, 4) * 0x4000_0000 + Bits(Word(w, p + 1), 2, 0x8000) * 0x8000 + Bits(Word(w, p + 3), 2, 0x8000)
  }

  lemma PtsDigits(pts: u64)
    ensures pts % 0x1_0000_0000
         == (Bits(pts, 0x4000_0000, 8) % 4) * 0x4000_0000 + Bits(pts, 0x8000, 0x8000) * 0x8000 + Low(pts, 0x8000)
  {
    var low, a := pts % 0x8000, pts / 0x8000;
    var mid, b := a % 0x8000, a / 0x8000;
    var top, rest := b % 8, b / 8;
    assert pts == low + 0x8000 * a && a == mid + 0x8000 * b && b == top + 8 * rest;
    PtsParts(pts, low, mid, top, rest);
  }

  lemma PtsParts(pts: nat, low: nat, mid: nat, top: nat, rest: nat)
    requires low < 0x8000 && mid < 0x8000 && top < 8
    requires pts == low + 0x8000 * (mid + 0x8000 * (top + 8 * rest))
    ensures Low(pts, 0x8000) == low && Bits(pts, 0x8000, 0x8000) == mid && Bits(pts, 0x4000_0000, 8) == top
    ensures pts % 0x1_0000_0000 == (top % 4) * 0x4000_0000 + mid * 0x8000 + low
  {
    hide Low, Bits;
    LowIs(pts, low, 0x8000, mid + 0x8000 * (top + 8 * rest));
    BitsAre(pts, low, 0x8000, mid, 0x8000, top + 8 * rest);
    BitsAre(pts, low + 0x8000 * mid, 0x4000_0000, top, 8, rest);
    ModUnique(pts, 0x1_0000_0000, top / 4 + 2 * rest, low + 0x8000 * mid + 0x4000_0000 * (top % 4));
  }

  /** A time stamp survives modulo 2^32, one bit less than what was written. */
  lemma PtsRoundTrip(prefix: u32, pts: u64, w: seq<byte>, p: nat)
    requires p + 5 <= |w| && w[p..p + 5] == EncodePts(prefix, pts)
    ensures DecodePts(w, p) == pts % 0x1_0000_0000
  {
    hide Low, Bits;
    var s := w[p..p + 5];
    var top, mid, low := Bits(pts, 0x4000_0000, 8), Bits(pts, 0x8000, 0x8000), Low(pts, 0x8000);
    assert At(w, p) == s[0];
    Be16Word(w, p + 1, mid * 2 + 1);
    Be16Word(w, p + 3, low * 2 + 1);
    BitsAre(At(w, p), 1, 2, top % 4, 4, top / 4 + 2 * Low(prefix, 16));
    BitsAre(Word(w, p + 1), 1, 2, mid, 0x8000, 0);
    BitsAre(Word(w, p + 3), 1, 2, low, 0x8000, 0);
    PtsDigits(pts);
  }

  // A time stamp that uses its 33rd bit does not survive.
  lemma PtsTopBitLost()
    ensures DecodePts(EncodePts(2, 0x1_0000_0000), 0) == 0
  {
    var s := EncodePts(2, 0x1_0000_0000);
    assert s[..5] == s;
    PtsRoundTrip(2, 0x1_0000_0000, s, 0);
  }

  function EncodePcr(pcr: u64): (s: seq<byte>)
    ensures |s| == 6
  {
    [Bits(pcr, 0x200_0000, 256), Bits(pcr, 0x2_0000, 256), Bits(pcr, 0x200, 256), Bits(pcr, 2, 256),
     Low(pcr, 2) * 128 + 0x7E, 0]
  }

  function DecodePcr(w: seq<byte>, p: nat): u64 {
    At(w, p) * 0x200_0000 + At(w, p + 1) * 0x2_0000 + At(w, p + 2) * 0x200 + At(w, p + 3) * 2
      + Bits(At(w, p + 4), 128, 2)
  }

  lemma PcrDigits(pcr: u64)
    ensures pcr % 0x2_0000_0000
         == Bits(pcr, 0x200_0000, 256) * 0x200_0000 + Bits(pcr, 0x2_0000, 256) * 0x2_0000
            + Bits(pcr, 0x200, 256) * 0x200 + Bits(pcr, 2, 256) * 2 + Low(pcr, 2)
  {
    var a := pcr / 2;
    var b := a / 256;
    var c := b / 256;
    var d := c / 256;
    assert pcr / 0x200 == b && pcr / 0x2_0000 == c && pcr / 0x200_0000 == d;
  }

  /** A clock reference base survives in its full 33 bits. */
  lemma PcrRoundTrip(pcr: u64, w: seq<byte>, p: nat)
    requires p + 6 <= |w| && w[p..p + 6] == EncodePcr(pcr)
    ensures DecodePcr(w, p) == pcr % 0x2_0000_0000
  {
    hide Low, Bits;
    var s := w[p..p + 6];
    assert At(w, p) == s[0] && At(w, p + 1) == s[1] && At(w, p + 2) == s[2] && At(w, p + 3) == s[3]
           && At(w, p + 4) == s[4];
    BitsAre(At(w, p + 4), 0x7E, 128, Low(pcr, 2), 2, 0);
    PcrDigits(pcr);
  }

  // ---------- PES header ----------

  datatype PesHeader = PesHeader(
    startCode: u32, streamId: byte, length: u16,
    original: byte, copyright: byte, alignment: byte, pesPriority: byte, pesScrambling: byte, marker: byte,
    extension: byte, crc: byte, copyInfo: byte, trickMode: byte, esRate: byte, escr: byte, ptsDtsFlags: byte,
    headerDataLength: byte)

  const DEFAULT_PES_HEADER := PesHeader(1, 0, 0, 0, 0, 0, 0, 0, 2, 0, 0, 0, 0, 0, 0, 0, 0)

  function EncodePes(h: PesHeader): (s: seq<byte>)
    ensures |s| == 9
  {
    [Bits(h.startCode, 0x1_0000, 256), Bits(h.startCode, 0x100, 256), Low(h.startCode, 256), h.streamId]
    + Be16(h.length)
    + [Low(h.original, 2) + Low(h.copyright, 2) * 2 + Low(h.alignment, 2) * 4 + Low(h.pesPriority, 2) * 8
       + Low(h.pesScrambling, 4) * 16 + Low(h.marker, 4) * 64,
       Low(h.extension, 2) + Low(h.crc, 2) * 2 + Low(h.copyInfo, 2) * 4 + Low(h.trickMode, 2) * 8
       + Low(h.esRate, 2) * 16
       + Low(h.escr, 2) * 32 + Low(h.ptsDtsFlags, 4) * 64,
       h.headerDataLength]
  }

  function DecodePes(w: seq<byte>, p: nat): PesHeader {
    var b6, b7 := At(w, p + 6), At(w, p + 7);
    PesHeader(
      At(w, p) * 0x1_0000 + At(w, p + 1) * 0x100 + At(w, p + 2), At(w, p + 3), Word(w, p + 4),
      Low(b6, 2), Bits(b6, 2, 2), Bits(b6, 4, 2), Bits(b6, 8, 2), Bits(b6, 16, 4), Bits(b6, 64, 4),
      Low(b7, 2), Bits(b7, 2, 2), Bits(b7, 4, 2), Bits(b7, 8, 2), Bits(b7, 16, 2), Bits(b7, 32, 2), Bits(b7, 64, 4),
      At(w, p + 8))
  }

  predicate PesInWidth(h: PesHeader) {
    h.startCode < 0x100_0000 && h.original < 2 && h.copyright < 2 && h.alignment < 2 && h.pesPriority < 2
    && h.pesScrambling < 4 && h.marker < 4 && h.extension < 2 && h.crc < 2 && h.copyInfo < 2 && h.trickMode < 2
    && h.esRate < 2 && h.escr < 2 && h.ptsDtsFlags < 4
  }

  lemma ThreeBytes(v: nat)
    requires v < 0x100_0000
    ensures Bits(v, 0x1_0000, 256) * 0x1_0000 + Bits(v, 0x100, 256) * 0x100 + Low(v, 256) == v
  {
    assert v / 0x1_0000 == (v / 0x100) / 256;
  }

  lemma PesRoundTrip(h: PesHeader, w: seq<byte>, p: nat)
    requires PesInWidth(h)
    requires p + 9 <= |w| && w[p..p + 9] == EncodePes(h)
    ensures DecodePes(w, p) == h
  {
    hide Low, Bits;
    var s := w[p..p + 9];
    var b6, b7 := At(w, p + 6), At(w, p + 7);
    assert At(w, p) == s[0] && At(w, p + 1) == s[1] && At(w, p + 2) == s[2] && At(w, p + 3) == s[3];
    assert b6 == s[6] && b7 == s[7] && At(w, p + 8) == s[8];
    Be16Word(w, p + 4, h.length);
    ThreeBytes(h.startCode);
    InWidth4(h.original, 2, h.copyright, 2, h.alignment, 2, h.pesPriority, 2);
    InWidth4(h.pesScrambling, 4, h.marker, 4, h.extension, 2, h.crc, 2);
    InWidth4(h.copyInfo, 2, h.trickMode, 2, h.esRate, 2, h.escr, 2);
    InWidth4(h.ptsDtsFlags, 4, 0, 1, 0, 1, 0, 1);
    FirstFlagsBack(h, b6);
    SecondFlagsBack(h, b7);
  }

  lemma FirstFlagsBack(h: PesHeader, b6: byte)
    requires PesInWidth(h)
    requires b6 == h.original + h.copyright * 2 + h.alignment * 4 + h.pesPriority * 8 + h.pesScrambling * 16
             + h.marker * 64
    ensures Low(b6, 2) == h.original && Bits(b6, 2, 2) == h.copyright && Bits(b6, 4, 2) == h.alignment
            && Bits(b6, 8, 2) == h.pesPriority && Bits(b6, 16, 4) == h.pesScrambling && Bits(b6, 64, 4) == h.marker
  {
    hide Low, Bits;
    LowIs(b6, h.original, 2, h.copyright + h.alignment * 2 + h.pesPriority * 4 + h.pesScrambling * 8 + h.marker * 32);
    BitsAre(b6, h.original, 2, h.copyright, 2, h.alignment + h.pesPriority * 2 + h.pesScrambling * 4 + h.marker * 16);
    BitsAre(b6, h.original + h.copyright * 2, 4, h.alignment, 2, h.pesPriority + h.pesScrambling * 2 + h.marker * 8);
    BitsAre(b6, h.original + h.copyright * 2 + h.alignment * 4, 8, h.pesPriority, 2, h.pesScrambling + h.marker * 4);
    BitsAre(b6, h.original + h.copyright * 2 + h.alignment * 4 + h.pesPriority * 8, 16, h.pesScrambling, 4, h.marker);
    BitsAre(b6, h.original + h.copyright * 2 + h.alignment * 4 + h.pesPriority * 8 + h.pesScrambling * 16, 64,
            h.marker, 4, 0);
  }

  lemma SecondFlagsBack(h: PesHeader, b7: byte)
    requires PesInWidth(h)
    requires b7 == h.extension + h.crc * 2 + h.copyInfo * 4 + h.trickMode * 8 + h.esRate * 16 + h.escr * 32
             + h.ptsDtsFlags * 64
    ensures Low(b7, 2) == h.extension && Bits(b7, 2, 2) == h.crc && Bits(b7, 4, 2) == h.copyInfo
            && Bits(b7, 8, 2) == h.trickMode
            && Bits(b7, 16, 2) == h.esRate && Bits(b7, 32, 2) == h.escr && Bits(b7, 64, 4) == h.ptsDtsFlags
  {
    hide Low, Bits;
    LowIs(b7, h.extension, 2, h.crc + h.copyInfo * 2 + h.trickMode * 4 + h.esRate * 8 + h.escr * 16
          + h.ptsDtsFlags * 32);
    BitsAre(b7, h.extension, 2, h.crc, 2, h.copyInfo + h.trickMode * 2 + h.esRate * 4 + h.escr * 8
            + h.ptsDtsFlags * 16);
    BitsAre(b7, h.extension + h.crc * 2, 4, h.copyInfo, 2, h.trickMode + h.esRate * 2 + h.escr * 4 + h.ptsDtsFlags * 8);
    BitsAre(b7, h.extension + h.crc * 2 + h.copyInfo * 4, 8, h.trickMode, 2, h.esRate + h.escr * 2 + h.ptsDtsFlags * 4);
    BitsAre(b7, h.extension + h.crc * 2 + h.copyInfo * 4 + h.trickMode * 8, 16, h.esRate, 2, h.escr
            + h.ptsDtsFlags * 2);
    BitsAre(b7, h.extension + h.crc * 2 + h.copyInfo * 4 + h.trickMode * 8 + h.esRate * 16, 32, h.escr, 2,
            h.ptsDtsFlags);
    BitsAre(b7, h.extension + h.crc * 2 + h.copyInfo * 4 + h.trickMode * 8 + h.esRate * 16 + h.escr * 32, 64,
            h.ptsDtsFlags, 4, 0);
  }

  // ---------- Program association section ----------

  datatype PatHeader = PatHeader(
    tableId: byte, syntaxIndicator: byte, b0: byte, reserved0: byte, sectionLength: u16, transportStreamId: u16,
    reserved1: byte, version: byte, currentNext: byte, sectionNumber: byte, lastSectionNumber: byte)

  const DEFAULT_PAT_HEADER := PatHeader(0, 0, 0, 0, 0, 0, 0, 0, 0, 0, 0)

  function EncodePat(h: PatHeader): (s: seq<byte>)
    ensures |s| == 8
  {
    [h.tableId]
    + Be16(Low(h.sectionLength, 0x1000) + Low(h.reserved0, 4) * 0x1000 + Low(h.b0, 2) * 0x4000
           + Low(h.syntaxIndicator, 2) * 0x8000)
    + Be16(h.transportStreamId)
    + [Low(h.currentNext, 2) + Low(h.version, 32) * 2 + Low(h.reserved1, 4) * 64, h.sectionNumber, h.lastSectionNumber]
  }

  // reserved0 is not read back.
  function DecodePat(w: seq<byte>, p: nat): PatHeader {
    var word, b5 := Word(w, p + 1), At(w, p + 5);
    PatHeader(At(w, p), Bits(word, 0x8000, 2), Bits(word, 0x4000, 2), 0, Low(word, 0x1000), Word(w, p + 3),
              Bits(b5, 64, 4), Bits(b5, 2, 32), Low(b5, 2), At(w, p + 6), At(w, p + 7))
  }

  predicate PatInWidth(h: PatHeader) {
    h.syntaxIndicator < 2 && h.b0 < 2 && h.sectionLength < 0x1000 && h.reserved1 < 4 && h.version < 32
      && h.currentNext < 2
  }

  lemma PatHeaderRoundTrip(h: PatHeader, w: seq<byte>, p: nat)
    requires PatInWidth(h)
    requires p + 8 <= |w| && w[p..p + 8] == EncodePat(h)
    ensures DecodePat(w, p) == h.(reserved0 := 0)
  {
    hide Low, Bits;
    var s := w[p..p + 8];
    var reserved0 := Low(h.reserved0, 4);
    var word, b5 := Word(w, p + 1), At(w, p + 5);
    InWidth4(h.sectionLength, 0x1000, h.b0, 2, h.syntaxIndicator, 2, h.currentNext, 2);
    InWidth4(h.version, 32, h.reserved1, 4, 0, 1, 0, 1);
    assert At(w, p) == s[0] && b5 == s[5] && At(w, p + 6) == s[6] && At(w, p + 7) == s[7];
    Be16Word(w, p + 1, h.sectionLength + reserved0 * 0x1000 + h.b0 * 0x4000 + h.syntaxIndicator * 0x8000);
    Be16Word(w, p + 3, h.transportStreamId);
    LowIs(word, h.sectionLength, 0x1000, reserved0 + h.b0 * 4 + h.syntaxIndicator * 8);
    BitsAre(word, h.sectionLength, 0x1000, reserved0, 4, h.b0 + h.syntaxIndicator * 2);
    BitsAre(word, h.sectionLength + reserved0 * 0x1000, 0x4000, h.b0, 2, h.syntaxIndicator);
    BitsAre(word, h.sectionLength + reserved0 * 0x1000 + h.b0 * 0x4000, 0x8000, h.syntaxIndicator, 2, 0);
    LowIs(b5, h.currentNext, 2, h.version + h.reserved1 * 32);
    BitsAre(b5, h.currentNext, 2, h.version, 32, h.reserved1);
    BitsAre(b5, h.currentNext + h.version * 2, 64, h.reserved1, 4, 0);
  }

  // ---------- Program map section ----------

  datatype PmtInfo = PmtInfo(streamType: byte, reserved0: byte, pid: u16, reserved1: byte, infoLength: u16)

  function EncodeInfo(e: PmtInfo): (s: seq<byte>)
    ensures |s| == 5
  {
    [e.streamType]
    + Be16(Low(e.pid, 0x2000) + Low(e.reserved0, 8) * 0x2000)
    + Be16(Low(e.infoLength, 0x1000) + Low(e.reserved1, 16) * 0x1000)
  }

  function DecodeInfo(w: seq<byte>, p: nat): PmtInfo {
    var pidWord, lengthWord := Word(w, p + 1), Word(w, p + 3);
    PmtInfo(At(w, p), Bits(pidWord, 0x2000, 8), Low(pidWord, 0x2000), Bits(lengthWord, 0x1000, 16),
            Low(lengthWord, 0x1000))
  }

  function InfoSize(e: PmtInfo): nat { 5 + e.infoLength }

  predicate InfoInWidth(e: PmtInfo) {
    e.reserved0 < 8 && e.pid < 0x2000 && e.reserved1 < 16 && e.infoLength < 0x1000
  }

  lemma InfoRoundTrip(e: PmtInfo, w: seq<byte>, p: nat)
    requires InfoInWidth(e)
    requires p + 5 <= |w| && w[p..p + 5] == EncodeInfo(e)
    ensures DecodeInfo(w, p) == e
  {
    hide Low, Bits;
    var s := w[p..p + 5];
    assert At(w, p) == s[0];
    InWidth4(e.pid, 0x2000, e.reserved0, 8, e.infoLength, 0x1000, e.reserved1, 16);
    Be16Word(w, p + 1, e.pid + e.reserved0 * 0x2000);
    Be16Word(w, p + 3, e.infoLength + e.reserved1 * 0x1000);
    LowIs(Word(w, p + 1), e.pid, 0x2000, e.reserved0);
    BitsAre(Word(w, p + 1), e.pid, 0x2000, e.reserved0, 8, 0);
    LowIs(Word(w, p + 3), e.infoLength, 0x1000, e.reserved1);
    BitsAre(Word(w, p + 3), e.infoLength, 0x1000, e.reserved1, 16, 0);
  }

  function EncodeInfos(es: seq<PmtInfo>): (s: seq<byte>)
    ensures |s| == 5 * |es|
  {
    if es == [] then [] else EncodeInfo(es[0]) + EncodeInfos(es[1..])
  }

  // The element loop: it runs while bytes of the section remain, and skips descriptors.
  function DecodeInfos(w: seq<byte>, p: nat, remaining: int): seq<PmtInfo>
    decreases if remaining > 0 then remaining else 0
  {
    if remaining <= 0 then [] else
      var e := DecodeInfo(w, p);
      [e] + DecodeInfos(w, p + InfoSize(e), remaining - InfoSize(e))
  }

  function InfosEnd(w: seq<byte>, p: nat, remaining: int): (q: nat)
    ensures q >= p
    decreases if remaining > 0 then remaining else 0
  {
    if remaining <= 0 then p else
      var e := DecodeInfo(w, p);
      InfosEnd(w, p + InfoSize(e), remaining - InfoSize(e))
  }

  lemma {:induction false} InfosRoundTrip(es: seq<PmtInfo>, w: seq<byte>, p: nat)
    requires forall e | e in es :: InfoInWidth(e) && e.infoLength == 0
    requires p + 5 * |es| <= |w| && w[p..p + 5 * |es|] == EncodeInfos(es)
    ensures DecodeInfos(w, p, 5 * |es|) == es
    ensures InfosEnd(w, p, 5 * |es|) == p + 5 * |es|
    decreases |es|
  {
    hide EncodeInfo, DecodeInfo;
    if es != [] {
      var n := 5 * |es[1..]|;
      FirstFive(w, p, n, EncodeInfo(es[0]), EncodeInfos(es[1..]));
      InfoRoundTrip(es[0], w, p);
      InfosRoundTrip(es[1..], w, p + 5);
      assert es == [es[0]] + es[1..];
    }
  }

  lemma FirstFive(w: seq<byte>, p: nat, n: nat, first: seq<byte>, more: seq<byte>)
    requires p + 5 + n <= |w| && |first| == 5 && |more| == n && w[p..p + 5 + n] == first + more
    ensures w[p..p + 5] == first && w[p + 5..p + 5 + n] == more
  {
    var s := w[p..p + 5 + n];
    assert w[p..p + 5] == s[..5] && w[p + 5..p + 5 + n] == s[5..];
  }

  datatype PmtHeader = PmtHeader(
    tableId: byte, syntaxIndicator: byte, b0: byte, reserved0: byte, sectionLength: u16, programNumber: u16,
    reserved1: byte, version: byte, currentNext: byte, sectionNumber: byte, lastSectionNumber: byte,
    reserved2: byte, pcrPid: u16, reserved3: byte, programInfoLength: u16, infos: seq<PmtInfo>)

  const DEFAULT_PMT_HEADER := PmtHeader(2, 0, 0, 0, 0, 0, 0, 0, 0, 0, 0, 0, 0, 0, 0, [])

  // The section length is not cut to its twelve bits before the bits above it are set.
  function LengthWord(h: PmtHeader): u16 {
    LengthWordFits(h);
    Or(Or(Or(h.sectionLength, Low(h.reserved0, 4) * 0x1000), Low(h.b0, 2) * 0x4000), Low(h.syntaxIndicator, 2) * 0x8000)
  }

  lemma LengthWordFits(h: PmtHeader)
    ensures var a := Or(h.sectionLength, Low(h.reserved0, 4) * 0x1000);
            var b := Or(a, Low(h.b0, 2) * 0x4000);
            a < 0x1_0000 && b < 0x1_0000 && Or(b, Low(h.syntaxIndicator, 2) * 0x8000) < 0x1_0000
  {
    hide Low, Or, Pow2;
    Powers();
    var a := Or(h.sectionLength, Low(h.reserved0, 4) * 0x1000);
    var b := Or(a, Low(h.b0, 2) * 0x4000);
    OrInRange(h.sectionLength, Low(h.reserved0, 4) * 0x1000, 16);
    OrInRange(a, Low(h.b0, 2) * 0x4000, 16);
    OrInRange(b, Low(h.syntaxIndicator, 2) * 0x8000, 16);
  }

  lemma LengthWordInWidth(h: PmtHeader)
    requires h.sectionLength < 0x1000
    ensures LengthWord(h)
         == h.sectionLength + Low(h.reserved0, 4) * 0x1000 + Low(h.b0, 2) * 0x4000 + Low(h.syntaxIndicator, 2) * 0x8000
  {
    hide Low, Or, Pow2;
    Powers();
    var a := h.sectionLength + Low(h.reserved0, 4) * 0x1000;
    var b := a + Low(h.b0, 2) * 0x4000;
    OrDisjoint(h.sectionLength, 12, Low(h.reserved0, 4));
    OrDisjoint(a, 14, Low(h.b0, 2));
    OrDisjoint(b, 15, Low(h.syntaxIndicator, 2));
  }

  // The twelve bytes before the element list.
  function EncodePmtFixed(h: PmtHeader): (s: seq<byte>)
    ensures |s| == 12
  {
    [h.tableId]
    + Be16(LengthWord(h))
    + Be16(h.programNumber)
    + [Low(h.currentNext, 2) + Low(h.version, 32) * 2 + Low(h.reserved1, 4) * 64, h.sectionNumber, h.lastSectionNumber]
    + Be16(Low(h.pcrPid, 0x2000) + Low(h.reserved2, 8) * 0x2000)
    + Be16(Low(h.programInfoLength, 0x1000) + Low(h.reserved3, 16) * 0x1000)
  }

  function EncodePmt(h: PmtHeader): (s: seq<byte>)
    ensures |s| == 12 + 5 * |h.infos|
  {
    EncodePmtFixed(h) + EncodeInfos(h.infos)
  }

  function DecodePmtFixed(w: seq<byte>, p: nat): PmtHeader {
    var word, b5 := Word(w, p + 1), At(w, p + 5);
    var pcrWord, lengthWord := Word(w, p + 8), Word(w, p + 10);
    PmtHeader(At(w, p), Bits(word, 0x8000, 2), Bits(word, 0x4000, 2), Bits(word, 0x1000, 4), Low(word, 0x1000),
              Word(w, p + 3),
              Bits(b5, 64, 4), Bits(b5, 2, 32), Low(b5, 2), At(w, p + 6), At(w, p + 7),
              Bits(pcrWord, 0x2000, 8), Low(pcrWord, 0x2000), Bits(lengthWord, 0x1000, 16), Low(lengthWord, 0x1000), [])
  }

  function InfosStart(h: PmtHeader, p: nat): nat { p + 12 + h.programInfoLength }

  function InfosBytes(h: PmtHeader): int { h.sectionLength - 4 - 9 - h.programInfoLength }

  // Decoding appends the elements to those the header object already holds.
  function DecodePmt(already: seq<PmtInfo>, w: seq<byte>, p: nat): PmtHeader {
    var h := DecodePmtFixed(w, p);
    h.(infos := already + DecodeInfos(w, InfosStart(h, p), InfosBytes(h)))
  }

  function PmtEnd(w: seq<byte>, p: nat): nat {
    var h := DecodePmtFixed(w, p);
    InfosEnd(w, InfosStart(h, p), InfosBytes(h))
  }

  predicate PmtInWidth(h: PmtHeader) {
    h.syntaxIndicator < 2 && h.b0 < 2 && h.reserved0 < 4 && h.sectionLength < 0x1000 && h.reserved1 < 4
      && h.version < 32
    && h.currentNext < 2 && h.reserved2 < 8 && h.pcrPid < 0x2000 && h.reserved3 < 16 && h.programInfoLength < 0x1000
  }

  lemma PmtFixedRoundTrip(h: PmtHeader, w: seq<byte>, p: nat)
    requires PmtInWidth(h)
    requires p + 12 <= |w| && w[p..p + 12] == EncodePmtFixed(h)
    ensures DecodePmtFixed(w, p) == h.(infos := [])
  {
    hide Low, Bits, LengthWord;
    LengthWordInWidth(h);
    var s := w[p..p + 12];
    var word, b5 := Word(w, p + 1), At(w, p + 5);
    var pcrWord, lengthWord := Word(w, p + 8), Word(w, p + 10);
    InWidth4(h.reserved0, 4, h.b0, 2, h.syntaxIndicator, 2, h.currentNext, 2);
    InWidth4(h.version, 32, h.reserved1, 4, h.pcrPid, 0x2000, h.reserved2, 8);
    InWidth4(h.programInfoLength, 0x1000, h.reserved3, 16, 0, 1, 0, 1);
    assert At(w, p) == s[0] && b5 == s[5] && At(w, p + 6) == s[6] && At(w, p + 7) == s[7];
    Be16Word(w, p + 1, h.sectionLength + h.reserved0 * 0x1000 + h.b0 * 0x4000 + h.syntaxIndicator * 0x8000);
    Be16Word(w, p + 3, h.programNumber);
    Be16Word(w, p + 8, h.pcrPid + h.reserved2 * 0x2000);
    Be16Word(w, p + 10, h.programInfoLength + h.reserved3 * 0x1000);
    PmtWordsBack(h, word, b5);
    LowIs(pcrWord, h.pcrPid, 0x2000, h.reserved2);
    BitsAre(pcrWord, h.pcrPid, 0x2000, h.reserved2, 8, 0);
    LowIs(lengthWord, h.programInfoLength, 0x1000, h.reserved3);
    BitsAre(lengthWord, h.programInfoLength, 0x1000, h.reserved3, 16, 0);
  }

  lemma PmtWordsBack(h: PmtHeader, word: u16, b5: byte)
    requires PmtInWidth(h)
    requires word == h.sectionLength + h.reserved0 * 0x1000 + h.b0 * 0x4000 + h.syntaxIndicator * 0x8000
    requires b5 == h.currentNext + h.version * 2 + h.reserved1 * 64
    ensures Low(word, 0x1000) == h.sectionLength && Bits(word, 0x1000, 4) == h.reserved0
            && Bits(word, 0x4000, 2) == h.b0
            && Bits(word, 0x8000, 2) == h.syntaxIndicator
    ensures Low(b5, 2) == h.currentNext && Bits(b5, 2, 32) == h.version && Bits(b5, 64, 4) == h.reserved1
  {
    hide Low, Bits;
    LowIs(word, h.sectionLength, 0x1000, h.reserved0 + h.b0 * 4 + h.syntaxIndicator * 8);
    BitsAre(word, h.sectionLength, 0x1000, h.reserved0, 4, h.b0 + h.syntaxIndicator * 2);
    BitsAre(word, h.sectionLength + h.reserved0 * 0x1000, 0x4000, h.b0, 2, h.syntaxIndicator);
    BitsAre(word, h.sectionLength + h.reserved0 * 0x1000 + h.b0 * 0x4000, 0x8000, h.syntaxIndicator, 2, 0);
    LowIs(b5, h.currentNext, 2, h.version + h.reserved1 * 32);
    BitsAre(b5, h.currentNext, 2, h.version, 32, h.reserved1);
    BitsAre(b5, h.currentNext + h.version * 2, 64, h.reserved1, 4, 0);
  }

  /** A program map without descriptors whose length field is right is read back whole. */
  lemma PmtRoundTrip(h: PmtHeader, w: seq<byte>, p: nat)
    requires PmtInWidth(h) && forall e | e in h.infos :: InfoInWidth(e) && e.infoLength == 0
    requires h.programInfoLength == 0 && h.sectionLength == 13 + 5 * |h.infos|
    requires p + |EncodePmt(h)| <= |w| && w[p..p + |EncodePmt(h)|] == EncodePmt(h)
    ensures DecodePmt([], w, p) == h
    ensures PmtEnd(w, p) == p + |EncodePmt(h)|
  {
    var s := w[p..p + |EncodePmt(h)|];
    assert w[p..p + 12] == s[..12] == EncodePmtFixed(h);
    assert w[p + 12..p + 12 + 5 * |h.infos|] == s[12..] == EncodeInfos(h.infos);
    PmtFixedRoundTrip(h, w, p);
    InfosRoundTrip(h.infos, w, p + 12);
  }
}
