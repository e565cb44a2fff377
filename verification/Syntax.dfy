/**
 The headers as the syntax tables of ISO/IEC 13818-1 give them: fields of so many bits, one after
 the other, most significant bit first. The arithmetic of TsFields lays out exactly these.
 */
module Syntax {
  import opened Bytes
  import opened Bitwise
  import opened TsFields

  // The n low bits of a value, most significant first.
  function Bit(v: nat, n: nat): (bits: seq<bool>)
    ensures |bits| == n
    decreases n
  {
    if n == 0 then [] else Bit(v / 2, n - 1) + [v % 2 == 1]
  }

  function BitsOfBytes(s: seq<byte>): seq<bool> {
    if s == [] then [] else Bit(s[0], 8) + BitsOfBytes(s[1..])
  }

  lemma {:induction false} BytesConcat(a: seq<byte>, b: seq<byte>)
    ensures BitsOfBytes(a + b) == BitsOfBytes(a) + BitsOfBytes(b)
  {
    hide Bit;
    if a == [] {
      assert a + b == b;
    } else {
      assert (a + b)[0] == a[0] && (a + b)[1..] == a[1..] + b;
      BytesConcat(a[1..], b);
      assert Bit(a[0], 8) + (BitsOfBytes(a[1..]) + BitsOfBytes(b))
             == Bit(a[0], 8) + BitsOfBytes(a[1..]) + BitsOfBytes(b);
    }
  }

  lemma OneByte(b: byte)
    ensures BitsOfBytes([b]) == Bit(b, 8)
  {
    hide Bit;
    assert [b][1..] == [];
    assert Bit(b, 8) + [] == Bit(b, 8);
  }

  // A field above another.
  lemma {:induction false} Join(hi: nat, n: nat, lo: nat, k: nat)
    requires lo < Pow2(k)
    ensures Bit(lo + hi * Pow2(k), n + k) == Bit(hi, n) + Bit(lo, k)
    decreases k
  {
    if k > 0 {
      var p := Pow2(k - 1);
      Doubled(hi, p);
      var v := lo + hi * Pow2(k);
      assert v == lo + 2 * (hi * p);
      assert v / 2 == lo / 2 + hi * p && v % 2 == lo % 2;
      Join(hi, n, lo / 2, k - 1);
      assert Bit(hi, n) + Bit(lo / 2, k - 1) + [lo % 2 == 1] == Bit(hi, n) + (Bit(lo / 2, k - 1) + [lo % 2 == 1]);
    } else {
      assert hi * Pow2(0) == hi;
      assert Bit(hi, n) + [] == Bit(hi, n);
    }
  }

  // Only the low bits count.
  lemma {:induction false} LowBits(v: nat, n: nat)
    ensures Bit(Low(v, Pow2(n)), n) == Bit(v, n)
    decreases n
  {
    hide Low;
    if n > 0 {
      var p := Pow2(n - 1);
      HalfLow(v, p);
      var low := Low(v, 2 * p);
      assert low / 2 == Low(v / 2, p) && low % 2 == v % 2;
      LowBits(v / 2, n - 1);
    }
  }

  lemma WordBits(v: u16)
    ensures BitsOfBytes(Be16(v)) == Bit(v, 16)
  {
    hide Bit, BitsOfBytes, Pow2;
    Powers();
    Join(v / 256, 8, v % 256, 8);
    assert Be16(v) == [v / 256] + [v % 256];
    BytesConcat([v / 256], [v % 256]);
    OneByte(v / 256);
    OneByte(v % 256);
  }

  // ---------- Words and bytes of several fields ----------

  // Two fields, the given numbers of bits wide, the second below the first.
  lemma Two(a: nat, i: nat, b: nat, j: nat)
    ensures Bit(Low(b, Pow2(j)) + Low(a, Pow2(i)) * Pow2(j), i + j) == Bit(a, i) + Bit(b, j)
  {
    hide Bit, Low, Pow2;
    Join(Low(a, Pow2(i)), i, Low(b, Pow2(j)), j);
    LowBits(a, i);
    LowBits(b, j);
  }

  // One more on top of a value that is made of fields already.
  lemma OnTop(a: nat, i: nat, v: nat, j: nat)
    requires v < Pow2(j)
    ensures Bit(v + Low(a, Pow2(i)) * Pow2(j), i + j) == Bit(a, i) + Bit(v, j)
  {
    hide Bit, Low, Pow2;
    Join(Low(a, Pow2(i)), i, v, j);
    LowBits(a, i);
  }

  // ---------- Transport packet header (table 2-2) ----------

  lemma TsWordSyntax(h: TsHeader, v: u16)
    requires v == Low(h.pid, 0x2000) + Low(h.priority, 2) * 0x2000 + Low(h.unitStart, 2) * 0x4000
             + Low(h.transportError, 2) * 0x8000
    ensures Bit(v, 16) == Bit(h.transportError, 1) + (Bit(h.unitStart, 1) + (Bit(h.priority, 1) + Bit(h.pid, 13)))
  {
    hide Bit, Low, Pow2;
    Powers();
    var v1 := Low(h.pid, 0x2000) + Low(h.priority, 2) * 0x2000;
    var v2 := v1 + Low(h.unitStart, 2) * 0x4000;
    Two(h.priority, 1, h.pid, 13);
    OnTop(h.unitStart, 1, v1, 14);
    OnTop(h.transportError, 1, v2, 15);
  }

  lemma TsByteSyntax(h: TsHeader, v: byte)
    requires v == Low(h.counter, 16) + Low(h.adaptation, 4) * 16 + Low(h.scrambling, 4) * 64
    ensures Bit(v, 8) == Bit(h.scrambling, 2) + (Bit(h.adaptation, 2) + Bit(h.counter, 4))
  {
    hide Bit, Low, Pow2;
    Powers();
    Two(h.adaptation, 2, h.counter, 4);
    OnTop(h.scrambling, 2, Low(h.counter, 16) + Low(h.adaptation, 4) * 16, 6);
  }

  /** sync_byte 8, error 1, unit start 1, priority 1, PID 13, scrambling 2, adaptation 2, counter 4. */
  lemma TsSyntax(h: TsHeader)
    ensures BitsOfBytes(EncodeTs(h))
         == Bit(h.syncByte, 8)
            + (Bit(h.transportError, 1) + (Bit(h.unitStart, 1) + (Bit(h.priority, 1) + Bit(h.pid, 13))))
            + (Bit(h.scrambling, 2) + (Bit(h.adaptation, 2) + Bit(h.counter, 4)))
  {
    hide Bit, Low, BitsOfBytes, Be16;
    var word := Low(h.pid, 0x2000) + Low(h.priority, 2) * 0x2000 + Low(h.unitStart, 2) * 0x4000
      + Low(h.transportError, 2) * 0x8000;
    var last := Low(h.counter, 16) + Low(h.adaptation, 4) * 16 + Low(h.scrambling, 4) * 64;
    TsWordSyntax(h, word);
    TsByteSyntax(h, last);
    BytesConcat([h.syncByte] + Be16(word), [last]);
    BytesConcat([h.syncByte], Be16(word));
    OneByte(h.syncByte);
    WordBits(word);
    OneByte(last);
  }

  // ---------- Adaptation field (table 2-6) ----------

  lemma FlagsSyntax(h: AdaptationHeader, v: byte)
    requires v == Low(h.extension, 2) + Low(h.privateData, 2) * 2 + Low(h.splicing, 2) * 4 + Low(h.opcr, 2) * 8
                  + Low(h.pcr, 2) * 16 + Low(h.esPriority, 2) * 32 + Low(h.randomAccess, 2) * 64
                  + Low(h.discontinuity, 2) * 128
    ensures Bit(v, 8)
         == Bit(h.discontinuity, 1) + (Bit(h.randomAccess, 1) + (Bit(h.esPriority, 1) + (Bit(h.pcr, 1)
            + (Bit(h.opcr, 1) + (Bit(h.splicing, 1) + (Bit(h.privateData, 1) + Bit(h.extension, 1)))))))
  {
    hide Bit, Low, Pow2;
    Powers();
    var v2 := Low(h.extension, 2) + Low(h.privateData, 2) * 2;
    var v3 := v2 + Low(h.splicing, 2) * 4;
    var v4 := v3 + Low(h.opcr, 2) * 8;
    var v5 := v4 + Low(h.pcr, 2) * 16;
    var v6 := v5 + Low(h.esPriority, 2) * 32;
    var v7 := v6 + Low(h.randomAccess, 2) * 64;
    Two(h.privateData, 1, h.extension, 1);
    OnTop(h.splicing, 1, v2, 2);
    OnTop(h.opcr, 1, v3, 3);
    OnTop(h.pcr, 1, v4, 4);
    OnTop(h.esPriority, 1, v5, 5);
    OnTop(h.randomAccess, 1, v6, 6);
    OnTop(h.discontinuity, 1, v7, 7);
  }

  /** Length 8; if it is not 0, eight flags: discontinuity, random access, priority, PCR, OPCR, splicing, private data,
    extension. */
  lemma AdaptationSyntax(h: AdaptationHeader)
    ensures BitsOfBytes(EncodeAdaptation(h))
         == Bit(h.length, 8)
            + if h.length == 0 then [] else
                Bit(h.discontinuity, 1) + (Bit(h.randomAccess, 1) + (Bit(h.esPriority, 1) + (Bit(h.pcr, 1)
                + (Bit(h.opcr, 1) + (Bit(h.splicing, 1) + (Bit(h.privateData, 1) + Bit(h.extension, 1)))))))
  {
    hide Bit, Low, BitsOfBytes;
    OneByte(h.length);
    if h.length == 0 {
      assert Bit(h.length, 8) + [] == Bit(h.length, 8);
    } else {
      var s := EncodeAdaptation(h);
      assert s == [s[0]] + [s[1]];
      FlagsSyntax(h, s[1]);
      BytesConcat([s[0]], [s[1]]);
      OneByte(s[1]);
    }
  }

  // ---------- PES header (table 2-21) ----------

  lemma FirstFlagsSyntax(h: PesHeader, v: byte)
    requires v == Low(h.original, 2) + Low(h.copyright, 2) * 2 + Low(h.alignment, 2) * 4 + Low(h.pesPriority, 2) * 8
                  + Low(h.pesScrambling, 4) * 16 + Low(h.marker, 4) * 64
    ensures Bit(v, 8)
         == Bit(h.marker, 2) + (Bit(h.pesScrambling, 2) + (Bit(h.pesPriority, 1) + (Bit(h.alignment, 1)
            + (Bit(h.copyright, 1) + Bit(h.original, 1)))))
  {
    hide Bit, Low, Pow2;
    Powers();
    var v2 := Low(h.original, 2) + Low(h.copyright, 2) * 2;
    var v3 := v2 + Low(h.alignment, 2) * 4;
    var v4 := v3 + Low(h.pesPriority, 2) * 8;
    var v6 := v4 + Low(h.pesScrambling, 4) * 16;
    Two(h.copyright, 1, h.original, 1);
    OnTop(h.alignment, 1, v2, 2);
    OnTop(h.pesPriority, 1, v3, 3);
    OnTop(h.pesScrambling, 2, v4, 4);
    OnTop(h.marker, 2, v6, 6);
  }

  lemma SecondFlagsSyntax(h: PesHeader, v: byte)
    requires v == Low(h.extension, 2) + Low(h.crc, 2) * 2 + Low(h.copyInfo, 2) * 4 + Low(h.trickMode, 2) * 8
                  + Low(h.esRate, 2) * 16 + Low(h.escr, 2) * 32 + Low(h.ptsDtsFlags, 4) * 64
    ensures Bit(v, 8)
         == Bit(h.ptsDtsFlags, 2) + (Bit(h.escr, 1) + (Bit(h.esRate, 1) + (Bit(h.trickMode, 1) + (Bit(h.copyInfo, 1)
            + (Bit(h.crc, 1) + Bit(h.extension, 1))))))
  {
    hide Bit, Low, Pow2;
    Powers();
    var v2 := Low(h.extension, 2) + Low(h.crc, 2) * 2;
    var v3 := v2 + Low(h.copyInfo, 2) * 4;
    var v4 := v3 + Low(h.trickMode, 2) * 8;
    var v5 := v4 + Low(h.esRate, 2) * 16;
    var v6 := v5 + Low(h.escr, 2) * 32;
    Two(h.crc, 1, h.extension, 1);
    OnTop(h.copyInfo, 1, v2, 2);
    OnTop(h.trickMode, 1, v3, 3);
    OnTop(h.esRate, 1, v4, 4);
    OnTop(h.escr, 1, v5, 5);
    OnTop(h.ptsDtsFlags, 2, v6, 6);
  }

  lemma ThreeDigits(v: nat)
    ensures Low(v, 0x100_0000) == Low(v, 256) + 256 * (Bits(v, 0x100, 256) + 256 * Bits(v, 0x1_0000, 256))
  {
    var q, c := v / 256, v % 256;
    var r, b := q / 256, q % 256;
    var t, a := r / 256, r % 256;
    ThreeParts(v, a, b, c, t);
  }

  lemma ThreeParts(v: nat, a: nat, b: nat, c: nat, t: nat)
    requires a < 256 && b < 256 && c < 256 && v == c + 256 * (b + 256 * (a + 256 * t))
    ensures Low(v, 256) == c && Bits(v, 0x100, 256) == b && Bits(v, 0x1_0000, 256) == a
    ensures Low(v, 0x100_0000) == c + 256 * (b + 256 * a)
  {
    hide Low, Bits;
    LowIs(v, c, 256, b + 256 * (a + 256 * t));
    BitsAre(v, c, 0x100, b, 256, a + 256 * t);
    BitsAre(v, c + 256 * b, 0x1_0000, a, 256, t);
    LowIs(v, c + 256 * (b + 256 * a), 0x100_0000, t);
  }

  lemma StartCodeSyntax(v: nat)
    ensures BitsOfBytes([Bits(v, 0x1_0000, 256), Bits(v, 0x100, 256), Low(v, 256)]) == Bit(v, 24)
  {
    hide Bit, BitsOfBytes, Pow2, Low, Bits;
    Powers();
    var a, b, c := Bits(v, 0x1_0000, 256), Bits(v, 0x100, 256), Low(v, 256);
    assert [a, b, c] == [a] + [b] + [c];
    BytesConcat([a] + [b], [c]);
    BytesConcat([a], [b]);
    OneByte(a);
    OneByte(b);
    OneByte(c);
    ThreeDigits(v);
    LowBits(v, 24);
    Join(b + 256 * a, 16, c, 8);
    Join(a, 8, b, 8);
  }

  /**
   Start code prefix 24, stream id 8, length 16, marker 2, scrambling 2, priority 1, alignment 1, copyright 1,
     original 1,
   stamp flags 2, ESCR 1, rate 1, trick mode 1, copy info 1, CRC 1, extension 1, header length 8.
   */
  lemma PesSyntax(h: PesHeader)
    ensures BitsOfBytes(EncodePes(h))
         == Bit(h.startCode, 24) + Bit(h.streamId, 8) + Bit(h.length, 16)
            + (Bit(h.marker, 2) + (Bit(h.pesScrambling, 2) + (Bit(h.pesPriority, 1) + (Bit(h.alignment, 1)
               + (Bit(h.copyright, 1) + Bit(h.original, 1))))))
            + (Bit(h.ptsDtsFlags, 2) + (Bit(h.escr, 1) + (Bit(h.esRate, 1) + (Bit(h.trickMode, 1) + (Bit(h.copyInfo, 1)
               + (Bit(h.crc, 1) + Bit(h.extension, 1)))))))
            + Bit(h.headerDataLength, 8)
  {
    hide Bit, Low, Bits, BitsOfBytes, Be16;
    var code := [Bits(h.startCode, 0x1_0000, 256), Bits(h.startCode, 0x100, 256), Low(h.startCode, 256)];
    var s := EncodePes(h);
    var b6, b7 := s[6], s[7];
    assert s == code + [h.streamId] + Be16(h.length) + [b6] + [b7] + [h.headerDataLength];
    FirstFlagsSyntax(h, b6);
    SecondFlagsSyntax(h, b7);
    StartCodeSyntax(h.startCode);
    WordBits(h.length);
    BytesConcat(code + [h.streamId] + Be16(h.length) + [b6] + [b7], [h.headerDataLength]);
    BytesConcat(code + [h.streamId] + Be16(h.length) + [b6], [b7]);
    BytesConcat(code + [h.streamId] + Be16(h.length), [b6]);
    BytesConcat(code + [h.streamId], Be16(h.length));
    BytesConcat(code, [h.streamId]);
    OneByte(h.streamId);
    OneByte(b6);
    OneByte(b7);
    OneByte(h.headerDataLength);
  }

  // ---------- Program association section (table 2-25) ----------

  lemma SectionWordSyntax(syntax: byte, zero: byte, reserved: byte, length: u16, v: u16)
    requires v == Low(length, 0x1000) + Low(reserved, 4) * 0x1000 + Low(zero, 2) * 0x4000 + Low(syntax, 2) * 0x8000
    ensures Bit(v, 16) == Bit(syntax, 1) + (Bit(zero, 1) + (Bit(reserved, 2) + Bit(length, 12)))
  {
    hide Bit, Low, Pow2;
    Powers();
    var v1 := Low(length, 0x1000) + Low(reserved, 4) * 0x1000;
    Two(reserved, 2, length, 12);
    OnTop(zero, 1, v1, 14);
    OnTop(syntax, 1, v1 + Low(zero, 2) * 0x4000, 15);
  }

  lemma VersionSyntax(reserved: byte, version: byte, currentNext: byte, v: byte)
    requires v == Low(currentNext, 2) + Low(version, 32) * 2 + Low(reserved, 4) * 64
    ensures Bit(v, 8) == Bit(reserved, 2) + (Bit(version, 5) + Bit(currentNext, 1))
  {
    hide Bit, Low, Pow2;
    Powers();
    Two(version, 5, currentNext, 1);
    OnTop(reserved, 2, Low(currentNext, 2) + Low(version, 32) * 2, 6);
  }

  /**
   Table id 8, syntax indicator 1, zero 1, reserved 2, length 12, stream id 16, reserved 2, version 5, current 1,
     section
   number 8, last 8.
   */
  lemma PatSyntax(h: PatHeader)
    ensures BitsOfBytes(EncodePat(h))
         == Bit(h.tableId, 8) + (Bit(h.syntaxIndicator, 1)
                                 + (Bit(h.b0, 1) + (Bit(h.reserved0, 2) + Bit(h.sectionLength, 12))))
            + Bit(h.transportStreamId, 16) + (Bit(h.reserved1, 2) + (Bit(h.version, 5) + Bit(h.currentNext, 1)))
            + Bit(h.sectionNumber, 8) + Bit(h.lastSectionNumber, 8)
  {
    hide Bit, Low, BitsOfBytes, Be16;
    var word := Low(h.sectionLength, 0x1000) + Low(h.reserved0, 4) * 0x1000 + Low(h.b0, 2) * 0x4000
                + Low(h.syntaxIndicator, 2) * 0x8000;
    var b5 := Low(h.currentNext, 2) + Low(h.version, 32) * 2 + Low(h.reserved1, 4) * 64;
    SectionWordSyntax(h.syntaxIndicator, h.b0, h.reserved0, h.sectionLength, word);
    VersionSyntax(h.reserved1, h.version, h.currentNext, b5);
    SectionStart(h.tableId, word, h.transportStreamId, b5, h.sectionNumber, h.lastSectionNumber);
    assert EncodePat(h)
        == [h.tableId] + Be16(word) + Be16(h.transportStreamId) + [b5] + [h.sectionNumber] + [h.lastSectionNumber];
  }

  lemma SectionStart(tableId: byte, word: u16, id: u16, b5: byte, number: byte, last: byte)
    ensures BitsOfBytes([tableId] + Be16(word) + Be16(id) + [b5] + [number] + [last])
         == Bit(tableId, 8) + Bit(word, 16) + Bit(id, 16) + Bit(b5, 8) + Bit(number, 8) + Bit(last, 8)
  {
    hide Bit, BitsOfBytes, Be16;
    BytesConcat([tableId] + Be16(word) + Be16(id) + [b5] + [number], [last]);
    BytesConcat([tableId] + Be16(word) + Be16(id) + [b5], [number]);
    BytesConcat([tableId] + Be16(word) + Be16(id), [b5]);
    BytesConcat([tableId] + Be16(word), Be16(id));
    BytesConcat([tableId], Be16(word));
    OneByte(tableId);
    WordBits(word);
    WordBits(id);
    OneByte(b5);
    OneByte(number);
    OneByte(last);
  }

  // ---------- Program map section (table 2-28) ----------

  lemma PidSyntax(reserved: byte, pid: u16)
    ensures BitsOfBytes(Be16(Low(pid, 0x2000) + Low(reserved, 8) * 0x2000)) == Bit(reserved, 3) + Bit(pid, 13)
  {
    hide Bit, BitsOfBytes, Low, Pow2, Be16;
    Powers();
    WordBits(Low(pid, 0x2000) + Low(reserved, 8) * 0x2000);
    Two(reserved, 3, pid, 13);
  }

  lemma InfoLengthSyntax(reserved: byte, length: u16)
    ensures BitsOfBytes(Be16(Low(length, 0x1000) + Low(reserved, 16) * 0x1000)) == Bit(reserved, 4) + Bit(length, 12)
  {
    hide Bit, BitsOfBytes, Low, Pow2, Be16;
    Powers();
    WordBits(Low(length, 0x1000) + Low(reserved, 16) * 0x1000);
    Two(reserved, 4, length, 12);
  }

  /** Type 8, reserved 3, PID 13, reserved 4, length 12. */
  lemma InfoSyntax(e: PmtInfo)
    ensures BitsOfBytes(EncodeInfo(e))
         == Bit(e.streamType, 8) + (Bit(e.reserved0, 3) + Bit(e.pid, 13))
           + (Bit(e.reserved1, 4) + Bit(e.infoLength, 12))
  {
    hide Bit, BitsOfBytes, Low, Be16;
    var a, b := Be16(Low(e.pid, 0x2000) + Low(e.reserved0, 8) * 0x2000),
      Be16(Low(e.infoLength, 0x1000) + Low(e.reserved1, 16) * 0x1000);
    BytesConcat([e.streamType] + a, b);
    BytesConcat([e.streamType], a);
    OneByte(e.streamType);
    PidSyntax(e.reserved0, e.pid);
    InfoLengthSyntax(e.reserved1, e.infoLength);
  }

  /**
   Table id 8, syntax indicator 1, zero 1, reserved 2, length 12, program number 16, reserved 2, version 5, current 1,
   section number 8, last 8, reserved 3, clock PID 13, reserved 4, length of program information 12.
   */
  lemma PmtSyntax(h: PmtHeader)
    requires h.sectionLength < 0x1000
    ensures BitsOfBytes(EncodePmtFixed(h))
         == Bit(h.tableId, 8) + (Bit(h.syntaxIndicator, 1)
                                 + (Bit(h.b0, 1) + (Bit(h.reserved0, 2) + Bit(h.sectionLength, 12))))
            + Bit(h.programNumber, 16) + (Bit(h.reserved1, 2) + (Bit(h.version, 5) + Bit(h.currentNext, 1)))
            + Bit(h.sectionNumber, 8) + Bit(h.lastSectionNumber, 8)
            + (Bit(h.reserved2, 3) + Bit(h.pcrPid, 13)) + (Bit(h.reserved3, 4) + Bit(h.programInfoLength, 12))
  {
    hide Bit, Low, BitsOfBytes, Be16, LengthWord;
    var word := LengthWord(h);
    LengthWordInWidth(h);
    LowIs(h.sectionLength, h.sectionLength, 0x1000, 0);
    var b5 := Low(h.currentNext, 2) + Low(h.version, 32) * 2 + Low(h.reserved1, 4) * 64;
    SectionWordSyntax(h.syntaxIndicator, h.b0, h.reserved0, h.sectionLength, word);
    VersionSyntax(h.reserved1, h.version, h.currentNext, b5);
    var front := [h.tableId] + Be16(word) + Be16(h.programNumber) + [b5] + [h.sectionNumber] + [h.lastSectionNumber];
    SectionStart(h.tableId, word, h.programNumber, b5, h.sectionNumber, h.lastSectionNumber);
    var a := Be16(Low(h.pcrPid, 0x2000) + Low(h.reserved2, 8) * 0x2000);
    var b := Be16(Low(h.programInfoLength, 0x1000) + Low(h.reserved3, 16) * 0x1000);
    assert EncodePmtFixed(h) == front + a + b;
    BytesConcat(front + a, b);
    BytesConcat(front, a);
    PidSyntax(h.reserved2, h.pcrPid);
    InfoLengthSyntax(h.reserved3, h.programInfoLength);
  }

  // ---------- Time stamps and clock references (tables 2-21 and 2-6) ----------

  /** Prefix 4, bits 32 to 30, marker, bits 29 to 15, marker, bits 14 to 0, marker. */
  lemma PtsSyntax(prefix: u32, pts: u64)
    ensures BitsOfBytes(EncodePts(prefix, pts))
         == Bit(prefix, 4) + (Bit(pts / 0x4000_0000, 3) + [true]) + (Bit(pts / 0x8000, 15) + [true])
           + (Bit(pts, 15) + [true])
  {
    hide Bit, BitsOfBytes, Pow2, Be16, Low, Bits;
    Powers();
    var top, mid, low := Bits(pts, 0x4000_0000, 8), Bits(pts, 0x8000, 0x8000), Low(pts, 0x8000);
    var b := Low(prefix, 16) * 16 + top * 2 + 1;
    BytesConcat([b] + Be16(mid * 2 + 1), Be16(low * 2 + 1));
    BytesConcat([b], Be16(mid * 2 + 1));
    OneByte(b);
    WordBits(mid * 2 + 1);
    WordBits(low * 2 + 1);
    OnTop(prefix, 4, top * 2 + 1, 4);
    Marked(top, 3);
    Marked(mid, 15);
    Marked(low, 15);
    BitsAreLow(pts, 0x4000_0000, 8);
    BitsAreLow(pts, 0x8000, 0x8000);
    LowBits(pts / 0x4000_0000, 3);
    LowBits(pts / 0x8000, 15);
    LowBits(pts, 15);
  }

  lemma BitsAreLow(v: nat, m: nat, n: nat)
    requires m > 0 && n > 0
    ensures v / m >= 0 && Bits(v, m, n) == Low(v / m, n)
  {
  }

  // A field and a marker bit.
  lemma Marked(v: nat, n: nat)
    ensures Bit(v * 2 + 1, n + 1) == Bit(v, n) + [true]
  {
    assert (v * 2 + 1) / 2 == v;
  }

  // Four bytes as one number.
  lemma FourBytes(b0: byte, b1: byte, b2: byte, b3: byte)
    ensures BitsOfBytes([b0] + [b1] + [b2] + [b3])
         == Bit(b0 * 0x100_0000 + b1 * 0x1_0000 + b2 * 0x100 + b3, 32)
  {
    hide Bit, BitsOfBytes, Pow2;
    Powers();
    BytesConcat([b0] + [b1] + [b2], [b3]);
    BytesConcat([b0] + [b1], [b2]);
    BytesConcat([b0], [b1]);
    OneByte(b0);
    OneByte(b1);
    OneByte(b2);
    OneByte(b3);
    Join(b0 * 0x1_0000 + b1 * 0x100 + b2, 24, b3, 8);
    Join(b0 * 0x100 + b1, 16, b2, 8);
    Join(b0, 8, b1, 8);
  }

  // The last bit of the base, the reserved ones and the extension.
  lemma PcrTail(last: nat)
    requires last < 2
    ensures BitsOfBytes([last * 128 + 0x7E] + [0]) == Bit(last, 1) + (Bit(0x3F, 6) + Bit(0, 9))
  {
    hide Bit, BitsOfBytes, Pow2;
    Powers();
    BytesConcat([last * 128 + 0x7E], [0]);
    OneByte(last * 128 + 0x7E);
    OneByte(0);
    Join(last, 1, 0x7E, 7);
    Join(0x3F, 6, 0, 1);
    Join(0, 1, 0, 8);
  }

  /** Base 33, six reserved ones, extension 9. */
  lemma PcrSyntax(pcr: u64)
    ensures BitsOfBytes(EncodePcr(pcr)) == Bit(pcr, 33) + Bit(0x3F, 6) + Bit(0, 9)
  {
    hide Bit, BitsOfBytes, Pow2, Low, Bits;
    Powers();
    var b0, b1, b2, b3 := Bits(pcr, 0x200_0000, 256), Bits(pcr, 0x2_0000, 256), Bits(pcr, 0x200, 256),
      Bits(pcr, 2, 256);
    var last := Low(pcr, 2);
    var front, tail := [b0] + [b1] + [b2] + [b3], [last * 128 + 0x7E] + [0];
    assert EncodePcr(pcr) == front + tail;
    BytesConcat(front, tail);
    FourBytes(b0, b1, b2, b3);
    PcrTail(last);
    PcrDigits(pcr);
    LowBits(pcr, 33);
    LowIsRemainder(pcr);
    Join(b0 * 0x100_0000 + b1 * 0x1_0000 + b2 * 0x100 + b3, 32, last, 1);
  }

  lemma LowIsRemainder(pcr: nat)
    ensures Low(pcr, Pow2(33)) == pcr % 0x2_0000_0000
  {
    Powers();
    assert Pow2(33) == 2 * Pow2(32);
    assert Pow2(32) == 0x1_0000_0000;
  }
}
