/**
 The CRC of PSI sections (ISO/IEC 13818-1, Annex A): the table-driven loop the
 muxer uses, proved equal to the one-bit-at-a-time shift register of the standard.
 */
module Crc {
  import opened Bytes

  const POLYNOMIAL: bv32 := 0x04C11DB7
  const ALL_ONES: bv32 := 0xFFFFFFFF

  predicate TopBit(c: bv32) { c & 0x80000000 != 0 }

  function Clock(c: bv32, feedback: bool): bv32 {
    if feedback then (c << 1) ^ POLYNOMIAL else c << 1
  }

  // One clock of the shift register: the incoming bit is added to the bit that
  // falls out, and the sum feeds back through the taps of the polynomial.
  function ShiftBit(c: bv32, bit: bool): bv32 {
    Clock(c, TopBit(c) != bit)
  }

  function Register(c: bv32, bits: seq<bool>): bv32
    decreases |bits|
  {
    if bits == [] then c else Register(ShiftBit(c, bits[0]), bits[1..])
  }

  function Shl8(b: bv8): bv8 { b << 1 }

  predicate TopBit8(b: bv8) { b & 0x80 != 0 }

  // The first n bits of a byte, most significant first.
  function BitsOf(b: bv8, n: nat): (bits: seq<bool>)
    ensures |bits| == n
    decreases n
  {
    if n == 0 then [] else [TopBit8(b)] + BitsOf(Shl8(b), n - 1)
  }

  function MessageBits(message: seq<byte>): seq<bool> {
    if message == [] then [] else BitsOf(message[0] as bv8, 8) + MessageBits(message[1..])
  }

  // The reference value: the register started at all ones, clocked once per bit.
  function BitSerial(message: seq<byte>): bv32 {
    Register(ALL_ONES, MessageBits(message))
  }

  function Pick(i: bv4, v0: bv32, v1: bv32, v2: bv32, v3: bv32, v4: bv32, v5: bv32, v6: bv32, v7: bv32,
                v8: bv32, v9: bv32, v10: bv32, v11: bv32, v12: bv32, v13: bv32, v14: bv32, v15: bv32): bv32
  {
    if i < 8 then
      if i < 4 then (if i < 2 then (if i == 0 then v0 else v1) else if i == 2 then v2 else v3)
      else (if i < 6 then (if i == 4 then v4 else v5) else if i == 6 then v6 else v7)
    else
      if i < 12 then (if i < 10 then (if i == 8 then v8 else v9) else if i == 10 then v10 else v11)
      else (if i < 14 then (if i == 12 then v12 else v13) else if i == 14 then v14 else v15)
  }

  // The 256 constants, sixteen to a row.
  function Table(i: bv8): bv32 {
    var hi := ((i >> 4) & 0xF) as bv4;
    var lo := (i & 0xF) as bv4;
    if hi == 0 then
      Pick(lo, 0x00000000, 0x04C11DB7, 0x09823B6E, 0x0D4326D9, 0x130476DC, 0x17C56B6B, 0x1A864DB2, 0x1E475005,
               0x2608EDB8, 0x22C9F00F, 0x2F8AD6D6, 0x2B4BCB61, 0x350C9B64, 0x31CD86D3, 0x3C8EA00A, 0x384FBDBD)
    else if hi == 1 then
      Pick(lo, 0x4C11DB70, 0x48D0C6C7, 0x4593E01E, 0x4152FDA9, 0x5F15ADAC, 0x5BD4B01B, 0x569796C2, 0x52568B75,
               0x6A1936C8, 0x6ED82B7F, 0x639B0DA6, 0x675A1011, 0x791D4014, 0x7DDC5DA3, 0x709F7B7A, 0x745E66CD)
    else if hi == 2 then
      Pick(lo, 0x9823B6E0, 0x9CE2AB57, 0x91A18D8E, 0x95609039, 0x8B27C03C, 0x8FE6DD8B, 0x82A5FB52, 0x8664E6E5,
               0xBE2B5B58, 0xBAEA46EF, 0xB7A96036, 0xB3687D81, 0xAD2F2D84, 0xA9EE3033, 0xA4AD16EA, 0xA06C0B5D)
    else if hi == 3 then
      Pick(lo, 0xD4326D90, 0xD0F37027, 0xDDB056FE, 0xD9714B49, 0xC7361B4C, 0xC3F706FB, 0xCEB42022, 0xCA753D95,
               0xF23A8028, 0xF6FB9D9F, 0xFBB8BB46, 0xFF79A6F1, 0xE13EF6F4, 0xE5FFEB43, 0xE8BCCD9A, 0xEC7DD02D)
    else if hi == 4 then
      Pick(lo, 0x34867077, 0x30476DC0, 0x3D044B19, 0x39C556AE, 0x278206AB, 0x23431B1C, 0x2E003DC5, 0x2AC12072,
               0x128E9DCF, 0x164F8078, 0x1B0CA6A1, 0x1FCDBB16, 0x018AEB13, 0x054BF6A4, 0x0808D07D, 0x0CC9CDCA)
    else if hi == 5 then
      Pick(lo, 0x7897AB07, 0x7C56B6B0, 0x71159069, 0x75D48DDE, 0x6B93DDDB, 0x6F52C06C, 0x6211E6B5, 0x66D0FB02,
               0x5E9F46BF, 0x5A5E5B08, 0x571D7DD1, 0x53DC6066, 0x4D9B3063, 0x495A2DD4, 0x44190B0D, 0x40D816BA)
    else if hi == 6 then
      Pick(lo, 0xACA5C697, 0xA864DB20, 0xA527FDF9, 0xA1E6E04E, 0xBFA1B04B, 0xBB60ADFC, 0xB6238B25, 0xB2E29692,
               0x8AAD2B2F, 0x8E6C3698, 0x832F1041, 0x87EE0DF6, 0x99A95DF3, 0x9D684044, 0x902B669D, 0x94EA7B2A)
    else if hi == 7 then
      Pick(lo, 0xE0B41DE7, 0xE4750050, 0xE9362689, 0xEDF73B3E, 0xF3B06B3B, 0xF771768C, 0xFA325055, 0xFEF34DE2,
               0xC6BCF05F, 0xC27DEDE8, 0xCF3ECB31, 0xCBFFD686, 0xD5B88683, 0xD1799B34, 0xDC3ABDED, 0xD8FBA05A)
    else if hi == 8 then
      Pick(lo, 0x690CE0EE, 0x6DCDFD59, 0x608EDB80, 0x644FC637, 0x7A089632, 0x7EC98B85, 0x738AAD5C, 0x774BB0EB,
               0x4F040D56, 0x4BC510E1, 0x46863638, 0x42472B8F, 0x5C007B8A, 0x58C1663D, 0x558240E4, 0x51435D53)
    else if hi == 9 then
      Pick(lo, 0x251D3B9E, 0x21DC2629, 0x2C9F00F0, 0x285E1D47, 0x36194D42, 0x32D850F5, 0x3F9B762C, 0x3B5A6B9B,
               0x0315D626, 0x07D4CB91, 0x0A97ED48, 0x0E56F0FF, 0x1011A0FA, 0x14D0BD4D, 0x19939B94, 0x1D528623)
    else if hi == 10 then
      Pick(lo, 0xF12F560E, 0xF5EE4BB9, 0xF8AD6D60, 0xFC6C70D7, 0xE22B20D2, 0xE6EA3D65, 0xEBA91BBC, 0xEF68060B,
               0xD727BBB6, 0xD3E6A601, 0xDEA580D8, 0xDA649D6F, 0xC423CD6A, 0xC0E2D0DD, 0xCDA1F604, 0xC960EBB3)
    else if hi == 11 then
      Pick(lo, 0xBD3E8D7E, 0xB9FF90C9, 0xB4BCB610, 0xB07DABA7, 0xAE3AFBA2, 0xAAFBE615, 0xA7B8C0CC, 0xA379DD7B,
               0x9B3660C6, 0x9FF77D71, 0x92B45BA8, 0x9675461F, 0x8832161A, 0x8CF30BAD, 0x81B02D74, 0x857130C3)
    else if hi == 12 then
      Pick(lo, 0x5D8A9099, 0x594B8D2E, 0x5408ABF7, 0x50C9B640, 0x4E8EE645, 0x4A4FFBF2, 0x470CDD2B, 0x43CDC09C,
               0x7B827D21, 0x7F436096, 0x7200464F, 0x76C15BF8, 0x68860BFD, 0x6C47164A, 0x61043093, 0x65C52D24)
    else if hi == 13 then
      Pick(lo, 0x119B4BE9, 0x155A565E, 0x18197087, 0x1CD86D30, 0x029F3D35, 0x065E2082, 0x0B1D065B, 0x0FDC1BEC,
               0x3793A651, 0x3352BBE6, 0x3E119D3F, 0x3AD08088, 0x2497D08D, 0x2056CD3A, 0x2D15EBE3, 0x29D4F654)
    else if hi == 14 then
      Pick(lo, 0xC5A92679, 0xC1683BCE, 0xCC2B1D17, 0xC8EA00A0, 0xD6AD50A5, 0xD26C4D12, 0xDF2F6BCB, 0xDBEE767C,
               0xE3A1CBC1, 0xE760D676, 0xEA23F0AF, 0xEEE2ED18, 0xF0A5BD1D, 0xF464A0AA, 0xF9278673, 0xFDE69BC4)
    else
      Pick(lo, 0x89B8FD09, 0x8D79E0BE, 0x803AC667, 0x84FBDBD0, 0x9ABC8BD5, 0x9E7D9662, 0x933EB0BB, 0x97FFAD0C,
               0xAFB010B1, 0xAB710D06, 0xA6322BDF, 0xA2F33668, 0xBCB4666D, 0xB8757BDA, 0xB5365D03, 0xB1F740B4)
  }

  // One turn of the table-driven loop.
  function TableStep(c: bv32, b: bv8): bv32 {
    Xor(c << 8, Table(Xor8(Top(c), b)))
  }

  function Shl(c: bv32): bv32 { c << 1 }

  // The register after the first n bits of b.
  function Clocks(c: bv32, b: bv8, n: nat): bv32
    decreases n
  {
    if n == 0 then c else Clocks(ShiftBit(c, TopBit8(b)), Shl8(b), n - 1)
  }

  function ShiftBy(c: bv32, n: nat): bv32
    decreases n
  {
    if n == 0 then c else ShiftBy(Shl(c), n - 1)
  }

  // The first n bits to fall out of c are the first n bits of t.
  predicate FallsOut(c: bv32, t: bv8, n: nat)
    decreases n
  {
    n == 0 || (TopBit(c) == TopBit8(t) && FallsOut(Shl(c), Shl8(t), n - 1))
  }

  function Xor(p: bv32, q: bv32): bv32 { p ^ q }

  function Xor8(a: bv8, b: bv8): bv8 { a ^ b }

  lemma TopBitLinear(p: bv32, q: bv32)
    ensures TopBit(Xor(p, q)) == (TopBit(p) != TopBit(q))
  {
  }

  lemma ByteLinear(t: bv8, b: bv8)
    ensures TopBit8(Xor8(t, b)) == (TopBit8(t) != TopBit8(b))
    ensures Shl8(Xor8(t, b)) == Xor8(Shl8(t), Shl8(b))
  {
  }

  lemma ClockLinear(p: bv32, q: bv32, feedback: bool)
    ensures Clock(Xor(p, q), feedback) == Xor(Shl(p), Clock(q, feedback))
  {
    hide Shl, Xor, Clock;
    ShlLinear(p, q);
    XorAssociates(Shl(p), Shl(q), POLYNOMIAL);
    ClockIs(Xor(p, q), feedback);
    ClockIs(q, feedback);
  }

  lemma ClockIs(c: bv32, feedback: bool)
    ensures Clock(c, feedback) == if feedback then Xor(Shl(c), POLYNOMIAL) else Shl(c)
  {
  }

  lemma ShlLinear(p: bv32, q: bv32)
    ensures Shl(Xor(p, q)) == Xor(Shl(p), Shl(q))
  {
  }

  lemma XorAssociates(p: bv32, q: bv32, r: bv32)
    ensures Xor(Xor(p, q), r) == Xor(p, Xor(q, r))
  {
  }

  // The part of the register that only shifts can be taken out of a clock, once
  // the bit it drops is added to the incoming bit.
  lemma ShiftBitLinear(p: bv32, q: bv32, x: bool, y: bool)
    requires y == (TopBit(p) != x)
    ensures ShiftBit(Xor(p, q), x) == Xor(Shl(p), ShiftBit(q, y))
  {
    hide Clock, TopBit, Xor, Shl;
    TopBitLinear(p, q);
    ClockLinear(p, q, TopBit(q) != y);
    assert (TopBit(Xor(p, q)) != x) == (TopBit(q) != y);
  }

  lemma {:induction false} ClocksLinear(p: bv32, q: bv32, t: bv8, b: bv8, n: nat)
    requires FallsOut(p, t, n)
    ensures Clocks(Xor(p, q), b, n) == Xor(ShiftBy(p, n), Clocks(q, Xor8(t, b), n))
    decreases n
  {
    hide ShiftBit, Shl, Shl8, TopBit, TopBit8, Xor, Xor8;
    if n > 0 {
      ByteLinear(t, b);
      ShiftBitLinear(p, q, TopBit8(b), TopBit8(Xor8(t, b)));
      ClocksLinear(Shl(p), ShiftBit(q, TopBit8(Xor8(t, b))), Shl8(t), Shl8(b), n - 1);
    }
  }

  function Clocks8(c: bv32, b: bv8): bv32 {
    var c1, b1 := ShiftBit(c, TopBit8(b)), Shl8(b);
    var c2, b2 := ShiftBit(c1, TopBit8(b1)), Shl8(b1);
    var c3, b3 := ShiftBit(c2, TopBit8(b2)), Shl8(b2);
    var c4, b4 := ShiftBit(c3, TopBit8(b3)), Shl8(b3);
    var c5, b5 := ShiftBit(c4, TopBit8(b4)), Shl8(b4);
    var c6, b6 := ShiftBit(c5, TopBit8(b5)), Shl8(b5);
    var c7, b7 := ShiftBit(c6, TopBit8(b6)), Shl8(b6);
    ShiftBit(c7, TopBit8(b7))
  }

  lemma ClocksUnrolled(c: bv32, b: bv8)
    ensures Clocks(c, b, 8) == Clocks8(c, b)
  {
    hide ShiftBit, TopBit8, Shl8;
    var c1, b1 := ShiftBit(c, TopBit8(b)), Shl8(b);
    var c2, b2 := ShiftBit(c1, TopBit8(b1)), Shl8(b1);
    var c3, b3 := ShiftBit(c2, TopBit8(b2)), Shl8(b2);
    var c4, b4 := ShiftBit(c3, TopBit8(b3)), Shl8(b3);
    assert Clocks(c, b, 8) == Clocks(c1, b1, 7) == Clocks(c2, b2, 6) == Clocks(c3, b3, 5) == Clocks(c4, b4, 4);
  }

  lemma TableFirstRow(i: bv8)
    requires i < 0x10
    ensures Table(i) == Clocks8(0, i)
  {
  }

  lemma TableSecondRow(i: bv8)
    requires 0x10 <= i < 0x20
    ensures Table(i) == Clocks8(0, i)
  {
  }

  lemma TableSecondEighth(i: bv8)
    requires 0x20 <= i < 0x40
    ensures Table(i) == Clocks8(0, i)
  {
  }

  lemma TableThirdEighth(i: bv8)
    requires 0x40 <= i < 0x60
    ensures Table(i) == Clocks8(0, i)
  {
  }

  lemma TableFourthEighth(i: bv8)
    requires 0x60 <= i < 0x80
    ensures Table(i) == Clocks8(0, i)
  {
  }

  lemma TableFifthEighth(i: bv8)
    requires 0x80 <= i < 0xA0
    ensures Table(i) == Clocks8(0, i)
  {
  }

  lemma TableSixthEighth(i: bv8)
    requires 0xA0 <= i < 0xC0
    ensures Table(i) == Clocks8(0, i)
  {
  }

  lemma TableSeventhEighth(i: bv8)
    requires 0xC0 <= i < 0xE0
    ensures Table(i) == Clocks8(0, i)
  {
  }

  lemma TableLastEighth(i: bv8)
    requires 0xE0 <= i
    ensures Table(i) == Clocks8(0, i)
  {
  }

  // Every one of the 256 constants is eight clocks of the empty register.
  lemma TableIsEightClocks(i: bv8)
    ensures Table(i) == Clocks(0, i, 8)
  {
    hide Table, Clocks8, Clocks;
    ClocksUnrolled(0, i);
    if i < 0x10 {
      TableFirstRow(i);
    } else if i < 0x20 {
      TableSecondRow(i);
    } else if i < 0x40 {
      TableSecondEighth(i);
    } else if i < 0x60 {
      TableThirdEighth(i);
    } else if i < 0x80 {
      TableFourthEighth(i);
    } else if i < 0xA0 {
      TableFifthEighth(i);
    } else if i < 0xC0 {
      TableSixthEighth(i);
    } else if i < 0xE0 {
      TableSeventhEighth(i);
    } else {
      TableLastEighth(i);
    }
  }

  lemma ShiftByEight(c: bv32)
    ensures ShiftBy(c, 8) == c << 8
  {
    hide ShiftBy;
    ShiftByFour(c);
    ShiftByFour(c << 4);
    FourAndFour(c);
    ShiftByTwice(c, 4, 4);
  }

  lemma FourAndFour(c: bv32)
    ensures (c << 4) << 4 == c << 8
  {
  }

  lemma ShiftByFour(c: bv32)
    ensures ShiftBy(c, 4) == c << 4
  {
    var c1, c2, c3 := Shl(c), Shl(Shl(c)), Shl(Shl(Shl(c)));
    assert ShiftBy(c, 4) == ShiftBy(c1, 3) == ShiftBy(c2, 2) == ShiftBy(c3, 1) == Shl(c3) by {
      hide Shl;
    }
    hide ShiftBy;
  }

  lemma {:induction false} ShiftByTwice(c: bv32, n: nat, k: nat)
    ensures ShiftBy(c, n + k) == ShiftBy(ShiftBy(c, n), k)
    decreases n
  {
    hide Shl;
    if n > 0 {
      ShiftByTwice(Shl(c), n - 1, k);
    }
  }

  lemma TopFallsOut(c: bv32)
    ensures FallsOut(c, Top(c), 8)
  {
    var c1, t1 := Shl(c), Shl8(Top(c));
    var c2, t2 := Shl(c1), Shl8(t1);
    var c3, t3 := Shl(c2), Shl8(t2);
    var c4, t4 := Shl(c3), Shl8(t3);
    TopBits(c);
    hide Shl, Shl8, TopBit, TopBit8, Top;
    var c5, t5 := Shl(c4), Shl8(t4);
    var c6, t6 := Shl(c5), Shl8(t5);
    assert FallsOut(c6, t6, 2) && FallsOut(c4, t4, 4);
    assert FallsOut(c2, t2, 6);
  }

  // The eight bits that fall out of a register are those of its top byte.
  lemma TopBits(c: bv32)
    ensures var t := Top(c);
            TopBit(c) == TopBit8(t) && TopBit(Shl(c)) == TopBit8(Shl8(t))
            && TopBit(Shl(Shl(c))) == TopBit8(Shl8(Shl8(t)))
            && TopBit(Shl(Shl(Shl(c)))) == TopBit8(Shl8(Shl8(Shl8(t))))
            && TopBit(Shl(Shl(Shl(Shl(c))))) == TopBit8(Shl8(Shl8(Shl8(Shl8(t)))))
            && TopBit(Shl(Shl(Shl(Shl(Shl(c)))))) == TopBit8(Shl8(Shl8(Shl8(Shl8(Shl8(t))))))
            && TopBit(Shl(Shl(Shl(Shl(Shl(Shl(c))))))) == TopBit8(Shl8(Shl8(Shl8(Shl8(Shl8(Shl8(t)))))))
            && TopBit(Shl(Shl(Shl(Shl(Shl(Shl(Shl(c)))))))) == TopBit8(Shl8(Shl8(Shl8(Shl8(Shl8(Shl8(Shl8(t))))))))
  {
  }

  lemma XorZero(c: bv32)
    ensures Xor(c, 0) == c
  {
  }

  // One turn of the loop is eight clocks of the register, for every register and byte.
  lemma TableStepIsEightClocks(c: bv32, b: bv8)
    ensures TableStep(c, b) == Clocks(c, b, 8)
  {
    hide Table, Clocks, FallsOut, ShiftBy, Xor, Xor8, Top;
    TopFallsOut(c);
    ClocksLinear(c, 0, Top(c), b, 8);
    XorZero(c);
    ShiftByEight(c);
    TableIsEightClocks(Xor8(Top(c), b));
  }

  lemma {:induction false} RegisterClocks(c: bv32, b: bv8, n: nat, rest: seq<bool>)
    ensures Register(c, BitsOf(b, n) + rest) == Register(Clocks(c, b, n), rest)
    decreases n
  {
    hide ShiftBit, TopBit8, Shl8;
    if n == 0 {
      assert BitsOf(b, n) + rest == rest;
    } else {
      var bits := BitsOf(b, n) + rest;
      assert bits[0] == TopBit8(b) && bits[1..] == BitsOf(Shl8(b), n - 1) + rest;
      RegisterClocks(ShiftBit(c, TopBit8(b)), Shl8(b), n - 1, rest);
    }
  }

  lemma RegisterByte(c: bv32, message: seq<byte>)
    requires message != []
    ensures Register(c, MessageBits(message)) == Register(TableStep(c, message[0] as bv8), MessageBits(message[1..]))
  {
    hide TableStep, Clocks;
    RegisterClocks(c, message[0] as bv8, 8, MessageBits(message[1..]));
    TableStepIsEightClocks(c, message[0] as bv8);
  }

  /** The table-driven loop computes the value of the bit-serial register. */
  method Crc32(data: seq<byte>) returns (crc: bv32)
    ensures crc == BitSerial(data)
  {
    hide TableStep;
    crc := ALL_ONES;
    for i := 0 to |data|
      invariant Register(crc, MessageBits(data[i..])) == BitSerial(data)
    {
      assert data[i..][1..] == data[i + 1..];
      RegisterByte(crc, data[i..]);
      crc := TableStep(crc, data[i] as bv8);
    }
    assert data[|data|..] == [];
  }

  lemma {:induction false} MessageConcat(c: bv32, a: seq<byte>, b: seq<byte>)
    ensures Register(c, MessageBits(a + b)) == Register(Register(c, MessageBits(a)), MessageBits(b))
    decreases |a|
  {
    hide TableStep, BitsOf;
    if a == [] {
      assert a + b == b;
    } else {
      RegisterByte(c, a + b);
      RegisterByte(c, a);
      assert (a + b)[1..] == a[1..] + b;
      MessageConcat(TableStep(c, a[0] as bv8), a[1..], b);
    }
  }

  // Feeding the register its own top byte only shifts it.
  lemma OwnTopShifts(c: bv32)
    ensures TableStep(c, Top(c)) == c << 8
  {
    assert Xor8(Top(c), Top(c)) == 0;
    assert Table(0) == 0;
  }

  lemma OwnTopStep(c: bv32, rest: seq<byte>)
    ensures Register(c, MessageBits([Top(c) as int] + rest)) == Register(c << 8, MessageBits(rest))
  {
    hide Register, MessageBits, TableStep, Top;
    var message := [Top(c) as int] + rest;
    RegisterByte(c, message);
    OwnTopShifts(c);
    assert message[1..] == rest;
    assert message[0] as bv8 == Top(c);
  }

  lemma ShiftAll(c: bv32)
    ensures (c << 8) << 8 == c << 16 && (c << 16) << 8 == c << 24 && (c << 24) << 8 == 0
  {
  }

  // The register is emptied by its own bytes.
  lemma OwnBytesEmptyRegister(c: bv32)
    ensures Register(c, MessageBits(BytesOf32(c))) == 0
  {
    hide Top, MessageBits, Register;
    var b0, b1, b2, b3 := Top(c) as int, Top(c << 8) as int, Top(c << 16) as int, Top(c << 24) as int;
    ShiftAll(c);
    OwnTopStep(c, [b1, b2, b3]);
    OwnTopStep(c << 8, [b2, b3]);
    OwnTopStep(c << 16, [b3]);
    OwnTopStep(c << 24, []);
    assert [b0] + [b1, b2, b3] == BytesOf32(c) && [b1] + [b2, b3] == [b1, b2, b3] && [b2] + [b3] == [b2, b3];
    assert [b3] + [] == [b3];
    assert Register(0, MessageBits([])) == 0 by { EmptyMessage(0); }
  }

  lemma EmptyMessage(c: bv32)
    ensures Register(c, MessageBits([])) == c
  {
  }

  /** A section followed by its own checksum checks to zero. */
  lemma CheckedSectionIsZero(section: seq<byte>)
    ensures BitSerial(section + BytesOf32(BitSerial(section))) == 0
  {
    hide Register, MessageBits, BytesOf32;
    MessageConcat(ALL_ONES, section, BytesOf32(BitSerial(section)));
    OwnBytesEmptyRegister(BitSerial(section));
  }
}
