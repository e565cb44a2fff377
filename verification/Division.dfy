/**
 The checksum as division (Annex A of ISO/IEC 13818-1): the message bits, the first 32 of them
 complemented, followed by 32 zeros, are divided by the polynomial on paper, bit by bit; the
 checksum is the remainder.
 */
module Division {
  import opened Bytes
  import opened Crc

  // x^32 + x^26 + x^23 + x^22 + x^16 + x^12 + x^11 + x^10 + x^8 + x^7 + x^5 + x^4 + x^2 + x + 1
  const DIVISOR: seq<bool> :=
    [true,
     false, false, false, false, false, true, false, false,
     true, true, false, false, false, false, false, true,
     false, false, false, true, true, true, false, true,
     true, false, true, true, false, true, true, true]

  function Sum(a: seq<bool>, b: seq<bool>): (c: seq<bool>)
    requires |a| == |b|
    ensures |c| == |a|
  {
    seq(|a|, i requires 0 <= i < |a| => a[i] != b[i])
  }

  // Long division: a leading one takes the divisor off, a leading zero nothing; either is dropped.
  function Remainder(bits: seq<bool>): (r: seq<bool>)
    ensures |r| == if |bits| <= 32 then |bits| else 32
    decreases |bits|
  {
    if |bits| <= 32 then bits
    else Remainder((if bits[0] then Sum(bits[1..33], DIVISOR[1..]) else bits[1..33]) + bits[33..])
  }

  function Complemented(bits: seq<bool>, n: nat): seq<bool>
    requires n <= |bits|
  {
    seq(|bits|, i requires 0 <= i < |bits| => if i < n then !bits[i] else bits[i])
  }

  function Zeros(): (z: seq<bool>)
    ensures |z| == 32
  {
    seq(32, _ => false)
  }

  // ---------- The register as bits ----------

  // The first n bits to fall out of a register.
  function BitsOf32(c: bv32, n: nat): (bits: seq<bool>)
    ensures |bits| == n
    decreases n
  {
    if n == 0 then [] else [TopBit(c)] + BitsOf32(Shl(c), n - 1)
  }

  lemma {:induction false} BitsOfXor(p: bv32, q: bv32, n: nat)
    ensures BitsOf32(Xor(p, q), n) == Sum(BitsOf32(p, n), BitsOf32(q, n))
    decreases n
  {
    hide Xor, Shl, TopBit;
    if n > 0 {
      TopBitLinear(p, q);
      ShlLinear(p, q);
      BitsOfXor(Shl(p), Shl(q), n - 1);
    }
  }

  lemma {:induction false} LastBit(c: bv32, n: nat)
    ensures BitsOf32(c, n + 1) == BitsOf32(c, n) + [TopBit(ShiftBy(c, n))]
    decreases n
  {
    hide Shl, TopBit;
    if n > 0 {
      LastBit(Shl(c), n - 1);
    }
  }

  function Shl8x(c: bv32): bv32 { c << 8 }

  lemma ShiftByByte(c: bv32)
    ensures ShiftBy(c, 8) == Shl8x(c)
  {
    hide ShiftBy;
    ShiftByEight(c);
  }

  lemma NothingLeft(c: bv32)
    ensures !TopBit(ShiftBy(Shl(c), 31))
  {
    hide ShiftBy, TopBit, Shl, Shl8x;
    ShiftByOne(c);
    ShiftByTwice(c, 1, 31);
    ShiftByTwice(c, 16, 16);
    ShiftByTwice(c, 8, 8);
    ShiftByTwice(ShiftBy(c, 16), 8, 8);
    ShiftByByte(c);
    ShiftByByte(Shl8x(c));
    ShiftByByte(Shl8x(Shl8x(c)));
    ShiftByByte(Shl8x(Shl8x(Shl8x(c))));
    AllShiftedOut(c);
  }

  lemma ShiftByOne(c: bv32)
    ensures ShiftBy(c, 1) == Shl(c)
  {
    hide Shl;
    assert ShiftBy(Shl(c), 0) == Shl(c);
  }

  lemma AllShiftedOut(c: bv32)
    ensures !TopBit(Shl8x(Shl8x(Shl8x(Shl8x(c)))))
  {
  }

  // A shift drops the first bit and brings in a zero.
  lemma BitsOfShl(c: bv32)
    ensures BitsOf32(Shl(c), 32) == BitsOf32(c, 32)[1..] + [false]
  {
    hide Shl, TopBit, ShiftBy;
    LastBit(Shl(c), 31);
    NothingLeft(c);
    assert BitsOf32(c, 32)[1..] == BitsOf32(Shl(c), 31);
  }

  lemma {:induction false} BitsSplit(c: bv32, n: nat, k: nat)
    ensures BitsOf32(c, n + k) == BitsOf32(c, n) + BitsOf32(ShiftBy(c, n), k)
    decreases n
  {
    hide Shl, TopBit;
    if n > 0 {
      BitsSplit(Shl(c), n - 1, k);
      assert [TopBit(c)] + (BitsOf32(Shl(c), n - 1) + BitsOf32(ShiftBy(c, n), k))
          == [TopBit(c)] + BitsOf32(Shl(c), n - 1) + BitsOf32(ShiftBy(c, n), k);
    }
  }

  lemma FourBytes(c: bv32)
    ensures BitsOf32(c, 32)
         == BitsOf32(c, 8) + BitsOf32(Shl8x(c), 8) + BitsOf32(Shl8x(Shl8x(c)), 8) + BitsOf32(Shl8x(Shl8x(Shl8x(c))), 8)
  {
    hide BitsOf32, ShiftBy, Shl8x;
    var c1, c2 := Shl8x(c), Shl8x(Shl8x(c));
    BitsSplit(c, 8, 24);
    ShiftByByte(c);
    BitsSplit(c1, 8, 16);
    ShiftByByte(c1);
    BitsSplit(c2, 8, 8);
    ShiftByByte(c2);
    assert BitsOf32(c, 8) + (BitsOf32(c1, 8) + (BitsOf32(c2, 8) + BitsOf32(Shl8x(c2), 8)))
        == BitsOf32(c, 8) + BitsOf32(c1, 8) + BitsOf32(c2, 8) + BitsOf32(Shl8x(c2), 8);
  }

  lemma FourBits(c: bv32)
    ensures BitsOf32(c, 4) == [TopBit(c), TopBit(Shl(c)), TopBit(Shl(Shl(c))), TopBit(Shl(Shl(Shl(c))))]
    ensures ShiftBy(c, 4) == Shl(Shl(Shl(Shl(c))))
  {
    hide Shl, TopBit;
    var c2 := Shl(Shl(c));
    assert BitsOf32(c2, 2) == [TopBit(c2), TopBit(Shl(c2))];
    assert ShiftBy(c2, 2) == Shl(Shl(c2));
  }

  lemma EightBits(c: bv32)
    ensures BitsOf32(c, 8)
         == [TopBit(c), TopBit(Shl(c)), TopBit(Shl(Shl(c))), TopBit(Shl(Shl(Shl(c)))), TopBit(Shl(Shl(Shl(Shl(c))))),
             TopBit(Shl(Shl(Shl(Shl(Shl(c)))))), TopBit(Shl(Shl(Shl(Shl(Shl(Shl(c))))))),
             TopBit(Shl(Shl(Shl(Shl(Shl(Shl(Shl(c))))))))]
  {
    hide Shl, TopBit, BitsOf32, ShiftBy;
    FourBits(c);
    FourBits(Shl(Shl(Shl(Shl(c)))));
    BitsSplit(c, 4, 4);
  }

  lemma DivisorFirstByte()
    ensures BitsOf32(0x04C11DB7, 8) == [false, false, false, false, false, true, false, false]
  {
    EightBits(0x04C11DB7);
    hide BitsOf32;
  }

  lemma DivisorSecondByte()
    ensures BitsOf32(0xC11DB700, 8) == [true, true, false, false, false, false, false, true]
  {
    EightBits(0xC11DB700);
    hide BitsOf32;
  }

  lemma DivisorThirdByte()
    ensures BitsOf32(0x1DB70000, 8) == [false, false, false, true, true, true, false, true]
  {
    EightBits(0x1DB70000);
    hide BitsOf32;
  }

  lemma DivisorFourthByte()
    ensures BitsOf32(0xB7000000, 8) == [true, false, true, true, false, true, true, true]
  {
    EightBits(0xB7000000);
    hide BitsOf32;
  }

  lemma OnesFirstByte()
    ensures BitsOf32(0xFFFFFFFF, 8) == [true, true, true, true, true, true, true, true]
  {
    EightBits(0xFFFFFFFF);
    hide BitsOf32;
  }

  lemma OnesSecondByte()
    ensures BitsOf32(0xFFFFFF00, 8) == [true, true, true, true, true, true, true, true]
  {
    EightBits(0xFFFFFF00);
    hide BitsOf32;
  }

  lemma OnesThirdByte()
    ensures BitsOf32(0xFFFF0000, 8) == [true, true, true, true, true, true, true, true]
  {
    EightBits(0xFFFF0000);
    hide BitsOf32;
  }

  lemma OnesFourthByte()
    ensures BitsOf32(0xFF000000, 8) == [true, true, true, true, true, true, true, true]
  {
    EightBits(0xFF000000);
    hide BitsOf32;
  }

  lemma DivisorBits()
    ensures |DIVISOR| == 33 && DIVISOR[0] && BitsOf32(POLYNOMIAL, 32) == DIVISOR[1..]
  {
    hide BitsOf32;
    FourBytes(POLYNOMIAL);
    assert Shl8x(POLYNOMIAL) == 0xC11DB700 && Shl8x(0xC11DB700) == 0x1DB70000 && Shl8x(0x1DB70000) == 0xB7000000;
    DivisorFirstByte();
    DivisorSecondByte();
    DivisorThirdByte();
    DivisorFourthByte();
  }

  lemma AllOnesBits()
    ensures BitsOf32(ALL_ONES, 32) == seq(32, _ => true)
  {
    hide BitsOf32;
    FourBytes(ALL_ONES);
    assert Shl8x(ALL_ONES) == 0xFFFFFF00 && Shl8x(0xFFFFFF00) == 0xFFFF0000 && Shl8x(0xFFFF0000) == 0xFF000000;
    OnesFirstByte();
    OnesSecondByte();
    OnesThirdByte();
    OnesFourthByte();
  }

  // ---------- The register divides ----------

  // The register added to the next 32 bits.
  function Toggled(c: bv32, bits: seq<bool>): seq<bool>
    requires |bits| >= 32
  {
    Sum(BitsOf32(c, 32), bits[..32]) + bits[32..]
  }

  // One bit later: the register is shifted, the bit it meets first has gone.
  lemma ToggledTail(c: bv32, bits: seq<bool>)
    requires |bits| >= 33
    ensures var now := Toggled(c, bits);
            now[0] == (TopBit(c) != bits[0]) && now[1..33] == Sum(BitsOf32(Shl(c), 32), bits[1..33])
            && now[33..] == bits[33..]
  {
    hide Shl, TopBit, BitsOf32;
    var now, shifted := Toggled(c, bits), Sum(BitsOf32(Shl(c), 32), bits[1..33]);
    FirstBit(c);
    BitsOfShl(c);
    forall i | 0 <= i < 32
      ensures now[1..33][i] == shifted[i]
    {
      assert now[1..33][i] == now[i + 1];
    }
  }

  lemma SumSwap(a: seq<bool>, b: seq<bool>, d: seq<bool>)
    requires |a| == |b| == |d|
    ensures Sum(Sum(a, b), d) == Sum(Sum(a, d), b)
  {
  }

  // One clock of the register is one step of the division.
  lemma ClockDivides(c: bv32, bits: seq<bool>)
    requires |bits| >= 33
    ensures Remainder(Toggled(c, bits)) == Remainder(Toggled(ShiftBit(c, bits[0]), bits[1..]))
  {
    hide Shl, TopBit, Xor, Remainder, BitsOf32, Sum;
    var now := Toggled(c, bits);
    ToggledTail(c, bits);
    DivisionStep(now);
    ClockIs(c, now[0]);
    DivisorBits();
    assert bits[1..][..32] == bits[1..33] && bits[1..][32..] == bits[33..];
    if now[0] {
      BitsOfXor(Shl(c), POLYNOMIAL, 32);
      SumSwap(BitsOf32(Shl(c), 32), bits[1..33], DIVISOR[1..]);
    }
  }

  lemma FirstBit(c: bv32)
    ensures BitsOf32(c, 32)[0] == TopBit(c)
  {
  }

  lemma DivisionStep(bits: seq<bool>)
    requires |bits| > 32
    ensures Remainder(bits)
         == Remainder((if bits[0] then Sum(bits[1..33], DIVISOR[1..]) else bits[1..33]) + bits[33..])
  {
  }

  lemma {:induction false} RegisterDivides(c: bv32, bits: seq<bool>)
    ensures BitsOf32(Register(c, bits), 32) == Remainder(Toggled(c, bits + Zeros()))
    decreases |bits|
  {
    hide ShiftBit, BitsOf32, Toggled;
    if bits == [] {
      assert bits + Zeros() == Zeros();
      NothingToggled(c);
    } else {
      var all := bits + Zeros();
      assert all[0] == bits[0] && all[1..] == bits[1..] + Zeros();
      ClockDivides(c, all);
      RegisterDivides(ShiftBit(c, bits[0]), bits[1..]);
    }
  }

  lemma NothingToggled(c: bv32)
    ensures Toggled(c, Zeros()) == BitsOf32(c, 32) && Remainder(Toggled(c, Zeros())) == BitsOf32(c, 32)
  {
    hide BitsOf32;
    assert Zeros()[..32] == Zeros() && Zeros()[32..] == [];
  }

  /** For every message: the checksum is the remainder of the division. */
  lemma ChecksumIsRemainder(message: seq<byte>)
    ensures BitsOf32(BitSerial(message), 32) == Remainder(Complemented(MessageBits(message) + Zeros(), 32))
  {
    hide Remainder, BitsOf32, Register;
    var all := MessageBits(message) + Zeros();
    RegisterDivides(ALL_ONES, MessageBits(message));
    AllOnesBits();
    assert Toggled(ALL_ONES, all) == Complemented(all, 32);
  }

  // The checksum of one zero byte.
  lemma ChecksumOfZero()
    ensures BitSerial([0]) == 0x4E08_BFB4
  {
    hide Register, MessageBits, TableStep;
    AfterByte(ALL_ONES, 0, []);
    assert [0] + [] == [0];
    EmptyMessage(TableStep(ALL_ONES, 0));
    ZeroStep();
  }

  lemma ZeroStep()
    ensures TableStep(ALL_ONES, 0) == 0x4E08_BFB4
  {
  }

  lemma AfterByte(c: bv32, b: byte, more: seq<byte>)
    ensures Register(c, MessageBits([b] + more)) == Register(TableStep(c, b as bv8), MessageBits(more))
  {
    hide Register, MessageBits, TableStep;
    assert ([b] + more)[0] == b && ([b] + more)[1..] == more;
    RegisterByte(c, [b] + more);
  }

  lemma Digit1(more: seq<byte>)
    ensures Register(0xFFFFFFFF, MessageBits([49] + more)) == Register(0x9EFBCF93, MessageBits(more))
  {
    hide Register, MessageBits, TableStep;
    AfterByte(0xFFFFFFFF, 49, more);
    DigitStep1();
  }

  lemma DigitStep1()
    ensures TableStep(0xFFFFFFFF, 49) == 0x9EFBCF93
  {
  }

  lemma Digit2(more: seq<byte>)
    ensures Register(0x9EFBCF93, MessageBits([50] + more)) == Register(0x3FEC5E6A, MessageBits(more))
  {
    hide Register, MessageBits, TableStep;
    AfterByte(0x9EFBCF93, 50, more);
    DigitStep2();
  }

  lemma DigitStep2()
    ensures TableStep(0x9EFBCF93, 50) == 0x3FEC5E6A
  {
  }

  lemma Digit3(more: seq<byte>)
    ensures Register(0x3FEC5E6A, MessageBits([51] + more)) == Register(0xD952F164, MessageBits(more))
  {
    hide Register, MessageBits, TableStep;
    AfterByte(0x3FEC5E6A, 51, more);
    DigitStep3();
  }

  lemma DigitStep3()
    ensures TableStep(0x3FEC5E6A, 51) == 0xD952F164
  {
  }

  lemma Digit4(more: seq<byte>)
    ensures Register(0xD952F164, MessageBits([52] + more)) == Register(0xA695C4AA, MessageBits(more))
  {
    hide Register, MessageBits, TableStep;
    AfterByte(0xD952F164, 52, more);
    DigitStep4();
  }

  lemma DigitStep4()
    ensures TableStep(0xD952F164, 52) == 0xA695C4AA
  {
  }

  lemma Digit5(more: seq<byte>)
    ensures Register(0xA695C4AA, MessageBits([53] + more)) == Register(0xBD9AB747, MessageBits(more))
  {
    hide Register, MessageBits, TableStep;
    AfterByte(0xA695C4AA, 53, more);
    DigitStep5();
  }

  lemma DigitStep5()
    ensures TableStep(0xA695C4AA, 53) == 0xBD9AB747
  {
  }

  lemma Digit6(more: seq<byte>)
    ensures Register(0xBD9AB747, MessageBits([54] + more)) == Register(0xD8F06C8F, MessageBits(more))
  {
    hide Register, MessageBits, TableStep;
    AfterByte(0xBD9AB747, 54, more);
    DigitStep6();
  }

  lemma DigitStep6()
    ensures TableStep(0xBD9AB747, 54) == 0xD8F06C8F
  {
  }

  lemma Digit7(more: seq<byte>)
    ensures Register(0xD8F06C8F, MessageBits([55] + more)) == Register(0x0D8A14C4, MessageBits(more))
  {
    hide Register, MessageBits, TableStep;
    AfterByte(0xD8F06C8F, 55, more);
    DigitStep7();
  }

  lemma DigitStep7()
    ensures TableStep(0xD8F06C8F, 55) == 0x0D8A14C4
  {
  }

  lemma Digit8(more: seq<byte>)
    ensures Register(0x0D8A14C4, MessageBits([56] + more)) == Register(0x49E3C2FB, MessageBits(more))
  {
    hide Register, MessageBits, TableStep;
    AfterByte(0x0D8A14C4, 56, more);
    DigitStep8();
  }

  lemma DigitStep8()
    ensures TableStep(0x0D8A14C4, 56) == 0x49E3C2FB
  {
  }

  lemma Digit9(more: seq<byte>)
    ensures Register(0x49E3C2FB, MessageBits([57] + more)) == Register(0x0376E6E7, MessageBits(more))
  {
    hide Register, MessageBits, TableStep;
    AfterByte(0x49E3C2FB, 57, more);
    DigitStep9();
  }

  lemma DigitStep9()
    ensures TableStep(0x49E3C2FB, 57) == 0x0376E6E7
  {
  }

  // The published check value of this checksum: that of the digits 1 to 9.
  lemma ChecksumOfDigits()
    ensures BitSerial([49, 50, 51, 52, 53, 54, 55, 56, 57]) == 0x0376_E6E7
  {
    hide Register, MessageBits, TableStep;
    var d9: seq<byte>, d8: seq<byte>, d7: seq<byte> := [57], [56, 57], [55, 56, 57];
    var d6: seq<byte>, d5: seq<byte>, d4: seq<byte> := [54] + d7, [53, 54] + d7, [52, 53, 54] + d7;
    var d3: seq<byte>, d2: seq<byte>, d1: seq<byte> := [51] + d4, [50, 51] + d4, [49, 50, 51] + d4;
    assert [57] + [] == d9 && [56] + d9 == d8 && [55] + d8 == d7 && [53] + d6 == d5 && [52] + d5 == d4;
    assert [50] + d3 == d2 && [49] + d2 == d1 && d1 == [49, 50, 51, 52, 53, 54, 55, 56, 57];
    Digit1(d2);
    Digit2(d3);
    Digit3(d4);
    Digit4(d5);
    Digit5(d6);
    Digit6(d7);
    Digit7(d8);
    Digit8(d9);
    Digit9([]);
    EmptyMessage(0x0376E6E7);
  }
}
