/** Bytes, machine integers as ranges, and byte-string helpers. */
module Bytes {
  type byte = b: int | 0 <= b < 256
  type u16 = v: int | 0 <= v < 0x1_0000
  type u32 = v: int | 0 <= v < 0x1_0000_0000
  type u64 = v: int | 0 <= v < 0x1_0000_0000_0000_0000

  // The value a cast to a signed integer of the given modulus gives.
  function Signed(v: nat, modulus: nat): int {
    if 2 * v >= modulus then v - modulus else v
  }

  // Byte i of a two's complement integer, counted from the least significant.
  function ByteOf(v: int, i: nat): byte
    decreases i
  {
    if i == 0 then v % 256 else ByteOf(v / 256, i - 1)
  }

  // The n low bytes of a two's complement integer, most significant first.
  function BigEndian(v: int, n: nat): (s: seq<byte>)
    ensures |s| == n
  {
    seq(n, i requires 0 <= i < n => ByteOf(v, n - 1 - i))
  }

  function Value(s: seq<byte>): nat {
    if s == [] then 0 else 256 * Value(s[..|s| - 1]) + s[|s| - 1]
  }

  function Pow256(n: nat): (p: nat)
    ensures p > 0
  {
    if n == 0 then 1 else 256 * Pow256(n - 1)
  }

  lemma ModOfProduct(v: int, m: nat)
    requires m > 0
    ensures v % (256 * m) == 256 * ((v / 256) % m) + v % 256
  {
    var q, r := (v / 256) / m, (v / 256) % m;
    assert v == (256 * m) * q + (256 * r + v % 256);
    ModUnique(v, 256 * m, q, 256 * r + v % 256);
  }

  lemma ModUnique(v: int, m: nat, q: int, r: nat)
    requires m > 0 && v == m * q + r && r < m
    ensures v % m == r
  {
    var d := v / m - q;
    assert m * d == r - v % m;
    AwayFromZero(m, d);
  }

  lemma AwayFromZero(m: int, d: int)
    requires m > 0
    ensures d >= 1 ==> m * d >= m
    ensures d <= -1 ==> m * d <= -m
  {
  }

  /** Reading back what was written recovers the integer modulo its width. */
  lemma {:induction false} ValueOfBigEndian(v: int, n: nat)
    ensures Value(BigEndian(v, n)) == v % Pow256(n)
    decreases n
  {
    if n > 0 {
      ValueOfBigEndian(v / 256, n - 1);
      var s := BigEndian(v, n);
      assert s[n - 1] == ByteOf(v, 0);
      assert forall i | 0 <= i < n - 1 :: s[i] == ByteOf(v, n - 1 - i) == ByteOf(v / 256, n - 2 - i);
      assert s[..n - 1] == BigEndian(v / 256, n - 1);
      ModOfProduct(v, Pow256(n - 1));
    }
  }

  // The bytes of a 32-bit pattern, most significant first.
  function Top(c: bv32): bv8 { ((c >> 24) & 0xFF) as bv8 }

  function BytesOf32(c: bv32): (s: seq<byte>)
    ensures |s| == 4
  {
    [Top(c) as int, Top(c << 8) as int, Top(c << 16) as int, Top(c << 24) as int]
  }

  // Two bytes, most significant first.
  function Be16(v: u16): (s: seq<byte>)
    ensures |s| == 2
  {
    [v / 256, v % 256]
  }

  // The byte at an offset, 0 past the end.
  function At(w: seq<byte>, i: int): byte {
    if 0 <= i < |w| then w[i] else 0
  }

  function Word(w: seq<byte>, i: int): u16 {
    256 * At(w, i) + At(w, i + 1)
  }

  function Fill(v: byte, n: nat): (s: seq<byte>)
    ensures |s| == n
  {
    seq(n, _ => v)
  }

  // n bytes from offset p; nothing when n is not positive, as SimpleBuffer::append does.
  function Slice(w: seq<byte>, p: nat, n: int): seq<byte> {
    if n <= 0 || p + n > |w| then [] else w[p..p + n]
  }

  // The low bits of v, below the power of two n.
  function Low(v: nat, n: nat): (r: nat)
    requires n > 0
    ensures r < n
  {
    v % n
  }

  // The field of v that starts at the power of two m and has n values.
  function Bits(v: nat, m: nat, n: nat): (r: nat)
    requires m > 0 && n > 0
    ensures r < n
  {
    (v / m) % n
  }

  lemma LowIs(v: nat, lo: nat, n: nat, hi: nat)
    requires lo < n && v == lo + n * hi
    ensures Low(v, n) == lo
  {
    ModUnique(v, n, hi, lo);
  }

  lemma BitsAre(v: nat, lo: nat, m: nat, field: nat, n: nat, hi: nat)
    requires lo < m && field < n
    requires v == lo + m * (field + n * hi)
    ensures Bits(v, m, n) == field
  {
    DivUnique(v, m, field + n * hi, lo);
    ModUnique(field + n * hi, n, hi, field);
  }

  lemma DivUnique(v: int, m: nat, q: int, r: nat)
    requires m > 0 && v == m * q + r && r < m
    ensures v / m == q
  {
    ModUnique(v, m, q, r);
    assert m * (v / m - q) == 0;
  }

  lemma Be16Word(w: seq<byte>, p: nat, v: u16)
    requires p + 2 <= |w| && w[p] == Be16(v)[0] && w[p + 1] == Be16(v)[1]
    ensures Word(w, p) == v
  {
  }

  lemma SignedBack(u: nat, m: nat)
    requires u < m
    ensures Signed(u, m) % m == u
  {
    ModUnique(Signed(u, m), m, if 2 * u >= m then -1 else 0, u);
  }
}
