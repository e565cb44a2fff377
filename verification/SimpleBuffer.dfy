/** A growable byte buffer with a read cursor (3rd/mpegts/simple_buffer.cpp). */
module Buffers {
  import opened Bytes

  class SimpleBuffer {
    var data: seq<byte>
    var pos: int

    constructor ()
      ensures data == [] && pos == 0
    {
      data, pos := [], 0;
    }

    // The common form of the fixed-width writes: the bytes of the integer are
    // pushed from the most significant down.
    method WriteBytes(val: int, n: nat)
      modifies this`data
      ensures data == old(data) + BigEndian(val, n)
    {
      for i := n downto 0
        invariant data == old(data) + BigEndian(val, n)[..n - i]
      {
        data := data + [ByteOf(val, i)];
      }
    }

    method Write1Byte(val: int)
      modifies this`data
      ensures data == old(data) + [val % 256]
    {
      data := data + [val % 256];
    }

    method Write2Bytes(val: int)
      modifies this`data
      ensures data == old(data) + [(val / 256) % 256, val % 256]
    {
      WriteBytes(val, 2);
      assert ByteOf(val, 1) == ByteOf(val / 256, 0);
    }

    method Write4Bytes(val: int)
      modifies this`data
      ensures data == old(data) + BigEndian(val, 4)
    {
      WriteBytes(val, 4);
    }

    // The same write of an unsigned value kept as a bit pattern.
    method Write4Bits(val: bv32)
      modifies this`data
      ensures data == old(data) + BytesOf32(val)
    {
      data := data + [Top(val) as int];
      data := data + [Top(val << 8) as int];
      data := data + [Top(val << 16) as int];
      data := data + [Top(val << 24) as int];
    }

    method Append(bytes: seq<byte>)
      modifies this`data
      ensures data == old(data) + bytes
    {
      data := data + bytes;
    }

    method Prepend(bytes: seq<byte>)
      modifies this`data
      ensures data == bytes + old(data)
    {
      data := bytes + data;
    }

    predicate Require(n: nat)
      reads this
    {
      0 <= pos && n <= |data| - pos
    }

    // The common form of the fixed-width reads.
    method ReadBytes(n: nat) returns (u: nat)
      requires Require(n)
      modifies this`pos
      ensures pos == old(pos) + n
      ensures u == Value(data[old(pos)..pos])
    {
      u := 0;
      for i := 0 to n
        invariant pos == old(pos) + i
        invariant u == Value(data[old(pos)..pos])
      {
        assert data[old(pos)..pos + 1][..i] == data[old(pos)..pos];
        u := 256 * u + data[pos];
        pos := pos + 1;
      }
    }

    method Read1Byte() returns (val: int)
      requires Require(1)
      modifies this`pos
      ensures pos == old(pos) + 1
      ensures val == Signed(data[old(pos)], 0x100)
    {
      val := Signed(data[pos], 0x100);
      pos := pos + 1;
    }

    method Read2Bytes() returns (val: int)
      requires Require(2)
      modifies this`pos
      ensures pos == old(pos) + 2
      ensures val == Signed(Word(data, old(pos)), 0x1_0000)
    {
      var u := ReadBytes(2);
      TwoBytes(data[old(pos)..pos]);
      val := Signed(u, 0x1_0000);
    }

    method Read4Bytes() returns (val: int)
      requires Require(4)
      modifies this`pos
      ensures pos == old(pos) + 4
      ensures val == Signed(Value(data[old(pos)..pos]), 0x1_0000_0000)
    {
      var u := ReadBytes(4);
      val := Signed(u, 0x1_0000_0000);
    }

    method Skip(n: int)
      modifies this`pos
      ensures pos == old(pos) + n
    {
      pos := pos + n;
    }

    method Clear()
      modifies this
      ensures data == [] && pos == 0
    {
      data, pos := [], 0;
    }

    // Overwrites in place; a write that would run past the end changes nothing.
    method SetData(at: nat, bytes: seq<byte>)
      modifies this`data
      ensures |data| == |old(data)|
      ensures at + |bytes| > |data| ==> data == old(data)
      ensures at + |bytes| <= |data| ==>
                data == old(data)[..at] + bytes + old(data)[at + |bytes|..]
    {
      if at + |bytes| > |data| {
        return;
      }
      for i := 0 to |bytes|
        invariant |data| == |old(data)|
        invariant data == old(data)[..at] + bytes[..i] + old(data)[at + i..]
      {
        data := data[at + i := bytes[i]];
      }
    }

    // memset on the bytes of the buffer.
    method MemSet(at: nat, value: byte, n: nat)
      requires at + n <= |data|
      modifies this`data
      ensures data == old(data)[..at] + Fill(value, n) + old(data)[at + n..]
    {
      for i := 0 to n
        invariant |data| == |old(data)|
        invariant data == old(data)[..at] + Fill(value, i) + old(data)[at + i..]
      {
        data := data[at + i := value];
      }
    }

    method SetByte(at: nat, value: byte)
      requires at < |data|
      modifies this`data
      ensures data == old(data)[at := value]
    {
      data := data[at := value];
    }
  }

  lemma FourBytes(s: seq<byte>)
    requires |s| == 4
    ensures Value(s) == ((s[0] as int * 256 + s[1] as int) * 256 + s[2] as int) * 256 + s[3] as int
  {
    TwoBytes(s[..2]);
    assert s[..3][..2] == s[..2];
  }

  lemma TwoBytes(s: seq<byte>)
    requires |s| == 2
    ensures Value(s) == Word(s, 0)
  {
    var first := s[..1];
    assert first[..0] == [] && Value(first[..0]) == 0;
    assert Value(first) as int == first[0];
  }
}
