/** The muxer object (3rd/mpegts/mpegts_muxer.cpp): its methods emit exactly what MuxSpec says. */
module Muxer {
  import opened Bytes
  import opened Bitwise
  import opened Buffers
  import opened Crc
  import opened TsFields
  import opened TsCodec
  import opened MuxSpec

  // ---------- Stuffing layouts ----------

  // A packet under construction: header, field, head, and room for body bytes.
  function Draft(h: TsHeader, field: seq<byte>, head: seq<byte>, room: nat): seq<byte> {
    EncodeTs(h) + field + head + Fill(0, room)
  }

  // A field is already there: the head moves up and the gap is filled after the field.
  lemma WidenField(h: TsHeader, field: seq<byte>, head: seq<byte>, room: nat, n: nat, d1: seq<byte>, d2: seq<byte>,
                   d3: seq<byte>)
    requires 0 < n <= room && field != [] && field[0] == |field| - 1 && field[0] + n < 256
    requires var base, d := 4 + |field|, Draft(h, field, head, room);
             d1 == d[..base + n] + head + d[base + n + |head|..]
             && d2 == d1[..base] + Fill(0xFF, n) + d1[base + n..] && d3 == d2[4 := field[0] + n]
    ensures d3 == Draft(h, Stuffed(field, n), head, room - n)
  {
    hide EncodeTs;
    var base := 4 + |field|;
    assert d1[..base] == EncodeTs(h) + field;
    assert d1[base + n..] == head + Fill(0, room - n);
    assert d2 == EncodeTs(h) + field + Fill(0xFF, n) + head + Fill(0, room - n);
    assert d2[4] == field[0];
    assert d3 == EncodeTs(h) + ([field[0] + n] + field[1..] + Fill(0xFF, n)) + head + Fill(0, room - n);
  }

  // The bytes of a new field over whatever was there.
  lemma NewField(h: TsHeader, n: nat, rest: seq<byte>, d: seq<byte>, d1: seq<byte>, d2: seq<byte>)
    requires 0 < n <= 184 && |d| == 4 + n + |rest| && d[..4] == EncodeTs(h) && d[4 + n..] == rest
    requires d1 == d[4 := n - 1]
    requires d2 == if n >= 2 then d1[5 := 0][..6] + Fill(0xFF, n - 2) + d1[5 := 0][6 + (n - 2)..] else d1
    ensures d2 == EncodeTs(h) + Stuffed([], n) + rest
  {
    hide EncodeTs;
    if n == 1 {
      assert d2 == d[..4] + [0] + d[5..];
    } else {
      assert d2 == d[..4] + ([n - 1] + ([0] + Fill(0xFF, n - 2))) + d[4 + n..];
    }
  }

  // Moving the head up by n, or moving nothing anywhere.
  lemma MovedUp(header: seq<byte>, head: seq<byte>, room: nat, n: nat, at: nat, d: seq<byte>, d': seq<byte>)
    requires |header| == 4 && n <= room && (head != [] ==> at == 4 + n) && at <= |d|
    requires d == header + head + Fill(0, room) && d' == d[..at] + head + d[at + |head|..]
    ensures |d'| == |d| && d'[..4] == header && d'[4 + n..] == head + Fill(0, room - n)
  {
    if head == [] {
      assert d' == d;
    }
  }

  // Setting the adaptation bit of the packet header in place.
  lemma AdaptationBit(h: TsHeader)
    requires h.adaptation == PAYLOAD_ONLY
    ensures EncodeTs(h.(adaptation := ADAPTATION_AND_PAYLOAD))
         == EncodeTs(h)[3 := SetBit(EncodeTs(h)[3])]
  {
    var low, high := Low(h.counter, 16), Low(h.scrambling, 4);
    var b := low + 16 + high * 64;
    assert EncodeTs(h)[3] == b;
    SetBitIs(low + 16, high);
    var e, e' := EncodeTs(h), EncodeTs(h.(adaptation := ADAPTATION_AND_PAYLOAD));
    assert e'[3] == b + 0x20;
    assert e[..3] == e'[..3];
    assert e'[0] == e[0] && e'[1] == e[1] && e'[2] == e[2];
  }

  // b |= 0x20
  function SetBit(b: byte): byte {
    Powers();
    OrInRange(b, 0x20, 8);
    Or(b, 0x20)
  }

  lemma SetBitIs(lo: nat, high: nat)
    requires lo < 0x20 && high < 4
    ensures SetBit(lo + high * 0x40) == lo + high * 0x40 + 0x20
  {
    hide Or, Pow2;
    Powers();
    OrClear(lo, 5, high);
  }

  // The last step of every layout: the body bytes replace the room left for them.
  lemma FillRoom(front: seq<byte>, room: nat, body: seq<byte>, d: seq<byte>, d': seq<byte>)
    requires |body| == room && d == front + Fill(0, room)
    requires d' == d[..|front|] + body + d[|front| + |body|..]
    ensures d' == front + body
  {
  }

  // The field and head of the next packet of a frame.
  function FieldFor(first: bool, m: Meta, pcrPid: u16): seq<byte> { if first then FirstField(m, pcrPid) else [] }

  function HeadFor(first: bool, m: Meta, size: nat): seq<byte> { if first then PesHead(m, size) else [] }

  function HeaderFor(first: bool, m: Meta, counter: byte, field: seq<byte>): TsHeader {
    DEFAULT_TS_HEADER.(pid := m.pid, counter := counter, unitStart := if first then 1 else 0,
                     adaptation := if field == [] then PAYLOAD_ONLY else ADAPTATION_AND_PAYLOAD)
  }

  lemma FieldFacts(first: bool, m: Meta, pcrPid: u16, size: nat)
    ensures var field, head := FieldFor(first, m, pcrPid), HeadFor(first, m, size);
            Fieldlike(field, head) && Measured(field) && (field != [] ==> first)
  {
    hide Low;
    FirstFieldlike(m, pcrPid, size);
  }

  // The packets still to come, and their number.
  function Coming(first: bool, m: Meta, pcrPid: u16, size: nat, body: seq<byte>, counter: byte): seq<byte> {
    FieldFacts(first, m, pcrPid, size);
    PesPackets(m.pid, if first then 1 else 0, FieldFor(first, m, pcrPid), HeadFor(first, m, size), body, counter)
  }

  function ComingCount(first: bool, m: Meta, pcrPid: u16, size: nat, body: seq<byte>): nat {
    FieldFacts(first, m, pcrPid, size);
    PacketCount(FieldFor(first, m, pcrPid), HeadFor(first, m, size), body)
  }

  function Unread(data: seq<byte>, pos: nat): seq<byte> { if pos <= |data| then data[pos..] else [] }

  function NextTaken(first: bool, m: Meta, pcrPid: u16, size: nat, body: seq<byte>): (n: nat)
    ensures n <= |body|
  {
    FieldFacts(first, m, pcrPid, size);
    Taken(FieldFor(first, m, pcrPid), HeadFor(first, m, size), body)
  }

  function NextPacket(first: bool, m: Meta, pcrPid: u16, size: nat, body: seq<byte>, counter: byte): seq<byte>
    requires body != []
  {
    FieldFacts(first, m, pcrPid, size);
    OnePacket(m.pid, if first then 1 else 0, FieldFor(first, m, pcrPid), HeadFor(first, m, size), body, counter)
  }

  lemma ComingUnfolds(first: bool, m: Meta, pcrPid: u16, size: nat, body: seq<byte>, counter: byte, n: nat)
    requires body != [] && n == NextTaken(first, m, pcrPid, size, body)
    ensures Coming(first, m, pcrPid, size, body, counter)
            == NextPacket(first, m, pcrPid, size, body, counter)
              + Coming(false, m, pcrPid, size, body[n..], Succ(counter))
    ensures ComingCount(first, m, pcrPid, size, body) == 1 + ComingCount(false, m, pcrPid, size, body[n..])
  {
    hide FirstField, PesHead, OnePacket;
    FieldFacts(first, m, pcrPid, size);
  }

  lemma NextPacketIs(first: bool, m: Meta, pcrPid: u16, size: nat, body: seq<byte>, counter: byte, stuffed: seq<byte>)
    requires body != [] && Fieldlike(FieldFor(first, m, pcrPid), HeadFor(first, m, size))
    requires var field, head := FieldFor(first, m, pcrPid), HeadFor(first, m, size);
             stuffed == Stuffed(field, Room(field, head) - NextTaken(first, m, pcrPid, size, body))
    ensures NextPacket(first, m, pcrPid, size, body, counter)
         == EncodeTs(HeaderFor(first, m, counter, stuffed)) + stuffed
            + (HeadFor(first, m, size) + body[..NextTaken(first, m, pcrPid, size, body)])
  {
    hide FirstField, PesHead, Stuffed, EncodeTs;
  }

  class MpegTsMuxer {
    const streams: map<byte, u16>
    const pmtPid: u16
    const pcrPid: u16
    const muxType: MuxType
    var counters: map<nat, byte>
    var index: nat
    // What the output callback has been given so far.
    var emitted: seq<byte>

    constructor (streams: map<byte, u16>, pmtPid: u16, pcrPid: u16, muxType: MuxType)
      ensures Cfg() == Config(streams, pmtPid, pcrPid, muxType) && State() == INITIAL_MUX && emitted == []
    {
      this.streams, this.pmtPid, this.pcrPid, this.muxType := streams, pmtPid, pcrPid, muxType;
      counters, index, emitted := map[], 0, [];
    }

    function Cfg(): Config { Config(streams, pmtPid, pcrPid, muxType) }

    function State(): MuxState
      reads this
    {
      MuxState(counters, index)
    }

    method GetCc(key: nat) returns (counter: byte)
      modifies this`counters
      ensures counter == NextCounter(old(counters), key) && counters == old(counters)[key := counter]
    {
      if key in counters {
        counters := counters[key := Succ(counters[key])];
        return counters[key];
      }
      counters := counters[key := 0];
      return 0;
    }

    method ShouldCreatePat() returns (yes: bool)
      modifies this`index
      ensures yes == (old(index) % PAT_INTERVAL == 0)
      ensures index == if yes then 1 else old(index) + 1
    {
      yes := false;
      if index % PAT_INTERVAL == 0 {
        if index > 0 {
          index := 0;
        }
        yes := true;
      }
      index := index + 1;
    }

    // ---------- Packets of a frame ----------

    // Everything in front of the body bytes.
    method OpenPacket(first: bool, m: Meta, counter: byte, size: nat, packet: SimpleBuffer) returns (h: TsHeader)
      requires packet.data == []
      modifies packet`data
      ensures var field := FieldFor(first, m, pcrPid);
              h == HeaderFor(first, m, counter, field)
              && packet.data == EncodeTs(h) + field + HeadFor(first, m, size)
    {
      hide EncodeTs, EncodeAdaptation, EncodePcr, EncodePes, EncodePts;
      h := DEFAULT_TS_HEADER.(pid := m.pid, adaptation := PAYLOAD_ONLY, counter := counter);
      if first {
        h := h.(unitStart := 1);
        if m.pid == pcrPid {
          h := h.(adaptation := ADAPTATION_AND_PAYLOAD);
          WriteTsHeader(h, packet);
          WriteAdaptationHeader(DEFAULT_ADAPTATION_HEADER.(length := 7, randomAccess := m.randomAccess, pcr := 1),
                                packet);
          WritePcr(packet, m.pcr);
        } else if m.randomAccess != 0 {
          h := h.(adaptation := ADAPTATION_AND_PAYLOAD);
          WriteTsHeader(h, packet);
          WriteAdaptationHeader(DEFAULT_ADAPTATION_HEADER.(length := 1, randomAccess := m.randomAccess), packet);
        } else {
          WriteTsHeader(h, packet);
        }
        assert packet.data == EncodeTs(h) + FirstField(m, pcrPid);
        WriteHead(m, size, packet);
      } else {
        WriteTsHeader(h, packet);
      }
    }

    method WriteHead(m: Meta, size: nat, packet: SimpleBuffer)
      modifies packet`data
      ensures packet.data == old(packet.data) + PesHead(m, size)
    {
      hide EncodePes, EncodePts;
      var pes := DEFAULT_PES_HEADER.(startCode := 1, streamId := m.streamId, marker := 2, original := 1);
      if m.pts != m.dts {
        pes := pes.(ptsDtsFlags := 3, headerDataLength := 10);
      } else {
        pes := pes.(ptsDtsFlags := 2, headerDataLength := 5);
      }
      var pesSize: int := pes.headerDataLength;
      pesSize := pesSize + size + 3;
      pes := pes.(length := if pesSize > 0xFFFF then 0 else pesSize);
      assert pes == PesHeaderOf(m, size);
      WritePesHeader(pes, packet);
      if pes.ptsDtsFlags == 3 {
        WritePts(packet, 3, m.pts);
        WritePts(packet, 1, m.dts);
      } else {
        WritePts(packet, 2, m.pts);
      }
    }

    // Room for the body, then the body bytes, with stuffing moved in front of them if they are few.
    method FillPacket(first: bool, h: TsHeader, packet: SimpleBuffer, mData: SimpleBuffer, ghost field: seq<byte>,
                      ghost head: seq<byte>)
      requires packet != mData && packet.pos == 0 && 0 <= mData.pos < |mData.data|
      requires Fieldlike(field, head) && Measured(field) && (field != [] ==> first) && (!first ==> head == [])
      requires h.adaptation == if field == [] then PAYLOAD_ONLY else ADAPTATION_AND_PAYLOAD
      requires packet.data == EncodeTs(h) + field + head
      modifies packet, mData`pos
      ensures var body := mData.data[old(mData.pos)..];
              var n := Taken(field, head, body);
              var stuffed := Stuffed(field, Room(field, head) - n);
              packet.data == EncodeTs(h.(adaptation := if stuffed == [] then PAYLOAD_ONLY else ADAPTATION_AND_PAYLOAD))
                             + stuffed + (head + body[..n])
              && mData.pos == old(mData.pos) + n
    {
      hide EncodeTs, Stuffed;
      var start := |packet.data|;
      var bodySize := PACKET_SIZE - start;
      packet.Append(Fill(0, bodySize));
      packet.Skip(start);
      var inSize := |mData.data| - mData.pos;
      ghost var body := mData.data[mData.pos..];
      if bodySize <= inSize {
        NotStuffed(field);
        packet.SetData(start, mData.data[mData.pos..mData.pos + bodySize]);
        FillRoom(EncodeTs(h) + field + head, bodySize, body[..bodySize], Draft(h, field, head, bodySize), packet.data);
        assert EncodeTs(h) + field + head + body[..bodySize] == EncodeTs(h) + field + (head + body[..bodySize]);
        mData.Skip(bodySize);
      } else {
        assert body[..inSize] == body;
        FillShort(first, h, packet, mData, field, head, start, bodySize, inSize);
      }
    }

    method FillShort(first: bool, h: TsHeader, packet: SimpleBuffer, mData: SimpleBuffer, ghost field: seq<byte>,
                     ghost head: seq<byte>, start: nat, bodySize: nat, inSize: nat)
      requires packet != mData && packet.pos == start && 0 <= mData.pos
               && 0 < inSize == |mData.data| - mData.pos < bodySize
      requires start == 4 + |field| + |head| && start + bodySize == PACKET_SIZE
      requires Measured(field) && (field != [] ==> field[0] <= 7 && first) && (!first ==> head == [])
      requires h.adaptation == if field == [] then PAYLOAD_ONLY else ADAPTATION_AND_PAYLOAD
      requires packet.data == Draft(h, field, head, bodySize)
      modifies packet, mData`pos
      ensures packet.data == EncodeTs(h.(adaptation := ADAPTATION_AND_PAYLOAD))
                             + Stuffed(field, bodySize - inSize) + (head + mData.data[old(mData.pos)..])
      ensures mData.pos == |mData.data|
    {
      hide EncodeTs, Stuffed;
      var stuffSize := bodySize - inSize;
      if HasAdaptation(h.adaptation) {
        StuffField(h, packet, field, head, bodySize, stuffSize, start);
      } else {
        StuffPlain(first, h, packet, head, bodySize, stuffSize, start);
      }
      ghost var front := EncodeTs(h.(adaptation := ADAPTATION_AND_PAYLOAD)) + Stuffed(field, stuffSize) + head;
      ghost var draft, body := packet.data, mData.data[mData.pos..];
      packet.SetData(packet.pos, mData.data[mData.pos..mData.pos + inSize]);
      FillRoom(front, inSize, body, draft, packet.data);
      assert front + body
          == EncodeTs(h.(adaptation := ADAPTATION_AND_PAYLOAD)) + Stuffed(field, stuffSize) + (head + body);
      mData.Skip(inSize);
    }

    static lemma NotStuffed(field: seq<byte>)
      ensures Stuffed(field, 0) == field
    {
    }

    // Stuffing into the field that is there.
    method StuffField(h: TsHeader, packet: SimpleBuffer, ghost field: seq<byte>, ghost head: seq<byte>, ghost room: nat,
                      n: nat, start: nat)
      requires 0 < n < room <= 184 && start == 4 + |field| + |head| && start + room == PACKET_SIZE
               && packet.pos == start
      requires Measured(field) && field != [] && field[0] <= 7
      requires packet.data == Draft(h, field, head, room)
      modifies packet
      ensures packet.data == Draft(h, Stuffed(field, n), head, room - n) && packet.pos == start + n
    {
      hide EncodeTs, Stuffed;
      assert packet.data[4] == field[0];
      var base := 5 + packet.data[4];
      var pesHeader := packet.data[base..start];
      assert pesHeader == head;
      packet.SetData(base + n, pesHeader);
      ghost var d1 := packet.data;
      packet.MemSet(base, 0xFF, n);
      ghost var d2 := packet.data;
      assert d2[4] == field[0];
      packet.Skip(n);
      packet.SetByte(4, packet.data[4] + n);
      WidenField(h, field, head, room, n, d1, d2, packet.data);
    }

    // Stuffing into a new field: in front of the head in a first packet, of nothing in a later one.
    method StuffPlain(first: bool, h: TsHeader, packet: SimpleBuffer, ghost head: seq<byte>, ghost room: nat, n: nat,
                      start: nat)
      requires 0 < n < room <= 184 && start == 4 + |head| && start + room == PACKET_SIZE && packet.pos == start
      requires h.adaptation == PAYLOAD_ONLY && (!first ==> head == [])
      requires packet.data == Draft(h, [], head, room)
      modifies packet
      ensures packet.data == Draft(h.(adaptation := ADAPTATION_AND_PAYLOAD), Stuffed([], n), head, room - n)
      ensures packet.pos == start + n
    {
      hide EncodeTs, Stuffed;
      ghost var h' := h.(adaptation := ADAPTATION_AND_PAYLOAD);
      AdaptationBit(h);
      var pesHeader := packet.data[4..start];
      assert pesHeader == head;
      packet.SetByte(3, SetBit(packet.data[3]));
      ghost var d := packet.data;
      assert d == EncodeTs(h') + head + Fill(0, room);
      if first {
        packet.SetData(4 + n, pesHeader);
      } else {
        packet.SetData(PACKET_SIZE - 4 - n, pesHeader);
      }
      MovedUp(EncodeTs(h'), head, room, n, if first then 4 + n else PACKET_SIZE - 4 - n, d, packet.data);
      packet.Skip(n);
      StampField(packet, h', head + Fill(0, room - n), n);
    }

    method StampField(packet: SimpleBuffer, ghost h: TsHeader, ghost rest: seq<byte>, n: nat)
      requires 0 < n <= 184 && |packet.data| == 4 + n + |rest|
      requires packet.data[..4] == EncodeTs(h) && packet.data[4 + n..] == rest
      modifies packet`data
      ensures packet.data == EncodeTs(h) + Stuffed([], n) + rest
    {
      hide EncodeTs, Stuffed;
      ghost var d := packet.data;
      packet.SetByte(4, n - 1);
      ghost var d1 := packet.data;
      if n >= 2 {
        packet.SetByte(5, 0);
        packet.MemSet(6, 0xFF, n - 2);
      }
      NewField(h, n, rest, d, d1, packet.data);
    }

    // The body of createPes's loop: one packet, and the bytes it takes off the frame.
    method CreatePacket(first: bool, m: Meta, counter: byte, mData: SimpleBuffer) returns (bytes: seq<byte>)
      requires 0 <= mData.pos < |mData.data|
      modifies mData`pos
      ensures var size, body := |mData.data|, Unread(mData.data, old(mData.pos));
              var n := NextTaken(first, m, pcrPid, size, body);
              0 < n && mData.pos == old(mData.pos) + n
              && Unread(mData.data, mData.pos) == body[n..]
              && bytes == NextPacket(first, m, pcrPid, size, body, counter)
    {
      hide OnePacket, FirstField, PesHead, Stuffed, EncodeTs;
      ghost var size, body := |mData.data|, Unread(mData.data, mData.pos);
      var packet := new SimpleBuffer();
      var h := OpenPacket(first, m, counter, |mData.data|, packet);
      FieldFacts(first, m, pcrPid, size);
      ghost var field, head := FieldFor(first, m, pcrPid), HeadFor(first, m, size);
      FillPacket(first, h, packet, mData, field, head);
      NextPacketIs(first, m, pcrPid, size, body, counter, Stuffed(field, Room(field, head) - Taken(field, head, body)));
      bytes := packet.data;
    }

    /** The frame is consumed whole, and its packets are appended to the output. */
    method CreatePes(m: Meta, mData: SimpleBuffer, rSb: SimpleBuffer)
      requires mData != rSb && 0 <= mData.pos
      modifies this`counters, mData`pos, rSb`data
      ensures var size, body := |mData.data|, Unread(mData.data, old(mData.pos));
              rSb.data == old(rSb.data) + FramePackets(Cfg(), m, size, body, NextCounter(old(counters), m.streamType))
              && counters == Counted(old(counters), m.streamType, FrameCount(Cfg(), m, size, body))
      ensures mData.pos >= |mData.data|
    {
      hide OnePacket, FirstField, PesHead, Stuffed, EncodeTs, PesPackets, PacketCount, NextCounter, NextTaken,
        NextPacket;
      var first := true;
      ghost var t, size := m.streamType, |mData.data|;
      ghost var all := FramePackets(Cfg(), m, size, Unread(mData.data, mData.pos), NextCounter(counters, t));
      ghost var final := Counted(counters, t, FrameCount(Cfg(), m, size, Unread(mData.data, mData.pos)));
      while mData.pos < |mData.data|
        invariant 0 <= mData.pos
        invariant rSb.data + Coming(first, m, pcrPid, size, Unread(mData.data, mData.pos), NextCounter(counters, t))
               == old(rSb.data) + all
        invariant Counted(counters, t, ComingCount(first, m, pcrPid, size, Unread(mData.data, mData.pos))) == final
        decreases |mData.data| - mData.pos
      {
        ghost var body, before, counters0 := Unread(mData.data, mData.pos), rSb.data, counters;
        var counter := GetCc(m.streamType);
        var bytes := CreatePacket(first, m, counter, mData);
        ghost var rest := Unread(mData.data, mData.pos);
        ComingUnfolds(first, m, pcrPid, size, body, counter, NextTaken(first, m, pcrPid, size, body));
        CountsOn(counters0, t);
        rSb.Append(bytes);
        assert before + (bytes + Coming(false, m, pcrPid, size, rest, Succ(counter)))
            == before + bytes + Coming(false, m, pcrPid, size, rest, Succ(counter));
        first := false;
      }
      NothingComing(first, m, pcrPid, size, NextCounter(counters, t));
      assert Unread(mData.data, mData.pos) == [];
      assert rSb.data + [] == rSb.data;
    }

    static lemma CountsOn(counters: map<nat, byte>, t: nat)
      ensures var c := NextCounter(counters, t); NextCounter(counters[t := c], t) == Succ(c)
    {
    }

    static lemma NothingComing(first: bool, m: Meta, pcrPid: u16, size: nat, counter: byte)
      ensures Coming(first, m, pcrPid, size, [], counter) == [] && ComingCount(first, m, pcrPid, size, []) == 0
    {
    }

    // ---------- Tables and clock ----------

    method CreatePat(rSb: SimpleBuffer, pmtPid: u16, counter: byte)
      modifies rSb`data
      ensures rSb.data == old(rSb.data) + PatPacket(pmtPid, counter)
    {
      hide EncodeTs, EncodePat, BitSerial, BytesOf32, Low, Or, Mask, Pow2;
      Powers();
      OrBelow(7, 13, Low(pmtPid, 0x2000));
      var patSb := new SimpleBuffer();
      WriteTsHeader(DEFAULT_TS_HEADER.(unitStart := 1, pid := PAT_PID, adaptation := PAYLOAD_ONLY, counter := counter),
                    patSb);
      WriteAdaptationHeader(DEFAULT_ADAPTATION_HEADER, patSb);
      WritePatHeader(PAT_HEADER, patSb);
      patSb.Write2Bytes(1);
      patSb.Write2Bytes(Or(0xE000, Mask(pmtPid, 13)));
      assert patSb.data[5..] == PatSection(pmtPid);
      CloseSection(patSb);
      rSb.Append(patSb.data);
    }

    // Checksum from the sixth byte on, then stuffing to the size of a packet.
    method CloseSection(sb: SimpleBuffer)
      requires 5 <= |sb.data| <= 184
      modifies sb`data
      ensures var section := old(sb.data)[5..];
              sb.data == old(sb.data) + BytesOf32(BitSerial(section)) + Fill(0xFF, 184 - |old(sb.data)|)
    {
      hide BitSerial, BytesOf32;
      var crc := Crc32(sb.data[5..]);
      sb.Write4Bits(crc);
      sb.Append(Fill(0xFF, PACKET_SIZE - |sb.data|));
    }

    method ListStreams() returns (infos: seq<PmtInfo>)
      ensures infos == Entries(streams, 0)
    {
      hide Entries;
      infos := [];
      for t := 0 to 256
        invariant infos + Entries(streams, t) == Entries(streams, 0)
      {
        EntriesNext(streams, t);
        if t in streams {
          infos := infos + [PmtInfo(t, 7, streams[t], 15, 0)];
        }
      }
      NoMoreEntries(streams);
      assert infos + [] == infos;
    }

    static lemma NoMoreEntries(streams: map<byte, u16>)
      ensures Entries(streams, 256) == []
    {
    }

    // More streams than a packet can list are an error: the stuffing would have negative length,
    // and the call throws.
    method CreatePmt(rSb: SimpleBuffer, counter: byte) returns (ok: bool)
      modifies rSb`data
      ensures ok <==> |streams| <= MAX_STREAMS
      ensures rSb.data == if ok then old(rSb.data) + PmtPacket(Cfg(), counter) else old(rSb.data)
    {
      hide EncodeTs, EncodePmt, BitSerial, BytesOf32, Entries, Low, Mask, Pow2;
      var pmtSb := new SimpleBuffer();
      var h := DEFAULT_TS_HEADER.(unitStart := 1, pid := pmtPid, adaptation := PAYLOAD_ONLY, counter := counter);
      var pmt := DEFAULT_PMT_HEADER.(
        syntaxIndicator := 1, reserved0 := 3, programNumber := 1, reserved1 := 3, currentNext := 1, reserved2 := 7,
        reserved3 := 15, pcrPid := pcrPid);
      var infos := ListStreams();
      StreamCount(streams);
      var size := 12;
      for i := 0 to |infos|
        invariant size == 12 + 5 * i
      {
        assert infos[i].infoLength == 0 by { PlainEntries(streams, 0); }
        size := size + InfoSize(infos[i]);
      }
      Powers();
      pmt := pmt.(infos := infos, sectionLength := Mask(size - 3 + 4, 10));
      WriteTsHeader(h, pmtSb);
      WriteAdaptationHeader(DEFAULT_ADAPTATION_HEADER, pmtSb);
      WritePmtHeader(pmt, pmtSb);
      ok := |pmtSb.data| + 4 <= PACKET_SIZE;
      if ok {
        SmallLength(size - 3 + 4);
        assert pmt == PmtOf(Cfg());
        assert pmtSb.data[5..] == EncodePmt(pmt);
        CloseSection(pmtSb);
        rSb.Append(pmtSb.data);
      }
    }

    static lemma SmallLength(n: nat)
      requires n < 0x400
      ensures Low(n, 0x400) == n
    {
      LowIs(n, n, 0x400, 0);
    }

    static lemma {:induction false} PlainEntries(streams: map<byte, u16>, from: nat)
      ensures forall e | e in Entries(streams, from) :: e.infoLength == 0
      decreases 256 - from
    {
      if from < 256 {
        PlainEntries(streams, from + 1);
      }
    }

    method CreatePcr(pcr: u64)
      modifies this`emitted
      ensures emitted == old(emitted) + ClockPacket(Cfg(), pcr)
    {
      hide EncodeTs, EncodeAdaptation, EncodePcr;
      var sb := new SimpleBuffer();
      WriteTsHeader(DEFAULT_TS_HEADER.(pid := pcrPid, adaptation := ADAPTATION_ONLY), sb);
      WriteAdaptationHeader(CLOCK_FIELD, sb);
      WritePcr(sb, pcr);
      sb.Append(Fill(0xFF, PACKET_SIZE - |sb.data|));
      emitted := emitted + sb.data;
    }

    /**
     One call: tables if they are due, then the packets of the frame, given out together. It throws
     exactly if tables are due that cannot be made; then nothing is given out or consumed.
     */
    method Encode(m: Meta, mData: SimpleBuffer, randomAccess: bool) returns (ok: bool)
      requires 0 <= mData.pos
      modifies this`counters, this`index, this`emitted, mData`pos
      ensures ok <==> CanEncode(Cfg(), old(State()), randomAccess)
      ensures ok ==>
                var size, body := |mData.data|, Unread(mData.data, old(mData.pos));
                emitted == old(emitted) + EncodeBytes(Cfg(), old(State()), m, size, body, randomAccess)
                && State() == EncodeState(Cfg(), old(State()), m, size, body, randomAccess)
                && mData.pos >= |mData.data|
      ensures !ok ==> emitted == old(emitted) && mData.pos == old(mData.pos) && index == NextIndex(Cfg(), old(State()))
                      && counters == AfterTables(Cfg(), old(State()), randomAccess)
    {
      hide FramePackets, FrameCount, PatPacket, PmtPacket, Counted, NextCounter;
      var sb := new SimpleBuffer();
      var due := false;
      if muxType == SegmentType && randomAccess {
        due := true;
      } else if muxType == H222Type {
        due := ShouldCreatePat();
      }
      if due {
        var counter := GetCc(0);
        CreatePat(sb, pmtPid, counter);
        ok := CreatePmt(sb, counter);
        if !ok {
          return;
        }
      }
      ok := true;
      assert sb.data == TablePackets(Cfg(), old(State()), randomAccess);
      assert counters == AfterTables(Cfg(), old(State()), randomAccess) && index == NextIndex(Cfg(), old(State()));
      CreatePes(m, mData, sb);
      emitted := emitted + sb.data;
    }
  }
}
