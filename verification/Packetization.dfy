/** What createPes promises of the packets of one frame, for every frame. */
module Packetization {
  import opened Bytes
  import opened TsFields
  import opened MuxSpec
  import opened FrameTrip

  // ---------- The PES header in numbers ----------

  // A nibble, then 3, 15 and 15 bits of a time stamp, each followed by a marker bit.
  function TimeBytes(nibble: byte, t: u64): (s: seq<byte>)
    requires nibble < 16
    ensures |s| == 5
  {
    var high, mid, low := (t / 0x4000_0000) % 8, (t / 0x8000) % 0x8000, t % 0x8000;
    [nibble * 16 + high * 2 + 1, (mid * 2 + 1) / 256, (mid * 2 + 1) % 256, (low * 2 + 1) / 256, (low * 2 + 1) % 256]
  }

  // Start code, stream id, length or 0, flags for one or two time stamps, and their size.
  function PesHeaderBytes(streamId: byte, length: u16, two: bool): (s: seq<byte>)
    ensures |s| == 9
  {
    [0x00, 0x00, 0x01, streamId, length / 256, length % 256, 0x81, if two then 0xC0 else 0x80, if two then 10 else 5]
  }

  // A length that does not fit sixteen bits is given as 0.
  function DeclaredLength(two: bool, size: nat): u16 {
    var length := 3 + (if two then 10 else 5) + size;
    if length <= 65535 then length else 0
  }

  function PesBytes(m: Meta, size: nat): (s: seq<byte>)
    ensures |s| == if m.pts == m.dts then 14 else 19
  {
    var two := m.pts != m.dts;
    PesHeaderBytes(m.streamId, DeclaredLength(two, size), two)
    + (if two then TimeBytes(3, m.pts) + TimeBytes(1, m.dts) else TimeBytes(2, m.pts))
  }

  lemma StampIs(nibble: byte, t: u64)
    requires nibble < 16
    ensures EncodePts(nibble, t) == TimeBytes(nibble, t)
  {
    LowIs(nibble, nibble, 16, 0);
  }

  lemma PesIs(m: Meta, size: nat)
    ensures PesHead(m, size) == PesBytes(m, size)
  {
    hide EncodePes, EncodePts;
    PesHeaderIs(m, size);
    if m.pts == m.dts {
      StampIs(2, m.pts);
    } else {
      StampIs(3, m.pts);
      StampIs(1, m.dts);
    }
  }

  lemma PesHeaderIs(m: Meta, size: nat)
    ensures EncodePes(PesHeaderOf(m, size))
         == PesHeaderBytes(m.streamId, DeclaredLength(m.pts != m.dts, size), m.pts != m.dts)
  {
    hide Low, Bits;
    BitsAre(1, 1, 0x1_0000, 0, 256, 0);
    BitsAre(1, 1, 0x100, 0, 256, 0);
    LowIs(1, 1, 256, 0);
    InWidth4(1, 2, 0, 2, 2, 4, 0, 4);
    InWidth4(3, 4, 0, 1, 0, 1, 0, 1);
  }

  // The size of the adaptation field a first packet needs.
  function FieldSize(m: Meta, clock: bool): nat { if clock then 8 else if m.randomAccess != 0 then 2 else 0 }

  lemma FieldSizeIs(m: Meta, pcrPid: u16)
    ensures |FirstField(m, pcrPid)| == FieldSize(m, m.pid == pcrPid)
  {
  }

  // ---------- Packets and their payloads ----------

  // The payload of a packet as the standard defines it (ISO/IEC 13818-1, section 2.4.3.3).
  function PayloadOf(p: seq<byte>): seq<byte> {
    var control := DecodeTs(p, 0).adaptation;
    if control == PAYLOAD_ONLY && |p| >= 4 then p[4..]
    else if control == ADAPTATION_AND_PAYLOAD && 5 + At(p, 4) <= |p| then p[5 + At(p, 4)..]
    else []
  }

  // The payloads of the packets of s, one after the other.
  function PayloadsOf(s: seq<byte>): seq<byte>
    decreases |s|
  {
    if |s| < PACKET_SIZE then [] else PayloadOf(s[..PACKET_SIZE]) + PayloadsOf(s[PACKET_SIZE..])
  }

  // A packet on the PID that has payload, with a legal adaptation field if it has one.
  predicate WellBuilt(p: seq<byte>, pid: u16, unitStart: byte) {
    var h := DecodeTs(p, 0);
    h.syncByte == 0x47 && h.pid == pid && h.unitStart == unitStart && PayloadOf(p) != []
    && (h.adaptation == PAYLOAD_ONLY || (h.adaptation == ADAPTATION_AND_PAYLOAD && At(p, 4) <= 182))
  }

  // Whole packets, all well built, only the first of which starts a unit.
  predicate AllWellBuilt(s: seq<byte>, pid: u16, unitStart: byte)
    decreases |s|
  {
    s != [] ==>
      |s| >= PACKET_SIZE && WellBuilt(s[..PACKET_SIZE], pid, unitStart) && AllWellBuilt(s[PACKET_SIZE..], pid, 0)
  }

  lemma StuffedMeasured(field: seq<byte>, n: nat)
    requires Measured(field) && |field| + n <= 184
    ensures Measured(Stuffed(field, n))
  {
  }

  lemma FirstMeasured(m: Meta, pcrPid: u16)
    ensures Measured(FirstField(m, pcrPid))
  {
    hide Low;
  }

  lemma OneWellBuilt(pid: u16, unitStart: byte, field: seq<byte>, head: seq<byte>, body: seq<byte>, counter: byte)
    requires Fieldlike(field, head) && Measured(field) && body != [] && pid < 0x2000 && unitStart < 2 && counter < 16
    ensures var p := OnePacket(pid, unitStart, field, head, body, counter);
            WellBuilt(p, pid, unitStart) && PayloadOf(p) == head + body[..Taken(field, head, body)]
  {
    hide Packet, Stuffed, DecodeTs;
    var n := Taken(field, head, body);
    var stuffed, payload := Stuffed(field, Room(field, head) - n), head + body[..n];
    var p := OnePacket(pid, unitStart, field, head, body, counter);
    PacketHeader(unitStart, pid, counter, stuffed, payload);
    PacketHolds(unitStart, pid, counter, stuffed, payload);
    StuffedMeasured(field, Room(field, head) - n);
    assert |p| == 4 + |stuffed| + |payload| == PACKET_SIZE;
    assert p[4 + |stuffed|..] == p[4 + |stuffed|..4 + |stuffed| + |payload|] == payload;
    if stuffed != [] {
      HoldsAt(p, 4, stuffed, 0);
    }
  }

  lemma {:induction false} PacketsCarry(pid: u16, unitStart: byte, field: seq<byte>, head: seq<byte>, body: seq<byte>,
                                        counter: byte)
    requires Fieldlike(field, head) && Measured(field) && body != [] && pid < 0x2000 && unitStart < 2 && counter < 16
    ensures var s := PesPackets(pid, unitStart, field, head, body, counter);
            PayloadsOf(s) == head + body && AllWellBuilt(s, pid, unitStart)
    decreases |body|
  {
    hide OnePacket, PayloadOf, WellBuilt;
    var n := Taken(field, head, body);
    var p := OnePacket(pid, unitStart, field, head, body, counter);
    OneWellBuilt(pid, unitStart, field, head, body, counter);
    var more := PesPackets(pid, 0, [], [], body[n..], Succ(counter));
    var s := PesPackets(pid, unitStart, field, head, body, counter);
    assert s[..PACKET_SIZE] == p && s[PACKET_SIZE..] == more;
    if n == |body| {
      assert body[..n] == body && more == [];
    } else {
      PacketsCarry(pid, 0, [], [], body[n..], Succ(counter));
      assert head + body[..n] + ([] + body[n..]) == head + body;
    }
  }

  lemma {:induction false} CountIsLength(pid: u16, unitStart: byte, field: seq<byte>, head: seq<byte>, body: seq<byte>,
                                         counter: byte)
    requires Fieldlike(field, head)
    ensures |PesPackets(pid, unitStart, field, head, body, counter)| == PACKET_SIZE * PacketCount(field, head, body)
    decreases |body|
  {
    hide OnePacket;
    if body != [] {
      CountIsLength(pid, 0, [], [], body[Taken(field, head, body)..], Succ(counter));
    }
  }

  lemma {:induction false} PlainCount(body: seq<byte>)
    ensures PacketCount([], [], body) == (|body| + 183) / 184
    decreases |body|
  {
    if body != [] {
      PlainCount(body[Taken([], [], body)..]);
    }
  }

  function Ceiling(n: nat, d: nat): nat
    requires d > 0
  {
    (n + d - 1) / d
  }

  /**
   For every non-empty frame: the packets are well built and all of 188 bytes, there are
   1 + ceil(max(0, n - firstBody) / 184) of them, only the first starts a unit, and their
   payloads one after the other are the PES header, in numbers, and the bytes of the frame.
   */
  lemma FramePacketization(cfg: Config, m: Meta, size: nat, body: seq<byte>, counter: byte)
    requires body != [] && m.pid < 0x2000 && counter < 16
    ensures var s := FramePackets(cfg, m, size, body, counter);
            var firstBody := 184 - FieldSize(m, m.pid == cfg.pcrPid) - |PesBytes(m, size)|;
            AllWellBuilt(s, m.pid, 1) && PayloadsOf(s) == PesBytes(m, size) + body
            && FrameCount(cfg, m, size, body) == 1 + Ceiling(if |body| > firstBody then |body| - firstBody else 0, 184)
            && |s| == 188 * FrameCount(cfg, m, size, body)
  {
    hide FirstField, PesHead, PesBytes, PesPackets, AllWellBuilt, PayloadsOf;
    var field, head := FirstField(m, cfg.pcrPid), PesHead(m, size);
    FirstFieldlike(m, cfg.pcrPid, size);
    FirstMeasured(m, cfg.pcrPid);
    FieldSizeIs(m, cfg.pcrPid);
    PesIs(m, size);
    PacketsCarry(m.pid, 1, field, head, body, counter);
    CountIsLength(m.pid, 1, field, head, body, counter);
    PlainCount(body[Taken(field, head, body)..]);
  }
}
