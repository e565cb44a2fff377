/**
 What the muxer emits, as byte strings (3rd/mpegts/mpegts_muxer.cpp): the packets of a
 frame, the program tables, clock packets, and the state that outlives a call.
 */
module MuxSpec {
  import opened Bytes
  import opened TsFields
  import opened Crc

  const PAT_PID: u16 := 0
  const PAT_INTERVAL := 20

  // What a caller says of a frame besides its bytes.
  datatype Meta = Meta(
    pid: u16, streamType: byte, streamId: byte, pts: u64, dts: u64, pcr: u64, randomAccess: byte)

  datatype MuxType = UnknownType | SegmentType | H222Type | DvbType

  datatype Config = Config(streams: map<byte, u16>, pmtPid: u16, pcrPid: u16, muxType: MuxType)

  datatype MuxState = MuxState(counters: map<nat, byte>, index: nat)

  const INITIAL_MUX := MuxState(map[], 0)

  // ---------- The packets of a frame ----------

  function StampBytes(m: Meta): nat { if m.pts != m.dts then 10 else 5 }

  // 0 when the length does not fit its sixteen bits.
  function PesLength(m: Meta, size: nat): u16 {
    var length := StampBytes(m) + size + 3;
    if length > 0xFFFF then 0 else length
  }

  function PesHeaderOf(m: Meta, size: nat): PesHeader {
    DEFAULT_PES_HEADER.(
      streamId := m.streamId, original := 1, ptsDtsFlags := if m.pts != m.dts then 3 else 2,
      headerDataLength := StampBytes(m), length := PesLength(m, size))
  }

  function Stamps(m: Meta): (s: seq<byte>)
    ensures |s| == StampBytes(m)
  {
    if m.pts != m.dts then EncodePts(3, m.pts) + EncodePts(1, m.dts) else EncodePts(2, m.pts)
  }

  function PesHead(m: Meta, size: nat): (s: seq<byte>)
    ensures |s| == 9 + StampBytes(m)
  {
    EncodePes(PesHeaderOf(m, size)) + Stamps(m)
  }

  // The adaptation field the first packet of a frame has before stuffing.
  function FirstField(m: Meta, pcrPid: u16): (s: seq<byte>)
    ensures |s| in {0, 2, 8}
  {
    if m.pid == pcrPid then
      EncodeAdaptation(DEFAULT_ADAPTATION_HEADER.(length := 7, randomAccess := m.randomAccess, pcr := 1))
        + EncodePcr(m.pcr)
    else if m.randomAccess != 0 then
      EncodeAdaptation(DEFAULT_ADAPTATION_HEADER.(length := 1, randomAccess := m.randomAccess))
    else []
  }

  // n stuffing bytes: into the field there is, or into a new one.
  function Stuffed(field: seq<byte>, n: nat): (s: seq<byte>)
    requires field == [] || field[0] + n < 256
    requires n <= 256
    ensures |s| == |field| + n
  {
    if n == 0 then field
    else if field == [] then [n - 1] + (if n == 1 then [] else [0] + Fill(0xFF, n - 2))
    else [field[0] + n] + field[1..] + Fill(0xFF, n)
  }

  function Packet(unitStart: byte, pid: u16, counter: byte, field: seq<byte>, payload: seq<byte>): (s: seq<byte>)
    ensures |s| == 4 + |field| + |payload|
  {
    EncodeTs(DEFAULT_TS_HEADER.(
      unitStart := unitStart, pid := pid, counter := counter,
      adaptation := if field == [] then PAYLOAD_ONLY else ADAPTATION_AND_PAYLOAD)) + field + payload
  }

  // The counter after c.
  function Succ(c: byte): (r: byte)
    ensures r < 16
  {
    (c as int + 1) % 16
  }

  function Room(field: seq<byte>, head: seq<byte>): int { PACKET_SIZE - 4 - |field| - |head| }

  predicate Fieldlike(field: seq<byte>, head: seq<byte>) {
    Room(field, head) > 0 && (field != [] ==> field[0] <= 7)
  }

  // A field that says its own length.
  predicate Measured(field: seq<byte>) {
    field != [] ==> field[0] == |field| - 1
  }

  // How many bytes of the body go into the next packet.
  function Taken(field: seq<byte>, head: seq<byte>, body: seq<byte>): nat
    requires Fieldlike(field, head)
  {
    if Room(field, head) <= |body| then Room(field, head) else |body|
  }

  function OnePacket(pid: u16, unitStart: byte, field: seq<byte>, head: seq<byte>, body: seq<byte>,
                     counter: byte): (s: seq<byte>)
    requires Fieldlike(field, head) && body != []
    ensures |s| == PACKET_SIZE
  {
    var n := Taken(field, head, body);
    Packet(unitStart, pid, counter, Stuffed(field, Room(field, head) - n), head + body[..n])
  }

  // The packets that carry the body, the first of them with the given field and head.
  function PesPackets(pid: u16, unitStart: byte, field: seq<byte>, head: seq<byte>, body: seq<byte>,
                      counter: byte): (s: seq<byte>)
    requires Fieldlike(field, head)
    ensures |s| % PACKET_SIZE == 0
    decreases |body|
  {
    if body == [] then [] else
      OnePacket(pid, unitStart, field, head, body, counter)
      + PesPackets(pid, 0, [], [], body[Taken(field, head, body)..], Succ(counter))
  }

  function PacketCount(field: seq<byte>, head: seq<byte>, body: seq<byte>): nat
    requires Fieldlike(field, head)
    decreases |body|
  {
    if body == [] then 0 else 1 + PacketCount([], [], body[Taken(field, head, body)..])
  }

  lemma FirstFieldlike(m: Meta, pcrPid: u16, size: nat)
    ensures Fieldlike(FirstField(m, pcrPid), PesHead(m, size))
  {
  }

  function FramePackets(cfg: Config, m: Meta, size: nat, body: seq<byte>, counter: byte): (s: seq<byte>)
    ensures |s| % PACKET_SIZE == 0
  {
    FirstFieldlike(m, cfg.pcrPid, size);
    PesPackets(m.pid, 1, FirstField(m, cfg.pcrPid), PesHead(m, size), body, counter)
  }

  function FrameCount(cfg: Config, m: Meta, size: nat, body: seq<byte>): nat {
    FirstFieldlike(m, cfg.pcrPid, size);
    PacketCount(FirstField(m, cfg.pcrPid), PesHead(m, size), body)
  }

  // ---------- Continuity counters ----------

  function NextCounter(counters: map<nat, byte>, key: nat): byte {
    if key in counters then Succ(counters[key]) else 0
  }

  function Counted(counters: map<nat, byte>, key: nat, n: nat): map<nat, byte>
    decreases n
  {
    if n == 0 then counters else Counted(counters[key := NextCounter(counters, key)], key, n - 1)
  }

  // ---------- Program tables ----------

  const PAT_HEADER := DEFAULT_PAT_HEADER.(
    tableId := 0, syntaxIndicator := 1, reserved0 := 3, sectionLength := 13, transportStreamId := 0, reserved1 := 3,
    currentNext := 1)

  function PatSection(pmtPid: u16): (s: seq<byte>)
    ensures |s| == 12
  {
    EncodePat(PAT_HEADER) + Be16(1) + Be16(0xE000 + Low(pmtPid, 0x2000))
  }

  // A packet with one section: pointer field, section, checksum, stuffing.
  function SectionPacket(pid: u16, counter: byte, section: seq<byte>): (s: seq<byte>)
    requires |section| <= 179
    ensures |s| == PACKET_SIZE
  {
    EncodeTs(DEFAULT_TS_HEADER.(unitStart := 1, pid := pid, adaptation := PAYLOAD_ONLY, counter := counter))
    + [0] + section + BytesOf32(BitSerial(section)) + Fill(0xFF, 179 - |section|)
  }

  function PatPacket(pmtPid: u16, counter: byte): (s: seq<byte>)
    ensures |s| == PACKET_SIZE
  {
    SectionPacket(PAT_PID, counter, PatSection(pmtPid))
  }

  // The stream map in the order std::map iterates it.
  function Entries(streams: map<byte, u16>, from: nat): seq<PmtInfo>
    decreases 256 - from
  {
    if from >= 256 then [] else
      (if from in streams then [PmtInfo(from, 7, streams[from], 15, 0)] else []) + Entries(streams, from + 1)
  }

  lemma EntriesNext(streams: map<byte, u16>, from: nat)
    requires from < 256
    ensures from in streams ==>
              Entries(streams, from) == [PmtInfo(from, 7, streams[from], 15, 0)] + Entries(streams, from + 1)
    ensures from !in streams ==> Entries(streams, from) == Entries(streams, from + 1)
  {
    if from !in streams {
      assert [] + Entries(streams, from + 1) == Entries(streams, from + 1);
    }
  }

  // Each stream is listed once.
  lemma {:induction false} EntriesCount(streams: map<byte, u16>, from: nat)
    requires from <= 256
    ensures |Entries(streams, from)| == |set t | t in streams && t >= from|
    decreases 256 - from
  {
    var above := set t | t in streams && t >= from;
    if from == 256 {
      assert above == {};
    } else {
      var rest := set t | t in streams && t >= from + 1;
      EntriesCount(streams, from + 1);
      if from in streams {
        assert above == rest + {from};
      } else {
        assert above == rest;
      }
    }
  }

  lemma StreamCount(streams: map<byte, u16>)
    ensures |Entries(streams, 0)| == |streams|
  {
    EntriesCount(streams, 0);
    assert (set t | t in streams && t >= 0) == streams.Keys;
  }

  const MAX_STREAMS := 33

  function PmtOf(cfg: Config): (h: PmtHeader)
    requires |cfg.streams| <= MAX_STREAMS
    ensures h.infos == Entries(cfg.streams, 0) && |h.infos| == |cfg.streams|
    ensures h.sectionLength == 13 + 5 * |cfg.streams| && h.pcrPid == cfg.pcrPid
  {
    StreamCount(cfg.streams);
    DEFAULT_PMT_HEADER.(
      syntaxIndicator := 1, reserved0 := 3, sectionLength := 13 + 5 * |Entries(cfg.streams, 0)|, programNumber := 1,
      reserved1 := 3, currentNext := 1, reserved2 := 7, reserved3 := 15, pcrPid := cfg.pcrPid,
      infos := Entries(cfg.streams, 0))
  }

  function PmtPacket(cfg: Config, counter: byte): (s: seq<byte>)
    requires |cfg.streams| <= MAX_STREAMS
    ensures |s| == PACKET_SIZE
  {
    StreamCount(cfg.streams);
    SectionPacket(cfg.pmtPid, counter, EncodePmt(PmtOf(cfg)))
  }

  // ---------- One call ----------

  predicate WantsTables(cfg: Config, st: MuxState, randomAccess: bool) {
    (cfg.muxType == SegmentType && randomAccess) || (cfg.muxType == H222Type && st.index % PAT_INTERVAL == 0)
  }

  function NextIndex(cfg: Config, st: MuxState): nat {
    if cfg.muxType != H222Type then st.index
    else if st.index % PAT_INTERVAL == 0 then 1
    else st.index + 1
  }

  // A call that is to send tables throws if its map packet would hold too many streams.
  predicate CanEncode(cfg: Config, st: MuxState, randomAccess: bool) {
    WantsTables(cfg, st, randomAccess) ==> |cfg.streams| <= MAX_STREAMS
  }

  function TablePackets(cfg: Config, st: MuxState, randomAccess: bool): (s: seq<byte>)
    requires CanEncode(cfg, st, randomAccess)
    ensures |s| % PACKET_SIZE == 0
  {
    if WantsTables(cfg, st, randomAccess) then
      var counter := NextCounter(st.counters, 0);
      WholePackets(PACKET_SIZE, PACKET_SIZE);
      PatPacket(cfg.pmtPid, counter) + PmtPacket(cfg, counter)
    else []
  }

  function AfterTables(cfg: Config, st: MuxState, randomAccess: bool): map<nat, byte> {
    if WantsTables(cfg, st, randomAccess) then st.counters[0 := NextCounter(st.counters, 0)] else st.counters
  }

  function EncodeBytes(cfg: Config, st: MuxState, m: Meta, size: nat, body: seq<byte>,
                       randomAccess: bool): (s: seq<byte>)
    requires CanEncode(cfg, st, randomAccess)
    ensures |s| % PACKET_SIZE == 0
  {
    var tables := TablePackets(cfg, st, randomAccess);
    var frame := FramePackets(cfg, m, size, body, NextCounter(AfterTables(cfg, st, randomAccess), m.streamType));
    WholePackets(|tables|, |frame|);
    tables + frame
  }

  function EncodeState(cfg: Config, st: MuxState, m: Meta, size: nat, body: seq<byte>, randomAccess: bool): MuxState {
    MuxState(Counted(AfterTables(cfg, st, randomAccess), m.streamType, FrameCount(cfg, m, size, body)),
             NextIndex(cfg, st))
  }

  const CLOCK_FIELD := DEFAULT_ADAPTATION_HEADER.(length := 183, pcr := 1)

  function ClockPacket(cfg: Config, pcr: u64): (s: seq<byte>)
    ensures |s| == PACKET_SIZE
  {
    EncodeTs(DEFAULT_TS_HEADER.(pid := cfg.pcrPid, adaptation := ADAPTATION_ONLY))
    + EncodeAdaptation(CLOCK_FIELD) + EncodePcr(pcr) + Fill(0xFF, 176)
  }
}
