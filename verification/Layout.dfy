/**
 What the muxer sends, byte by byte: every packet of every run written out in numbers, after the
 syntax tables of ISO/IEC 13818-1, without a header type or an encoder.
 */
module Layout {
  import opened Bytes
  import opened TsFields
  import opened Crc
  import opened MuxSpec
  import opened Trips
  import opened Packetization

  // ---------- Pieces ----------

  // Sync byte, unit start and PID, adaptation and payload flags, counter.
  function Head(start: bool, pid: u16, field: bool, payload: bool, c: byte): (s: seq<byte>)
    requires pid < 0x2000 && c < 16
    ensures |s| == 4
  {
    [0x47, (if start then 0x40 else 0) + pid / 256, pid % 256, (if field then 0x20 else 0)
     + (if payload then 0x10 else 0) + c]
  }

  // n bytes of adaptation field that say nothing.
  function Padding(n: nat): (s: seq<byte>)
    requires n <= 184
    ensures |s| == n
  {
    if n == 0 then [] else if n == 1 then [0] else [n - 1, 0] + Fill(0xFF, n - 2)
  }

  // A clock reference: 33 bits of base, six reserved ones, nine bits of extension.
  function ClockBytes(pcr: u64): (s: seq<byte>)
    ensures |s| == 6
  {
    [(pcr / 0x200_0000) % 256, (pcr / 0x2_0000) % 256, (pcr / 0x200) % 256, (pcr / 2) % 256, (pcr % 2) * 128 + 0x7E, 0]
  }

  // The adaptation field of a first packet, with n bytes of stuffing.
  function FieldBytes(m: Meta, clock: bool, n: nat): (s: seq<byte>)
    requires n <= 184
  {
    var bit := m.randomAccess % 2;
    if clock then [7 + n, 0x10 + 0x40 * bit] + ClockBytes(m.pcr) + Fill(0xFF, n)
    else if m.randomAccess != 0 then [1 + n, 0x40 * bit] + Fill(0xFF, n)
    else Padding(n)
  }

  // ---------- Packets ----------

  // The packets of a frame after its first.
  function LaterBytes(pid: u16, body: seq<byte>, c: byte): (s: seq<byte>)
    requires pid < 0x2000 && c < 16
    decreases |body|
  {
    if body == [] then [] else
      var n := if |body| < 184 then |body| else 184;
      Head(false, pid, n < 184, true, c) + Padding(184 - n) + body[..n] + LaterBytes(pid, body[n..], (c + 1) % 16)
  }

  // The packets of a frame of which body is left; size is that of the whole.
  function FrameBytes(m: Meta, clock: bool, size: nat, body: seq<byte>, c: byte): (s: seq<byte>)
    requires m.pid < 0x2000 && c < 16
  {
    if body == [] then [] else
      var pes := PesBytes(m, size);
      var room := 184 - FieldSize(m, clock) - |pes|;
      var n := if |body| < room then |body| else room;
      Head(true, m.pid, FieldSize(m, clock) > 0 || n < room, true, c) + FieldBytes(m, clock, room - n)
        + (pes + body[..n])
      + LaterBytes(m.pid, body[n..], (c + 1) % 16)
  }

  // A section behind its pointer byte, with its checksum, padded to a packet.
  function SectionBytes(pid: u16, c: byte, section: seq<byte>): (s: seq<byte>)
    requires pid < 0x2000 && c < 16 && |section| <= 179
  {
    Head(true, pid, false, true, c) + [0] + section + BytesOf32(BitSerial(section)) + Fill(0xFF, 179 - |section|)
  }

  function PatBytes(pmtPid: u16, c: byte): (s: seq<byte>)
    requires pmtPid < 0x2000 && c < 16
  {
    SectionBytes(0, c, [0x00, 0xB0, 13, 0, 0, 0xC1, 0, 0, 0, 1, 0xE0 + pmtPid / 256, pmtPid % 256])
  }

  // The streams in the order of their types.
  function StreamBytes(streams: map<byte, u16>, from: nat): (s: seq<byte>)
    requires forall t | t in streams :: streams[t] < 0x2000
    decreases 256 - from
  {
    if from >= 256 then []
    else if from in streams then
      [from, 0xE0 + streams[from] / 256, streams[from] % 256, 0xF0, 0] + StreamBytes(streams, from + 1)
    else StreamBytes(streams, from + 1)
  }

  // The first twelve bytes of a map section.
  function MapHead(length: byte, pcrPid: u16): (s: seq<byte>)
    requires pcrPid < 0x2000
    ensures |s| == 12
  {
    [0x02, 0xB0, length, 0, 1, 0xC1, 0, 0, 0xE0 + pcrPid / 256, pcrPid % 256, 0xF0, 0]
  }

  function MapSection(cfg: Config): (s: seq<byte>)
    requires InRange(cfg) && |cfg.streams| <= 33
  {
    MapHead(13 + 5 * |cfg.streams|, cfg.pcrPid) + StreamBytes(cfg.streams, 0)
  }

  predicate InRange(cfg: Config) {
    cfg.pmtPid < 0x2000 && cfg.pcrPid < 0x2000 && forall t | t in cfg.streams :: cfg.streams[t] < 0x2000
  }

  function TickBytes(cfg: Config, pcr: u64): (s: seq<byte>)
    requires InRange(cfg)
  {
    Head(false, cfg.pcrPid, true, false, 0) + [183, 0x10] + ClockBytes(pcr) + Fill(0xFF, 176)
  }

  // ---------- The pieces are those of the encoders ----------

  lemma HeadIs(start: bool, pid: u16, adaptation: byte, c: byte)
    requires pid < 0x2000 && c < 16 && 1 <= adaptation < 4
    ensures EncodeTs(DEFAULT_TS_HEADER.(unitStart := if start then 1 else 0, pid := pid, adaptation := adaptation,
                                        counter := c))
         == Head(start, pid, adaptation >= 2, adaptation % 2 == 1, c)
  {
    hide Low;
    InWidth4(pid, 0x2000, c, 16, adaptation, 4, 0, 4);
    InWidth4(0, 2, 1, 2, 0, 1, 0, 1);
  }

  lemma PaddingIs(n: nat)
    requires n <= 184
    ensures Stuffed([], n) == Padding(n)
  {
    if n >= 2 {
      assert [n - 1] + ([0] + Fill(0xFF, n - 2)) == [n - 1, 0] + Fill(0xFF, n - 2);
    }
  }

  lemma ClockIs(pcr: u64)
    ensures EncodePcr(pcr) == ClockBytes(pcr)
  {
  }

  lemma AdaptationIs(length: byte, ra: byte, pcr: byte)
    requires length > 0 && pcr < 2
    ensures EncodeAdaptation(DEFAULT_ADAPTATION_HEADER.(length := length, randomAccess := ra, pcr := pcr))
         == [length, 0x10 * pcr + 0x40 * (ra % 2)]
  {
    hide Low;
    InWidth4(0, 2, pcr, 2, 0, 1, 0, 1);
    assert Low(ra, 2) == ra % 2 by { LowMeans(ra); }
  }

  lemma LowMeans(x: nat)
    ensures Low(x, 2) == x % 2
  {
  }

  lemma FieldIs(m: Meta, pcrPid: u16, n: nat)
    requires n <= 184
    ensures var field := FirstField(m, pcrPid);
            |field| == FieldSize(m, m.pid == pcrPid) && (field != [] ==> field[0] <= 7)
            && Stuffed(field, n) == FieldBytes(m, m.pid == pcrPid, n)
  {
    hide EncodeAdaptation, EncodePcr;
    if m.pid == pcrPid {
      AdaptationIs(7, m.randomAccess, 1);
      ClockIs(m.pcr);
      var flags, clock := 0x10 + 0x40 * (m.randomAccess % 2), ClockBytes(m.pcr);
      assert FirstField(m, pcrPid) == [7, flags] + clock;
      assert ([7, flags] + clock)[1..] == [flags] + clock;
      if n == 0 {
        assert [7, flags] + clock + Fill(0xFF, 0) == [7, flags] + clock;
      } else {
        assert [7 + n] + ([flags] + clock) + Fill(0xFF, n) == [7 + n, flags] + clock + Fill(0xFF, n);
      }
    } else if m.randomAccess != 0 {
      AdaptationIs(1, m.randomAccess, 0);
      var flags := 0x40 * (m.randomAccess % 2);
      assert FirstField(m, pcrPid) == [1, flags];
      if n == 0 {
        assert [1, flags] + Fill(0xFF, 0) == [1, flags];
      } else {
        assert [1 + n] + [flags] + Fill(0xFF, n) == [1 + n, flags] + Fill(0xFF, n);
      }
    } else {
      PaddingIs(n);
    }
  }

  // ---------- The packets are those of the specification ----------

  lemma LaterPacket(pid: u16, body: seq<byte>, c: byte, n: nat)
    requires pid < 0x2000 && c < 16 && body != [] && n == (if |body| < 184 then |body| else 184)
    ensures OnePacket(pid, 0, [], [], body, c)
         == Head(false, pid, n < 184, true, c) + Padding(184 - n) + body[..n]
  {
    hide EncodeTs, Stuffed, Head, Padding;
    PaddingIs(184 - n);
    HeadIs(false, pid, if n < 184 then ADAPTATION_AND_PAYLOAD else PAYLOAD_ONLY, c);
    assert [] + body[..n] == body[..n];
  }

  lemma {:induction false} LaterIs(pid: u16, body: seq<byte>, c: byte)
    requires pid < 0x2000 && c < 16
    ensures PesPackets(pid, 0, [], [], body, c) == LaterBytes(pid, body, c)
    decreases |body|
  {
    hide OnePacket, Head, Padding;
    if body != [] {
      var n := Taken([], [], body);
      LaterPacket(pid, body, c, n);
      LaterIs(pid, body[n..], Succ(c));
    }
  }

  lemma FirstIs(cfg: Config, m: Meta, size: nat, body: seq<byte>, c: byte, n: nat, room: int)
    requires m.pid < 0x2000 && c < 16 && body != [] && Fieldlike(FirstField(m, cfg.pcrPid), PesHead(m, size))
    requires room == Room(FirstField(m, cfg.pcrPid), PesHead(m, size)) && n == if |body| < room then |body| else room
    ensures var clock := m.pid == cfg.pcrPid;
            room == 184 - FieldSize(m, clock) - |PesBytes(m, size)|
            && OnePacket(m.pid, 1, FirstField(m, cfg.pcrPid), PesHead(m, size), body, c)
               == Head(true, m.pid, FieldSize(m, clock) > 0 || n < room, true, c) + FieldBytes(m, clock, room - n)
                  + (PesBytes(m, size) + body[..n])
  {
    hide EncodeTs, Stuffed, Head, FirstField, PesHead, FieldBytes, PesBytes;
    var field := FirstField(m, cfg.pcrPid);
    PesIs(m, size);
    FieldIs(m, cfg.pcrPid, room - n);
    var stuffed := Stuffed(field, room - n);
    HeadIs(true, m.pid, if stuffed == [] then PAYLOAD_ONLY else ADAPTATION_AND_PAYLOAD, c);
  }

  /** The packets of every frame, byte by byte. */
  lemma FrameIs(cfg: Config, m: Meta, size: nat, body: seq<byte>, c: byte)
    requires m.pid < 0x2000 && c < 16
    ensures FramePackets(cfg, m, size, body, c) == FrameBytes(m, m.pid == cfg.pcrPid, size, body, c)
  {
    hide OnePacket, Head, FirstField, PesHead, FieldBytes, PesBytes, LaterBytes;
    if body != [] {
      var field, head := FirstField(m, cfg.pcrPid), PesHead(m, size);
      FirstFieldlike(m, cfg.pcrPid, size);
      var n := Taken(field, head, body);
      FirstIs(cfg, m, size, body, c, n, Room(field, head));
      LaterIs(m.pid, body[n..], Succ(c));
    }
  }

  lemma SectionIs(pid: u16, c: byte, section: seq<byte>)
    requires pid < 0x2000 && c < 16 && |section| <= 179
    ensures SectionPacket(pid, c, section) == SectionBytes(pid, c, section)
  {
    hide EncodeTs, BytesOf32, BitSerial, Head;
    HeadIs(true, pid, PAYLOAD_ONLY, c);
  }

  /** The association packet, byte by byte. */
  lemma PatIs(pmtPid: u16, c: byte)
    requires pmtPid < 0x2000 && c < 16
    ensures PatPacket(pmtPid, c) == PatBytes(pmtPid, c)
  {
    hide SectionPacket, SectionBytes, EncodePat;
    PatSectionIs(pmtPid);
    SectionIs(0, c, PatSection(pmtPid));
  }

  lemma PatSectionIs(pmtPid: u16)
    requires pmtPid < 0x2000
    ensures PatSection(pmtPid) == [0x00, 0xB0, 13, 0, 0, 0xC1, 0, 0, 0, 1, 0xE0 + pmtPid / 256, pmtPid % 256]
  {
    hide Low;
    LowIs(pmtPid, pmtPid, 0x2000, 0);
    InWidth4(13, 0x1000, 3, 4, 0, 2, 1, 2);
    InWidth4(0, 32, 0, 4, 0, 1, 0, 1);
  }

  lemma InfoIs(t: byte, pid: u16)
    requires pid < 0x2000
    ensures EncodeInfo(PmtInfo(t, 7, pid, 15, 0)) == [t, 0xE0 + pid / 256, pid % 256, 0xF0, 0]
  {
    hide Low;
    InWidth4(pid, 0x2000, 7, 8, 0, 0x1000, 15, 16);
  }

  lemma {:induction false} StreamsAre(streams: map<byte, u16>, from: nat)
    requires forall t | t in streams :: streams[t] < 0x2000
    ensures EncodeInfos(Entries(streams, from)) == StreamBytes(streams, from)
    decreases 256 - from
  {
    hide EncodeInfo;
    if from < 256 {
      EntriesNext(streams, from);
      StreamsAre(streams, from + 1);
      if from in streams {
        var entry, more := PmtInfo(from, 7, streams[from], 15, 0), Entries(streams, from + 1);
        assert ([entry] + more)[0] == entry && ([entry] + more)[1..] == more;
        InfoIs(from, streams[from]);
      }
    }
  }

  lemma MapSectionIs(cfg: Config)
    requires InRange(cfg) && |cfg.streams| <= MAX_STREAMS
    ensures EncodePmt(PmtOf(cfg)) == MapSection(cfg)
  {
    hide Entries, EncodeInfos, EncodePmtFixed, MapHead;
    StreamCount(cfg.streams);
    StreamsAre(cfg.streams, 0);
    MapHeadIs(PmtOf(cfg), 13 + 5 * |cfg.streams|);
  }

  lemma MapHeadIs(h: PmtHeader, length: byte)
    requires h.pcrPid < 0x2000
    requires h.(infos := [], pcrPid := 0)
          == DEFAULT_PMT_HEADER.(syntaxIndicator := 1, reserved0 := 3, sectionLength := length, programNumber := 1,
                                 reserved1 := 3, currentNext := 1, reserved2 := 7, reserved3 := 15)
    ensures EncodePmtFixed(h) == MapHead(length, h.pcrPid)
  {
    hide Low, LengthWord;
    LengthWordInWidth(h);
    InWidth4(3, 4, 0, 2, 1, 2, 0, 32);
    InWidth4(h.pcrPid, 0x2000, 7, 8, 0, 0x1000, 15, 16);
    assert Be16(length + 0xB000) == [0xB0, length];
    assert Be16(h.pcrPid + 0xE000) == [0xE0 + h.pcrPid / 256, h.pcrPid % 256];
  }

  /** The map packet, byte by byte. */
  lemma MapIs(cfg: Config, c: byte)
    requires InRange(cfg) && |cfg.streams| <= MAX_STREAMS && c < 16
    ensures |MapSection(cfg)| == 12 + 5 * |cfg.streams|
            && PmtPacket(cfg, c) == SectionBytes(cfg.pmtPid, c, MapSection(cfg))
  {
    hide SectionPacket, SectionBytes, EncodePmt, PmtOf, MapSection;
    MapSectionIs(cfg);
    SectionIs(cfg.pmtPid, c, MapSection(cfg));
  }

  /** The clock packet, byte by byte. */
  lemma TickIs(cfg: Config, pcr: u64)
    requires InRange(cfg)
    ensures ClockPacket(cfg, pcr) == TickBytes(cfg, pcr)
  {
    hide EncodeTs, EncodeAdaptation, EncodePcr, Head, ClockBytes;
    HeadIs(false, cfg.pcrPid, ADAPTATION_ONLY, 0);
    AdaptationIs(183, 0, 1);
    ClockIs(pcr);
  }

  // ---------- Whole runs ----------

  // The counter of the next packet of a key, one after the last modulo 16, or 0.
  function Upcoming(counters: map<nat, byte>, key: nat): (c: byte)
    ensures c < 16
  {
    if key in counters then (counters[key] as int + 1) % 16 else 0
  }

  // The last counters after n more packets of a key.
  function Later(counters: map<nat, byte>, key: nat, n: nat): map<nat, byte> {
    if n == 0 then counters else counters[key := (Upcoming(counters, key) as int + n - 1) % 16]
  }

  // In segment mode before every random access point, in h222 mode before every twentieth call.
  predicate TablesDue(muxType: MuxType, calls: nat, randomAccess: bool) {
    (muxType == SegmentType && randomAccess) || (muxType == H222Type && calls % 20 == 0)
  }

  function TableBytes(cfg: Config, c: byte): seq<byte>
    requires InRange(cfg) && |cfg.streams| <= 33 && c < 16
  {
    MapIs(cfg, c);
    PatBytes(cfg.pmtPid, c) + SectionBytes(cfg.pmtPid, c, MapSection(cfg))
  }

  // The bytes of a run, from the last counters by key and the number of frames sent before.
  function RunBytes(cfg: Config, counters: map<nat, byte>, calls: nat, ops: seq<Op>): seq<byte>
    requires InRange(cfg) && |cfg.streams| <= 33 && forall op | op in ops :: op.Encode? ==> op.meta.pid < 0x2000
    decreases |ops|
  {
    if ops == [] then [] else
      assert ops[0] in ops;
      match ops[0]
      case Tick(pcr) => TickBytes(cfg, pcr) + RunBytes(cfg, counters, calls, ops[1..])
      case Encode(m, data, ra) =>
        var due := TablesDue(cfg.muxType, calls, ra);
        var tables := if due then TableBytes(cfg, Upcoming(counters, 0)) else [];
        var after := if due then counters[0 := Upcoming(counters, 0)] else counters;
        var frame := FrameBytes(m, m.pid == cfg.pcrPid, |data|, data, Upcoming(after, m.streamType));
        tables + frame + RunBytes(cfg, Later(after, m.streamType, |frame| / 188), calls + 1, ops[1..])
  }

  lemma {:induction false} CountedIs(counters: map<nat, byte>, key: nat, n: nat)
    ensures Counted(counters, key, n) == Later(counters, key, n)
    decreases n
  {
    if n > 0 {
      var counters' := counters[key := NextCounter(counters, key)];
      CountedIs(counters', key, n - 1);
      assert counters'[key := (NextCounter(counters, key) as int + n - 1) % 16]
          == counters[key := (NextCounter(counters, key) as int + n - 1) % 16];
    }
  }

  lemma NextIs(counters: map<nat, byte>, key: nat)
    ensures NextCounter(counters, key) == Upcoming(counters, key)
  {
  }

  lemma PacketsOfFrame(cfg: Config, m: Meta, data: seq<byte>, c: byte)
    ensures |FramePackets(cfg, m, |data|, data, c)| / 188 == FrameCount(cfg, m, |data|, data)
  {
    hide FirstField, PesHead, PesPackets, PacketCount;
    FirstFieldlike(m, cfg.pcrPid, |data|);
    CountIsLength(m.pid, 1, FirstField(m, cfg.pcrPid), PesHead(m, |data|), data, c);
  }

  lemma IndexIs(index: nat, calls: nat)
    requires index <= 20 && index % 20 == calls % 20
    ensures index % PAT_INTERVAL == 0 <==> calls % 20 == 0
    ensures var next := if index % PAT_INTERVAL == 0 then 1 else index + 1;
            next <= 20 && next % 20 == (calls + 1) % 20
  {
    var q := calls / 20;
    assert calls == 20 * q + calls % 20;
  }

  lemma OneCallIs(cfg: Config, mux: MuxState, calls: nat, m: Meta, data: seq<byte>, ra: bool)
    requires InRange(cfg) && |cfg.streams| <= MAX_STREAMS && m.pid < 0x2000
    requires cfg.muxType == H222Type ==> mux.index <= 20 && mux.index % 20 == calls % 20
    ensures var due := TablesDue(cfg.muxType, calls, ra);
            var tables := if due then TableBytes(cfg, Upcoming(mux.counters, 0)) else [];
            var after := if due then mux.counters[0 := Upcoming(mux.counters, 0)] else mux.counters;
            var frame := FrameBytes(m, m.pid == cfg.pcrPid, |data|, data, Upcoming(after, m.streamType));
            EncodeBytes(cfg, mux, m, |data|, data, ra) == tables + frame
            && EncodeState(cfg, mux, m, |data|, data, ra).counters == Later(after, m.streamType, |frame| / 188)
    ensures var index := EncodeState(cfg, mux, m, |data|, data, ra).index;
            cfg.muxType == H222Type ==> index <= 20 && index % 20 == (calls + 1) % 20
  {
    hide FramePackets, FrameBytes, PatPacket, PmtPacket, PatBytes, SectionBytes, MapSection, FrameCount, Counted, Later,
      Upcoming, NextCounter;
    if cfg.muxType == H222Type {
      IndexIs(mux.index, calls);
    }
    NextIs(mux.counters, 0);
    PatIs(cfg.pmtPid, Upcoming(mux.counters, 0));
    MapIs(cfg, Upcoming(mux.counters, 0));
    var after := AfterTables(cfg, mux, ra);
    NextIs(after, m.streamType);
    var c := Upcoming(after, m.streamType);
    FrameIs(cfg, m, |data|, data, c);
    PacketsOfFrame(cfg, m, data, c);
    CountedIs(after, m.streamType, FrameCount(cfg, m, |data|, data));
  }

  /** Every run of the muxer, byte by byte. */
  lemma {:induction false} RunIs(cfg: Config, mux: MuxState, calls: nat, ops: seq<Op>)
    requires InRange(cfg) && |cfg.streams| <= MAX_STREAMS
             && forall op | op in ops :: op.Encode? ==> op.meta.pid < 0x2000
    requires cfg.muxType == H222Type ==> mux.index <= 20 && mux.index % 20 == calls % 20
    ensures MuxBytes(cfg, mux, ops) == RunBytes(cfg, mux.counters, calls, ops)
    decreases |ops|
  {
    hide EncodeBytes, EncodeState, ClockPacket, TickBytes, FrameBytes, TableBytes, Later, TablesDue, Upcoming;
    if ops != [] {
      assert ops[0] in ops;
      match ops[0] {
        case Tick(pcr) =>
          TickIs(cfg, pcr);
          RunIs(cfg, mux, calls, ops[1..]);
        case Encode(m, data, ra) =>
          OneCallIs(cfg, mux, calls, m, data, ra);
          RunIs(cfg, EncodeState(cfg, mux, m, |data|, data, ra), calls + 1, ops[1..]);
      }
    }
  }

  /** What a new muxer sends. */
  lemma NewMuxerSends(cfg: Config, ops: seq<Op>)
    requires InRange(cfg) && |cfg.streams| <= 33 && forall op | op in ops :: op.Encode? ==> op.meta.pid < 0x2000
    ensures MuxBytes(cfg, INITIAL_MUX, ops) == RunBytes(cfg, map[], 0, ops)
  {
    RunIs(cfg, INITIAL_MUX, 0, ops);
  }
}
