/**
 The program tables through the muxer and the demuxer: what a table packet holds, what a
 demuxer learns from it, and that a demuxer that knows the tables ignores their repetition.
 */
module TableTrip {
  import opened Bytes
  import opened TsFields
  import opened Crc
  import opened MuxSpec
  import opened DemuxSpec
  import opened Chunking
  import opened Cuts
  import opened FrameTrip

  // A configuration whose identifiers can be told apart.
  predicate ValidConfig(cfg: Config) {
    0 < |cfg.streams| <= MAX_STREAMS
    && 0 < cfg.pmtPid < 0x2000 && cfg.pcrPid < 0x2000 && MapFits(cfg)
    && StreamsOk(cfg)
  }

  predicate StreamsOk(cfg: Config) {
    PidsOk(cfg) && Injective(cfg.streams)
  }

  predicate PidsOk(cfg: Config) {
    forall t | t in cfg.streams :: 0 < cfg.streams[t] < 0x2000 && cfg.streams[t] != cfg.pmtPid
  }

  // No two streams share a PID.
  predicate Injective(streams: map<byte, u16>) {
    forall t, u | t in streams && u in streams && streams[t] == streams[u] :: t == u
  }

  // What the demuxer reads of the map packet lies in the packet. With the clock on the PID of the
  // map it goes on to read a clock behind the list, where 33 streams leave no room for one.
  predicate MapFits(cfg: Config) {
    |cfg.streams| < MAX_STREAMS || cfg.pcrPid != cfg.pmtPid
  }

  // ---------- Sections ----------

  lemma SectionHeader(pid: u16, counter: byte, section: seq<byte>)
    requires pid < 0x2000 && counter < 16 && |section| <= 179
    ensures DecodeTs(SectionPacket(pid, counter, section), 0)
         == DEFAULT_TS_HEADER.(unitStart := 1, pid := pid, adaptation := PAYLOAD_ONLY, counter := counter)
  {
    hide EncodeTs, DecodeTs, BytesOf32, BitSerial;
    var h := DEFAULT_TS_HEADER.(unitStart := 1, pid := pid, adaptation := PAYLOAD_ONLY, counter := counter);
    var w := SectionPacket(pid, counter, section);
    assert w[0..0 + 4] == EncodeTs(h);
    TsRoundTrip(h, w, 0);
  }

  lemma SectionHolds(pid: u16, counter: byte, section: seq<byte>)
    requires |section| <= 179
    ensures Holds(SectionPacket(pid, counter, section), 5, section + BytesOf32(BitSerial(section)))
  {
    hide EncodeTs, BytesOf32, BitSerial;
    var w, s := SectionPacket(pid, counter, section), section + BytesOf32(BitSerial(section));
    assert w[5..5 + |s|] == s;
  }

  /** A receiver that checks a table packet's section, checksum included, gets zero. */
  lemma SectionChecks(pid: u16, counter: byte, section: seq<byte>)
    requires |section| <= 179
    ensures BitSerial(SectionPacket(pid, counter, section)[5..5 + |section| + 4]) == 0
  {
    hide SectionPacket, BitSerial;
    SectionHolds(pid, counter, section);
    CheckedSectionIsZero(section);
  }

  // ---------- Program association ----------

  /** The association packet is read back: its header, and the PID of the program map. */
  lemma PatRoundTrip(pmtPid: u16, counter: byte)
    requires pmtPid < 0x2000 && counter < 16
    ensures var w := PatPacket(pmtPid, counter);
            DecodePat(w, 5) == PAT_HEADER.(reserved0 := 0) && Low(Word(w, 15), 0x2000) == pmtPid
            && DecodePat(w, 5).sectionLength + 3 == |PatSection(pmtPid)| + 4
  {
    hide SectionPacket, EncodePat, DecodePat, BytesOf32, BitSerial, Low;
    var w, section := PatPacket(pmtPid, counter), PatSection(pmtPid);
    SectionHolds(PAT_PID, counter, section);
    HoldsParts(w, 5, section, BytesOf32(BitSerial(section)));
    HoldsParts(w, 5, EncodePat(PAT_HEADER) + Be16(1), Be16(0xE000 + Low(pmtPid, 0x2000)));
    HoldsParts(w, 5, EncodePat(PAT_HEADER), Be16(1));
    PatHeaderRoundTrip(PAT_HEADER, w, 5);
    LowIs(pmtPid, pmtPid, 0x2000, 0);
    HoldsAt(w, 15, Be16(0xE000 + pmtPid), 0);
    HoldsAt(w, 15, Be16(0xE000 + pmtPid), 1);
    Be16Word(w, 15, 0xE000 + pmtPid);
    LowIs(0xE000 + pmtPid, pmtPid, 0x2000, 7);
  }

  function AfterPat(st: State, pmtPid: u16): State {
    st.(pat := PAT_HEADER.(reserved0 := 0), pmtId := pmtPid, patValid := true)
  }

  lemma LearnFromPat(st: State, pmtPid: u16, counter: byte)
    requires st.pmtId == 0 && pmtPid < 0x2000 && counter < 16
    ensures Yields(st, PatPacket(pmtPid, counter), AfterPat(st, pmtPid), [])
  {
    hide SectionPacket, DecodeTs, DecodePat, Low, Yields, PatSection;
    var w := PatPacket(pmtPid, counter);
    SectionHeader(PAT_PID, counter, PatSection(pmtPid));
    PatRoundTrip(pmtPid, counter);
    YieldsOne(st, w, AfterPat(st, pmtPid), []);
  }

  // ---------- Program map ----------

  lemma {:induction false} EntriesInWidth(streams: map<byte, u16>, from: nat)
    requires forall t | t in streams :: streams[t] < 0x2000
    ensures forall e | e in Entries(streams, from) :: InfoInWidth(e) && e.infoLength == 0
    decreases 256 - from
  {
    if from < 256 {
      EntriesInWidth(streams, from + 1);
    }
  }

  /**
   The map packet is read back: clock PID and the ordered list of streams, with the element
   loop ending exactly at the checksum and the section length counting up to its end.
   */
  lemma PmtPacketRoundTrip(cfg: Config, counter: byte)
    requires |cfg.streams| <= MAX_STREAMS && cfg.pcrPid < 0x2000
    requires forall t | t in cfg.streams :: cfg.streams[t] < 0x2000
    ensures var w := PmtPacket(cfg, counter);
            DecodePmt([], w, 5) == PmtOf(cfg) && PmtEnd(w, 5) == 17 + 5 * |cfg.streams|
            && 5 + DecodePmt([], w, 5).sectionLength + 3 == PmtEnd(w, 5) + 4 <= PACKET_SIZE
  {
    hide SectionPacket, EncodePmt, DecodePmt, PmtEnd, BytesOf32, BitSerial, Entries;
    StreamCount(cfg.streams);
    EntriesInWidth(cfg.streams, 0);
    var w, section := PmtPacket(cfg, counter), EncodePmt(PmtOf(cfg));
    SectionHolds(cfg.pmtPid, counter, section);
    HoldsParts(w, 5, section, BytesOf32(BitSerial(section)));
    PmtRoundTrip(PmtOf(cfg), w, 5);
  }

  // A fresh object for each stream from a type on, and the objects of other PIDs as they were.
  predicate Grown(frames: map<u16, Es>, all: map<u16, Es>, streams: map<byte, u16>, from: nat) {
    (forall t | t in streams && t >= from :: streams[t] in all && all[streams[t]] == FreshEs(t))
    && (forall pid | pid in frames && (forall t | t in streams && t >= from :: streams[t] != pid) ::
          pid in all && all[pid] == frames[pid])
    && (forall pid | pid in all :: pid in frames || exists t :: t in streams && streams[t] == pid)
  }

  // What AddFrames makes of the list of a stream map without shared PIDs.
  lemma {:induction false} FramesOfEntries(frames: map<u16, Es>, streams: map<byte, u16>, from: nat)
    requires Injective(streams)
    requires from <= 256
    ensures Grown(frames, AddFrames(frames, Entries(streams, from)), streams, from)
    decreases 256 - from
  {
    hide Entries, AddFrames, Grown;
    if from == 256 {
      NothingGrown(frames, streams);
    } else {
      EntriesNext(streams, from);
      if from in streams {
        var entry, more := PmtInfo(from, 7, streams[from], 15, 0), Entries(streams, from + 1);
        FirstAdded(frames, entry, more);
        FramesOfEntries(frames[streams[from] := FreshEs(from)], streams, from + 1);
        GrownBefore(frames, AddFrames(frames, [entry] + more), streams, from);
      } else {
        FramesOfEntries(frames, streams, from + 1);
        GrownSame(frames, AddFrames(frames, Entries(streams, from)), streams, from);
      }
    }
  }

  lemma NothingGrown(frames: map<u16, Es>, streams: map<byte, u16>)
    ensures Grown(frames, AddFrames(frames, Entries(streams, 256)), streams, 256)
  {
  }

  lemma FirstAdded(frames: map<u16, Es>, entry: PmtInfo, more: seq<PmtInfo>)
    ensures AddFrames(frames, [entry] + more) == AddFrames(frames[entry.pid := FreshEs(entry.streamType)], more)
  {
    assert ([entry] + more)[1..] == more;
  }

  lemma GrownBefore(frames: map<u16, Es>, all: map<u16, Es>, streams: map<byte, u16>, from: byte)
    requires Injective(streams)
    requires from in streams && Grown(frames[streams[from] := FreshEs(from)], all, streams, from + 1)
    ensures Grown(frames, all, streams, from)
  {
    hide FreshEs;
    var frames' := frames[streams[from] := FreshEs(from)];
    assert streams[from] in frames' && all[streams[from]] == FreshEs(from);
    assert forall pid | pid in frames && pid != streams[from] :: pid in frames' && frames'[pid] == frames[pid];
  }

  lemma GrownSame(frames: map<u16, Es>, all: map<u16, Es>, streams: map<byte, u16>, from: nat)
    requires from < 256 && from !in streams && Grown(frames, all, streams, from + 1)
    ensures Grown(frames, all, streams, from)
  {
  }

  // A demuxer that knows the tables and has an object for each stream and no other PID.
  predicate Knows(cfg: Config, st: State) {
    st.pmtId == cfg.pmtPid && st.pcrId == cfg.pcrPid && st.frames != map[]
    && (forall t | t in cfg.streams :: cfg.streams[t] in st.frames && Ready(st.frames[cfg.streams[t]], t))
    && (forall pid | pid in st.frames :: exists t :: t in cfg.streams && cfg.streams[t] == pid)
  }

  function AfterMap(st: State, cfg: Config): State
    requires |cfg.streams| <= MAX_STREAMS
  {
    var pmt := PmtOf(cfg);
    st.(pmt := pmt, pcrId := cfg.pcrPid, frames := AddFrames(map[], pmt.infos),
        streamPids := AddPids(st.streamPids, pmt.infos), pmtValid := true)
  }

  // One unused object for each stream, and no others.
  predicate FreshFor(frames: map<u16, Es>, streams: map<byte, u16>) {
    (forall t | t in streams :: streams[t] in frames && frames[streams[t]] == FreshEs(t))
    && (forall pid | pid in frames :: exists t :: t in streams && streams[t] == pid)
  }

  lemma FreshFrames(cfg: Config)
    requires StreamsOk(cfg)
    ensures FreshFor(AddFrames(map[], Entries(cfg.streams, 0)), cfg.streams)
  {
    hide AddFrames, Entries;
    FramesOfEntries(map[], cfg.streams, 0);
  }

  lemma AfterMapKnows(st: State, cfg: Config)
    requires 0 < |cfg.streams| <= MAX_STREAMS && StreamsOk(cfg) && st.pmtId == cfg.pmtPid
    ensures Knows(cfg, AfterMap(st, cfg))
    ensures forall t | t in cfg.streams :: AfterMap(st, cfg).frames[cfg.streams[t]].data == []
  {
    hide AddFrames, AddPids, Entries, PmtOf;
    FreshFrames(cfg);
    FreshKnows(AfterMap(st, cfg), cfg);
  }

  lemma FreshReady()
    ensures forall t: byte :: Ready(FreshEs(t), t) && FreshEs(t).data == []
  {
  }

  lemma FreshKnows(st: State, cfg: Config)
    requires 0 < |cfg.streams| && st.pmtId == cfg.pmtPid && st.pcrId == cfg.pcrPid && FreshFor(st.frames, cfg.streams)
    ensures Knows(cfg, st)
    ensures forall t | t in cfg.streams :: st.frames[cfg.streams[t]].data == []
  {
    hide Ready, FreshEs;
    FreshReady();
    SomeStream(cfg);
    var t :| t in cfg.streams;
    assert cfg.streams[t] in st.frames;
  }

  lemma SomeStream(cfg: Config)
    requires 0 < |cfg.streams|
    ensures exists t :: t in cfg.streams
  {
    assert cfg.streams.Keys != {};
  }

  lemma OtherPids(cfg: Config, st: State)
    requires PidsOk(cfg) && Knows(cfg, st)
    ensures 0 !in st.frames && cfg.pmtPid !in st.frames
  {
  }

  // What is taken for a clock at position p of a map packet: nothing, if the clock has a PID of
  // its own.
  function ClockAt(cfg: Config, w: seq<byte>, p: nat): seq<Event> {
    if cfg.pcrPid != cfg.pmtPid then []
    else [Clock(DecodePcr(w, p + AdaptationSize(DecodeAdaptation(w, p))))]
  }

  // The first map packet is read to the end of its list; a repeated one is not read at all.
  function ClockStart(cfg: Config, known: bool): nat { if known then 4 else 17 + 5 * |cfg.streams| }

  function MapClock(cfg: Config, known: bool): seq<Event>
    requires |cfg.streams| <= MAX_STREAMS
  {
    ClockAt(cfg, PmtPacket(cfg, 0), ClockStart(cfg, known))
  }

  lemma AnyCounter(cfg: Config, counter: byte, p: nat)
    requires |cfg.streams| <= MAX_STREAMS && p >= 4
    ensures ClockAt(cfg, PmtPacket(cfg, counter), p) == ClockAt(cfg, PmtPacket(cfg, 0), p)
  {
    hide PmtPacket, ClockAt;
    SameSection(cfg, counter);
    SameClock(cfg, PmtPacket(cfg, counter), PmtPacket(cfg, 0), p);
  }

  lemma SameSection(cfg: Config, counter: byte)
    requires |cfg.streams| <= MAX_STREAMS
    ensures PmtPacket(cfg, counter)[4..] == PmtPacket(cfg, 0)[4..]
  {
    hide EncodePmt, PmtOf, SectionPacket;
    SectionTail(cfg.pmtPid, counter, EncodePmt(PmtOf(cfg)));
    SectionTail(cfg.pmtPid, 0, EncodePmt(PmtOf(cfg)));
  }

  lemma SectionTail(pid: u16, counter: byte, section: seq<byte>)
    requires |section| <= 179
    ensures SectionPacket(pid, counter, section)[4..]
         == [0] + section + BytesOf32(BitSerial(section)) + Fill(0xFF, 179 - |section|)
  {
    hide EncodeTs, BytesOf32, BitSerial;
  }

  lemma SameClock(cfg: Config, w: seq<byte>, v: seq<byte>, p: nat)
    requires |w| == |v| >= 4 && w[4..] == v[4..] && p >= 4
    ensures ClockAt(cfg, w, p) == ClockAt(cfg, v, p)
  {
    hide Low, Bits;
    SameFromFour(w, v);
  }

  lemma SameFromFour(w: seq<byte>, v: seq<byte>)
    requires |w| == |v| >= 4 && w[4..] == v[4..]
    ensures forall i: int {:trigger At(w, i)} | i >= 4 :: At(w, i) == At(v, i)
  {
    forall i: int {:trigger At(w, i)} | i >= 4
      ensures At(w, i) == At(v, i)
    {
      if i < |w| {
        assert w[4..][i - 4] == v[4..][i - 4];
      }
    }
  }

  lemma MapStep(st: State, cfg: Config, w: seq<byte>, counter: byte)
    requires |cfg.streams| <= MAX_STREAMS && cfg.pmtPid != 0
    requires DecodeTs(w, 0) == DEFAULT_TS_HEADER.(unitStart := 1, pid := cfg.pmtPid, adaptation := PAYLOAD_ONLY,
                                                  counter := counter)
    requires DecodePmt([], w, 5) == PmtOf(cfg) && PmtEnd(w, 5) == ClockStart(cfg, false)
    requires st.pmtId == cfg.pmtPid && st.frames == map[] && st.pmt.infos == []
    requires cfg.pmtPid !in AfterMap(st, cfg).frames
    ensures Step(st, w, 0) == Outcome(AfterMap(st, cfg), ClockAt(cfg, w, ClockStart(cfg, false)))
    ensures Fills(st, w) && (Reach(st, w) <= PACKET_SIZE <==> MapFits(cfg))
  {
    hide DecodeTs, DecodePmt, PmtEnd, PmtOf, AfterMap, Step, Reach, Fills, ClockAt, LearnPmt, AfterPmt, PmtReach,
      DecodeAdaptation, DecodePcr, AdaptationSize, MapFits, ClockStart;
    var p := ClockStart(cfg, false);
    MapLearned(st, cfg, w, counter);
    AfterMapIds(st, cfg);
    OffStreamStep(st, w, AfterMap(st, cfg));
    SizeOfAny(w, p);
    ClockAtIs(cfg, w, p);
    RoomForClock(cfg, p, AdaptationSize(DecodeAdaptation(w, p)));
  }

  lemma RoomForClock(cfg: Config, p: nat, size: nat)
    requires |cfg.streams| <= MAX_STREAMS && p == ClockStart(cfg, false) && 1 <= size <= 2
    ensures p <= PACKET_SIZE && (p + size + 6 <= PACKET_SIZE <==> |cfg.streams| < MAX_STREAMS)
    ensures MapFits(cfg) <==> |cfg.streams| < MAX_STREAMS || cfg.pcrPid != cfg.pmtPid
  {
  }

  // A packet of a PID without a stream, st' being what the demuxer has learned from it.
  lemma OffStreamStep(st: State, w: seq<byte>, st': State)
    requires var h := DecodeTs(w, 0);
             st.pmtId != 0 && LearnPmt(st, h, w) == st' && h.pid !in st'.frames
               && AfterPmt(st, h, w) == PmtReach(st, h, w)
    ensures var h := DecodeTs(w, 0);
            var p := AfterPmt(st, h, w);
            var q := p + AdaptationSize(DecodeAdaptation(w, p));
            var clock := st'.pcrId != 0 && st'.pcrId == h.pid;
            Step(st, w, 0) == Outcome(st', if clock then [Clock(DecodePcr(w, q))] else [])
            && Reach(st, w) == (if clock then q + 6 else p) && Fills(st, w)
  {
    hide DecodeTs, LearnPmt, AfterPmt, PmtReach, EsStep, EsReach, EsFills, LearnPat, PatReach, DecodeAdaptation,
      DecodePcr;
  }

  lemma ClockAtIs(cfg: Config, w: seq<byte>, p: nat)
    ensures ClockAt(cfg, w, p)
         == if cfg.pcrPid != cfg.pmtPid then []
            else [Clock(DecodePcr(w, p + AdaptationSize(DecodeAdaptation(w, p))))]
  {
  }

  lemma MapLearned(st: State, cfg: Config, w: seq<byte>, counter: byte)
    requires |cfg.streams| <= MAX_STREAMS && cfg.pmtPid != 0
    requires DecodeTs(w, 0) == DEFAULT_TS_HEADER.(unitStart := 1, pid := cfg.pmtPid, adaptation := PAYLOAD_ONLY,
                                                  counter := counter)
    requires DecodePmt([], w, 5) == PmtOf(cfg) && PmtEnd(w, 5) == ClockStart(cfg, false)
    requires st.pmtId == cfg.pmtPid && st.frames == map[] && st.pmt.infos == []
    ensures var h := DecodeTs(w, 0);
            LearnPmt(st, h, w) == AfterMap(st, cfg)
            && AfterPmt(st, h, w) == PmtReach(st, h, w) == ClockStart(cfg, false)
  {
    hide DecodeTs, DecodePmt, PmtEnd, PmtOf, AddFrames, AddPids, DecodeAdaptation, DecodePcr;
    assert SkippedTo(DecodeTs(w, 0), w) == 4;
  }

  lemma SizeOfAny(w: seq<byte>, p: nat)
    ensures 1 <= AdaptationSize(DecodeAdaptation(w, p)) <= 2
  {
    hide DecodeAdaptation;
  }

  lemma AfterMapIds(st: State, cfg: Config)
    requires |cfg.streams| <= MAX_STREAMS
    ensures AfterMap(st, cfg).pcrId == cfg.pcrPid
  {
    hide AddFrames, AddPids, PmtOf;
  }

  /**
   The first map packet: the demuxer learns all of it; it stays within the packet if and only if
   there are at most 32 streams or the clock has a PID of its own; and it reports nothing if and
   only if the clock has a PID of its own.
   */
  lemma FirstMapExactly(st: State, cfg: Config, counter: byte)
    requires 0 < |cfg.streams| <= MAX_STREAMS && 0 < cfg.pmtPid < 0x2000 && cfg.pcrPid < 0x2000 && counter < 16
    requires StreamsOk(cfg)
    requires st.pmtId == cfg.pmtPid && st.frames == map[] && st.pmt.infos == []
    ensures var w := PmtPacket(cfg, counter);
            Step(st, w, 0) == Outcome(AfterMap(st, cfg), MapClock(cfg, false))
            && Fills(st, w) && (Reach(st, w) <= PACKET_SIZE <==> MapFits(cfg))
    ensures MapClock(cfg, false) == [] <==> cfg.pcrPid != cfg.pmtPid
  {
    hide SectionPacket, DecodeTs, DecodePmt, PmtEnd, PmtOf, AfterMap, EncodePmt, Step, Reach, Fills, Knows, DecodePcr,
      DecodeAdaptation;
    SectionHeader(cfg.pmtPid, counter, EncodePmt(PmtOf(cfg)));
    PmtPacketRoundTrip(cfg, counter);
    AfterMapKnows(st, cfg);
    OtherPids(cfg, AfterMap(st, cfg));
    MapStep(st, cfg, PmtPacket(cfg, counter), counter);
    AnyCounter(cfg, counter, ClockStart(cfg, false));
  }

  lemma LearnFromPmt(st: State, cfg: Config, counter: byte)
    requires ValidConfig(cfg) && counter < 16
    requires st.pmtId == cfg.pmtPid && st.frames == map[] && st.pmt.infos == []
    ensures Yields(st, PmtPacket(cfg, counter), AfterMap(st, cfg), MapClock(cfg, false))
  {
    hide PmtPacket, Yields, AfterMap, Step, Reach, Fills, MapClock;
    FirstMapExactly(st, cfg, counter);
    YieldsOne(st, PmtPacket(cfg, counter), AfterMap(st, cfg), MapClock(cfg, false));
  }

  /** With 33 streams and the clock on the PID of the map, a call that ends with the tables aborts. */
  lemma TablesAbort(cfg: Config, counter: byte, c: seq<byte>)
    requires |cfg.streams| == MAX_STREAMS && 0 < cfg.pmtPid < 0x2000 && cfg.pcrPid == cfg.pmtPid && counter < 16
    requires StreamsOk(cfg)
    ensures Feed(INITIAL, [], [PatPacket(cfg.pmtPid, counter) + PmtPacket(cfg, counter), c]) == Aborted
  {
    hide PatPacket, PmtPacket, Step, Reach, Fills, Yields, Feed, MapClock, AfterMap;
    var pat, pmt := PatPacket(cfg.pmtPid, counter), PmtPacket(cfg, counter);
    var st := AfterPat(INITIAL, cfg.pmtPid);
    LearnFromPat(INITIAL, cfg.pmtPid, counter);
    YieldsSafe(INITIAL, pat, st, []);
    FirstMapExactly(st, cfg, counter);
    assert (pat + pmt)[0..] == pat + pmt;
    CutAfterOverrun(INITIAL, [], pat, pmt, c);
  }

  lemma YieldsSafe(st: State, s: seq<byte>, st': State, events: seq<Event>)
    requires Yields(st, s, st', events)
    ensures SafeRun(st, s) && Run(st, s).state == st'
  {
    hide Step, Reach, Fills;
  }

  // ---------- Both tables ----------

  /** A demuxer that knows nothing learns the whole configuration from the two packets. */
  lemma LearnTables(st: State, cfg: Config, counter: byte)
    requires ValidConfig(cfg) && counter < 16
    requires st.pmtId == 0 && st.frames == map[] && st.pmt.infos == []
    ensures var st' := AfterMap(AfterPat(st, cfg.pmtPid), cfg);
            Yields(st, PatPacket(cfg.pmtPid, counter) + PmtPacket(cfg, counter), st', MapClock(cfg, false))
            && Knows(cfg, st') && forall t | t in cfg.streams :: st'.frames[cfg.streams[t]].data == []
  {
    hide Yields, PatPacket, PmtPacket, AfterMap, MapClock;
    var st1, events := AfterPat(st, cfg.pmtPid), MapClock(cfg, false);
    LearnFromPat(st, cfg.pmtPid, counter);
    LearnFromPmt(st1, cfg, counter);
    AfterMapKnows(st1, cfg);
    YieldsThen(st, PatPacket(cfg.pmtPid, counter), st1, [], PmtPacket(cfg, counter), AfterMap(st1, cfg), events);
    assert [] + events == events;
  }

  lemma IgnoredStep(st: State, w: seq<byte>, h: TsHeader)
    requires st.pmtId != 0 && st.frames != map[] && DecodeTs(w, 0) == h
    requires h.pid !in st.frames && (st.pcrId == 0 || st.pcrId != h.pid)
    ensures Tame(st, w) && Step(st, w, 0) == Outcome(st, [])
  {
    hide DecodeTs;
  }

  /** Once known, the tables change nothing. */
  lemma IgnoreTables(st: State, cfg: Config, counter: byte)
    requires ValidConfig(cfg) && counter < 16 && Knows(cfg, st)
    ensures Yields(st, PatPacket(cfg.pmtPid, counter) + PmtPacket(cfg, counter), st, MapClock(cfg, true))
  {
    hide Yields, SectionPacket, Tame, Step, DecodeTs, PatSection, EncodePmt, PmtOf, MapClock;
    OtherPids(cfg, st);
    var pat, pmt := PatPacket(cfg.pmtPid, counter), PmtPacket(cfg, counter);
    SectionHeader(PAT_PID, counter, PatSection(cfg.pmtPid));
    IgnoredStep(st, pat, DecodeTs(pat, 0));
    YieldsOne(st, pat, st, []);
    var events := MapClock(cfg, true);
    RepeatedMapExactly(st, cfg, counter);
    YieldsOne(st, pmt, st, events);
    YieldsThen(st, pat, st, [], pmt, st, events);
    assert [] + events == events;
  }

  /**
   A repeated map packet changes nothing, keeps to itself, and reports nothing if and only if the
   clock has a PID of its own: otherwise the section's bytes are taken for a clock.
   */
  lemma RepeatedMapExactly(st: State, cfg: Config, counter: byte)
    requires |cfg.streams| <= MAX_STREAMS && 0 < cfg.pmtPid < 0x2000 && counter < 16
    requires Knows(cfg, st) && cfg.pmtPid !in st.frames
    ensures var w := PmtPacket(cfg, counter); Tame(st, w) && Step(st, w, 0) == Outcome(st, MapClock(cfg, true))
    ensures MapClock(cfg, true) == [] <==> cfg.pcrPid != cfg.pmtPid
  {
    hide SectionPacket, DecodeTs, EncodePmt, PmtOf, DecodePcr, DecodeAdaptation, Knows;
    SectionHeader(cfg.pmtPid, counter, EncodePmt(PmtOf(cfg)));
    KnowsIds(cfg, st);
    AnyCounter(cfg, counter, 4);
  }

  lemma KnowsIds(cfg: Config, st: State)
    requires Knows(cfg, st)
    ensures st.pmtId == cfg.pmtPid && st.pcrId == cfg.pcrPid && st.frames != map[]
  {
  }

  // ---------- Clock packets ----------

  function ClockEvents(cfg: Config, pcr: u64): seq<Event> {
    if cfg.pcrPid == 0 then [] else [Clock(pcr % 0x2_0000_0000)]
  }

  lemma ClockPacketRead(cfg: Config, pcr: u64)
    requires cfg.pcrPid < 0x2000
    ensures var w := ClockPacket(cfg, pcr);
            DecodeTs(w, 0) == DEFAULT_TS_HEADER.(pid := cfg.pcrPid, adaptation := ADAPTATION_ONLY)
            && DecodeAdaptation(w, 4) == CLOCK_FIELD && DecodePcr(w, 6) == pcr % 0x2_0000_0000
  {
    hide EncodeTs, DecodeTs, EncodeAdaptation, DecodeAdaptation, EncodePcr, DecodePcr;
    var w := ClockPacket(cfg, pcr);
    var h := DEFAULT_TS_HEADER.(pid := cfg.pcrPid, adaptation := ADAPTATION_ONLY);
    assert w[0..0 + 4] == EncodeTs(h) && w[4..6] == EncodeAdaptation(CLOCK_FIELD) && w[6..12] == EncodePcr(pcr);
    TsRoundTrip(h, w, 0);
    AdaptationRoundTrip(CLOCK_FIELD, w, 4);
    PcrRoundTrip(pcr, w, 6);
  }

  /** A clock packet is reported and changes nothing, whether or not its PID carries a stream. */
  lemma ClockRun(st: State, cfg: Config, pcr: u64)
    requires ValidConfig(cfg) && Knows(cfg, st)
    ensures Yields(st, ClockPacket(cfg, pcr), st, ClockEvents(cfg, pcr))
  {
    hide DecodeTs, DecodeAdaptation, DecodePcr, ClockPacket, Yields;
    var w := ClockPacket(cfg, pcr);
    ClockPacketRead(cfg, pcr);
    OtherPids(cfg, st);
    if cfg.pcrPid in st.frames {
      var es := st.frames[cfg.pcrPid];
      assert st.frames[cfg.pcrPid := es] == st.frames;
    }
    YieldsOne(st, w, st, ClockEvents(cfg, pcr));
  }
}
