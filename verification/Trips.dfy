/**
 Whole runs of the muxer through the demuxer: every run of calls is delivered as a simple
 reference machine says, whatever the sizes of the frames, however the bytes are cut, and
 from whatever packet the demuxer joins.
 */
module Trips {
  import opened Bytes
  import opened TsFields
  import opened MuxSpec
  import opened DemuxSpec
  import opened Chunking
  import opened FrameTrip
  import opened TableTrip

  // ---------- Runs of the muxer ----------

  // A call of encode with a frame whose cursor is at its start, or of createPcr.
  datatype Op = Encode(meta: Meta, data: seq<byte>, randomAccess: bool) | Tick(pcr: u64)

  predicate ValidOp(cfg: Config, op: Op) {
    op.Encode? ==> op.meta.streamType in cfg.streams && op.meta.pid == cfg.streams[op.meta.streamType]
  }

  predicate ValidRun(cfg: Config, ops: seq<Op>) {
    forall op | op in ops :: ValidOp(cfg, op)
  }

  predicate CanSend(cfg: Config, mux: MuxState, op: Op) {
    op.Encode? ==> CanEncode(cfg, mux, op.randomAccess)
  }

  function OpBytes(cfg: Config, mux: MuxState, op: Op): (s: seq<byte>)
    requires CanSend(cfg, mux, op)
    ensures |s| % PACKET_SIZE == 0
  {
    match op
    case Encode(m, data, ra) => EncodeBytes(cfg, mux, m, |data|, data, ra)
    case Tick(pcr) => ClockPacket(cfg, pcr)
  }

  function OpState(cfg: Config, mux: MuxState, op: Op): MuxState {
    match op
    case Encode(m, data, ra) => EncodeState(cfg, mux, m, |data|, data, ra)
    case Tick(_) => mux
  }

  predicate OpTables(cfg: Config, mux: MuxState, op: Op) {
    op.Encode? && WantsTables(cfg, mux, op.randomAccess)
  }

  // No call of the run throws.
  predicate CanSendAll(cfg: Config, mux: MuxState, ops: seq<Op>) {
    |cfg.streams| <= MAX_STREAMS || NeverTables(cfg, mux, ops)
  }

  predicate NeverTables(cfg: Config, mux: MuxState, ops: seq<Op>)
    decreases |ops|
  {
    ops != [] ==> !OpTables(cfg, mux, ops[0]) && NeverTables(cfg, OpState(cfg, mux, ops[0]), ops[1..])
  }

  function MuxBytes(cfg: Config, mux: MuxState, ops: seq<Op>): (s: seq<byte>)
    requires CanSendAll(cfg, mux, ops)
    ensures |s| % PACKET_SIZE == 0
    decreases |ops|
  {
    hide OpBytes, OpState;
    if ops == [] then [] else
      var first, more := OpBytes(cfg, mux, ops[0]), MuxBytes(cfg, OpState(cfg, mux, ops[0]), ops[1..]);
      WholeBytes(first, more);
      first + more
  }

  lemma WholeBytes(a: seq<byte>, b: seq<byte>)
    requires |a| % PACKET_SIZE == 0 && |b| % PACKET_SIZE == 0
    ensures |a + b| % PACKET_SIZE == 0
  {
    WholePackets(|a|, |b|);
  }

  function MuxAfter(cfg: Config, mux: MuxState, ops: seq<Op>): MuxState
    decreases |ops|
  {
    if ops == [] then mux else MuxAfter(cfg, OpState(cfg, mux, ops[0]), ops[1..])
  }

  // ---------- The reference machine ----------

  // A frame of undeclared length that has arrived but not been delivered.
  datatype Waiting = Waiting(meta: Meta, data: seq<byte>)

  predicate Fits(m: Meta, data: seq<byte>) { StampBytes(m) + |data| + 3 <= 0xFFFF }

  function Whole(m: Meta, data: seq<byte>): Es
    requires Fits(m, data)
  {
    Es(m.streamType, data, Stamp32(m.pts), Stamp32(m.dts), Low(m.randomAccess, 2), m.streamId, m.pid,
       StampBytes(m) + |data| + 3, |data|, true, false)
  }

  // The one field that is not the frame's own is the random access bit: its successor's.
  function Broken(w: Waiting, successor: Meta): Es {
    Es(w.meta.streamType, w.data, Stamp32(w.meta.pts), Stamp32(w.meta.dts), Low(successor.randomAccess, 2),
       w.meta.streamId, w.meta.pid, 0, 0, false, true)
  }

  function Deliveries(cfg: Config, waiting: map<u16, Waiting>, op: Op): seq<Event> {
    match op
    case Tick(pcr) => ClockEvents(cfg, pcr)
    case Encode(m, data, _) =>
      if data == [] then [] else
        ClockOf(cfg, m)
        + (if m.pid in waiting then [Frame(Broken(waiting[m.pid], m))] else [])
        + (if Fits(m, data) then [Frame(Whole(m, data))] else [])
  }

  function Waits(waiting: map<u16, Waiting>, op: Op): map<u16, Waiting> {
    match op
    case Tick(_) => waiting
    case Encode(m, data, _) =>
      if data == [] then waiting
      else if Fits(m, data) then waiting - {m.pid}
      else waiting[m.pid := Waiting(m, data)]
  }

  // What is taken for a clock in the map packet of a call, if it has one. The demuxer knows the
  // map already, or is about to learn it.
  function MapReports(cfg: Config, mux: MuxState, known: bool, op: Op): seq<Event>
    requires |cfg.streams| <= MAX_STREAMS
  {
    if OpTables(cfg, mux, op) then MapClock(cfg, known) else []
  }

  function Reports(cfg: Config, mux: MuxState, known: bool, waiting: map<u16, Waiting>, op: Op): seq<Event>
    requires |cfg.streams| <= MAX_STREAMS
  {
    MapReports(cfg, mux, known, op) + Deliveries(cfg, waiting, op)
  }

  function Expected(cfg: Config, mux: MuxState, known: bool, waiting: map<u16, Waiting>, ops: seq<Op>): seq<Event>
    requires |cfg.streams| <= MAX_STREAMS
    decreases |ops|
  {
    if ops == [] then [] else
      Reports(cfg, mux, known, waiting, ops[0])
      + Expected(cfg, OpState(cfg, mux, ops[0]), true, Waits(waiting, ops[0]), ops[1..])
  }

  // ---------- The demuxer follows the reference machine ----------

  predicate Matches(cfg: Config, waiting: map<u16, Waiting>, st: State) {
    Knows(cfg, st)
    && forall t | t in cfg.streams :: MatchesOn(cfg.streams[t], t, waiting, st)
  }

  predicate MatchesOn(pid: u16, t: byte, waiting: map<u16, Waiting>, st: State) {
    pid in st.frames
    && if pid in waiting then
         var w := waiting[pid];
         w.data != [] && !Fits(w.meta, w.data) && w.meta.pid == pid && w.meta.streamType == t
         && st.frames[pid] == Holding(t, w.meta, |w.data|, w.data)
       else st.frames[pid].data == []
  }

  lemma NextInRange(counters: map<nat, byte>, key: nat)
    ensures NextCounter(counters, key) < 16
  {
  }

  // What a frame that fits, and one that does not, leave in the object of their PID.
  lemma ReceivedWhole(t: byte, m: Meta, data: seq<byte>)
    requires Fits(m, data)
    ensures var r := Received(t, m, |data|, data);
            r.es.data == [] && Ready(r.es, t)
            && (t == m.streamType ==> r.events == [Frame(Whole(m, data))])
  {
    hide Low, Stamp32;
  }

  lemma ReceivedPart(t: byte, m: Meta, data: seq<byte>)
    requires !Fits(m, data) && data != []
    ensures var r := Received(t, m, |data|, data);
            r.es == Holding(t, m, |data|, data) && Ready(r.es, t) && r.events == []
  {
    hide Low, Stamp32;
  }

  lemma PushedOutIsBroken(t: byte, w: Waiting, m: Meta)
    requires !Fits(w.meta, w.data) && w.data != [] && w.meta.pid == m.pid && w.meta.streamType == t
    ensures PushedOut(Holding(t, w.meta, |w.data|, w.data), m) == [Frame(Broken(w, m))]
  {
    hide Low, Stamp32;
  }

  lemma KnowsWith(cfg: Config, st: State, t: byte, es: Es)
    requires ValidConfig(cfg) && Knows(cfg, st) && t in cfg.streams && Ready(es, t)
    ensures Knows(cfg, With(st, cfg.streams[t], es))
  {
    hide Ready;
    assert cfg.streams[t] in With(st, cfg.streams[t], es).frames;
  }

  // Changing the object of one stream keeps the others as they were.
  lemma MatchesWith(cfg: Config, waiting: map<u16, Waiting>, waiting': map<u16, Waiting>, st: State, t: byte, es: Es)
    requires ValidConfig(cfg) && Matches(cfg, waiting, st) && t in cfg.streams && Ready(es, t)
    requires forall pid | pid != cfg.streams[t] :: (pid in waiting <==> pid in waiting')
                                                   && (pid in waiting ==> waiting[pid] == waiting'[pid])
    requires MatchesOn(cfg.streams[t], t, waiting', With(st, cfg.streams[t], es))
    ensures Matches(cfg, waiting', With(st, cfg.streams[t], es))
  {
    hide Ready, Holding, Fits, Knows, MapFits, PidsOk;
    var st' := With(st, cfg.streams[t], es);
    KnowsWith(cfg, st, t, es);
    forall u | u in cfg.streams
      ensures MatchesOn(cfg.streams[u], u, waiting', st')
    {
      assert MatchesOn(cfg.streams[u], u, waiting, st);
    }
  }

  lemma FrameFollows(cfg: Config, waiting: map<u16, Waiting>, st: State, m: Meta, data: seq<byte>, counter: byte)
    returns (st': State)
    requires ValidConfig(cfg) && Matches(cfg, waiting, st) && counter < 16
    requires m.streamType in cfg.streams && m.pid == cfg.streams[m.streamType]
    ensures Matches(cfg, Waits(waiting, Encode(m, data, false)), st')
    ensures Yields(st, FramePackets(cfg, m, |data|, data, counter), st',
                   Deliveries(cfg, waiting, Encode(m, data, false)))
  {
    hide Yields, FramePackets, Received, PushedOut, Holding, Ready, ClockOf, Whole, Broken, Fits;
    if data == [] {
      st' := st;
      EmptyFrame(cfg, m, counter);
      YieldsNothing(st);
    } else {
      var t := m.streamType;
      var r := Received(t, m, |data|, data);
      assert MatchesOn(m.pid, t, waiting, st);
      FrameRun(st, cfg, t, m, data, counter);
      st' := With(st, m.pid, r.es);
      if m.pid in waiting {
        PushedOutIsBroken(t, waiting[m.pid], m);
      } else {
        NothingPushedOut(st.frames[m.pid], m);
      }
      if Fits(m, data) {
        ReceivedWhole(t, m, data);
      } else {
        ReceivedPart(t, m, data);
      }
      MatchesWith(cfg, waiting, Waits(waiting, Encode(m, data, false)), st, t, r.es);
    }
  }

  lemma NothingPushedOut(es: Es, m: Meta)
    requires es.data == []
    ensures PushedOut(es, m) == []
  {
  }

  lemma EmptyFrame(cfg: Config, m: Meta, counter: byte)
    ensures FramePackets(cfg, m, 0, [], counter) == []
  {
  }

  lemma OpFollows(cfg: Config, mux: MuxState, waiting: map<u16, Waiting>, st: State, op: Op) returns (st': State)
    requires ValidConfig(cfg) && Matches(cfg, waiting, st) && ValidOp(cfg, op)
    ensures Matches(cfg, Waits(waiting, op), st')
    ensures Yields(st, OpBytes(cfg, mux, op), st', Reports(cfg, mux, true, waiting, op))
  {
    hide Yields, Matches, PatPacket, PmtPacket, FramePackets, ClockPacket, ClockOf, Whole, Broken, Fits, MapClock;
    match op {
      case Tick(pcr) =>
        MatchesKnows(cfg, waiting, st);
        ClockRun(st, cfg, pcr);
        st' := st;
        assert [] + ClockEvents(cfg, pcr) == ClockEvents(cfg, pcr);
      case Encode(m, data, ra) =>
        var counter := NextCounter(AfterTables(cfg, mux, ra), m.streamType);
        NextInRange(AfterTables(cfg, mux, ra), m.streamType);
        TablesIgnored(cfg, mux, waiting, st, ra);
        st' := FrameFollows(cfg, waiting, st, m, data, counter);
        YieldsThen(st, TablePackets(cfg, mux, ra), st, MapReports(cfg, mux, true, op),
                   FramePackets(cfg, m, |data|, data, counter), st', Deliveries(cfg, waiting, op));
    }
  }

  lemma MatchesKnows(cfg: Config, waiting: map<u16, Waiting>, st: State)
    requires Matches(cfg, waiting, st)
    ensures Knows(cfg, st)
  {
  }

  lemma TablesIgnored(cfg: Config, mux: MuxState, waiting: map<u16, Waiting>, st: State, ra: bool)
    requires ValidConfig(cfg) && Matches(cfg, waiting, st)
    ensures Yields(st, TablePackets(cfg, mux, ra), st, if WantsTables(cfg, mux, ra) then MapClock(cfg, true) else [])
  {
    hide Yields, PatPacket, PmtPacket, Knows, MapClock;
    if WantsTables(cfg, mux, ra) {
      NextInRange(mux.counters, 0);
      IgnoreTables(st, cfg, NextCounter(mux.counters, 0));
    } else {
      YieldsNothing(st);
    }
  }

  /** Every run of the muxer takes a demuxer that knows the tables through the reference machine. */
  lemma {:induction false} RunFollows(cfg: Config, mux: MuxState, waiting: map<u16, Waiting>, st: State, ops: seq<Op>)
    returns (st': State)
    requires ValidConfig(cfg) && Matches(cfg, waiting, st) && ValidRun(cfg, ops)
    ensures Yields(st, MuxBytes(cfg, mux, ops), st', Expected(cfg, mux, true, waiting, ops))
    decreases |ops|
  {
    hide Yields, Matches, OpBytes, Reports, Waits, OpState;
    if ops == [] {
      st' := st;
      YieldsNothing(st);
    } else {
      assert ops[0] in ops;
      var next := OpFollows(cfg, mux, waiting, st, ops[0]);
      var waiting' := Waits(waiting, ops[0]);
      st' := RunFollows(cfg, OpState(cfg, mux, ops[0]), waiting', next, ops[1..]);
      var mux' := OpState(cfg, mux, ops[0]);
      YieldsThen(st, OpBytes(cfg, mux, ops[0]), next, Reports(cfg, mux, true, waiting, ops[0]),
                 MuxBytes(cfg, mux', ops[1..]), st', Expected(cfg, mux', true, waiting', ops[1..]));
    }
  }

  // ---------- Joining at the tables ----------

  lemma TablesJoin(cfg: Config, mux: MuxState, ra: bool) returns (st: State)
    requires ValidConfig(cfg) && WantsTables(cfg, mux, ra)
    ensures Matches(cfg, map[], st) && Yields(INITIAL, TablePackets(cfg, mux, ra), st, MapClock(cfg, false))
  {
    hide Yields, PatPacket, PmtPacket, Knows, AfterMap, MapClock;
    NextInRange(mux.counters, 0);
    LearnTables(INITIAL, cfg, NextCounter(mux.counters, 0));
    st := AfterMap(AfterPat(INITIAL, cfg.pmtPid), cfg);
    NothingWaits(cfg, st);
  }

  lemma NothingWaits(cfg: Config, st: State)
    requires Knows(cfg, st) && forall t | t in cfg.streams :: st.frames[cfg.streams[t]].data == []
    ensures Matches(cfg, map[], st)
  {
  }

  /** A fresh demuxer that meets a run at a call with tables delivers the run from that call on. */
  lemma JoinAtTables(cfg: Config, mux: MuxState, ops: seq<Op>) returns (st': State)
    requires ValidConfig(cfg) && ValidRun(cfg, ops) && ops != [] && OpTables(cfg, mux, ops[0])
    ensures Yields(INITIAL, MuxBytes(cfg, mux, ops), st', Expected(cfg, mux, false, map[], ops))
  {
    hide Yields, Matches, FramePackets, TablePackets, Deliveries, Waits, OpState, MapClock;
    var op := ops[0];
    assert op in ops;
    var m, data, ra := op.meta, op.data, op.randomAccess;
    var st := TablesJoin(cfg, mux, ra);
    var counter := NextCounter(AfterTables(cfg, mux, ra), m.streamType);
    NextInRange(AfterTables(cfg, mux, ra), m.streamType);
    var next := FrameFollows(cfg, map[], st, m, data, counter);
    SameOp(cfg, map[], m, data, ra);
    var events := Reports(cfg, mux, false, map[], op);
    YieldsThen(INITIAL, TablePackets(cfg, mux, ra), st, MapClock(cfg, false),
               FramePackets(cfg, m, |data|, data, counter),
               next, Deliveries(cfg, map[], op));
    var mux', waiting' := OpState(cfg, mux, op), Waits(map[], op);
    st' := RunFollows(cfg, mux', waiting', next, ops[1..]);
    YieldsThen(INITIAL, OpBytes(cfg, mux, op), next, events, MuxBytes(cfg, mux', ops[1..]), st',
               Expected(cfg, mux', true, waiting', ops[1..]));
  }

  // What is delivered does not depend on whether tables go in front.
  lemma SameOp(cfg: Config, waiting: map<u16, Waiting>, m: Meta, data: seq<byte>, ra: bool)
    ensures Deliveries(cfg, waiting, Encode(m, data, ra)) == Deliveries(cfg, waiting, Encode(m, data, false))
    ensures Waits(waiting, Encode(m, data, ra)) == Waits(waiting, Encode(m, data, false))
  {
  }

  // ---------- Joining anywhere else ----------

  // A packet that tells a fresh demuxer nothing.
  predicate Mute(p: seq<byte>) {
    var h := DecodeTs(p, 0);
    h.pid != 0 || !HasPayload(h.adaptation)
  }

  predicate AllMute(s: seq<byte>)
    decreases |s|
  {
    |s| >= PACKET_SIZE ==> Mute(s[..PACKET_SIZE]) && AllMute(s[PACKET_SIZE..])
  }

  lemma MuteStep(p: seq<byte>)
    requires |p| == PACKET_SIZE && Mute(p)
    ensures Tame(INITIAL, p) && Step(INITIAL, p, 0) == Outcome(INITIAL, [])
  {
    hide DecodeTs, DecodeAdaptation;
  }

  lemma {:induction false} MuteRun(s: seq<byte>)
    requires |s| % PACKET_SIZE == 0 && AllMute(s)
    ensures Yields(INITIAL, s, INITIAL, [])
    decreases |s|
  {
    hide Yields, Mute, Tame, Step;
    if |s| < PACKET_SIZE {
      assert s == [];
      YieldsNothing(INITIAL);
    } else {
      var p, more := s[..PACKET_SIZE], s[PACKET_SIZE..];
      MuteStep(p);
      YieldsOne(INITIAL, p, INITIAL, []);
      MuteRun(more);
      YieldsThen(INITIAL, p, INITIAL, [], more, INITIAL, []);
      var none: seq<Event> := [];
      assert p + more == s && none + none == none;
    }
  }

  lemma {:induction false} MuteConcat(a: seq<byte>, b: seq<byte>)
    requires |a| % PACKET_SIZE == 0 && AllMute(a) && AllMute(b)
    ensures AllMute(a + b)
    decreases |a|
  {
    hide Mute;
    if |a| < PACKET_SIZE {
      assert a + b == b;
    } else {
      assert (a + b)[..PACKET_SIZE] == a[..PACKET_SIZE] && (a + b)[PACKET_SIZE..] == a[PACKET_SIZE..] + b;
      MuteConcat(a[PACKET_SIZE..], b);
    }
  }

  lemma {:induction false} MuteDrop(s: seq<byte>, k: nat)
    requires AllMute(s) && PACKET_SIZE * k <= |s|
    ensures AllMute(s[PACKET_SIZE * k..])
    decreases k
  {
    hide Mute;
    if k == 0 {
      assert s[0..] == s;
    } else {
      MuteDrop(s[PACKET_SIZE..], k - 1);
      assert s[PACKET_SIZE..][PACKET_SIZE * (k - 1)..] == s[PACKET_SIZE * k..];
    }
  }

  lemma MuteOne(p: seq<byte>)
    requires |p| == PACKET_SIZE && Mute(p)
    ensures AllMute(p)
  {
    hide Mute;
    assert p[..PACKET_SIZE] == p;
  }

  lemma {:induction false} PesMute(pid: u16, unitStart: byte, field: seq<byte>, head: seq<byte>, body: seq<byte>,
                                   counter: byte)
    requires Fieldlike(field, head) && 0 < pid < 0x2000 && unitStart < 2 && counter < 16
    ensures AllMute(PesPackets(pid, unitStart, field, head, body, counter))
    decreases |body|
  {
    hide Packet, Stuffed, AllMute, DecodeTs;
    if body == [] {
      assert AllMute([]) by { NothingMute(); }
    } else {
      var n := Taken(field, head, body);
      var w := OnePacket(pid, unitStart, field, head, body, counter);
      PacketHeader(unitStart, pid, counter, Stuffed(field, Room(field, head) - n), head + body[..n]);
      MuteOne(w);
      PesMute(pid, 0, [], [], body[n..], Succ(counter));
      MuteConcat(w, PesPackets(pid, 0, [], [], body[n..], Succ(counter)));
    }
  }

  lemma NothingMute()
    ensures AllMute([])
  {
  }

  lemma TickMute(cfg: Config, pcr: u64)
    requires ValidConfig(cfg)
    ensures AllMute(ClockPacket(cfg, pcr))
  {
    hide ClockPacket, DecodeTs;
    ClockPacketRead(cfg, pcr);
    MuteOne(ClockPacket(cfg, pcr));
  }

  lemma FrameMute(cfg: Config, m: Meta, data: seq<byte>, counter: byte)
    requires 0 < m.pid < 0x2000 && counter < 16
    ensures AllMute(FramePackets(cfg, m, |data|, data, counter))
  {
    hide FirstField, PesHead, PesPackets, AllMute;
    FirstFieldlike(m, cfg.pcrPid, |data|);
    PesMute(m.pid, 1, FirstField(m, cfg.pcrPid), PesHead(m, |data|), data, counter);
  }

  lemma PmtMute(cfg: Config, counter: byte)
    requires ValidConfig(cfg) && counter < 16
    ensures AllMute(PmtPacket(cfg, counter))
  {
    hide SectionPacket, DecodeTs, EncodePmt, PmtOf, AllMute;
    SectionHeader(cfg.pmtPid, counter, EncodePmt(PmtOf(cfg)));
    MuteOne(PmtPacket(cfg, counter));
  }

  // All of a call but its association packet is mute.
  lemma OpMute(cfg: Config, mux: MuxState, op: Op)
    requires ValidConfig(cfg) && ValidOp(cfg, op)
    ensures !OpTables(cfg, mux, op) ==> AllMute(OpBytes(cfg, mux, op))
    ensures OpTables(cfg, mux, op) ==>
              |OpBytes(cfg, mux, op)| >= PACKET_SIZE && AllMute(OpBytes(cfg, mux, op)[PACKET_SIZE..])
  {
    hide FramePackets, PatPacket, PmtPacket, ClockPacket, AllMute;
    match op {
      case Tick(pcr) => TickMute(cfg, pcr);
      case Encode(m, data, ra) =>
        var counter := NextCounter(AfterTables(cfg, mux, ra), m.streamType);
        NextInRange(AfterTables(cfg, mux, ra), m.streamType);
        var frame := FramePackets(cfg, m, |data|, data, counter);
        FrameMute(cfg, m, data, counter);
        if WantsTables(cfg, mux, ra) {
          var c := NextCounter(mux.counters, 0);
          NextInRange(mux.counters, 0);
          var pat, pmt := PatPacket(cfg.pmtPid, c), PmtPacket(cfg, c);
          PmtMute(cfg, c);
          MuteConcat(pmt, frame);
          assert (pat + pmt + frame)[PACKET_SIZE..] == pmt + frame;
        } else {
          assert [] + frame == frame;
        }
    }
  }

  // No call of the run has tables that start at byte d or later.
  predicate NoTablesFrom(cfg: Config, mux: MuxState, ops: seq<Op>, d: int)
    requires |cfg.streams| <= MAX_STREAMS
    decreases |ops|
  {
    ops != [] ==>
      (OpTables(cfg, mux, ops[0]) ==> 0 < d)
      && NoTablesFrom(cfg, OpState(cfg, mux, ops[0]), ops[1..], d - |OpBytes(cfg, mux, ops[0])|)
  }

  lemma {:induction false} NoTablesLower(cfg: Config, mux: MuxState, ops: seq<Op>, d: int)
    requires |cfg.streams| <= MAX_STREAMS && NoTablesFrom(cfg, mux, ops, d) && d <= 0
    ensures NoTablesFrom(cfg, mux, ops, 0)
    decreases |ops|
  {
    hide OpBytes, OpState, OpTables;
    if ops != [] {
      var mux' := OpState(cfg, mux, ops[0]);
      NoTablesLower(cfg, mux', ops[1..], d - |OpBytes(cfg, mux, ops[0])|);
      NoTablesAny(cfg, mux', ops[1..], -|OpBytes(cfg, mux, ops[0])|);
    }
  }

  lemma {:induction false} NoTablesAny(cfg: Config, mux: MuxState, ops: seq<Op>, d: int)
    requires |cfg.streams| <= MAX_STREAMS && NoTablesFrom(cfg, mux, ops, 0) && d <= 0
    ensures NoTablesFrom(cfg, mux, ops, d)
    decreases |ops|
  {
    hide OpBytes, OpState, OpTables;
    if ops != [] {
      var mux', n := OpState(cfg, mux, ops[0]), |OpBytes(cfg, mux, ops[0])|;
      NoTablesLower(cfg, mux', ops[1..], -n);
      NoTablesAny(cfg, mux', ops[1..], d - n);
    }
  }

  // A run cut at a packet boundary, with no tables after the cut, is mute from there on.
  lemma {:induction false} CutMute(cfg: Config, mux: MuxState, ops: seq<Op>, d: nat)
    requires ValidConfig(cfg) && ValidRun(cfg, ops) && d % PACKET_SIZE == 0
    requires NoTablesFrom(cfg, mux, ops, d) && d <= |MuxBytes(cfg, mux, ops)|
    ensures AllMute(MuxBytes(cfg, mux, ops)[d..])
    decreases |ops|
  {
    hide OpBytes, OpState, AllMute, OpTables;
    if ops == [] {
      NothingMute();
    } else {
      assert ops[0] in ops;
      var first, mux' := OpBytes(cfg, mux, ops[0]), OpState(cfg, mux, ops[0]);
      var more := MuxBytes(cfg, mux', ops[1..]);
      if d >= |first| {
        WholeDifference(d, |first|);
        CutMute(cfg, mux', ops[1..], d - |first|);
        assert (first + more)[d..] == more[d - |first|..];
      } else {
        OpMute(cfg, mux, ops[0]);
        FirstCutMute(first, d, OpTables(cfg, mux, ops[0]));
        NoTablesLower(cfg, mux', ops[1..], d - |first|);
        CutMute(cfg, mux', ops[1..], 0);
        assert more[0..] == more;
        WholeDifference(|first|, d);
        MuteConcat(first[d..], more);
        assert (first + more)[d..] == first[d..] + more;
      }
    }
  }

  lemma FirstCutMute(first: seq<byte>, d: nat, tables: bool)
    requires d % PACKET_SIZE == 0 && d <= |first| && (tables ==> 0 < d)
    requires !tables ==> AllMute(first)
    requires tables ==> |first| >= PACKET_SIZE && AllMute(first[PACKET_SIZE..])
    ensures AllMute(first[d..])
  {
    hide AllMute;
    if tables {
      assert d >= PACKET_SIZE;
      MuteDrop(first[PACKET_SIZE..], d / PACKET_SIZE - 1);
      assert first[PACKET_SIZE..][d - PACKET_SIZE..] == first[d..];
    } else {
      MuteDrop(first, d / PACKET_SIZE);
    }
  }

  lemma WholeDifference(a: nat, b: nat)
    requires a % PACKET_SIZE == 0 && b % PACKET_SIZE == 0 && b <= a
    ensures (a - b) % PACKET_SIZE == 0
  {
    ModUnique(a - b, 188, a / 188 - b / 188, 0);
  }

  lemma {:induction false} MuxConcat(cfg: Config, mux: MuxState, a: seq<Op>, b: seq<Op>)
    requires |cfg.streams| <= MAX_STREAMS
    ensures MuxBytes(cfg, mux, a + b) == MuxBytes(cfg, mux, a) + MuxBytes(cfg, MuxAfter(cfg, mux, a), b)
    decreases |a|
  {
    hide OpBytes, OpState;
    if a == [] {
      assert a + b == b;
    } else {
      assert (a + b)[1..] == a[1..] + b;
      MuxConcat(cfg, OpState(cfg, mux, a[0]), a[1..], b);
    }
  }

  // ---------- Main results ----------

  function From(s: seq<byte>, boundary: nat): seq<byte> {
    if boundary <= |s| then s[boundary..] else []
  }

  lemma YieldsFeed(s: seq<byte>, st': State, events: seq<Event>, chunks: seq<seq<byte>>)
    requires Yields(INITIAL, s, st', events) && Concat(chunks) == s
    ensures Feed(INITIAL, [], chunks) == Returned(st', events, [])
  {
    assert [] + s == s;
    FeedIsRun(INITIAL, [], chunks);
  }

  /**
   Late join. A fresh demuxer is fed a muxed run from any packet boundary on, in chunks of
   any sizes. It delivers what the reference machine delivers for the run from the first
   call whose tables start at or after the boundary, and nothing of what lies before.
   */
  lemma LateJoin(cfg: Config, mux: MuxState, before: seq<Op>, after: seq<Op>, boundary: nat, chunks: seq<seq<byte>>)
    requires ValidConfig(cfg) && ValidRun(cfg, before + after)
    requires boundary % PACKET_SIZE == 0 && boundary <= |MuxBytes(cfg, mux, before)|
    requires NoTablesFrom(cfg, mux, before, boundary)
    requires after != [] && OpTables(cfg, MuxAfter(cfg, mux, before), after[0])
    requires Concat(chunks) == From(MuxBytes(cfg, mux, before + after), boundary)
    ensures var call := Feed(INITIAL, [], chunks);
            call.Returned? && call.events == Expected(cfg, MuxAfter(cfg, mux, before), false, map[], after)
  {
    hide Yields, OpTables, Expected, MuxBytes, MuxAfter, NoTablesFrom, ValidOp;
    var missed, mux' := MuxBytes(cfg, mux, before)[boundary..], MuxAfter(cfg, mux, before);
    ValidParts(cfg, before, after);
    CutMute(cfg, mux, before, boundary);
    WholeDifference(|MuxBytes(cfg, mux, before)|, boundary);
    MuteRun(missed);
    var st' := JoinAtTables(cfg, mux', after);
    var s, events := Concat(chunks), Expected(cfg, mux', false, map[], after);
    YieldsThen(INITIAL, missed, INITIAL, [], MuxBytes(cfg, mux', after), st', events);
    MuxConcat(cfg, mux, before, after);
    assert s == missed + MuxBytes(cfg, mux', after) && [] + events == events;
    YieldsFeed(s, st', events, chunks);
  }

  lemma ValidParts(cfg: Config, a: seq<Op>, b: seq<Op>)
    requires ValidRun(cfg, a + b)
    ensures ValidRun(cfg, a) && ValidRun(cfg, b)
  {
    assert forall op | op in a :: op in a + b;
    assert forall op | op in b :: op in a + b;
  }

  /** A fresh demuxer that joins after the last tables delivers nothing. */
  lemma JoinTooLate(cfg: Config, mux: MuxState, ops: seq<Op>, boundary: nat, chunks: seq<seq<byte>>)
    requires ValidConfig(cfg) && ValidRun(cfg, ops)
    requires boundary % PACKET_SIZE == 0 && boundary <= |MuxBytes(cfg, mux, ops)|
    requires NoTablesFrom(cfg, mux, ops, boundary)
    requires Concat(chunks) == From(MuxBytes(cfg, mux, ops), boundary)
    ensures Feed(INITIAL, [], chunks) == Returned(INITIAL, [], [])
  {
    hide Yields, MuxBytes, NoTablesFrom, ValidOp, AllMute, Feed, Concat;
    CutMute(cfg, mux, ops, boundary);
    WholeDifference(|MuxBytes(cfg, mux, ops)|, boundary);
    MuteRun(MuxBytes(cfg, mux, ops)[boundary..]);
    YieldsFeed(Concat(chunks), INITIAL, [], chunks);
  }
}
