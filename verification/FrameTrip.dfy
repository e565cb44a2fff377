/**
 One frame through the muxer and the demuxer: how each emitted packet is taken apart, and
 what the packets of a frame do to the demuxer's state.
 */
module FrameTrip {
  import opened Bytes
  import opened TsFields
  import opened MuxSpec
  import opened DemuxSpec
  import opened Chunking
  import opened Cuts

  // ---------- Taking a packet apart ----------

  lemma PacketHeader(unitStart: byte, pid: u16, counter: byte, field: seq<byte>, payload: seq<byte>)
    requires unitStart < 2 && pid < 0x2000 && counter < 16
    ensures DecodeTs(Packet(unitStart, pid, counter, field, payload), 0)
         == DEFAULT_TS_HEADER.(unitStart := unitStart, pid := pid, counter := counter,
                             adaptation := if field == [] then PAYLOAD_ONLY else ADAPTATION_AND_PAYLOAD)
  {
    hide EncodeTs, DecodeTs;
    var h := DEFAULT_TS_HEADER.(unitStart := unitStart, pid := pid, counter := counter,
                              adaptation := if field == [] then PAYLOAD_ONLY else ADAPTATION_AND_PAYLOAD);
    var w := Packet(unitStart, pid, counter, field, payload);
    assert w[0..0 + 4] == EncodeTs(h);
    TsRoundTrip(h, w, 0);
  }

  // Where a byte string lies in a window.
  predicate Holds(w: seq<byte>, p: nat, s: seq<byte>) {
    p + |s| <= |w| && w[p..p + |s|] == s
  }

  lemma HoldsParts(w: seq<byte>, p: nat, a: seq<byte>, b: seq<byte>)
    requires Holds(w, p, a + b)
    ensures Holds(w, p, a) && Holds(w, p + |a|, b)
  {
    var s := w[p..p + |a + b|];
    assert w[p..p + |a|] == s[..|a|] && w[p + |a|..p + |a| + |b|] == s[|a|..];
  }

  lemma HoldsAt(w: seq<byte>, p: nat, s: seq<byte>, i: nat)
    requires Holds(w, p, s) && i < |s|
    ensures At(w, p + i) == s[i]
  {
    assert w[p..p + |s|][i] == s[i];
  }

  lemma PacketHolds(unitStart: byte, pid: u16, counter: byte, field: seq<byte>, payload: seq<byte>)
    ensures var w := Packet(unitStart, pid, counter, field, payload);
            Holds(w, 4, field) && Holds(w, 4 + |field|, payload)
  {
    hide EncodeTs;
    var w := Packet(unitStart, pid, counter, field, payload);
    assert w[4..4 + |field|] == field && w[4 + |field|..4 + |field| + |payload|] == payload;
  }

  // The prefix the demuxer reads from a field that is there for stuffing only.
  lemma StuffingPrefix(h: TsHeader, w: seq<byte>, n: nat)
    requires n <= 184 && Holds(w, 4, Stuffed([], n)) && HasAdaptation(h.adaptation) == (n > 0)
    ensures var prefix := ReadPrefix(h, w, 4);
            prefix.randomAccess == 0 && prefix.clock == [] && prefix.end == 4 + n && prefix.reach <= 4 + n
  {
    if n > 0 {
      HoldsAt(w, 4, Stuffed([], n), 0);
      if n > 1 {
        HoldsAt(w, 4, Stuffed([], n), 1);
      }
    }
  }

  lemma FlaggedField(w: seq<byte>, p: nat, a: AdaptationHeader, ra: byte)
    requires a.length != 0 && AdaptationInWidth(a) && a.randomAccess == 0
    requires Holds(w, p, EncodeAdaptation(a.(randomAccess := ra)))
    ensures DecodeAdaptation(w, p) == a.(randomAccess := Low(ra, 2))
  {
    hide DecodeAdaptation, Low;
    var a' := a.(randomAccess := Low(ra, 2));
    assert Low(Low(ra, 2), 2) == Low(ra, 2) by { LowIs(Low(ra, 2), Low(ra, 2), 2, 0); }
    assert EncodeAdaptation(a') == EncodeAdaptation(a.(randomAccess := ra));
    AdaptationRoundTrip(a', w, p);
  }

  const FLAGLESS_FIELD := DEFAULT_ADAPTATION_HEADER.(length := 1)
  const FIELD_WITH_CLOCK := DEFAULT_ADAPTATION_HEADER.(length := 7, pcr := 1)

  // Stuffing lengthens a field without touching what follows its length byte.
  lemma StuffedField(a: AdaptationHeader, more: seq<byte>, n: nat)
    requires a.length != 0 && a.length + n < 256
    ensures Stuffed(EncodeAdaptation(a) + more, n) == EncodeAdaptation(a.(length := a.length + n))
            + (more + Fill(0xFF, n))
  {
    hide Low;
    if n == 0 {
      assert more + Fill(0xFF, n) == more;
    } else {
      var field := EncodeAdaptation(a) + more;
      assert field[1..] == [EncodeAdaptation(a)[1]] + more;
    }
  }

  // The prefix of the first packet of a frame: the random access bit, and the clock on the clock PID.
  lemma FirstPrefix(h: TsHeader, w: seq<byte>, m: Meta, pcrPid: u16, n: nat)
    requires n <= 184 && h.adaptation == if Stuffed(FirstField(m, pcrPid), n)
             == [] then PAYLOAD_ONLY else ADAPTATION_AND_PAYLOAD
    requires Holds(w, 4, Stuffed(FirstField(m, pcrPid), n))
    ensures var prefix := ReadPrefix(h, w, 4);
            prefix.randomAccess == Low(m.randomAccess, 2)
            && prefix.clock == (if m.pid == pcrPid then [Clock(m.pcr % 0x2_0000_0000)] else [])
            && prefix.end == 4 + |FirstField(m, pcrPid)| + n && prefix.reach <= prefix.end
  {
    if m.pid == pcrPid {
      ClockPrefix(h, w, m, n);
    } else if m.randomAccess != 0 {
      FlagPrefix(h, w, m, n);
    } else {
      StuffingPrefix(h, w, n);
      LowIs(0, 0, 2, 0);
    }
  }

  lemma FlagPrefix(h: TsHeader, w: seq<byte>, m: Meta, n: nat)
    requires n <= 184 && HasAdaptation(h.adaptation)
    requires Holds(w, 4, Stuffed(EncodeAdaptation(FLAGLESS_FIELD.(randomAccess := m.randomAccess)), n))
    ensures var prefix := ReadPrefix(h, w, 4);
            prefix.randomAccess == Low(m.randomAccess, 2) && prefix.clock == []
            && prefix.end == 6 + n && prefix.reach <= prefix.end
  {
    hide EncodeAdaptation, DecodeAdaptation, Stuffed, Holds, Low;
    var a := FLAGLESS_FIELD.(randomAccess := m.randomAccess);
    assert EncodeAdaptation(a) + [] == EncodeAdaptation(a);
    StuffedField(a, [], n);
    HoldsParts(w, 4, EncodeAdaptation(a.(length := 1 + n)), [] + Fill(0xFF, n));
    FlaggedField(w, 4, FLAGLESS_FIELD.(length := 1 + n), m.randomAccess);
  }

  lemma ClockPrefix(h: TsHeader, w: seq<byte>, m: Meta, n: nat)
    requires n <= 184 && HasAdaptation(h.adaptation)
    requires Holds(w, 4, Stuffed(EncodeAdaptation(FIELD_WITH_CLOCK.(randomAccess := m.randomAccess))
                                 + EncodePcr(m.pcr), n))
    ensures var prefix := ReadPrefix(h, w, 4);
            prefix.randomAccess == Low(m.randomAccess, 2) && prefix.clock == [Clock(m.pcr % 0x2_0000_0000)]
            && prefix.end == 12 + n && prefix.reach <= prefix.end
  {
    hide EncodeAdaptation, DecodeAdaptation, EncodePcr, DecodePcr, Stuffed, Low;
    var a := FIELD_WITH_CLOCK.(randomAccess := m.randomAccess);
    StuffedField(a, EncodePcr(m.pcr), n);
    HoldsParts(w, 4, EncodeAdaptation(a.(length := 7 + n)), EncodePcr(m.pcr) + Fill(0xFF, n));
    HoldsParts(w, 6, EncodePcr(m.pcr), Fill(0xFF, n));
    FlaggedField(w, 4, FIELD_WITH_CLOCK.(length := 7 + n), m.randomAccess);
    PcrRoundTrip(m.pcr, w, 6);
  }

  // ---------- The frame object while a frame passes through it ----------

  // The object that holds the first bytes of a frame of stream type t.
  function Holding(t: byte, m: Meta, size: nat, sofar: seq<byte>): Es
    requires PesLength(m, size) != 0 ==> size < 0x1_0000
  {
    Es(t, sofar, Stamp32(m.pts), Stamp32(m.dts), Low(m.randomAccess, 2), m.streamId, 0, PesLength(m, size),
       if PesLength(m, size) == 0 then 0 else size, false, false)
  }

  // What the last of these bytes leads to: delivery, if the declared length is reached.
  function Received(t: byte, m: Meta, size: nat, sofar: seq<byte>): EsOutcome {
    var es := Holding(t, m, size, sofar);
    if PesLength(m, size) != 0 && |sofar| == size then Finish(es, m.pid) else EsOutcome(es, [])
  }

  // An object ready for a new frame, or holding one of undeclared length.
  predicate Ready(es: Es, t: byte) {
    es.streamType == t && es.pid == 0 && !es.completed && !es.broken
    && (es.data == [] ==> es.expectedPes == 0 && es.expectedPayload == 0)
  }

  // The frame a new one pushes out, broken, with the new one's random access bit.
  function PushedOut(es: Es, m: Meta): seq<Event> {
    if es.data == [] then [] else
      [Frame(es.(randomAccess := Low(m.randomAccess, 2), broken := true, pid := m.pid))]
  }

  function Stamp32(stamp: u64): u64 { stamp % 0x1_0000_0000 }

  function Stamped(es: Es, m: Meta, size: nat): Es {
    es.(streamId := m.streamId, expectedPes := PesLength(m, size), pts := Stamp32(m.pts), dts := Stamp32(m.dts))
  }

  lemma HeadRead(es: Es, w: seq<byte>, p: nat, m: Meta, size: nat)
    requires Holds(w, p, PesHead(m, size))
    ensures DecodePes(w, p) == PesHeaderOf(m, size)
    ensures OpenFrame(es, w, p) == Stamped(es, m, size)
  {
    hide EncodePes, DecodePes, EncodePts, DecodePts;
    HoldsParts(w, p, EncodePes(PesHeaderOf(m, size)), Stamps(m));
    PesRoundTrip(PesHeaderOf(m, size), w, p);
    if m.pts != m.dts {
      HoldsParts(w, p + 9, EncodePts(3, m.pts), EncodePts(1, m.dts));
      PtsRoundTrip(3, m.pts, w, p + 9);
      PtsRoundTrip(1, m.dts, w, p + 14);
    } else {
      PtsRoundTrip(2, m.pts, w, p + 9);
    }
  }

  lemma HoldsSlice(w: seq<byte>, p: nat, s: seq<byte>)
    requires Holds(w, p, s)
    ensures Slice(w, p, |s|) == s
  {
  }

  lemma StartOutcome(es: Es, t: byte, m: Meta, size: nat, w: seq<byte>, p: nat, chunk: seq<byte>)
    requires Ready(es, t) && Holds(w, p, PesHead(m, size) + chunk)
    requires p + |PesHead(m, size)| + |chunk| == PACKET_SIZE && 0 < |chunk| <= size
    ensures var received := Received(t, m, size, chunk);
            StartFrame(es, m.pid, Low(m.randomAccess, 2), w, 0, p)
            == EsOutcome(received.es, PushedOut(es, m) + received.events)
  {
    hide PesHead, DecodePes, OpenFrame, Low, Slice;
    var q := p + |PesHead(m, size)|;
    HoldsParts(w, p, PesHead(m, size), chunk);
    HoldsSlice(w, q, chunk);
    var closed := CloseFrame(es.(randomAccess := Low(m.randomAccess, 2)), m.pid);
    HeadRead(closed.es, w, p, m, size);
    assert closed.events == PushedOut(es, m);
    assert [] + chunk == chunk;
    var begun := OpenFrame(closed.es, w, p);
    if PesLength(m, size) == 0 {
      assert Continue(begun, m.pid, w, q) == Received(t, m, size, chunk);
    } else {
      assert StartSized(begun, m.pid, size, w, 0, q) == Received(t, m, size, chunk);
    }
  }

  lemma ContinueOutcome(t: byte, m: Meta, size: nat, sofar: seq<byte>, w: seq<byte>, p: nat, chunk: seq<byte>)
    requires Holds(w, p, chunk) && p + |chunk| == PACKET_SIZE && chunk != [] && |sofar| + |chunk| <= size
    ensures Continue(Holding(t, m, size, sofar), m.pid, w, p) == Received(t, m, size, sofar + chunk)
  {
    hide Low, Slice;
    HoldsSlice(w, p, chunk);
  }

  // ---------- Steps ----------

  function With(st: State, pid: u16, es: Es): State { st.(frames := st.frames[pid := es]) }

  lemma StreamStep(st: State, w: seq<byte>, h: TsHeader)
    requires st.pmtId != 0 && DecodeTs(w, 0) == h && h.pid in st.frames
    ensures var outcome := EsStep(st.frames[h.pid], h, w, 0, 4);
            Step(st, w, 0) == Outcome(With(st, h.pid, outcome.es), outcome.events)
    ensures EsReach(h, w, 4) <= PACKET_SIZE && EsFills(h, w, 4) ==> Tame(st, w)
  {
    hide DecodeTs, EsStep, EsReach, EsFills;
    assert st.frames != map[];
  }

  function ClockOf(cfg: Config, m: Meta): seq<Event> {
    if m.pid == cfg.pcrPid then [Clock(m.pcr % 0x2_0000_0000)] else []
  }

  function FirstTaken(cfg: Config, m: Meta, body: seq<byte>): (n: nat)
    ensures n <= |body|
  {
    FirstFieldlike(m, cfg.pcrPid, |body|);
    Taken(FirstField(m, cfg.pcrPid), PesHead(m, |body|), body)
  }

  function FirstOf(cfg: Config, m: Meta, body: seq<byte>, counter: byte): (s: seq<byte>)
    requires body != []
    ensures |s| == PACKET_SIZE
  {
    FirstFieldlike(m, cfg.pcrPid, |body|);
    OnePacket(m.pid, 1, FirstField(m, cfg.pcrPid), PesHead(m, |body|), body, counter)
  }

  lemma FirstStep(st: State, cfg: Config, t: byte, m: Meta, body: seq<byte>, counter: byte)
    requires st.pmtId != 0 && m.pid < 0x2000 && m.pid in st.frames && Ready(st.frames[m.pid], t)
    requires body != [] && counter < 16
    ensures Tame(st, FirstOf(cfg, m, body, counter))
    ensures var received := Received(t, m, |body|, body[..FirstTaken(cfg, m, body)]);
            Step(st, FirstOf(cfg, m, body, counter), 0)
            == Outcome(With(st, m.pid, received.es),
                       ClockOf(cfg, m) + (PushedOut(st.frames[m.pid], m) + received.events))
  {
    hide Packet, Stuffed, FirstField, PesHead, DecodeTs, DecodePes, ReadPrefix, StartFrame, Holds, Tame, Low, PushedOut,
      Received, Step;
    var field, head := FirstField(m, cfg.pcrPid), PesHead(m, |body|);
    FirstFieldlike(m, cfg.pcrPid, |body|);
    var n := Taken(field, head, body);
    var stuffed, payload := Stuffed(field, Room(field, head) - n), head + body[..n];
    var w := OnePacket(m.pid, 1, field, head, body, counter);
    var h := DEFAULT_TS_HEADER.(unitStart := 1, pid := m.pid, counter := counter,
                              adaptation := if stuffed == [] then PAYLOAD_ONLY else ADAPTATION_AND_PAYLOAD);
    PacketHeader(1, m.pid, counter, stuffed, payload);
    PacketHolds(1, m.pid, counter, stuffed, payload);
    FirstPrefix(h, w, m, cfg.pcrPid, Room(field, head) - n);
    StartOutcome(st.frames[m.pid], t, m, |body|, w, 4 + |stuffed|, body[..n]);
    FirstFits(h, w, m, |body|, 4 + |stuffed|, body[..n]);
    StreamStep(st, w, h);
  }

  lemma FirstFits(h: TsHeader, w: seq<byte>, m: Meta, size: nat, p: nat, chunk: seq<byte>)
    requires ReadPrefix(h, w, 4).end == p && ReadPrefix(h, w, 4).reach <= p
    requires Holds(w, p, PesHead(m, size) + chunk)
    requires p + |PesHead(m, size)| + |chunk| == PACKET_SIZE && |chunk| <= size
    ensures EsReach(h, w, 4) <= PACKET_SIZE && EsFills(h, w, 4)
  {
    hide ReadPrefix, DecodePes, PesHead, Holds;
    HoldsParts(w, p, PesHead(m, size), chunk);
    HeadRead(FreshEs(0), w, p, m, size);
  }

  lemma NextStep(st: State, t: byte, m: Meta, size: nat, sofar: seq<byte>, body: seq<byte>, counter: byte)
    requires st.pmtId != 0 && m.pid < 0x2000 && m.pid in st.frames && st.frames[m.pid] == Holding(t, m, size, sofar)
    requires body != [] && counter < 16 && |sofar| + |body| <= size
    ensures var w := OnePacket(m.pid, 0, [], [], body, counter);
            var received := Received(t, m, size, sofar + body[..Taken([], [], body)]);
            Tame(st, w) && Step(st, w, 0) == Outcome(With(st, m.pid, received.es), received.events)
  {
    hide Packet, Stuffed, DecodeTs, ReadPrefix, Continue, Holds, Tame, Received, Holding, Step;
    var n := Taken([], [], body);
    var stuffed, payload := Stuffed([], 184 - n), [] + body[..n];
    assert payload == body[..n];
    var w := OnePacket(m.pid, 0, [], [], body, counter);
    var h := DEFAULT_TS_HEADER.(pid := m.pid, counter := counter,
                              adaptation := if stuffed == [] then PAYLOAD_ONLY else ADAPTATION_AND_PAYLOAD);
    PacketHeader(0, m.pid, counter, stuffed, payload);
    PacketHolds(0, m.pid, counter, stuffed, payload);
    StuffingPrefix(h, w, 184 - n);
    ContinueOutcome(t, m, size, sofar, w, 4 + |stuffed|, payload);
    StreamStep(st, w, h);
    var outcome := Continue(st.frames[m.pid], m.pid, w, 4 + |stuffed|);
    assert [] + outcome.events == outcome.events;
  }

  // ---------- A whole frame ----------

  // The bytes of a frame after its first packet.
  lemma {:induction false} RestOfFrame(st: State, t: byte, m: Meta, size: nat, sofar: seq<byte>, body: seq<byte>,
                                       counter: byte)
    requires st.pmtId != 0 && m.pid < 0x2000 && m.pid in st.frames && st.frames[m.pid] == Holding(t, m, size, sofar)
    requires body != [] && counter < 16 && |sofar| + |body| == size
    ensures var received := Received(t, m, size, sofar + body);
            Yields(st, PesPackets(m.pid, 0, [], [], body, counter), With(st, m.pid, received.es), received.events)
    decreases |body|
  {
    hide Yields, Step, Tame, OnePacket, Holding, Finish, Stuffed;
    var n := Taken([], [], body);
    var w := OnePacket(m.pid, 0, [], [], body, counter);
    var received := Received(t, m, size, sofar + body[..n]);
    var st' := With(st, m.pid, received.es);
    NextStep(st, t, m, size, sofar, body, counter);
    YieldsOne(st, w, st', received.events);
    if n == |body| {
      assert body[..n] == body && body[n..] == [];
      assert PesPackets(m.pid, 0, [], [], body, counter) == w + PesPackets(m.pid, 0, [], [], [], Succ(counter));
      assert w + [] == w;
    } else {
      var final := Received(t, m, size, sofar + body);
      assert sofar + body[..n] + body[n..] == sofar + body;
      RestOfFrame(st', t, m, size, sofar + body[..n], body[n..], Succ(counter));
      assert With(st', m.pid, final.es) == With(st, m.pid, final.es);
      YieldsThen(st, w, st', received.events, PesPackets(m.pid, 0, [], [], body[n..], Succ(counter)),
                 With(st', m.pid, final.es), final.events);
      assert [] + final.events == final.events;
    }
  }

  lemma FrameSplits(cfg: Config, m: Meta, body: seq<byte>, counter: byte)
    requires body != []
    ensures FramePackets(cfg, m, |body|, body, counter)
         == FirstOf(cfg, m, body, counter)
            + PesPackets(m.pid, 0, [], [], body[FirstTaken(cfg, m, body)..], Succ(counter))
  {
    hide OnePacket, FirstField, PesHead;
    FirstFieldlike(m, cfg.pcrPid, |body|);
  }

  lemma NoPackets(pid: u16, counter: byte)
    ensures PesPackets(pid, 0, [], [], [], counter) == []
  {
  }

  /**
   The packets of a frame take the demuxer's object for its PID to what the frame's bytes
   call for: the clock is reported, a frame still open is pushed out, and the new one is
   delivered if its length was declared, or held if it was not. Nothing else changes.
   */
  lemma FrameRun(st: State, cfg: Config, t: byte, m: Meta, body: seq<byte>, counter: byte)
    requires st.pmtId != 0 && m.pid < 0x2000 && m.pid in st.frames && Ready(st.frames[m.pid], t)
    requires body != [] && counter < 16
    ensures var received := Received(t, m, |body|, body);
            Yields(st, FramePackets(cfg, m, |body|, body, counter), With(st, m.pid, received.es),
                   ClockOf(cfg, m) + PushedOut(st.frames[m.pid], m) + received.events)
  {
    hide Yields, Step, Tame, FirstOf, FirstTaken, FramePackets, PesPackets, Holding, Finish, PushedOut, ClockOf;
    var n := FirstTaken(cfg, m, body);
    var w := FirstOf(cfg, m, body, counter);
    var first := Received(t, m, |body|, body[..n]);
    var st' := With(st, m.pid, first.es);
    var before := ClockOf(cfg, m) + PushedOut(st.frames[m.pid], m);
    assert before + first.events == ClockOf(cfg, m) + (PushedOut(st.frames[m.pid], m) + first.events);
    FirstStep(st, cfg, t, m, body, counter);
    YieldsOne(st, w, st', before + first.events);
    var tail := PesPackets(m.pid, 0, [], [], body[n..], Succ(counter));
    FrameSplits(cfg, m, body, counter);
    if n == |body| {
      assert body[..n] == body && body[n..] == [];
      assert w + tail == w by { NoPackets(m.pid, Succ(counter)); }
    } else {
      var received := Received(t, m, |body|, body);
      assert body[..n] + body[n..] == body;
      RestOfFrame(st', t, m, |body|, body[..n], body[n..], Succ(counter));
      assert With(st', m.pid, received.es) == With(st, m.pid, received.es);
      YieldsThen(st, w, st', before + first.events, tail, With(st', m.pid, received.es), received.events);
      assert before + first.events == before;
    }
  }

  // ---------- A packet whose payload does not fill it ----------

  // A unit that declares one byte of payload, in a packet with more behind it.
  function ShortUnit(m: Meta): (w: seq<byte>)
    ensures |w| == PACKET_SIZE
  {
    Packet(1, m.pid, 0, [], PesHead(m, 1) + Fill(0xFF, 184 - |PesHead(m, 1)|))
  }

  lemma ShortUnitDoesNotFill(st: State, m: Meta)
    requires st.pmtId != 0 && m.pid < 0x2000 && m.pid in st.frames
    ensures Reach(st, ShortUnit(m)) <= PACKET_SIZE && !Fills(st, ShortUnit(m))
  {
    hide Packet, PesHead, DecodeTs, DecodePes, Holds;
    var w, rest := ShortUnit(m), Fill(0xFF, 184 - |PesHead(m, 1)|);
    PacketHeader(1, m.pid, 0, [], PesHead(m, 1) + rest);
    PacketHolds(1, m.pid, 0, [], PesHead(m, 1) + rest);
    HoldsParts(w, 4, PesHead(m, 1), rest);
    HeadRead(FreshEs(0), w, 4, m, 1);
    assert st.frames != map[];
  }

  // Such a packet after an ordinary one is decoded differently if the buffer is cut between them.
  lemma CutCanMatter(st: State, cfg: Config, t: byte, m: Meta)
    requires st.pmtId != 0 && m.pid < 0x2000 && m.pid in st.frames && Ready(st.frames[m.pid], t)
    ensures var first := FirstOf(cfg, m, [0], 0);
            Feed(st, [], [first, ShortUnit(m)]) != DecodeFrom(st, first + ShortUnit(m), 0)
  {
    hide FirstOf, ShortUnit, Step, Reach, Fills, Received, Feed, DecodeFrom;
    var first := FirstOf(cfg, m, [0], 0);
    FirstStep(st, cfg, t, m, [0], 0);
    var st' := Step(st, first, 0).state;
    assert first[..PACKET_SIZE] == first && first[PACKET_SIZE..] == [];
    assert TameRun(st', []) && Run(st', []).state == st';
    assert SafeRun(st, first);
    ShortUnitDoesNotFill(st', m);
    CutMattersExactly(st, first, ShortUnit(m));
  }

  // ---------- A packet whose headers run past its end ----------

  // A unit that starts in a packet all of which is adaptation field.
  function HollowUnit(m: Meta): (w: seq<byte>)
    ensures |w| == PACKET_SIZE
  {
    Packet(1, m.pid, 0, Stuffed([], 184), [])
  }

  lemma HollowUnitReach(st: State, m: Meta, w: seq<byte>)
    requires st.pmtId != 0 && m.pid < 0x2000 && m.pid in st.frames && |w| >= PACKET_SIZE
             && w[..PACKET_SIZE] == HollowUnit(m)
    ensures PACKET_SIZE < Reach(st, w) <= PACKET_SIZE + 19
    ensures var st' := Step(st, w, PACKET_SIZE).state; st'.pmtId == st.pmtId && st'.frames.Keys == st.frames.Keys
  {
    hide Packet, Stuffed, DecodeTs, DecodePes, Holds, ReadPrefix, StartFrame;
    var hollow, field := HollowUnit(m), Stuffed([], 184);
    var h := DEFAULT_TS_HEADER.(unitStart := 1, pid := m.pid, adaptation := ADAPTATION_AND_PAYLOAD);
    PacketHeader(1, m.pid, 0, field, []);
    PacketHolds(1, m.pid, 0, field, []);
    HeaderAgrees(hollow, w);
    HoldsLonger(hollow, w, 4, field);
    StuffingPrefix(h, w, 184);
    assert st.frames != map[];
  }

  lemma HoldsLonger(v: seq<byte>, w: seq<byte>, p: nat, s: seq<byte>)
    requires Holds(v, p, s) && v <= w
    ensures Holds(w, p, s)
  {
    assert w[p..p + |s|] == v[p..p + |s|];
  }

  function Zeros(): (w: seq<byte>)
    ensures |w| == PACKET_SIZE
  {
    Fill(0, PACKET_SIZE)
  }

  lemma ZerosIgnored(st: State)
    requires st.pmtId != 0 && st.frames != map[] && 0 !in st.frames
    ensures Reach(st, Zeros()) <= PACKET_SIZE
  {
    LowIs(0, 0, 0x2000, 0);
  }

  // After an ordinary packet and this one, a cut aborts the decoder; one call over the same bytes
  // takes the missing header from the packet that follows.
  lemma CutCanAbort(st: State, cfg: Config, t: byte, m: Meta)
    requires st.pmtId != 0 && m.pid < 0x2000 && m.pid in st.frames && Ready(st.frames[m.pid], t) && 0 !in st.frames
    ensures var front := FirstOf(cfg, m, [0], 0) + HollowUnit(m);
            Feed(st, [], [front, Zeros()]) == Aborted && DecodeFrom(st, front + Zeros(), 0).Returned?
  {
    hide FirstOf, HollowUnit, Step, Reach, Fills, Received, Feed, DecodeFrom, Zeros;
    var first, hollow, zeros := FirstOf(cfg, m, [0], 0), HollowUnit(m), Zeros();
    FirstStep(st, cfg, t, m, [0], 0);
    var st1 := Step(st, first, 0).state;
    assert first[..PACKET_SIZE] == first && first[PACKET_SIZE..] == [];
    assert TameRun(st1, []) && Run(st1, []).state == st1;
    HollowUnitReach(st1, m, hollow);
    assert (first + hollow)[0..] == first + hollow;
    CutAfterOverrun(st, [], first, hollow, zeros);
    assert first + hollow + zeros == first + (hollow + zeros);
    SafeFront(st, first, hollow + zeros);
    HollowThenZeros(st1, m, first);
  }

  lemma HollowThenZeros(st: State, m: Meta, first: seq<byte>)
    requires st.pmtId != 0 && m.pid < 0x2000 && m.pid in st.frames && 0 !in st.frames && |first| == PACKET_SIZE
    ensures DecodeFrom(st, first + (HollowUnit(m) + Zeros()), PACKET_SIZE).Returned?
  {
    hide HollowUnit, Step, Reach, Zeros;
    var hollow, zeros := HollowUnit(m), Zeros();
    var buffer := first + (hollow + zeros);
    var w := buffer[PACKET_SIZE..];
    assert w == hollow + zeros && w[..PACKET_SIZE] == hollow;
    HollowUnitReach(st, m, w);
    var st' := Step(st, w, PACKET_SIZE).state;
    assert m.pid in st'.frames.Keys && 0 !in st'.frames.Keys;
    ZerosIgnored(st');
    assert buffer[2 * PACKET_SIZE..] == zeros;
    assert DecodeFrom(Step(st', zeros, 2 * PACKET_SIZE).state, buffer, 3 * PACKET_SIZE).Returned?;
    assert DecodeFrom(st', buffer, 2 * PACKET_SIZE).Returned?;
  }
}
