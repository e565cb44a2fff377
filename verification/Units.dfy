/**
 What the demuxer makes of the packets of any multiplexer: where the payload of a unit starts, which
 bytes are delivered and with what, for every header, every adaptation field and every division of
 a unit into packets.
 */
module Units {
  import opened Bytes
  import opened TsFields
  import opened DemuxSpec
  import opened Chunking
  import opened FrameTrip

  // ---------- Packets ----------

  datatype Piece = Piece(header: TsHeader, field: seq<byte>, payload: seq<byte>)

  function PieceBytes(p: Piece): seq<byte> { EncodeTs(p.header) + p.field + p.payload }

  predicate HasClock(field: seq<byte>) { |field| >= 2 && (field[1] / 16) % 2 == 1 }

  // A packet of 188 bytes whose adaptation field is as long as it says and holds its clock.
  predicate WellFormed(p: Piece) {
    var control := p.header.adaptation;
    TsInWidth(p.header) && |PieceBytes(p)| == 188
    && (if control == 2 || control == 3 then
          p.field != [] && p.field[0] == |p.field| - 1 && (HasClock(p.field) ==> |p.field| >= 8)
        else p.field == [])
    && (control == 0 || control == 2 ==> p.payload == [])
  }

  function RandomBit(field: seq<byte>): byte { if |field| < 2 then 0 else (field[1] / 64) % 2 }

  // The 33 bits of the clock behind the flags.
  function ClockBase(field: seq<byte>): u64
    requires |field| >= 8
  {
    field[2] * 0x200_0000 + field[3] * 0x2_0000 + field[4] * 0x200 + field[5] * 2 + field[6] as int / 128
  }

  function ClockRead(field: seq<byte>): seq<Event> {
    if HasClock(field) && |field| >= 8 then [Clock(ClockBase(field))] else []
  }

  lemma FieldRead(p: Piece, w: seq<byte>)
    requires WellFormed(p) && Holds(w, 4, p.field)
    ensures var prefix := ReadPrefix(p.header.(priority := 0), w, 4);
            prefix.randomAccess == RandomBit(p.field) && prefix.clock == ClockRead(p.field)
            && prefix.end == 4 + |p.field| && prefix.reach <= 4 + |p.field|
  {
    var field := p.field;
    if field != [] {
      HoldsAt(w, 4, field, 0);
      if |field| >= 2 {
        HoldsAt(w, 4, field, 1);
        if HasClock(field) {
          ClockIs(field, w);
        }
      }
    }
  }

  lemma ClockIs(field: seq<byte>, w: seq<byte>)
    requires Holds(w, 4, field) && |field| >= 8
    ensures DecodePcr(w, 6) == ClockBase(field)
  {
    HoldsAt(w, 4, field, 2);
    HoldsAt(w, 4, field, 3);
    HoldsAt(w, 4, field, 4);
    HoldsAt(w, 4, field, 5);
    HoldsAt(w, 4, field, 6);
  }

  lemma PieceRead(p: Piece, w: seq<byte>)
    requires WellFormed(p) && PieceBytes(p) <= w
    ensures DecodeTs(w, 0) == p.header.(priority := 0)
    ensures Holds(w, 4, p.field) && Holds(w, 4 + |p.field|, p.payload) && 4 + |p.field| + |p.payload| == 188
  {
    hide EncodeTs, DecodeTs, TsInWidth;
    var h := EncodeTs(p.header);
    assert Holds(w, 0, h + p.field + p.payload);
    hide Holds;
    HoldsParts(w, 0, h + p.field, p.payload);
    HoldsParts(w, 0, h, p.field);
    HeldHeader(w, p.header);
  }

  lemma HeldHeader(w: seq<byte>, h: TsHeader)
    requires TsInWidth(h) && Holds(w, 0, EncodeTs(h))
    ensures DecodeTs(w, 0) == h.(priority := 0)
  {
    hide EncodeTs, DecodeTs;
    TsRoundTrip(h, w, 0);
  }

  // ---------- States that are reached ----------

  // An object between packets is not marked as delivered, and none is known before the tables are.
  predicate Sound(st: State) {
    Consistent(st) && forall pid | pid in st.frames :: Unmarked(st.frames[pid])
  }

  predicate Unmarked(es: Es) { es.pid == 0 && !es.completed && !es.broken }

  lemma {:induction false} AddedUnmarked(frames: map<u16, Es>, infos: seq<PmtInfo>)
    requires forall pid | pid in frames :: Unmarked(frames[pid])
    ensures forall pid | pid in AddFrames(frames, infos) :: Unmarked(AddFrames(frames, infos)[pid])
    decreases |infos|
  {
    if infos != [] {
      AddedUnmarked(frames[infos[0].pid := FreshEs(infos[0].streamType)], infos[1..]);
    }
  }

  lemma UnmarkedStep(es: Es, h: TsHeader, w: seq<byte>, base: nat, p: nat)
    requires Unmarked(es)
    ensures Unmarked(EsStep(es, h, w, base, p).es)
  {
    hide ReadPrefix, DecodePes, DecodePts, Slice;
  }

  lemma SoundStep(st: State, w: seq<byte>, base: nat)
    requires Sound(st)
    ensures Sound(Step(st, w, base).state)
  {
    hide DecodeTs, DecodePat, DecodePmt, EsStep, AfterPmt, Unmarked, AddFrames, AddPids, DecodePcr;
    var h := DecodeTs(w, 0);
    if !(h.pid == 0 && st.pmtId == 0) {
      AddedUnmarked(st.frames, DecodePmt(st.pmt.infos, w, SkippedTo(h, w) + 1).infos);
      var st' := LearnPmt(st, h, w);
      assert Sound(st');
      if h.pid in st'.frames {
        UnmarkedStep(st'.frames[h.pid], h, w, base, AfterPmt(st, h, w));
      }
    }
  }

  lemma {:induction false} SoundCall(st: State, buffer: seq<byte>, pos: nat)
    requires Sound(st)
    ensures DecodeFrom(st, buffer, pos).Returned? ==> Sound(DecodeFrom(st, buffer, pos).state)
    decreases |buffer| - pos
  {
    hide Sound, Step, Reach;
    if |buffer| - pos >= PACKET_SIZE {
      var w := buffer[pos..];
      SoundStep(st, w, pos);
      SoundCall(Step(st, w, pos).state, buffer, pos + PACKET_SIZE);
    }
  }

  /** Every state a new demuxer is left in, by any bytes in any chunks, is sound. */
  lemma {:induction false} ReachedIsSound(st: State, rest: seq<byte>, chunks: seq<seq<byte>>)
    requires st == INITIAL || Sound(st)
    ensures Feed(st, rest, chunks).Returned? ==> Sound(Feed(st, rest, chunks).state)
    decreases |chunks|
  {
    hide DecodeFrom;
    assert Sound(st);
    if chunks != [] && DecodeFrom(st, rest + chunks[0], 0).Returned? {
      var call := DecodeFrom(st, rest + chunks[0], 0);
      SoundCall(st, rest + chunks[0], 0);
      ReachedIsSound(call.state, call.rest, chunks[1..]);
    }
  }

  // ---------- The start of a unit ----------

  datatype Stamp = Stamp(prefix: u32, time: u64)

  // What follows the nine bytes of the header: nothing, one time stamp or two, by its flags.
  function StampBytes(flags: byte, first: Stamp, second: Stamp): seq<byte> {
    if flags == 2 then EncodePts(first.prefix, first.time)
    else if flags == 3 then EncodePts(first.prefix, first.time) + EncodePts(second.prefix, second.time)
    else []
  }

  predicate Starts(p: Piece, ph: PesHeader, first: Stamp, second: Stamp, body: seq<byte>) {
    WellFormed(p) && p.header.unitStart == 1 && (p.header.adaptation == 1 || p.header.adaptation == 3)
    && PesInWidth(ph) && p.payload == EncodePes(ph) + StampBytes(ph.ptsDtsFlags, first, second) + body
  }

  // The bytes the header declares, if it declares any.
  function Declared(ph: PesHeader): int { ph.length - 3 - ph.headerDataLength }

  // The object that holds these bytes of a unit, and waits for expected in all. A time stamp is cut
  // to 32 bits; one that is not there leaves that of the unit before.
  function Unit(es: Es, bit: byte, ph: PesHeader, first: Stamp, second: Stamp, expected: u16, data: seq<byte>): Es {
    var flags := ph.ptsDtsFlags;
    Es(es.streamType, data, if flags == 2 || flags == 3 then first.time % 0x1_0000_0000 else es.pts,
       if flags == 2 then first.time % 0x1_0000_0000
       else if flags == 3 then second.time % 0x1_0000_0000
       else es.dts, bit, ph.streamId, 0, ph.length, expected, false, false)
  }

  // What is given out when the next unit starts: what was still held, with the new unit's bit.
  function Unfinished(es: Es, pid: u16, bit: byte): seq<Event> {
    if es.data == [] then [] else [Frame(es.(randomAccess := bit, broken := true, pid := pid))]
  }

  function Complete(es: Es, pid: u16): Event { Frame(es.(completed := true, pid := pid)) }

  function Emptied(es: Es): Es { es.(data := [], expectedPes := 0, expectedPayload := 0) }

  lemma UnitHead(es: Es, w: seq<byte>, p: nat, ph: PesHeader, first: Stamp, second: Stamp, body: seq<byte>)
    requires PesInWidth(ph) && Holds(w, p, EncodePes(ph) + StampBytes(ph.ptsDtsFlags, first, second) + body)
    requires Unmarked(es) && es.data == []
    ensures DecodePes(w, p) == ph
    ensures OpenFrame(es, w, p) == Unit(es, es.randomAccess, ph, first, second, es.expectedPayload, [])
    ensures StampSize(ph.ptsDtsFlags) == |StampBytes(ph.ptsDtsFlags, first, second)|
    ensures Holds(w, p + 9 + StampSize(ph.ptsDtsFlags), body)
  {
    hide EncodePes, DecodePes, EncodePts, DecodePts, Holds;
    var stamps := StampBytes(ph.ptsDtsFlags, first, second);
    HoldsParts(w, p, EncodePes(ph) + stamps, body);
    HoldsParts(w, p, EncodePes(ph), stamps);
    assert Holds(w, p, EncodePes(ph)) ==> DecodePes(w, p) == ph by {
      if Holds(w, p, EncodePes(ph)) {
        HeaderBack(w, p, ph);
      }
    }
    if ph.ptsDtsFlags == 2 {
      StampBack(w, p + 9, first);
    } else if ph.ptsDtsFlags == 3 {
      HoldsParts(w, p + 9, EncodePts(first.prefix, first.time), EncodePts(second.prefix, second.time));
      StampBack(w, p + 9, first);
      StampBack(w, p + 14, second);
    }
  }

  lemma HeaderBack(w: seq<byte>, p: nat, ph: PesHeader)
    requires PesInWidth(ph) && Holds(w, p, EncodePes(ph))
    ensures DecodePes(w, p) == ph
  {
    hide EncodePes, DecodePes;
    PesRoundTrip(ph, w, p);
  }

  lemma StampBack(w: seq<byte>, p: nat, stamp: Stamp)
    requires Holds(w, p, EncodePts(stamp.prefix, stamp.time))
    ensures DecodePts(w, p) == stamp.time % 0x1_0000_0000
  {
    hide EncodePts, DecodePts;
    PtsRoundTrip(stamp.prefix, stamp.time, w, p);
  }

  // What the code does with the first bytes of a unit, once its headers are read.
  function FirstBytes(unit: Es, pid: u16, ph: PesHeader, w: seq<byte>, base: nat, q: nat): EsOutcome {
    if ph.length != 0 then StartSized(unit, pid, Declared(ph), w, base, q) else Continue(unit, pid, w, q)
  }

  lemma StreamPacket(st: State, w: seq<byte>, base: nat, h: TsHeader)
    requires Sound(st) && DecodeTs(w, 0) == h && h.pid in st.frames
    ensures var outcome := EsStep(st.frames[h.pid], h, w, base, 4);
            Step(st, w, base) == Outcome(With(st, h.pid, outcome.es), outcome.events)
    ensures Reach(st, w) == Max(4, EsReach(h, w, 4)) && (Fills(st, w) <==> EsFills(h, w, 4))
  {
    hide DecodeTs, EsStep, EsReach, EsFills;
    assert st.frames != map[];
  }

  lemma UnitOpens(st: State, p: Piece, ph: PesHeader, first: Stamp, second: Stamp, body: seq<byte>, w: seq<byte>,
                  base: nat)
    requires Sound(st) && p.header.pid in st.frames && Starts(p, ph, first, second, body) && PieceBytes(p) <= w
    ensures Reach(st, w) <= 188 && Slice(w, 188 - |body|, |body|) == body
    ensures Fills(st, w) <==> (ph.length == 0 || Declared(ph) < 0 || Declared(ph) >= |body|)
    ensures var pid, es, bit := p.header.pid, st.frames[p.header.pid], RandomBit(p.field);
            var unit := Unit(es, bit, ph, first, second, if es.data == [] then es.expectedPayload else 0, []);
            var outcome := FirstBytes(unit, pid, ph, w, base, 188 - |body|);
            Step(st, w, base)
            == Outcome(With(st, pid, outcome.es), ClockRead(p.field) + (Unfinished(es, pid, bit) + outcome.events))
  {
    hide PieceBytes, TsInWidth, PesInWidth, EncodePes, DecodeTs, DecodePes, EncodePts, DecodePts, ReadPrefix, OpenFrame,
      Holds, StartSized, Continue, Unit, StampBytes, Slice, StampSize, Step, Reach, Fills, RandomBit, ClockRead;
    var h, bit := p.header.(priority := 0), RandomBit(p.field);
    var es := st.frames[h.pid];
    var start := 4 + |p.field|;
    PieceRead(p, w);
    FieldRead(p, w);
    StreamPacket(st, w, base, h);
    var closed := CloseFrame(es.(randomAccess := bit), h.pid);
    assert closed.events == Unfinished(es, h.pid, bit);
    UnitHead(closed.es, w, start, ph, first, second, body);
    HoldsSlice(w, 188 - |body|, body);
    assert start + 9 + StampSize(ph.ptsDtsFlags) == 188 - |body|;
    SameUnit(es, closed.es, bit, ph, first, second);
    assert StartFrame(es, h.pid, bit, w, base, start).es
        == FirstBytes(OpenFrame(closed.es, w, start), h.pid, ph, w, base, 188 - |body|).es;
  }

  lemma SameUnit(es: Es, closed: Es, bit: byte, ph: PesHeader, first: Stamp, second: Stamp)
    requires closed.streamType == es.streamType && closed.pts == es.pts && closed.dts == es.dts
    ensures Unit(closed, bit, ph, first, second, closed.expectedPayload, [])
         == Unit(es, bit, ph, first, second, closed.expectedPayload, [])
  {
  }

  /**
   A unit that fills its packet is delivered with exactly its bytes, wherever the packet lies: its PID
   and stream id, the time stamps in it or those before it, the bit and the clock of its field.
   */
  lemma WholeUnit(st: State, p: Piece, ph: PesHeader, first: Stamp, second: Stamp, body: seq<byte>, w: seq<byte>,
                  base: nat)
    requires Sound(st) && p.header.pid in st.frames && Starts(p, ph, first, second, body) && PieceBytes(p) <= w
    requires ph.length != 0 && ph.length - 3 - ph.headerDataLength == |body|
    ensures Reach(st, w) <= 188
    ensures var pid, es, bit := p.header.pid, st.frames[p.header.pid], RandomBit(p.field);
            var unit := Unit(es, bit, ph, first, second, |body|, body);
            Step(st, w, base)
            == Outcome(With(st, pid, Emptied(unit)),
                       ClockRead(p.field) + (Unfinished(es, pid, bit) + [Complete(unit, pid)]))
  {
    hide PieceBytes, Step, Reach, Fills, Starts, Slice, RandomBit, ClockRead, Unfinished, Sound;
    UnitOpens(st, p, ph, first, second, body, w, base);
    assert [] + body == body;
  }

  /** A unit that declares more than its packet holds, or less than nothing, is held. */
  lemma HeldUnit(st: State, p: Piece, ph: PesHeader, first: Stamp, second: Stamp, body: seq<byte>, w: seq<byte>,
                 base: nat)
    requires Sound(st) && p.header.pid in st.frames && Starts(p, ph, first, second, body) && PieceBytes(p) <= w
    requires ph.length != 0 && (Declared(ph) > |body| || Declared(ph) < 0)
    ensures Reach(st, w) <= 188 && Fills(st, w)
    ensures var pid, es, bit := p.header.pid, st.frames[p.header.pid], RandomBit(p.field);
            Step(st, w, base)
            == Outcome(With(st, pid, Unit(es, bit, ph, first, second, Declared(ph) % 0x1_0000, body)),
                       ClockRead(p.field) + Unfinished(es, pid, bit))
  {
    hide PieceBytes, Step, Reach, Fills, Starts, Slice, RandomBit, ClockRead, Unfinished, Sound;
    UnitOpens(st, p, ph, first, second, body, w, base);
    assert [] + body == body;
    var es, bit := st.frames[p.header.pid], RandomBit(p.field);
    assert Unfinished(es, p.header.pid, bit) + [] == Unfinished(es, p.header.pid, bit);
  }

  /**
   A unit that declares no length is held until the next one starts; unless a unit before it that came
   without a byte left a length behind, and this packet has just that many.
   */
  lemma UndeclaredUnit(st: State, p: Piece, ph: PesHeader, first: Stamp, second: Stamp, body: seq<byte>, w: seq<byte>,
                       base: nat)
    requires Sound(st) && p.header.pid in st.frames && Starts(p, ph, first, second, body) && PieceBytes(p) <= w
    requires ph.length == 0
    ensures Reach(st, w) <= 188 && Fills(st, w)
    ensures var pid, es, bit := p.header.pid, st.frames[p.header.pid], RandomBit(p.field);
            var left := if es.data == [] then es.expectedPayload else 0;
            var unit, before := Unit(es, bit, ph, first, second, left, body), Unfinished(es, pid, bit);
            Step(st, w, base)
            == if left == |body| then
                 Outcome(With(st, pid, Emptied(unit)), ClockRead(p.field) + (before + [Complete(unit, pid)]))
               else Outcome(With(st, pid, unit), ClockRead(p.field) + before)
  {
    hide PieceBytes, Step, Reach, Fills, Starts, Slice, RandomBit, ClockRead, Unfinished, Sound;
    UnitOpens(st, p, ph, first, second, body, w, base);
    assert [] + body == body;
    var es, bit := st.frames[p.header.pid], RandomBit(p.field);
    assert Unfinished(es, p.header.pid, bit) + [] == Unfinished(es, p.header.pid, bit);
  }

  /**
   A unit that declares less than its packet holds is delivered with the declared bytes near the start
   of the buffer. Elsewhere it is given the bytes behind it too, and waits for fewer than it has.
   */
  lemma ShorterUnit(st: State, p: Piece, ph: PesHeader, first: Stamp, second: Stamp, body: seq<byte>, w: seq<byte>,
                    base: nat)
    requires Sound(st) && p.header.pid in st.frames && Starts(p, ph, first, second, body) && PieceBytes(p) <= w
    requires ph.length != 0 && 0 <= Declared(ph) < |body|
    ensures Reach(st, w) <= 188 && !Fills(st, w)
    ensures var pid, es, bit := p.header.pid, st.frames[p.header.pid], RandomBit(p.field);
            var unit := Unit(es, bit, ph, first, second, Declared(ph), body[..Declared(ph)]);
            var before := Unfinished(es, pid, bit);
            Step(st, w, base)
            == if Declared(ph) + base <= |body| then
                 Outcome(With(st, pid, Emptied(unit)), ClockRead(p.field) + (before + [Complete(unit, pid)]))
               else Outcome(With(st, pid, unit.(data := body)), ClockRead(p.field) + before)
  {
    hide PieceBytes, Step, Reach, Fills, Starts, RandomBit, ClockRead, Unfinished, Sound, Slice;
    UnitOpens(st, p, ph, first, second, body, w, base);
    var n, q := Declared(ph), 188 - |body|;
    StartSize(p, ph, first, second, body);
    SliceOfSlice(w, q, n, |body|);
    assert [] + body == body && [] + body[..n] == body[..n];
    var es, bit := st.frames[p.header.pid], RandomBit(p.field);
    assert Unfinished(es, p.header.pid, bit) + [] == Unfinished(es, p.header.pid, bit);
  }

  /**
   The length of the header's data is subtracted but not skipped: what it holds behind the time stamps
   is delivered in front of the payload, whose end is cut off by as much.
   */
  lemma HeaderDataDelivered(st: State, p: Piece, ph: PesHeader, first: Stamp, second: Stamp, extra: seq<byte>,
                            body: seq<byte>, w: seq<byte>)
    requires Sound(st) && p.header.pid in st.frames && Starts(p, ph, first, second, extra + body) && PieceBytes(p) <= w
    requires ph.headerDataLength == |StampBytes(ph.ptsDtsFlags, first, second) + extra|
    requires ph.length == 3 + ph.headerDataLength + |body|
    ensures var pid, es, bit := p.header.pid, st.frames[p.header.pid], RandomBit(p.field);
            var unit := Unit(es, bit, ph, first, second, |body|, (extra + body)[..|body|]);
            Step(st, w, 0)
            == Outcome(With(st, pid, Emptied(unit)),
                       ClockRead(p.field) + (Unfinished(es, pid, bit) + [Complete(unit, pid)]))
  {
    hide PieceBytes, Step, Reach, Fills, Starts, RandomBit, ClockRead, Unfinished, Sound, StampBytes, Emptied, Complete,
      With;
    if extra == [] {
      assert (extra + body)[..|body|] == body == extra + body;
      WholeUnit(st, p, ph, first, second, body, w, 0);
    } else {
      ShorterUnit(st, p, ph, first, second, extra + body, w, 0);
    }
  }

  lemma SliceOfSlice(w: seq<byte>, q: nat, n: nat, m: nat)
    requires n <= m && |Slice(w, q, m)| == m
    ensures Slice(w, q, n) == Slice(w, q, m)[..n]
  {
  }

  // ---------- The rest of a unit ----------

  // How much of a packet goes to the object: all of it, or what the PES length leaves room for.
  function Share(es: Es, n: nat): (k: nat)
    ensures k <= n
  {
    if es.expectedPes == 0 || |es.data| + n <= es.expectedPes then n
    else if |es.data| <= es.expectedPes then es.expectedPes - |es.data|
    else 0
  }

  /** A packet that starts no unit adds its payload, and completes the unit exactly at its length. */
  lemma NextPiece(st: State, p: Piece, w: seq<byte>, base: nat)
    requires Sound(st) && p.header.pid in st.frames && WellFormed(p) && PieceBytes(p) <= w
    requires p.header.unitStart == 0 && (p.header.adaptation == 1 || p.header.adaptation == 3)
    ensures Tame(st, w)
    ensures var pid, es := p.header.pid, st.frames[p.header.pid];
            var now := es.(data := es.data + p.payload[..Share(es, |p.payload|)]);
            Step(st, w, base)
            == if |now.data| == es.expectedPayload then
                 Outcome(With(st, pid, Emptied(now)), ClockRead(p.field) + [Complete(now, pid)])
               else Outcome(With(st, pid, now), ClockRead(p.field))
  {
    hide PieceBytes, TsInWidth, DecodeTs, ReadPrefix, Step, Reach, Fills, ClockRead, Continue, Share, Holds;
    var h := p.header.(priority := 0);
    var es, q := st.frames[h.pid], 4 + |p.field|;
    PieceRead(p, w);
    FieldRead(p, w);
    StreamPacket(st, w, base, h);
    TakesShare(es, h.pid, w, q, p.payload);
    assert ClockRead(p.field) + [] == ClockRead(p.field);
  }

  lemma TakesShare(es: Es, pid: u16, w: seq<byte>, q: nat, payload: seq<byte>)
    requires Unmarked(es) && Holds(w, q, payload) && q + |payload| == 188
    ensures var now := es.(data := es.data + payload[..Share(es, |payload|)]);
            Continue(es, pid, w, q)
            == if |now.data| == es.expectedPayload then EsOutcome(Emptied(now), [Complete(now, pid)])
               else EsOutcome(now, [])
  {
    hide Slice, Holds;
    var rest := |payload|;
    var n := if es.expectedPes != 0 && |es.data| + rest > es.expectedPes then es.expectedPes - |es.data| else rest;
    SliceOfHeld(w, q, payload, n);
  }

  lemma SliceOfHeld(w: seq<byte>, q: nat, s: seq<byte>, n: int)
    requires Holds(w, q, s) && n <= |s|
    ensures Slice(w, q, n) == if n <= 0 then [] else s[..n]
  {
    if n > 0 {
      assert w[q..q + n] == w[q..q + |s|][..n];
    }
  }

  /** A packet without payload only reports its clock. */
  lemma EmptyPiece(st: State, p: Piece, w: seq<byte>, base: nat)
    requires Sound(st) && p.header.pid in st.frames && WellFormed(p) && PieceBytes(p) <= w
    requires p.header.adaptation == 0 || p.header.adaptation == 2
    ensures Tame(st, w) && Step(st, w, base) == Outcome(st, ClockRead(p.field))
  {
    hide PieceBytes, TsInWidth, DecodeTs, ReadPrefix, Step, Reach, Fills, ClockRead;
    var h := p.header.(priority := 0);
    PieceRead(p, w);
    FieldRead(p, w);
    StreamPacket(st, w, base, h);
    assert With(st, h.pid, st.frames[h.pid]) == st;
  }

  /**
   A packet of no known stream is passed over: unless it is the first association or the first map, it
   changes nothing. A packet without payload is no association, and one that starts no section no map.
   */
  lemma OtherPiece(st: State, p: Piece, w: seq<byte>, base: nat)
    requires Sound(st) && WellFormed(p) && PieceBytes(p) <= w
    requires p.header.pid !in st.frames && (p.header.pid != st.pcrId || st.pcrId == 0)
    requires st.pmtId == 0 && p.header.pid == 0 ==> p.header.adaptation == 0 || p.header.adaptation == 2
    requires st.pmtId != 0 && st.frames == map[] && p.header.pid == st.pmtId ==> p.header.unitStart == 0
    ensures Tame(st, w) && Step(st, w, base) == Outcome(st, [])
  {
    hide PieceBytes, DecodeTs, TsInWidth, Low, Bits;
    PieceRead(p, w);
    if p.field != [] {
      HoldsAt(w, 4, p.field, 0);
    }
  }

  /** A packet of a PID that is for the clock only reports what lies where its clock belongs, flag or no flag. */
  lemma ClockPiece(st: State, p: Piece, w: seq<byte>, base: nat)
    requires Sound(st) && st.frames != map[] && WellFormed(p) && PieceBytes(p) <= w
    requires p.header.pid !in st.frames && p.header.pid == st.pcrId != 0 && |p.field| >= 8
    ensures Tame(st, w) && Step(st, w, base) == Outcome(st, [Clock(ClockBase(p.field))])
  {
    hide PieceBytes, DecodeTs, DecodePcr, ClockBase, Holds;
    PieceRead(p, w);
    HoldsAt(w, 4, p.field, 0);
    ClockIs(p.field, w);
  }

  // ---------- A unit in any number of packets ----------

  function PacketsOf(ps: seq<Piece>): seq<byte> {
    if ps == [] then [] else PieceBytes(ps[0]) + PacketsOf(ps[1..])
  }

  function Joined(ps: seq<Piece>): seq<byte> { if ps == [] then [] else ps[0].payload + Joined(ps[1..]) }

  function ClocksOf(ps: seq<Piece>): seq<Event> {
    if ps == [] then [] else ClockRead(ps[0].field) + ClocksOf(ps[1..])
  }

  predicate Continues(ps: seq<Piece>, pid: u16) {
    (forall p | p in ps :: WellFormed(p) && p.header.pid == pid && p.header.unitStart == 0)
    && (ps != [] ==> ps[|ps| - 1].payload != [])
  }

  lemma {:induction false} SomethingJoined(ps: seq<Piece>)
    requires ps != [] && ps[|ps| - 1].payload != []
    ensures Joined(ps) != []
    decreases |ps|
  {
    if |ps| > 1 {
      SomethingJoined(ps[1..]);
    }
  }

  // One packet of a unit whose length was declared.
  lemma PieceOfUnit(st: State, p: Piece, es: Es, more: nat)
    requires Sound(st) && p.header.pid in st.frames && st.frames[p.header.pid] == es
    requires WellFormed(p) && p.header.unitStart == 0 && (more == 0 ==> p.payload != [])
    requires |es.data| + |p.payload| + more == es.expectedPayload <= es.expectedPes
    ensures Tame(st, PieceBytes(p))
    ensures var pid, now := p.header.pid, es.(data := es.data + p.payload);
            Step(st, PieceBytes(p), 0)
            == if more == 0 then Outcome(With(st, pid, Emptied(now)), ClockRead(p.field) + [Complete(now, pid)])
               else Outcome(With(st, pid, now), ClockRead(p.field))
  {
    hide PieceBytes, Step, Tame, ClockRead, Sound;
    if p.header.adaptation == 0 || p.header.adaptation == 2 {
      EmptyPiece(st, p, PieceBytes(p), 0);
      assert es.data + p.payload == es.data;
      assert With(st, p.header.pid, es) == st;
    } else {
      NextPiece(st, p, PieceBytes(p), 0);
      assert p.payload[..|p.payload|] == p.payload;
    }
  }

  // Bytes, payloads and clocks of one packet and those after it.
  lemma Unfold(ps: seq<Piece>)
    requires ps != []
    ensures PacketsOf(ps) == PieceBytes(ps[0]) + PacketsOf(ps[1..])
    ensures Joined(ps) == ps[0].payload + Joined(ps[1..]) && ClocksOf(ps) == ClockRead(ps[0].field) + ClocksOf(ps[1..])
    ensures |ps| == 1 ==> PacketsOf(ps) == PieceBytes(ps[0]) && Joined(ps) == ps[0].payload && Joined(ps[1..]) == []
                          && ClocksOf(ps) == ClockRead(ps[0].field)
  {
    hide PieceBytes, ClockRead;
  }

  lemma NothingJoined()
    ensures PacketsOf([]) == [] && Joined([]) == [] && ClocksOf([]) == []
  {
  }

  lemma ContinuesTail(ps: seq<Piece>, pid: u16)
    requires ps != [] && Continues(ps, pid)
    ensures WellFormed(ps[0]) && ps[0].header.pid == pid && ps[0].header.unitStart == 0 && Continues(ps[1..], pid)
    ensures Joined(ps[1..]) == [] ==> |ps| == 1 && ps[0].payload != []
  {
    hide WellFormed;
    assert ps[0] in ps && forall q | q in ps[1..] :: q in ps;
    if |ps| > 1 {
      SomethingJoined(ps[1..]);
    }
  }

  lemma {:induction false} RestOfUnit(st: State, pid: u16, es: Es, ps: seq<Piece>)
    requires Sound(st) && pid in st.frames && st.frames[pid] == es && ps != [] && Continues(ps, pid)
    requires |es.data| + |Joined(ps)| == es.expectedPayload <= es.expectedPes
    ensures var now := es.(data := es.data + Joined(ps));
            Yields(st, PacketsOf(ps), With(st, pid, Emptied(now)), ClocksOf(ps) + [Complete(now, pid)])
    decreases |ps|
  {
    hide Yields, Step, Tame, Complete, ClockRead, ClocksOf, Joined, PacketsOf, PieceBytes, WellFormed, Continues, Sound,
      Emptied;
    var p, more, w := ps[0], ps[1..], PieceBytes(ps[0]);
    Unfold(ps);
    ContinuesTail(ps, pid);
    PieceSize(p);
    PieceOfUnit(st, p, es, |Joined(more)|);
    SoundStep(st, w, 0);
    var now := es.(data := es.data + p.payload);
    if |ps| == 1 {
      YieldsOne(st, w, With(st, pid, Emptied(now)), ClockRead(p.field) + [Complete(now, pid)]);
    } else {
      var st' := With(st, pid, now);
      YieldsOne(st, w, st', ClockRead(p.field));
      RestOfUnit(st', pid, now, more);
      var all := es.(data := es.data + Joined(ps));
      assert now.data + Joined(more) == all.data;
      assert With(st', pid, Emptied(all)) == With(st, pid, Emptied(all));
      YieldsThen(st, w, st', ClockRead(p.field), PacketsOf(more), With(st, pid, Emptied(all)),
                 ClocksOf(more) + [Complete(all, pid)]);
      assert ClockRead(p.field) + (ClocksOf(more) + [Complete(all, pid)]) == ClocksOf(ps) + [Complete(all, pid)];
    }
  }

  lemma PieceSize(p: Piece)
    requires WellFormed(p)
    ensures |PieceBytes(p)| == PACKET_SIZE
  {
  }

  /**
   However a unit of declared length is divided into packets, whatever their headers, fields and
   stuffing, exactly its bytes are delivered, once and complete, and the object is empty after it.
   */
  lemma UnitReassembled(st: State, p: Piece, ph: PesHeader, first: Stamp, second: Stamp, body: seq<byte>,
                        more: seq<Piece>)
    requires Sound(st) && p.header.pid in st.frames && Starts(p, ph, first, second, body)
    requires Continues(more, p.header.pid)
    requires ph.length != 0 && ph.length - 3 - ph.headerDataLength == |body + Joined(more)|
    ensures var pid, es, bit := p.header.pid, st.frames[p.header.pid], RandomBit(p.field);
            var unit := Unit(es, bit, ph, first, second, |body + Joined(more)|, body + Joined(more));
            Yields(st, PieceBytes(p) + PacketsOf(more), With(st, pid, Emptied(unit)),
                   ClockRead(p.field) + Unfinished(es, pid, bit) + ClocksOf(more) + [Complete(unit, pid)])
  {
    hide Yields, Step, Reach, Fills, PieceBytes, Complete, ClockRead, RandomBit, Unfinished, Starts, Sound;
    var pid, es, bit, w := p.header.pid, st.frames[p.header.pid], RandomBit(p.field), PieceBytes(p);
    var n := |body + Joined(more)|;
    var unit := Unit(es, bit, ph, first, second, n, body + Joined(more));
    var before := ClockRead(p.field) + Unfinished(es, pid, bit);
    StartSize(p, ph, first, second, body);
    if more == [] {
      assert body + Joined(more) == body && w + PacketsOf(more) == w;
      WholeUnit(st, p, ph, first, second, body, w, 0);
      UnitOpens(st, p, ph, first, second, body, w, 0);
      assert before + ClocksOf(more) + [Complete(unit, pid)]
          == ClockRead(p.field) + (Unfinished(es, pid, bit) + [Complete(unit, pid)]);
      YieldsOne(st, w, With(st, pid, Emptied(unit)), before + ClocksOf(more) + [Complete(unit, pid)]);
    } else {
      SomethingJoined(more);
      HeldUnit(st, p, ph, first, second, body, w, 0);
      assert n % 0x1_0000 == n;
      var begun := Unit(es, bit, ph, first, second, n, body);
      var st' := With(st, pid, begun);
      YieldsOne(st, w, st', before);
      SoundStep(st, w, 0);
      RestOfUnit(st', pid, begun, more);
      assert With(st', pid, Emptied(unit)) == With(st, pid, Emptied(unit));
      YieldsThen(st, w, st', before, PacketsOf(more), With(st, pid, Emptied(unit)),
                 ClocksOf(more) + [Complete(unit, pid)]);
      assert before + (ClocksOf(more) + [Complete(unit, pid)]) == before + ClocksOf(more) + [Complete(unit, pid)];
    }
  }

  // One packet of a unit that declares no length.
  lemma PieceOfUndeclared(st: State, p: Piece, es: Es)
    requires Sound(st) && p.header.pid in st.frames && st.frames[p.header.pid] == es && WellFormed(p)
    requires p.header.unitStart == 0 && es.expectedPes == 0 && es.expectedPayload == 0 && es.data != []
    ensures Tame(st, PieceBytes(p))
    ensures Step(st, PieceBytes(p), 0)
         == Outcome(With(st, p.header.pid, es.(data := es.data + p.payload)), ClockRead(p.field))
  {
    hide PieceBytes, Step, Tame, ClockRead, Sound;
    if p.header.adaptation == 0 || p.header.adaptation == 2 {
      EmptyPiece(st, p, PieceBytes(p), 0);
      assert es.data + p.payload == es.data;
      assert With(st, p.header.pid, es) == st;
    } else {
      NextPiece(st, p, PieceBytes(p), 0);
      assert p.payload[..|p.payload|] == p.payload;
    }
  }

  lemma {:induction false} RestOfUndeclared(st: State, pid: u16, es: Es, ps: seq<Piece>)
    requires Sound(st) && pid in st.frames && st.frames[pid] == es
    requires forall p | p in ps :: WellFormed(p) && p.header.pid == pid && p.header.unitStart == 0
    requires es.expectedPes == 0 && es.expectedPayload == 0 && es.data != []
    ensures Yields(st, PacketsOf(ps), With(st, pid, es.(data := es.data + Joined(ps))), ClocksOf(ps))
    decreases |ps|
  {
    hide Yields, Step, Tame, ClockRead, PieceBytes, WellFormed, Sound, Joined, ClocksOf, PacketsOf;
    if ps == [] {
      NothingJoined();
      YieldsNothing(st);
      assert es.data + Joined(ps) == es.data;
      assert With(st, pid, es) == st;
    } else {
      var p, more, w := ps[0], ps[1..], PieceBytes(ps[0]);
      assert p in ps && forall q | q in more :: q in ps;
      Unfold(ps);
      PieceSize(p);
      PieceOfUndeclared(st, p, es);
      SoundStep(st, w, 0);
      var now := es.(data := es.data + p.payload);
      var st' := With(st, pid, now);
      YieldsOne(st, w, st', ClockRead(p.field));
      RestOfUndeclared(st', pid, now, more);
      var all := es.(data := es.data + Joined(ps));
      assert now.data + Joined(more) == all.data;
      assert With(st', pid, all) == With(st, pid, all);
      YieldsThen(st, w, st', ClockRead(p.field), PacketsOf(more), With(st, pid, all), ClocksOf(more));
    }
  }

  /**
   A unit that declares no length is held with all its bytes, however many packets they come in: what
   the start of the next one gives out.
   */
  lemma UndeclaredReassembled(st: State, p: Piece, ph: PesHeader, first: Stamp, second: Stamp, body: seq<byte>,
                              more: seq<Piece>)
    requires Sound(st) && p.header.pid in st.frames && Starts(p, ph, first, second, body)
    requires forall q | q in more :: WellFormed(q) && q.header.pid == p.header.pid && q.header.unitStart == 0
    requires ph.length == 0 && body != []
    requires var es := st.frames[p.header.pid]; es.data == [] ==> es.expectedPayload == 0
    ensures var pid, es, bit := p.header.pid, st.frames[p.header.pid], RandomBit(p.field);
            Yields(st, PieceBytes(p) + PacketsOf(more),
                   With(st, pid, Unit(es, bit, ph, first, second, 0, body + Joined(more))),
                   ClockRead(p.field) + Unfinished(es, pid, bit) + ClocksOf(more))
  {
    hide Yields, Step, Reach, Fills, PieceBytes, ClockRead, RandomBit, Unfinished, Starts, Sound, WellFormed;
    var pid, es, bit, w := p.header.pid, st.frames[p.header.pid], RandomBit(p.field), PieceBytes(p);
    var unit := Unit(es, bit, ph, first, second, 0, body + Joined(more));
    var before := ClockRead(p.field) + Unfinished(es, pid, bit);
    StartSize(p, ph, first, second, body);
    UndeclaredUnit(st, p, ph, first, second, body, w, 0);
    SoundStep(st, w, 0);
    var begun := Unit(es, bit, ph, first, second, 0, body);
    var st' := With(st, pid, begun);
    YieldsOne(st, w, st', before);
    RestOfUndeclared(st', pid, begun, more);
    assert With(st', pid, unit) == With(st, pid, unit);
    YieldsThen(st, w, st', before, PacketsOf(more), With(st, pid, unit), ClocksOf(more));
  }

  lemma StartSize(p: Piece, ph: PesHeader, first: Stamp, second: Stamp, body: seq<byte>)
    requires Starts(p, ph, first, second, body)
    ensures |PieceBytes(p)| == PACKET_SIZE && WellFormed(p) && |body| <= 175
  {
  }

  // The same in calls on any chunks of the packets.
  lemma InAnyChunks(st: State, s: seq<byte>, st': State, events: seq<Event>, chunks: seq<seq<byte>>)
    requires Yields(st, s, st', events) && Concat(chunks) == s
    ensures Feed(st, [], chunks) == Returned(st', events, [])
  {
    hide Feed, TameRun, Run, Concat;
    assert [] + s == s;
    FeedIsRun(st, [], chunks);
  }

  // A video unit of 175 bytes without time stamps on PID 0x100, in numbers.
  lemma KnownUnit(st: State, body: seq<byte>)
    requires Sound(st) && 0x100 in st.frames && st.frames[0x100].data == [] && |body| == 175
    ensures var es := st.frames[0x100];
            DecodeFrom(st, [0x47, 0x41, 0x00, 0x10, 0x00, 0x00, 0x01, 0xE0, 0x00, 0xB2, 0x80, 0x00, 0x00] + body, 0)
            == Returned(
              With(st, 0x100, Es(es.streamType, [], es.pts, es.dts, 0, 0xE0, 0, 0, 0, false, false)),
              [Frame(Es(es.streamType, body, es.pts, es.dts, 0, 0xE0, 0x100, 178, 175, true, false))], [])
  {
    hide Step, Reach, DecodeFrom, EncodeTs, EncodePes, Sound;
    var p := Piece(DEFAULT_TS_HEADER.(unitStart := 1, pid := 0x100, adaptation := 1), [],
                   [0x00, 0x00, 0x01, 0xE0, 0x00, 0xB2, 0x80, 0x00, 0x00] + body);
    var ph := DEFAULT_PES_HEADER.(streamId := 0xE0, length := 178);
    var none := Stamp(0, 0);
    var w := [0x47, 0x41, 0x00, 0x10, 0x00, 0x00, 0x01, 0xE0, 0x00, 0xB2, 0x80, 0x00, 0x00] + body;
    KnownBytes(p.header, ph);
    assert PieceBytes(p) == w && WellFormed(p);
    assert p.payload == EncodePes(ph) + StampBytes(0, none, none) + body;
    WholeUnit(st, p, ph, none, none, body, w, 0);
    OneCall(st, w);
  }

  lemma KnownBytes(h: TsHeader, ph: PesHeader)
    requires h == DEFAULT_TS_HEADER.(unitStart := 1, pid := 0x100, adaptation := 1)
    requires ph == DEFAULT_PES_HEADER.(streamId := 0xE0, length := 178)
    ensures EncodeTs(h) == [0x47, 0x41, 0x00, 0x10]
    ensures EncodePes(ph) == [0x00, 0x00, 0x01, 0xE0, 0x00, 0xB2, 0x80, 0x00, 0x00]
  {
  }

  lemma OneCall(st: State, w: seq<byte>)
    requires |w| == 188 && Reach(st, w) <= 188
    ensures DecodeFrom(st, w, 0) == Returned(Step(st, w, 0).state, Step(st, w, 0).events, [])
  {
    hide Step, Reach;
    var outcome := Step(st, w, 0);
    assert w[0..] == w;
    assert DecodeFrom(outcome.state, w, 188) == Returned(outcome.state, [], w[188..]);
    assert outcome.events + [] == outcome.events;
  }
}
