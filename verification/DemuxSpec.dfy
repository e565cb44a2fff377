/**
 What the demuxer does with one transport packet, as a function
 (3rd/mpegts/mpegts_demuxer.cpp). A packet is read through a window: the bytes of
 the input buffer from the start of the packet on. base is the absolute position of
 that start, which the code compares with 188 in one place.
 */
module DemuxSpec {
  import opened Bytes
  import opened TsFields

  datatype Es = Es(
    streamType: byte, data: seq<byte>, pts: u64, dts: u64, randomAccess: byte, streamId: byte, pid: u16,
    expectedPes: u16, expectedPayload: u16, completed: bool, broken: bool)

  // Members the constructor leaves unset are taken as 0.
  function FreshEs(streamType: byte): Es {
    Es(streamType, [], 0, 0, 0, 0, 0, 0, 0, false, false)
  }

  function ResetEs(es: Es): Es {
    es.(pid := 0, completed := false, broken := false, expectedPes := 0, expectedPayload := 0, data := [])
  }

  // What the two callbacks are given.
  datatype Event = Clock(pcr: u64) | Frame(es: Es)

  datatype State = State(
    pmtId: u16, pcrId: u16, frames: map<u16, Es>, streamPids: map<byte, u16>,
    pat: PatHeader, patValid: bool, pmt: PmtHeader, pmtValid: bool)

  const INITIAL := State(0, 0, map[], map[], DEFAULT_PAT_HEADER, false, DEFAULT_PMT_HEADER, false)

  // Nothing is known of the streams before the program map is, and nothing of the
  // program map before the program association is.
  predicate Consistent(st: State) {
    st.pmtId == 0 ==> st.frames == map[] && st.pcrId == 0
  }

  datatype Outcome = Outcome(state: State, events: seq<Event>)

  function Max(a: nat, b: nat): nat { if a >= b then a else b }

  // ---------- Program association ----------

  function AdaptationEnd(w: seq<byte>, p: nat): nat { p + 1 + At(w, p) }

  // Where the payload starts when the adaptation field is only skipped.
  function SkippedTo(h: TsHeader, w: seq<byte>): nat {
    if HasAdaptation(h.adaptation) then AdaptationEnd(w, 4) else 4
  }

  function SkipReach(h: TsHeader, w: seq<byte>): nat {
    if HasAdaptation(h.adaptation) then 4 + AdaptationSize(DecodeAdaptation(w, 4)) else 4
  }

  function PatStart(h: TsHeader, w: seq<byte>): nat {
    SkippedTo(h, w) + if h.unitStart == 1 then 1 else 0
  }

  function LearnPat(st: State, h: TsHeader, w: seq<byte>): State {
    if HasPayload(h.adaptation) then
      var p := PatStart(h, w);
      st.(pat := DecodePat(w, p), pmtId := Low(Word(w, p + 10), 0x2000), patValid := true)
    else st
  }

  // The end of the last read: beyond the end of the buffer, the read is an abort.
  function PatReach(h: TsHeader, w: seq<byte>): nat {
    if HasPayload(h.adaptation) then PatStart(h, w) + 12 else SkipReach(h, w)
  }

  // ---------- Program map ----------

  predicate IsPmt(st: State, h: TsHeader) {
    st.frames == map[] && st.pmtId != 0 && h.pid == st.pmtId
  }

  function AddFrames(frames: map<u16, Es>, infos: seq<PmtInfo>): map<u16, Es>
    decreases |infos|
  {
    if infos == [] then frames else
      AddFrames(frames[infos[0].pid := FreshEs(infos[0].streamType)], infos[1..])
  }

  function AddPids(pids: map<byte, u16>, infos: seq<PmtInfo>): map<byte, u16>
    decreases |infos|
  {
    if infos == [] then pids else AddPids(pids[infos[0].streamType := infos[0].pid], infos[1..])
  }

  function LearnPmt(st: State, h: TsHeader, w: seq<byte>): State {
    if IsPmt(st, h) && h.unitStart == 1 then
      var pmt := DecodePmt(st.pmt.infos, w, SkippedTo(h, w) + 1);
      st.(pmt := pmt, pcrId := pmt.pcrPid, frames := AddFrames(st.frames, pmt.infos),
          streamPids := AddPids(st.streamPids, pmt.infos), pmtValid := true)
    else st
  }

  // The cursor after the program map stage; the stream stage goes on from it.
  function AfterPmt(st: State, h: TsHeader, w: seq<byte>): nat {
    if !IsPmt(st, h) then 4
    else if h.unitStart == 1 then PmtEnd(w, SkippedTo(h, w) + 1)
    else SkippedTo(h, w)
  }

  function PmtReach(st: State, h: TsHeader, w: seq<byte>): nat {
    if !IsPmt(st, h) then 4
    else if h.unitStart == 1 then PmtEnd(w, SkippedTo(h, w) + 1)
    else SkipReach(h, w)
  }

  // ---------- Elementary streams ----------

  // The adaptation field of a stream packet: its flag bits, its clock, its end.
  datatype EsPrefix = EsPrefix(randomAccess: byte, clock: seq<Event>, end: nat, reach: nat)

  function ReadPrefix(h: TsHeader, w: seq<byte>, p: nat): EsPrefix {
    if !HasAdaptation(h.adaptation) then EsPrefix(0, [], p, 0) else
      var a := DecodeAdaptation(w, p);
      if a.pcr == 1 then
        EsPrefix(a.randomAccess, [Clock(DecodePcr(w, p + 2))], p + 8 + (if a.length > 7 then a.length - 7 else 0), p
                 + 8)
      else
        EsPrefix(a.randomAccess, [], p + 1 + a.length, p + AdaptationSize(a))
  }

  function StampSize(flags: byte): nat {
    if flags == 2 then 5 else if flags == 3 then 10 else 0
  }

  // The frame object after the header of a new PES packet has been read at p.
  function OpenFrame(es: Es, w: seq<byte>, p: nat): Es {
    var pes := DecodePes(w, p);
    var es' := es.(streamId := pes.streamId, expectedPes := pes.length);
    if pes.ptsDtsFlags == 2 then es'.(pts := DecodePts(w, p + 9), dts := DecodePts(w, p + 9))
    else if pes.ptsDtsFlags == 3 then es'.(pts := DecodePts(w, p + 9), dts := DecodePts(w, p + 14))
    else es'
  }

  function PayloadLength(pes: PesHeader): int { pes.length - 3 - pes.headerDataLength }

  datatype EsOutcome = EsOutcome(es: Es, events: seq<Event>)

  function Finish(es: Es, pid: u16): EsOutcome {
    EsOutcome(ResetEs(es), [Frame(es.(completed := true, pid := pid))])
  }

  // The first bytes of a frame of declared length; the comparison is with the
  // absolute position of the cursor.
  function StartSized(es: Es, pid: u16, payload: int, w: seq<byte>, base: nat, p: nat): EsOutcome {
    var n := if payload + base + p > PACKET_SIZE || payload < 0 then PACKET_SIZE - p else payload;
    var es' := es.(expectedPayload := payload % 0x1_0000, data := es.data + Slice(w, p, n));
    if |es'.data| == payload then Finish(es', pid) else EsOutcome(es', [])
  }

  // Bytes appended to a frame in progress.
  function Continue(es: Es, pid: u16, w: seq<byte>, p: nat): EsOutcome {
    var rest := PACKET_SIZE - p;
    var n := if es.expectedPes != 0 && |es.data| + rest > es.expectedPes then es.expectedPes - |es.data| else rest;
    var es' := es.(data := es.data + Slice(w, p, n));
    if es'.expectedPayload == |es'.data| then Finish(es', pid) else EsOutcome(es', [])
  }

  // A frame still open when the next one starts is delivered as broken. By then it
  // already carries the random access bit of its successor.
  function CloseFrame(es: Es, pid: u16): EsOutcome {
    if es.completed then EsOutcome(ResetEs(es), [])
    else if es.data != [] then EsOutcome(ResetEs(es), [Frame(es.(broken := true, pid := pid))])
    else EsOutcome(es, [])
  }

  function StartFrame(es: Es, pid: u16, randomAccess: byte, w: seq<byte>, base: nat, p: nat): EsOutcome {
    var closed := CloseFrame(es.(randomAccess := randomAccess), pid);
    var pes := DecodePes(w, p);
    var begun := OpenFrame(closed.es, w, p);
    var q := p + 9 + StampSize(pes.ptsDtsFlags);
    var outcome :=
      if pes.length != 0 then StartSized(begun, pid, PayloadLength(pes), w, base, q)
      else Continue(begun, pid, w, q);
    EsOutcome(outcome.es, closed.events + outcome.events)
  }

  function EsStep(es: Es, h: TsHeader, w: seq<byte>, base: nat, p: nat): EsOutcome {
    var prefix := ReadPrefix(h, w, p);
    if !HasPayload(h.adaptation) then EsOutcome(es, prefix.clock) else
      var outcome :=
        if h.unitStart == 1 then StartFrame(es, h.pid, prefix.randomAccess, w, base, prefix.end)
        else Continue(es, h.pid, w, prefix.end);
      EsOutcome(outcome.es, prefix.clock + outcome.events)
  }

  function EsReach(h: TsHeader, w: seq<byte>, p: nat): nat {
    var prefix := ReadPrefix(h, w, p);
    if HasPayload(h.adaptation) && h.unitStart == 1 then
      prefix.end + 9 + StampSize(DecodePes(w, prefix.end).ptsDtsFlags)
    else prefix.reach
  }

  // A payload that starts in the packet runs to the end of the packet.
  predicate EsFills(h: TsHeader, w: seq<byte>, p: nat) {
    HasPayload(h.adaptation) && h.unitStart == 1 ==>
      var start := ReadPrefix(h, w, p).end;
      var pes := DecodePes(w, start);
      pes.length != 0 ==>
        PayloadLength(pes) < 0 || start + 9 + StampSize(pes.ptsDtsFlags) + PayloadLength(pes) >= PACKET_SIZE
  }

  // ---------- One packet ----------

  function Step(st: State, w: seq<byte>, base: nat): Outcome {
    var h := DecodeTs(w, 0);
    if h.pid == 0 && st.pmtId == 0 then Outcome(LearnPat(st, h, w), []) else
      var p := AfterPmt(st, h, w);
      var st' := LearnPmt(st, h, w);
      if h.pid in st'.frames then
        var outcome := EsStep(st'.frames[h.pid], h, w, base, p);
        Outcome(st'.(frames := st'.frames[h.pid := outcome.es]), outcome.events)
      else if st'.pcrId != 0 && st'.pcrId == h.pid then
        Outcome(st', [Clock(DecodePcr(w, p + AdaptationSize(DecodeAdaptation(w, p))))])
      else Outcome(st', [])
  }

  function Reach(st: State, w: seq<byte>): nat {
    var h := DecodeTs(w, 0);
    if h.pid == 0 && st.pmtId == 0 then PatReach(h, w) else
      var p := AfterPmt(st, h, w);
      var st' := LearnPmt(st, h, w);
      Max(PmtReach(st, h, w),
          if h.pid in st'.frames then EsReach(h, w, p)
          else if st'.pcrId != 0 && st'.pcrId == h.pid then p + AdaptationSize(DecodeAdaptation(w, p)) + 6
          else 0)
  }

  predicate Fills(st: State, w: seq<byte>) {
    var h := DecodeTs(w, 0);
    (h.pid == 0 && st.pmtId == 0)
    || (h.pid in LearnPmt(st, h, w).frames ==> EsFills(h, w, AfterPmt(st, h, w)))
  }

  // ---------- One call ----------

  // A call decodes every whole packet and keeps the remainder for the next call.
  datatype Call = Aborted | Returned(state: State, events: seq<Event>, rest: seq<byte>)

  function After(events: seq<Event>, call: Call): Call {
    match call
    case Aborted => Aborted
    case Returned(state, more, rest) => Returned(state, events + more, rest)
  }

  lemma AfterAfter(a: seq<Event>, b: seq<Event>, call: Call)
    ensures After(a, After(b, call)) == After(a + b, call)
  {
    if call.Returned? {
      assert a + (b + call.events) == (a + b) + call.events;
    }
  }

  function DecodeFrom(st: State, buffer: seq<byte>, pos: nat): Call
    decreases |buffer| - pos
  {
    if |buffer| - pos < PACKET_SIZE then
      Returned(st, [], if pos <= |buffer| then buffer[pos..] else [])
    else
      var w := buffer[pos..];
      if Reach(st, w) > |w| then Aborted else
        var outcome := Step(st, w, pos);
        After(outcome.events, DecodeFrom(outcome.state, buffer, pos + PACKET_SIZE))
  }
}
