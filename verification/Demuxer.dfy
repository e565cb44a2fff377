/** The demuxer object (3rd/mpegts/mpegts_demuxer.cpp): a call does exactly what DemuxSpec says. */
module Demuxer {
  import opened Bytes
  import opened Buffers
  import opened TsFields
  import opened TsCodec
  import opened DemuxSpec

  // ---------- Reading at an absolute position is reading through the window ----------

  function Window(data: seq<byte>, base: nat): seq<byte> { if base <= |data| then data[base..] else [] }

  lemma WindowAt(data: seq<byte>, base: nat)
    ensures forall i: int {:trigger At(Window(data, base), i)} | i >= 0 ::
              At(Window(data, base), i) == At(data, base + i)
  {
  }

  lemma WindowTs(data: seq<byte>, base: nat, p: nat)
    ensures DecodeTs(Window(data, base), p) == DecodeTs(data, base + p)
  {
    hide Low, Bits, Window;
    WindowAt(data, base);
  }

  lemma WindowAdaptation(data: seq<byte>, base: nat, p: nat)
    ensures DecodeAdaptation(Window(data, base), p) == DecodeAdaptation(data, base + p)
  {
    hide Low, Bits, Window;
    WindowAt(data, base);
  }

  lemma WindowPcr(data: seq<byte>, base: nat, p: nat)
    ensures DecodePcr(Window(data, base), p) == DecodePcr(data, base + p)
  {
    hide Low, Bits, Window;
    WindowAt(data, base);
  }

  lemma WindowPts(data: seq<byte>, base: nat, p: nat)
    ensures DecodePts(Window(data, base), p) == DecodePts(data, base + p)
  {
    hide Low, Bits, Window;
    WindowAt(data, base);
  }

  lemma WindowPes(data: seq<byte>, base: nat, p: nat)
    ensures DecodePes(Window(data, base), p) == DecodePes(data, base + p)
  {
    hide Low, Bits, Window;
    WindowAt(data, base);
  }

  lemma WindowPat(data: seq<byte>, base: nat, p: nat)
    ensures DecodePat(Window(data, base), p) == DecodePat(data, base + p)
    ensures Word(Window(data, base), p + 10) == Word(data, base + p + 10)
  {
    hide Low, Bits, Window;
    WindowAt(data, base);
  }

  lemma WindowInfo(data: seq<byte>, base: nat, p: nat)
    ensures DecodeInfo(Window(data, base), p) == DecodeInfo(data, base + p)
  {
    hide Low, Bits, Window;
    WindowAt(data, base);
  }

  lemma {:induction false} WindowInfos(data: seq<byte>, base: nat, p: nat, remaining: int)
    ensures DecodeInfos(Window(data, base), p, remaining) == DecodeInfos(data, base + p, remaining)
    ensures base + InfosEnd(Window(data, base), p, remaining) == InfosEnd(data, base + p, remaining)
    decreases if remaining > 0 then remaining else 0
  {
    hide DecodeInfo, Window;
    if remaining > 0 {
      WindowInfo(data, base, p);
      var e := DecodeInfo(data, base + p);
      WindowInfos(data, base, p + InfoSize(e), remaining - InfoSize(e));
    }
  }

  lemma WindowPmt(data: seq<byte>, base: nat, p: nat, already: seq<PmtInfo>)
    ensures DecodePmt(already, Window(data, base), p) == DecodePmt(already, data, base + p)
    ensures base + PmtEnd(Window(data, base), p) == PmtEnd(data, base + p)
  {
    hide Low, Bits, Window, DecodeInfos, InfosEnd;
    assert DecodePmtFixed(Window(data, base), p) == DecodePmtFixed(data, base + p) by { WindowAt(data, base); }
    var h := DecodePmtFixed(data, base + p);
    WindowInfos(data, base, InfosStart(h, p), InfosBytes(h));
  }

  lemma WindowSlice(data: seq<byte>, base: nat, p: nat, n: int)
    requires base <= |data|
    ensures Slice(Window(data, base), p, n) == Slice(data, base + p, n)
  {
    if n > 0 && base + p + n <= |data| {
      assert data[base..][p..p + n] == data[base + p..base + p + n];
    }
  }

  class MpegTsDemuxer {
    var pmtId: u16
    var pcrId: u16
    var frames: map<u16, Es>
    var streamPids: map<byte, u16>
    var pat: PatHeader
    var patValid: bool
    var pmt: PmtHeader
    var pmtValid: bool
    const restData: SimpleBuffer
    // What the callbacks have been given so far.
    var trace: seq<Event>

    constructor ()
      ensures State() == INITIAL && trace == [] && restData.data == [] && fresh(restData)
    {
      pmtId, pcrId, frames, streamPids := 0, 0, map[], map[];
      pat, patValid, pmt, pmtValid := DEFAULT_PAT_HEADER, false, DEFAULT_PMT_HEADER, false;
      restData := new SimpleBuffer();
      trace := [];
    }

    function State(): DemuxSpec.State
      reads this
    {
      DemuxSpec.State(pmtId, pcrId, frames, streamPids, pat, patValid, pmt, pmtValid)
    }

    // Steps over an adaptation field whose contents do not matter.
    method SkipField(rIn: SimpleBuffer, h: TsHeader, base: nat) returns (ok: bool)
      requires rIn.pos == base + 4 && base + PACKET_SIZE <= |rIn.data|
      modifies rIn`pos
      ensures var w := Window(rIn.data, base);
              ok && SkipReach(h, w) <= |w| && rIn.pos == base + SkippedTo(h, w)
    {
      hide Low, Bits;
      ok := true;
      if HasAdaptation(h.adaptation) {
        WindowAdaptation(rIn.data, base, 4);
        var a;
        ok, a := ReadAdaptationHeader(rIn);
        rIn.Skip(if a.length > 0 then a.length - 1 else 0);
        WindowAt(rIn.data, base);
      }
    }

    method FindPat(rIn: SimpleBuffer, h: TsHeader, base: nat) returns (ok: bool)
      requires rIn.pos == base + 4 && base + PACKET_SIZE <= |rIn.data|
      modifies this`pat, this`pmtId, this`patValid, rIn`pos
      ensures var w := Window(rIn.data, base);
              (ok <==> PatReach(h, w) <= |w|) && (ok ==> State() == LearnPat(old(State()), h, w))
    {
      hide DecodePat, DecodeAdaptation, Low;
      ok := SkipField(rIn, h, base);
      if HasPayload(h.adaptation) {
        ghost var w := Window(rIn.data, base);
        if h.unitStart == 1 {
          if !rIn.Require(1) {
            return false;
          }
          var pointField := ReadU8(rIn);
        }
        ok := TakePat(rIn, base, PatStart(h, w));
      }
    }

    method TakePat(rIn: SimpleBuffer, ghost base: nat, ghost p: nat) returns (ok: bool)
      requires rIn.pos == base + p && base <= |rIn.data|
      modifies this`pat, this`pmtId, this`patValid, rIn`pos
      ensures var w := Window(rIn.data, base);
              (ok <==> p + 12 <= |w|)
              && (ok ==> pat == DecodePat(w, p) && pmtId == Low(Word(w, p + 10), 0x2000) && patValid)
    {
      hide DecodePat, Low, Word;
      WindowPat(rIn.data, base, p);
      if !rIn.Require(8) {
        return false;
      }
      pat := ReadPatHeader(rIn);
      if !rIn.Require(2) {
        return false;
      }
      var programNumber := ReadU16(rIn);
      if !rIn.Require(2) {
        return false;
      }
      var word := ReadU16(rIn);
      pmtId := Low(word, 0x2000);
      patValid := true;
      ok := true;
    }

    method FindPmt(rIn: SimpleBuffer, h: TsHeader, base: nat) returns (ok: bool)
      requires rIn.pos == base + 4 && base + PACKET_SIZE <= |rIn.data|
      modifies this`pmt, this`pcrId, this`frames, this`streamPids, this`pmtValid, rIn`pos
      ensures var w := Window(rIn.data, base);
              (ok <==> PmtReach(old(State()), h, w) <= |w|)
              && (ok ==> State() == LearnPmt(old(State()), h, w) && rIn.pos == base + AfterPmt(old(State()), h, w))
    {
      hide DecodePmt, PmtEnd, DecodeAdaptation;
      ok := true;
      if frames == map[] && pmtId != 0 && h.pid == pmtId {
        ok := SkipField(rIn, h, base);
        if h.unitStart == 1 {
          ghost var w := Window(rIn.data, base);
          ghost var p := SkippedTo(h, w) + 1;
          WindowPmt(rIn.data, base, p, pmt.infos);
          PmtEndLater(w, p);
          if !rIn.Require(1) {
            return false;
          }
          var pointField := ReadU8(rIn);
          var header;
          ok, header := ReadPmtHeader(rIn, pmt.infos);
          if !ok {
            return;
          }
          pmt, pcrId := header, header.pcrPid;
          AddStreams();
          pmtValid := true;
        }
      }
    }

    static lemma PmtEndLater(w: seq<byte>, p: nat)
      ensures PmtEnd(w, p) >= p + 12
    {
    }

    method AddStreams()
      modifies this`frames, this`streamPids
      ensures frames == AddFrames(old(frames), pmt.infos) && streamPids == AddPids(old(streamPids), pmt.infos)
    {
      var infos := pmt.infos;
      for i := 0 to |infos|
        invariant AddFrames(frames, infos[i..]) == AddFrames(old(frames), infos)
        invariant AddPids(streamPids, infos[i..]) == AddPids(old(streamPids), infos)
      {
        assert infos[i..][0] == infos[i] && infos[i..][1..] == infos[i + 1..];
        frames := frames[infos[i].pid := FreshEs(infos[i].streamType)];
        streamPids := streamPids[infos[i].streamType := infos[i].pid];
      }
      assert infos[|infos|..] == [];
    }

    static lemma SizeOfField(data: seq<byte>, p: nat)
      ensures var a := DecodeAdaptation(data, p); AdaptationSize(a) <= 2 && (a.pcr == 1 ==> AdaptationSize(a) == 2)
      ensures AdaptationSize(DecodeAdaptation(data, p)) == 1 ==> DecodeAdaptation(data, p).length == 0
    {
    }

    // The adaptation field of a stream packet.
    method ReadField(rIn: SimpleBuffer, h: TsHeader, base: nat, ghost p: nat) returns (ok: bool, randomAccess: byte)
      requires rIn.pos == base + p && base + PACKET_SIZE <= |rIn.data|
      modifies this`trace, rIn`pos
      ensures var w := Window(rIn.data, base);
              var prefix := ReadPrefix(h, w, p);
              (ok <==> prefix.reach <= |w|)
              && (ok ==> randomAccess == prefix.randomAccess && trace == old(trace) + prefix.clock
                         && rIn.pos == base + prefix.end)
    {
      hide DecodeAdaptation, DecodePcr;
      ok, randomAccess := true, 0;
      if HasAdaptation(h.adaptation) {
        WindowAdaptation(rIn.data, base, p);
        var a;
        ok, a := ReadAdaptationHeader(rIn);
        SizeOfField(rIn.data, base + p);
        if !ok {
          return;
        }
        randomAccess := a.randomAccess;
        var fieldLength: int := a.length;
        if a.pcr == 1 {
          WindowPcr(rIn.data, base, p + 2);
          if !rIn.Require(6) {
            return false, 0;
          }
          var pcr := ReadPcr(rIn);
          trace := trace + [Clock(pcr)];
          fieldLength := fieldLength - 6;
        }
        rIn.Skip(if fieldLength > 0 then fieldLength - 1 else 0);
      }
    }

    // A frame that is still open when the next one starts.
    method ClosePrevious(pid: u16, randomAccess: byte)
      requires pid in frames
      modifies this`frames, this`trace
      ensures var closed := CloseFrame(old(frames[pid]).(randomAccess := randomAccess), pid);
              frames == old(frames)[pid := closed.es] && trace == old(trace) + closed.events
    {
      frames := frames[pid := frames[pid].(randomAccess := randomAccess)];
      if frames[pid].completed {
        frames := frames[pid := ResetEs(frames[pid])];
      } else if frames[pid].data != [] {
        var es := frames[pid].(broken := true, pid := pid);
        trace := trace + [Frame(es)];
        frames := frames[pid := ResetEs(es)];
      }
    }

    method ReadHead(rIn: SimpleBuffer, pid: u16, base: nat, ghost p: nat) returns (ok: bool, pes: PesHeader)
      requires pid in frames && rIn.pos == base + p && base + PACKET_SIZE <= |rIn.data|
      modifies this`frames, rIn`pos
      ensures var w := Window(rIn.data, base);
              var size := 9 + StampSize(DecodePes(w, p).ptsDtsFlags);
              (ok <==> p + size <= |w|)
              && (ok ==> pes == DecodePes(w, p) && frames == old(frames)[pid := OpenFrame(old(frames[pid]), w, p)]
                         && rIn.pos == base + p + size)
    {
      hide DecodePes, DecodePts;
      pes := DEFAULT_PES_HEADER;
      WindowPes(rIn.data, base, p);
      if !rIn.Require(9) {
        return false, pes;
      }
      pes := ReadPesHeader(rIn);
      var es := frames[pid].(streamId := pes.streamId, expectedPes := pes.length);
      WindowPts(rIn.data, base, p + 9);
      WindowPts(rIn.data, base, p + 14);
      if pes.ptsDtsFlags == 2 {
        if !rIn.Require(5) {
          return false, pes;
        }
        var pts := ReadPts(rIn);
        es := es.(pts := pts, dts := pts);
      } else if pes.ptsDtsFlags == 3 {
        if !rIn.Require(5) {
          return false, pes;
        }
        var pts := ReadPts(rIn);
        if !rIn.Require(5) {
          return false, pes;
        }
        var dts := ReadPts(rIn);
        es := es.(pts := pts, dts := dts);
      }
      frames := frames[pid := es];
      ok := true;
    }

    method Deliver(pid: u16)
      requires pid in frames
      modifies this`frames, this`trace
      ensures var finished := Finish(old(frames[pid]), pid);
              frames == old(frames)[pid := finished.es] && trace == old(trace) + finished.events
    {
      var es := frames[pid].(completed := true, pid := pid);
      trace := trace + [Frame(es)];
      frames := frames[pid := ResetEs(es)];
    }

    method StartBody(rIn: SimpleBuffer, pid: u16, payloadLength: int, base: nat, ghost p: nat)
      requires pid in frames && rIn.pos == base + p && base + PACKET_SIZE <= |rIn.data|
      modifies this`frames, this`trace
      ensures var outcome := StartSized(old(frames[pid]), pid, payloadLength, Window(rIn.data, base), base, p);
              frames == old(frames)[pid := outcome.es] && trace == old(trace) + outcome.events
    {
      hide Window, Slice;
      var es := frames[pid].(expectedPayload := payloadLength % 0x1_0000);
      var n := if payloadLength + rIn.pos > PACKET_SIZE || payloadLength < 0 then PACKET_SIZE - (rIn.pos - base)
               else payloadLength;
      WindowSlice(rIn.data, base, p, n);
      es := es.(data := es.data + Slice(rIn.data, rIn.pos, n));
      frames := frames[pid := es];
      if |es.data| == payloadLength {
        Deliver(pid);
      }
    }

    method ContinueBody(rIn: SimpleBuffer, pid: u16, base: nat, ghost p: nat)
      requires pid in frames && rIn.pos == base + p && base + PACKET_SIZE <= |rIn.data|
      modifies this`frames, this`trace
      ensures var outcome := Continue(old(frames[pid]), pid, Window(rIn.data, base), p);
              frames == old(frames)[pid := outcome.es] && trace == old(trace) + outcome.events
    {
      hide Window, Slice;
      var es := frames[pid];
      var rest := PACKET_SIZE - (rIn.pos - base);
      var n := if es.expectedPes != 0 && |es.data| + rest > es.expectedPes then es.expectedPes - |es.data| else rest;
      WindowSlice(rIn.data, base, p, n);
      es := es.(data := es.data + Slice(rIn.data, rIn.pos, n));
      frames := frames[pid := es];
      if es.expectedPayload == |es.data| {
        Deliver(pid);
      }
    }

    method StartPes(rIn: SimpleBuffer, pid: u16, randomAccess: byte, base: nat, ghost p: nat) returns (ok: bool)
      requires pid in frames && rIn.pos == base + p && base + PACKET_SIZE <= |rIn.data|
      modifies this`frames, this`trace, rIn`pos
      ensures var w := Window(rIn.data, base);
              var outcome := StartFrame(old(frames[pid]), pid, randomAccess, w, base, p);
              (ok <==> p + 9 + StampSize(DecodePes(w, p).ptsDtsFlags) <= |w|)
              && (ok ==> frames == old(frames)[pid := outcome.es] && trace == old(trace) + outcome.events)
    {
      hide DecodePes, CloseFrame, OpenFrame, StartSized, Continue, Window;
      ClosePrevious(pid, randomAccess);
      var pes;
      ok, pes := ReadHead(rIn, pid, base, p);
      if !ok {
        return;
      }
      ghost var q := p + 9 + StampSize(pes.ptsDtsFlags);
      if pes.length != 0 {
        StartBody(rIn, pid, pes.length - 3 - pes.headerDataLength, base, q);
      } else {
        ContinueBody(rIn, pid, base, q);
      }
    }

    method EsPacket(rIn: SimpleBuffer, h: TsHeader, base: nat, ghost p: nat) returns (ok: bool)
      requires h.pid in frames && rIn.pos == base + p && base + PACKET_SIZE <= |rIn.data|
      modifies this`frames, this`trace, rIn`pos
      ensures var w := Window(rIn.data, base);
              var outcome := EsStep(old(frames[h.pid]), h, w, base, p);
              (ok <==> EsReach(h, w, p) <= |w|)
              && (ok ==> frames == old(frames)[h.pid := outcome.es] && trace == old(trace) + outcome.events)
    {
      hide DecodePes, StartFrame, Continue, Window, ReadPrefix;
      ghost var w := Window(rIn.data, base);
      PrefixBefore(h, w, p);
      var randomAccess;
      ok, randomAccess := ReadField(rIn, h, base, p);
      if !ok {
        return;
      }
      ghost var q := ReadPrefix(h, w, p).end;
      if HasPayload(h.adaptation) {
        if h.unitStart == 1 {
          ok := StartPes(rIn, h.pid, randomAccess, base, q);
        } else {
          ContinueBody(rIn, h.pid, base, q);
        }
      } else {
        assert frames == frames[h.pid := frames[h.pid]];
      }
    }

    static lemma PrefixBefore(h: TsHeader, w: seq<byte>, p: nat)
      ensures ReadPrefix(h, w, p).reach <= ReadPrefix(h, w, p).end
    {
      hide DecodePcr;
    }

    // One packet; the cursor ends exactly one packet further on.
    method DecodePacket(rIn: SimpleBuffer) returns (ok: bool)
      requires Consistent(State()) && 0 <= rIn.pos && rIn.pos + PACKET_SIZE <= |rIn.data|
      modifies this, rIn`pos
      ensures var w := Window(rIn.data, old(rIn.pos));
              var outcome := Step(old(State()), w, old(rIn.pos));
              (ok <==> Reach(old(State()), w) <= |w|)
              && (ok ==> State() == outcome.state && trace == old(trace) + outcome.events
                         && rIn.pos == old(rIn.pos) + PACKET_SIZE && Consistent(State()))
    {
      hide DecodeTs, LearnPat, LearnPmt, AfterPmt, PatReach, PmtReach, EsStep, EsReach, DecodePcr, DecodeAdaptation,
        Window;
      var base := rIn.pos;
      ghost var st, w := State(), Window(rIn.data, base);
      WindowTs(rIn.data, base, 0);
      WindowSize(rIn.data, base);
      var h := ReadTsHeader(rIn);
      if h.pid == 0 && pmtId == 0 {
        ok := FindPat(rIn, h, base);
        LearnedPat(st, h, w);
      } else {
        ok := FindPmt(rIn, h, base);
        LearnedPmt(st, h, w);
        if ok {
          ghost var p := AfterPmt(st, h, w);
          if h.pid in frames {
            ok := EsPacket(rIn, h, base, p);
          } else if pcrId != 0 && pcrId == h.pid {
            ok := ClockOnly(rIn, base, p);
          }
        }
      }
      rIn.Skip(PACKET_SIZE - (rIn.pos - base));
    }

    static lemma WindowSize(data: seq<byte>, base: nat)
      requires base <= |data|
      ensures |Window(data, base)| == |data| - base
    {
    }

    static lemma LearnedPat(st: DemuxSpec.State, h: TsHeader, w: seq<byte>)
      requires Consistent(st) && st.pmtId == 0
      ensures Consistent(LearnPat(st, h, w))
    {
      hide DecodePat;
    }

    static lemma LearnedPmt(st: DemuxSpec.State, h: TsHeader, w: seq<byte>)
      requires Consistent(st)
      ensures Consistent(LearnPmt(st, h, w)) && (LearnPmt(st, h, w).pmtId == st.pmtId)
    {
      hide DecodePmt, AddFrames, AddPids;
    }

    method ClockOnly(rIn: SimpleBuffer, base: nat, ghost p: nat) returns (ok: bool)
      requires rIn.pos == base + p && base + PACKET_SIZE <= |rIn.data|
      modifies this`trace, rIn`pos
      ensures var w := Window(rIn.data, base);
              var q := p + AdaptationSize(DecodeAdaptation(w, p));
              (ok <==> q + 6 <= |w|) && (ok ==> trace == old(trace) + [Clock(DecodePcr(w, q))])
    {
      hide DecodeAdaptation, DecodePcr;
      WindowAdaptation(rIn.data, base, p);
      var a;
      ok, a := ReadAdaptationHeader(rIn);
      if !ok {
        return;
      }
      WindowPcr(rIn.data, base, p + AdaptationSize(a));
      if !rIn.Require(6) {
        return false;
      }
      var pcr := ReadPcr(rIn);
      trace := trace + [Clock(pcr)];
    }

    /**
     One call on any bytes: it either aborts, exactly when some header would be read past the
     end of the buffer, or decodes every whole packet and keeps what is left.
     */
    method Decode(rIn: SimpleBuffer) returns (ok: bool)
      requires Consistent(State()) && rIn != restData && 0 <= rIn.pos
      modifies this, restData, rIn
      ensures var call := DecodeFrom(old(State()), old(restData.data) + old(rIn.data), old(rIn.pos));
              (ok <==> call.Returned?)
              && (ok ==> State() == call.state && trace == old(trace) + call.events && restData.data == call.rest
                         && |restData.data| < PACKET_SIZE
                         && rIn.data == [] && rIn.pos == 0 && Consistent(State()))
    {
      hide Step, Reach, Window, DecodeFrom;
      if restData.data != [] {
        rIn.Prepend(restData.data);
        restData.Clear();
      }
      assert rIn.data == old(restData.data) + old(rIn.data);
      ghost var call := DecodeFrom(State(), rIn.data, rIn.pos);
      ghost var trace0 := trace;
      while |rIn.data| - rIn.pos >= PACKET_SIZE
        invariant 0 <= rIn.pos && Consistent(State()) && restData.data == []
        invariant rIn.data == old(restData.data) + old(rIn.data)
        invariant trace0 <= trace && Follows(call, trace0, trace, DecodeFrom(State(), rIn.data, rIn.pos))
        decreases |rIn.data| - rIn.pos
      {
        OneTurn(State(), rIn.data, rIn.pos, trace0, trace);
        ok := DecodePacket(rIn);
        if !ok {
          return;
        }
      }
      LastTurn(State(), rIn.data, rIn.pos, trace0, trace);
      if |rIn.data| - rIn.pos > 0 {
        restData.Append(rIn.data[rIn.pos..]);
      }
      rIn.Clear();
      ok := true;
    }

    // The call is what has been reported since it began, and then what is still to come.
    static ghost predicate Follows(call: Call, before: seq<Event>, trace: seq<Event>, more: Call)
      requires before <= trace
    {
      call == After(trace[|before|..], more)
    }

    // What is to come, taken apart at its first packet.
    static lemma OneTurn(st: DemuxSpec.State, data: seq<byte>, pos: nat, before: seq<Event>, trace: seq<Event>)
      requires pos + PACKET_SIZE <= |data| && before <= trace
      ensures var w := Window(data, pos);
              var call, outcome := DecodeFrom(st, data, pos), Step(st, w, pos);
              if Reach(st, w) > |w| then call == Aborted
              else before <= trace + outcome.events
                   && After(trace[|before|..], call)
                      == After((trace + outcome.events)[|before|..], DecodeFrom(outcome.state, data, pos + PACKET_SIZE))
    {
      hide Step, Reach;
      var w := Window(data, pos);
      var outcome := Step(st, w, pos);
      AfterAfter(trace[|before|..], outcome.events, DecodeFrom(outcome.state, data, pos + PACKET_SIZE));
      assert (trace + outcome.events)[|before|..] == trace[|before|..] + outcome.events;
    }

    static lemma LastTurn(st: DemuxSpec.State, data: seq<byte>, pos: nat, before: seq<Event>, trace: seq<Event>)
      requires |data| - pos < PACKET_SIZE && before <= trace
      ensures var call := After(trace[|before|..], DecodeFrom(st, data, pos));
              call.Returned? && call.state == st && before + call.events == trace
              && call.rest == (if pos <= |data| then data[pos..] else []) && |call.rest| < PACKET_SIZE
    {
      assert trace[|before|..] + [] == trace[|before|..];
    }
  }
}
