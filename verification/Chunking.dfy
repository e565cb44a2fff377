/**
 Decoding does not depend on how the byte stream is cut into calls as long as every packet
 keeps to itself: no header is read past its end, and a payload that starts in a packet
 fills it. That this is exactly the condition is proved in Cuts.
 */
module Chunking {
  import opened Bytes
  import opened TsFields
  import opened DemuxSpec

  // ---------- What a packet does depends on its own bytes only ----------

  // Two windows onto the same packet.
  predicate SamePacket(w: seq<byte>, v: seq<byte>) {
    |w| >= PACKET_SIZE && |v| >= PACKET_SIZE && forall i | 0 <= i < PACKET_SIZE :: At(w, i) == At(v, i)
  }

  lemma SlicesAgree(w: seq<byte>, v: seq<byte>, p: nat, n: int)
    requires SamePacket(w, v) && p + n <= PACKET_SIZE
    ensures Slice(w, p, n) == Slice(v, p, n)
  {
    if n > 0 {
      var a, b := w[p..p + n], v[p..p + n];
      forall i | 0 <= i < n
        ensures a[i] == b[i]
      {
        assert At(w, p + i) == At(v, p + i);
      }
    }
  }

  lemma InfoAgrees(w: seq<byte>, v: seq<byte>, p: nat)
    requires SamePacket(w, v) && p + 5 <= PACKET_SIZE
    ensures DecodeInfo(v, p) == DecodeInfo(w, p)
  {
    hide Bits, Low;
  }

  lemma {:induction false} InfosAgree(w: seq<byte>, v: seq<byte>, p: nat, remaining: int)
    requires SamePacket(w, v) && InfosEnd(w, p, remaining) <= PACKET_SIZE
    ensures InfosEnd(v, p, remaining) == InfosEnd(w, p, remaining)
    ensures DecodeInfos(v, p, remaining) == DecodeInfos(w, p, remaining)
    decreases if remaining > 0 then remaining else 0
  {
    hide DecodeInfo, SamePacket;
    if remaining > 0 {
      var e := DecodeInfo(w, p);
      InfoAgrees(w, v, p);
      InfosAgree(w, v, p + InfoSize(e), remaining - InfoSize(e));
    }
  }

  lemma PmtAgrees(already: seq<PmtInfo>, w: seq<byte>, v: seq<byte>, p: nat)
    requires SamePacket(w, v) && PmtEnd(w, p) <= PACKET_SIZE
    ensures PmtEnd(v, p) == PmtEnd(w, p)
    ensures DecodePmt(already, v, p) == DecodePmt(already, w, p)
  {
    hide Bits, Low;
    var h := DecodePmtFixed(w, p);
    assert p + 12 <= InfosStart(h, p) <= PmtEnd(w, p);
    assert DecodePmtFixed(v, p) == h;
    InfosAgree(w, v, InfosStart(h, p), InfosBytes(h));
  }

  lemma PrefixAgrees(h: TsHeader, w: seq<byte>, v: seq<byte>, p: nat)
    requires SamePacket(w, v) && ReadPrefix(h, w, p).reach <= PACKET_SIZE
    ensures ReadPrefix(h, v, p) == ReadPrefix(h, w, p)
  {
    hide Bits, Low;
    if HasAdaptation(h.adaptation) {
      assert At(v, p) == At(w, p);
      var a := DecodeAdaptation(w, p);
      if a.length != 0 {
        assert At(v, p + 1) == At(w, p + 1);
      }
      assert DecodeAdaptation(v, p) == a;
    }
  }

  lemma PesAgrees(w: seq<byte>, v: seq<byte>, p: nat)
    requires SamePacket(w, v) && p + 9 <= PACKET_SIZE
    ensures DecodePes(v, p) == DecodePes(w, p)
  {
    hide Bits, Low;
  }

  lemma StampAgrees(w: seq<byte>, v: seq<byte>, p: nat)
    requires SamePacket(w, v) && p + 5 <= PACKET_SIZE
    ensures DecodePts(v, p) == DecodePts(w, p)
  {
    hide Bits, Low;
  }

  lemma OpenAgrees(es: Es, w: seq<byte>, v: seq<byte>, p: nat)
    requires SamePacket(w, v) && p + 9 + StampSize(DecodePes(w, p).ptsDtsFlags) <= PACKET_SIZE
    ensures OpenFrame(es, v, p) == OpenFrame(es, w, p)
  {
    hide DecodePts, SamePacket;
    var flags := DecodePes(w, p).ptsDtsFlags;
    PesAgrees(w, v, p);
    if flags == 2 {
      StampAgrees(w, v, p + 9);
    } else if flags == 3 {
      StampAgrees(w, v, p + 9);
      StampAgrees(w, v, p + 14);
    }
  }

  lemma StartAgrees(es: Es, pid: u16, ra: byte, w: seq<byte>, v: seq<byte>, base: nat, p: nat)
    requires SamePacket(w, v) && p + 9 + StampSize(DecodePes(w, p).ptsDtsFlags) <= PACKET_SIZE
    ensures StartFrame(es, pid, ra, v, base, p) == StartFrame(es, pid, ra, w, base, p)
  {
    hide SamePacket, Slice, OpenFrame, CloseFrame;
    PesAgrees(w, v, p);
    var closed := CloseFrame(es.(randomAccess := ra), pid).es;
    OpenAgrees(closed, w, v, p);
    var begun := OpenFrame(closed, w, p);
    var pes := DecodePes(w, p);
    var q := p + 9 + StampSize(pes.ptsDtsFlags);
    if pes.length != 0 {
      var payload := PayloadLength(pes);
      SlicesAgree(w, v, q, if payload + base + q > PACKET_SIZE || payload < 0 then PACKET_SIZE - q else payload);
    } else {
      ContinueAgrees(begun, pid, w, v, q);
    }
  }

  lemma ContinueAgrees(es: Es, pid: u16, w: seq<byte>, v: seq<byte>, p: nat)
    requires SamePacket(w, v)
    ensures Continue(es, pid, v, p) == Continue(es, pid, w, p)
  {
    hide SamePacket, Slice;
    var rest := PACKET_SIZE - p;
    SlicesAgree(w, v, p, if es.expectedPes != 0 && |es.data| + rest > es.expectedPes then es.expectedPes - |es.data|
                else rest);
  }

  lemma EsAgrees(es: Es, h: TsHeader, w: seq<byte>, v: seq<byte>, base: nat, p: nat)
    requires SamePacket(w, v) && EsReach(h, w, p) <= PACKET_SIZE
    ensures EsStep(es, h, v, base, p) == EsStep(es, h, w, base, p)
    ensures EsReach(h, v, p) == EsReach(h, w, p)
    ensures EsFills(h, v, p) == EsFills(h, w, p)
  {
    hide SamePacket, StartFrame, Continue, DecodePes;
    PrefixFits(h, w, p);
    PrefixAgrees(h, w, v, p);
    var prefix := ReadPrefix(h, w, p);
    if HasPayload(h.adaptation) {
      if h.unitStart == 1 {
        PesAgrees(w, v, prefix.end);
        StartAgrees(es, h.pid, prefix.randomAccess, w, v, base, prefix.end);
      } else {
        ContinueAgrees(es, h.pid, w, v, prefix.end);
      }
    }
  }

  lemma PrefixFits(h: TsHeader, w: seq<byte>, p: nat)
    requires EsReach(h, w, p) <= PACKET_SIZE
    ensures ReadPrefix(h, w, p).reach <= PACKET_SIZE
  {
  }

  lemma PatAgrees(st: State, h: TsHeader, w: seq<byte>, v: seq<byte>)
    requires SamePacket(w, v) && PatReach(h, w) <= PACKET_SIZE
    ensures LearnPat(st, h, v) == LearnPat(st, h, w) && PatReach(h, v) == PatReach(h, w)
  {
    hide Bits, Low;
    assert At(v, 4) == At(w, 4);
  }

  lemma LearnAgrees(st: State, h: TsHeader, w: seq<byte>, v: seq<byte>)
    requires SamePacket(w, v) && PmtReach(st, h, w) <= PACKET_SIZE
    ensures LearnPmt(st, h, v) == LearnPmt(st, h, w)
    ensures AfterPmt(st, h, v) == AfterPmt(st, h, w) && PmtReach(st, h, v) == PmtReach(st, h, w)
  {
    hide Bits, Low, DecodePmt, PmtEnd, AddFrames, AddPids;
    assert At(v, 4) == At(w, 4) && At(v, 5) == At(w, 5);
    if IsPmt(st, h) && h.unitStart == 1 {
      PmtAgrees(st.pmt.infos, w, v, SkippedTo(h, w) + 1);
    }
  }

  lemma HeaderAgrees(w: seq<byte>, v: seq<byte>)
    requires SamePacket(w, v)
    ensures DecodeTs(v, 0) == DecodeTs(w, 0)
  {
    hide Bits, Low;
  }

  lemma ClockAgrees(w: seq<byte>, v: seq<byte>, p: nat)
    requires SamePacket(w, v) && p + AdaptationSize(DecodeAdaptation(w, p)) + 6 <= PACKET_SIZE
    ensures AdaptationSize(DecodeAdaptation(v, p)) == AdaptationSize(DecodeAdaptation(w, p))
    ensures var q := p + AdaptationSize(DecodeAdaptation(w, p)); DecodePcr(v, q) == DecodePcr(w, q)
  {
    hide Bits, Low;
  }

  /** What a packet that keeps to itself does is settled by its own 188 bytes. */
  lemma StepAgrees(st: State, w: seq<byte>, v: seq<byte>, base: nat)
    requires SamePacket(w, v) && Reach(st, w) <= PACKET_SIZE
    ensures Step(st, v, base) == Step(st, w, base)
    ensures Reach(st, v) == Reach(st, w) && Fills(st, v) == Fills(st, w)
  {
    hide SamePacket, DecodeTs, LearnPat, LearnPmt, AfterPmt, PatReach, PmtReach, EsStep, EsReach, EsFills, DecodePcr,
      DecodeAdaptation;
    HeaderAgrees(w, v);
    var h := DecodeTs(w, 0);
    if h.pid == 0 && st.pmtId == 0 {
      PatAgrees(st, h, w, v);
    } else {
      LearnAgrees(st, h, w, v);
      var st' := LearnPmt(st, h, w);
      if h.pid in st'.frames {
        EsAgrees(st'.frames[h.pid], h, w, v, base, AfterPmt(st, h, w));
      } else if st'.pcrId != 0 && st'.pcrId == h.pid {
        ClockAgrees(w, v, AfterPmt(st, h, w));
      }
    }
  }

  // ---------- Where a packet lies in the buffer ----------

  // A packet that is not sensitive to its surroundings.
  predicate Tame(st: State, w: seq<byte>) {
    Reach(st, w) <= PACKET_SIZE && Fills(st, w)
  }

  lemma StartAnywhere(es: Es, pid: u16, ra: byte, w: seq<byte>, base: nat, p: nat)
    requires p + 9 + StampSize(DecodePes(w, p).ptsDtsFlags) <= PACKET_SIZE
    requires DecodePes(w, p).length != 0 ==>
               var payload := PayloadLength(DecodePes(w, p));
               payload < 0 || p + 9 + StampSize(DecodePes(w, p).ptsDtsFlags) + payload >= PACKET_SIZE
    ensures StartFrame(es, pid, ra, w, base, p) == StartFrame(es, pid, ra, w, 0, p)
  {
    hide DecodePes, OpenFrame, CloseFrame, Continue, Slice;
  }

  lemma StepAnywhere(st: State, w: seq<byte>, base: nat)
    requires Tame(st, w)
    ensures Step(st, w, base) == Step(st, w, 0)
  {
    hide DecodeTs, LearnPat, LearnPmt, AfterPmt, PatReach, PmtReach, ReadPrefix, DecodePes, StartFrame, Continue;
    var h := DecodeTs(w, 0);
    var st' := LearnPmt(st, h, w);
    if !(h.pid == 0 && st.pmtId == 0) && h.pid in st'.frames && HasPayload(h.adaptation) && h.unitStart == 1 {
      var prefix := ReadPrefix(h, w, AfterPmt(st, h, w));
      StartAnywhere(st'.frames[h.pid], h.pid, prefix.randomAccess, w, base, prefix.end);
    }
  }

  // ---------- Whole streams ----------

  // The reference: the stream cut into packets, each decoded alone at position 0.
  function Run(st: State, s: seq<byte>): (call: Call)
    ensures call.Returned? && |call.rest| < PACKET_SIZE
    decreases |s|
  {
    if |s| < PACKET_SIZE then Returned(st, [], s) else
      var outcome := Step(st, s[..PACKET_SIZE], 0);
      After(outcome.events, Run(outcome.state, s[PACKET_SIZE..]))
  }

  predicate TameRun(st: State, s: seq<byte>)
    decreases |s|
  {
    |s| >= PACKET_SIZE ==>
      Tame(st, s[..PACKET_SIZE]) && TameRun(Step(st, s[..PACKET_SIZE], 0).state, s[PACKET_SIZE..])
  }

  lemma FirstPacket(st: State, s: seq<byte>, base: nat)
    requires |s| >= PACKET_SIZE && Tame(st, s[..PACKET_SIZE])
    ensures Reach(st, s) <= PACKET_SIZE && Step(st, s, base) == Step(st, s[..PACKET_SIZE], 0)
  {
    hide Step, Reach, Fills;
    StepAgrees(st, s[..PACKET_SIZE], s, base);
    StepAnywhere(st, s[..PACKET_SIZE], base);
  }

  /** A call decodes its packets one by one, wherever in the buffer they lie. */
  lemma {:induction false} DecodeIsRun(st: State, before: seq<byte>, s: seq<byte>)
    requires TameRun(st, s)
    ensures DecodeFrom(st, before + s, |before|) == Run(st, s)
    decreases |s|
  {
    hide Step, Reach, Tame;
    var buffer := before + s;
    assert buffer[|before|..] == s;
    if |s| >= PACKET_SIZE {
      FirstPacket(st, s, |before|);
      var before', s' := before + s[..PACKET_SIZE], s[PACKET_SIZE..];
      assert before' + s' == buffer;
      DecodeIsRun(Step(st, s[..PACKET_SIZE], 0).state, before', s');
    }
  }

  // Whole packets at the front of a stream can be run first.
  lemma {:induction false} RunConcat(st: State, a: seq<byte>, b: seq<byte>)
    ensures var first := Run(st, a); Run(st, a + b) == After(first.events, Run(first.state, first.rest + b))
    ensures TameRun(st, a + b) <==> TameRun(st, a) && TameRun(Run(st, a).state, Run(st, a).rest + b)
    decreases |a|
  {
    hide Step, Tame;
    if |a| < PACKET_SIZE {
      assert Run(st, a) == Returned(st, [], a);
      assert After([], Run(st, a + b)) == Run(st, a + b) by {
        var r := Run(st, a + b);
        assert [] + r.events == r.events;
      }
    } else {
      assert (a + b)[..PACKET_SIZE] == a[..PACKET_SIZE] && (a + b)[PACKET_SIZE..] == a[PACKET_SIZE..] + b;
      var outcome := Step(st, a[..PACKET_SIZE], 0);
      RunConcat(outcome.state, a[PACKET_SIZE..], b);
      var first := Run(outcome.state, a[PACKET_SIZE..]);
      AfterAfter(outcome.events, first.events, Run(first.state, first.rest + b));
    }
  }

  // The stream given to the demuxer chunk by chunk, a call for each.
  function Feed(st: State, rest: seq<byte>, chunks: seq<seq<byte>>): Call
    decreases |chunks|
  {
    if chunks == [] then Returned(st, [], rest) else
      match DecodeFrom(st, rest + chunks[0], 0)
      case Aborted => Aborted
      case Returned(st', events, rest') => After(events, Feed(st', rest', chunks[1..]))
  }

  function Concat(chunks: seq<seq<byte>>): seq<byte> {
    if chunks == [] then [] else chunks[0] + Concat(chunks[1..])
  }

  lemma {:induction false} FeedIsRun(st: State, rest: seq<byte>, chunks: seq<seq<byte>>)
    requires |rest| < PACKET_SIZE && TameRun(st, rest + Concat(chunks))
    ensures Feed(st, rest, chunks) == Run(st, rest + Concat(chunks))
    decreases |chunks|
  {
    if chunks == [] {
      assert rest + Concat(chunks) == rest;
    } else {
      var a, b := rest + chunks[0], Concat(chunks[1..]);
      assert rest + Concat(chunks) == a + b;
      RunConcat(st, a, b);
      DecodeIsRun(st, [], a);
      assert [] + a == a;
      var first := Run(st, a);
      FeedIsRun(first.state, first.rest, chunks[1..]);
    }
  }

  // Every header ends inside its packet, and every packet but the first is filled by a payload
  // that starts in it: the first lies at the start of its buffer wherever the stream is cut.
  predicate SafeRun(st: State, s: seq<byte>) {
    |s| >= PACKET_SIZE ==>
      Reach(st, s[..PACKET_SIZE]) <= PACKET_SIZE && TameRun(Step(st, s[..PACKET_SIZE], 0).state, s[PACKET_SIZE..])
  }

  lemma SafeDecode(st: State, s: seq<byte>)
    requires SafeRun(st, s)
    ensures DecodeFrom(st, s, 0) == Run(st, s)
  {
    hide Step, Reach, Tame;
    assert s[0..] == s;
    if |s| >= PACKET_SIZE {
      var p, more := s[..PACKET_SIZE], s[PACKET_SIZE..];
      StepAgrees(st, p, s, 0);
      DecodeIsRun(Step(st, p, 0).state, p, more);
      assert p + more == s;
    }
  }

  lemma SafePrefix(st: State, a: seq<byte>, b: seq<byte>)
    requires SafeRun(st, a + b)
    ensures SafeRun(st, a)
    ensures |a| >= PACKET_SIZE ==> TameRun(Run(st, a).state, Run(st, a).rest + b)
  {
    hide Step, Reach, Tame, TameRun;
    if |a| >= PACKET_SIZE {
      assert (a + b)[..PACKET_SIZE] == a[..PACKET_SIZE] && (a + b)[PACKET_SIZE..] == a[PACKET_SIZE..] + b;
      RunConcat(Step(st, a[..PACKET_SIZE], 0).state, a[PACKET_SIZE..], b);
    }
  }

  lemma {:induction false} SafeFeed(st: State, rest: seq<byte>, chunks: seq<seq<byte>>)
    requires |rest| < PACKET_SIZE && SafeRun(st, rest + Concat(chunks))
    ensures Feed(st, rest, chunks) == Run(st, rest + Concat(chunks))
    decreases |chunks|
  {
    hide SafeRun, TameRun, DecodeFrom;
    if chunks == [] {
      assert rest + Concat(chunks) == rest;
    } else {
      var a, b := rest + chunks[0], Concat(chunks[1..]);
      assert rest + Concat(chunks) == a + b;
      SafePrefix(st, a, b);
      SafeDecode(st, a);
      RunConcat(st, a, b);
      if |a| < PACKET_SIZE {
        SafeFeed(st, a, chunks[1..]);
      } else {
        FeedIsRun(Run(st, a).state, Run(st, a).rest, chunks[1..]);
      }
    }
  }

  /**
   However a safe stream is cut, the callbacks are given the same events in the same order,
   and the final state and remainder are the same, as when it is given in one call; the
   remainder is shorter than a packet.
   */
  lemma ChunkIndependence(st: State, rest: seq<byte>, chunks: seq<seq<byte>>)
    requires |rest| < PACKET_SIZE && SafeRun(st, rest + Concat(chunks))
    ensures Feed(st, rest, chunks) == DecodeFrom(st, rest + Concat(chunks), 0)
    ensures Feed(st, rest, chunks).Returned? && |Feed(st, rest, chunks).rest| < PACKET_SIZE
  {
    hide SafeRun, Feed, DecodeFrom;
    SafeFeed(st, rest, chunks);
    SafeDecode(st, rest + Concat(chunks));
  }

  // ---------- Composing runs ----------

  // s is whole packets, all tame, and takes the demuxer from st to st' with these events.
  predicate Yields(st: State, s: seq<byte>, st': State, events: seq<Event>) {
    |s| % PACKET_SIZE == 0 && TameRun(st, s) && Run(st, s) == Returned(st', events, [])
  }

  lemma YieldsNothing(st: State)
    ensures Yields(st, [], st, [])
  {
  }

  lemma YieldsOne(st: State, p: seq<byte>, st': State, events: seq<Event>)
    requires |p| == PACKET_SIZE && Tame(st, p) && Step(st, p, 0) == Outcome(st', events)
    ensures Yields(st, p, st', events)
  {
    hide Tame, Step;
    assert p[..PACKET_SIZE] == p && p[PACKET_SIZE..] == [];
    assert Run(st', []) == Returned(st', [], []) && TameRun(st', []);
    assert Run(st, p) == After(events, Run(st', []));
    assert events + [] == events;
  }

  lemma YieldsThen(st: State, a: seq<byte>, st': State, e: seq<Event>, b: seq<byte>, st'': State, e': seq<Event>)
    requires Yields(st, a, st', e) && Yields(st', b, st'', e')
    ensures Yields(st, a + b, st'', e + e')
  {
    hide Tame, Step;
    RunConcat(st, a, b);
    WholePackets(|a|, |b|);
    assert [] + b == b;
  }
}
