/**
 Streams that are decoded alike however they are cut: exactly those in which no header is
 read past its packet and every packet after the first is filled by a payload that starts in it.
 */
module Cuts {
  import opened Bytes
  import opened TsFields
  import opened DemuxSpec
  import opened Chunking
  import opened Frames

  // ---------- Calls over safe packets followed by anything ----------

  lemma {:induction false} RunWhole(st: State, a: seq<byte>)
    requires |a| % PACKET_SIZE == 0
    ensures Run(st, a).rest == []
    decreases |a|
  {
    hide Step;
    if |a| < PACKET_SIZE {
      assert |a| == 0;
    } else {
      RunWhole(Step(st, a[..PACKET_SIZE], 0).state, a[PACKET_SIZE..]);
    }
  }

  // Tame packets at the front of a buffer, followed by anything.
  lemma {:induction false} DecodePrefix(st: State, before: seq<byte>, a: seq<byte>, b: seq<byte>)
    requires |a| % PACKET_SIZE == 0 && TameRun(st, a)
    ensures var first := Run(st, a);
            DecodeFrom(st, before + a + b, |before|)
            == After(first.events, DecodeFrom(first.state, before + a + b, |before| + |a|))
    decreases |a|
  {
    hide Step, Reach, Fills, Run, TameRun, DecodeFrom;
    var buffer := before + a + b;
    if a == [] {
      EmptyRun(st);
      NothingBefore(DecodeFrom(st, buffer, |before|));
    } else {
      OneOrMore(|a|);
      var a0, a1 := a[..PACKET_SIZE], a[PACKET_SIZE..];
      TameFirst(st, a);
      RunFirst(st, a);
      StepAnywhere(st, a0, |before|);
      var outcome := Step(st, a0, 0);
      assert before + (a0 + (a1 + b)) == buffer && before + a0 + a1 + b == buffer;
      ThenPacket(st, before, a0, a1 + b);
      DecodePrefix(outcome.state, before + a0, a1, b);
      var first := Run(outcome.state, a1);
      AfterAfter(outcome.events, first.events, DecodeFrom(first.state, buffer, |before| + |a|));
    }
  }

  lemma NothingBefore(call: Call)
    ensures After([], call) == call
  {
    if call.Returned? {
      assert [] + call.events == call.events;
    }
  }

  lemma TameFirst(st: State, a: seq<byte>)
    requires |a| >= PACKET_SIZE && TameRun(st, a)
    ensures var a0 := a[..PACKET_SIZE]; Tame(st, a0) && TameRun(Step(st, a0, 0).state, a[PACKET_SIZE..])
  {
    hide Step, Tame;
  }

  lemma SafeFront(st: State, a: seq<byte>, b: seq<byte>)
    requires a != [] && |a| % PACKET_SIZE == 0 && SafeRun(st, a)
    ensures var first := Run(st, a);
            DecodeFrom(st, a + b, 0) == After(first.events, DecodeFrom(first.state, a + b, |a|))
  {
    hide Step, Reach, TameRun, Run, DecodeFrom;
    OneOrMore(|a|);
    var p, more := a[..PACKET_SIZE], a[PACKET_SIZE..];
    var st', events := Step(st, p, 0).state, Step(st, p, 0).events;
    RunFirst(st, a);
    assert p + (more + b) == a + b && p + more + b == a + b && [] + (p + (more + b)) == a + b;
    ThenPacket(st, [], p, more + b);
    DecodePrefix(st', p, more, b);
    var first := Run(st', more);
    AfterAfter(events, first.events, DecodeFrom(first.state, a + b, |a|));
  }

  lemma OneOrMore(n: nat)
    requires n != 0 && n % PACKET_SIZE == 0
    ensures n >= PACKET_SIZE && (n - PACKET_SIZE) % PACKET_SIZE == 0
  {
    ModUnique(n - 188, 188, n / 188 - 1, 0);
  }

  lemma RunFirst(st: State, s: seq<byte>)
    requires |s| >= PACKET_SIZE
    ensures var outcome := Step(st, s[..PACKET_SIZE], 0);
            Run(st, s) == After(outcome.events, Run(outcome.state, s[PACKET_SIZE..]))
  {
    hide Step;
  }

  // The packet at position |a| of a buffer, if its headers end inside it.
  lemma ThenPacket(st: State, a: seq<byte>, q: seq<byte>, c: seq<byte>)
    requires |q| == PACKET_SIZE && Reach(st, q) <= PACKET_SIZE
    ensures var outcome := Step(st, q, |a|);
            DecodeFrom(st, a + (q + c), |a|)
            == After(outcome.events, DecodeFrom(outcome.state, a + (q + c), |a| + PACKET_SIZE))
  {
    hide Step, Reach;
    var w := (a + (q + c))[|a|..];
    assert w == q + c;
    StepAgrees(st, q, w, |a|);
  }

  // A header read past the end of the last packet of a buffer is an abort.
  lemma ThenOverrun(st: State, a: seq<byte>, q: seq<byte>)
    requires |q| == PACKET_SIZE && Reach(st, q) > PACKET_SIZE
    ensures DecodeFrom(st, a + q, |a|) == Aborted
  {
    hide Step, Reach;
    assert (a + q)[|a|..] == q;
  }

  // ---------- A payload that ends before its packet ----------

  // The object of a PID holds more bytes than its frame should have: it can only be pushed out.
  predicate Stuck(st: State, pid: u16) {
    pid in st.frames && Overfull(st.frames[pid])
  }

  predicate Overfull(es: Es) {
    !es.completed && es.data != [] && |es.data| > es.expectedPayload
  }

  lemma ShortStart(es: Es, pid: u16, ra: byte, w: seq<byte>, base: nat, p: nat) returns (frame: Es)
    requires |w| >= PACKET_SIZE && base >= PACKET_SIZE
    requires var pes := DecodePes(w, p);
             pes.length != 0 && 0 <= PayloadLength(pes)
             && p + 9 + StampSize(pes.ptsDtsFlags) + PayloadLength(pes) < PACKET_SIZE
    ensures var here, there := StartFrame(es, pid, ra, w, 0, p), StartFrame(es, pid, ra, w, base, p);
            here.events == there.events + [Frame(frame)] && frame.completed && frame.pid == pid && Overfull(there.es)
  {
    hide DecodePes, CloseFrame, OpenFrame;
    var closed := CloseFrame(es.(randomAccess := ra), pid);
    OpenKeeps(closed.es, w, p);
    CloseEmpties(es.(randomAccess := ra), pid);
    var pes, begun := DecodePes(w, p), OpenFrame(closed.es, w, p);
    var q, payload := p + 9 + StampSize(pes.ptsDtsFlags), PayloadLength(pes);
    assert StartSized(begun, pid, payload, w, base, q).events == [];
    var here := StartSized(begun, pid, payload, w, 0, q);
    frame := here.events[0].es;
    assert here.events == [Frame(frame)];
    assert closed.events + [] == closed.events;
  }

  lemma OpenKeeps(es: Es, w: seq<byte>, p: nat)
    ensures var begun := OpenFrame(es, w, p); begun.data == es.data && begun.completed == es.completed
  {
    hide DecodePes, DecodePts;
  }

  lemma CloseEmpties(es: Es, pid: u16)
    ensures var closed := CloseFrame(es, pid).es; closed.data == [] && !closed.completed
  {
  }

  // At the start of a buffer such a frame is delivered; further on it is not, and gets stuck.
  lemma ShortStep(st: State, w: seq<byte>, base: nat) returns (frame: Es)
    requires |w| >= PACKET_SIZE && base >= PACKET_SIZE && Reach(st, w) <= PACKET_SIZE && !Fills(st, w)
    ensures var here, there := Step(st, w, 0), Step(st, w, base);
            here.events == there.events + [Frame(frame)] && frame.completed && frame.pid == DecodeTs(w, 0).pid
            && Stuck(there.state, frame.pid)
  {
    hide DecodeTs, LearnPmt, AfterPmt, PmtReach, ReadPrefix, DecodePes, StartFrame, Overfull;
    var h := DecodeTs(w, 0);
    var prefix := ReadPrefix(h, w, AfterPmt(st, h, w));
    var es := LearnPmt(st, h, w).frames[h.pid];
    frame := ShortStart(es, h.pid, prefix.randomAccess, w, base, prefix.end);
    var there := StartFrame(es, h.pid, prefix.randomAccess, w, base, prefix.end);
    assert prefix.clock + (there.events + [Frame(frame)]) == prefix.clock + there.events + [Frame(frame)];
  }

  // What a stuck PID gives next, if anything, is no completed frame.
  predicate NoneCompleted(frames: seq<Es>) {
    frames != [] ==> !frames[0].completed
  }

  lemma StuckEs(es: Es, h: TsHeader, w: seq<byte>, base: nat, p: nat)
    requires Overfull(es)
    ensures var outcome := EsStep(es, h, w, base, p);
            var frames := FramesFor(h.pid, outcome.events);
            NoneCompleted(frames) && (frames == [] ==> Overfull(outcome.es))
  {
    hide DecodeAdaptation, DecodePcr, DecodePes, OpenFrame, StartSized, FramesFor, Slice;
    var prefix := ReadPrefix(h, w, p);
    ClockNoFrames(h.pid, prefix.clock);
    if HasPayload(h.adaptation) {
      if h.unitStart == 1 {
        var started := StartFrame(es, h.pid, prefix.randomAccess, w, base, prefix.end);
        var pushed := es.(randomAccess := prefix.randomAccess, broken := true, pid := h.pid);
        var after := started.events[1..];
        assert started.events == [Frame(pushed)] + after;
        FramesForConcat(h.pid, prefix.clock, started.events);
        FramesForConcat(h.pid, [Frame(pushed)], after);
        OneFor(pushed);
      } else {
        assert prefix.clock + [] == prefix.clock;
      }
    }
  }

  lemma StuckStep(st: State, w: seq<byte>, base: nat, pid: u16)
    requires Stuck(st, pid)
    ensures var outcome := Step(st, w, base);
            var frames := FramesFor(pid, outcome.events);
            NoneCompleted(frames) && (frames == [] ==> Stuck(outcome.state, pid))
  {
    hide DecodeTs, EsStep, Overfull, DecodePcr, DecodeAdaptation;
    var h := DecodeTs(w, 0);
    assert st.frames != map[];
    if !(h.pid == 0 && st.pmtId == 0) && h.pid in st.frames {
      if h.pid == pid {
        StuckEs(st.frames[pid], h, w, base, 4);
      } else {
        var events := EsStep(st.frames[h.pid], h, w, base, 4).events;
        EsStepDelivers(st.frames[h.pid], h, w, base, 4);
        OthersGetNothing(pid, h.pid, events);
      }
    } else {
      var events := Step(st, w, base).events;
      ClockNoFrames(pid, events);
    }
  }

  lemma {:induction false} StuckRun(st: State, buffer: seq<byte>, pos: nat, pid: u16)
    requires Stuck(st, pid)
    ensures var call := DecodeFrom(st, buffer, pos);
            call.Returned? ==> NoneCompleted(FramesFor(pid, call.events))
    decreases |buffer| - pos
  {
    hide Step, Reach, Stuck, FramesFor;
    if |buffer| - pos >= PACKET_SIZE {
      var w := buffer[pos..];
      var outcome := Step(st, w, pos);
      StuckStep(st, w, pos, pid);
      var more := DecodeFrom(outcome.state, buffer, pos + PACKET_SIZE);
      if Reach(st, w) <= |w| && more.Returned? {
        FramesForConcat(pid, outcome.events, more.events);
        if FramesFor(pid, outcome.events) == [] {
          StuckRun(outcome.state, buffer, pos + PACKET_SIZE, pid);
        }
      }
    } else {
      NoFramesFor(pid);
    }
  }

  // A delivery on the one side that the other side can never make up for.
  lemma NeverTheSame(first: seq<Event>, there: seq<Event>, frame: Es, more: seq<Event>, stuck: seq<Event>)
    requires frame.completed && NoneCompleted(FramesFor(frame.pid, stuck))
    ensures first + (there + [Frame(frame)] + more) != first + (there + stuck)
  {
    hide FramesFor;
    var a, b := there + [Frame(frame)] + more, there + stuck;
    if first + a == first + b {
      assert a == (first + a)[|first|..] == (first + b)[|first|..] == b;
      assert [Frame(frame)] + more == a[|there|..] == b[|there|..] == stuck;
      FramesForConcat(frame.pid, [Frame(frame)], more);
      OneFor(frame);
    }
  }

  // ---------- Cutting in front of such a packet ----------

  lemma FeedOne(st: State, rest: seq<byte>, y: seq<byte>)
    ensures Feed(st, rest, [y]) == DecodeFrom(st, rest + y, 0)
  {
    hide DecodeFrom;
    assert [y][1..] == [];
    var call := DecodeFrom(st, rest + y, 0);
    if call.Returned? {
      assert Feed(call.state, call.rest, []) == Returned(call.state, [], call.rest);
      assert call.events + [] == call.events;
    }
  }

  lemma FeedTwo(st: State, rest: seq<byte>, x: seq<byte>, y: seq<byte>)
    ensures Concat([x, y]) == x + y
    ensures var first := DecodeFrom(st, rest + x, 0);
            Feed(st, rest, [x, y])
            == if first.Aborted? then Aborted
               else After(first.events, DecodeFrom(first.state, first.rest + y, 0))
  {
    hide DecodeFrom;
    assert [x, y][1..] == [y] && [y][1..] == [];
    assert Concat([y]) == y + [] == y;
    var first := DecodeFrom(st, rest + x, 0);
    if first.Returned? {
      FeedOne(first.state, first.rest, y);
    }
  }

  lemma CutBeforeShort(st: State, rest: seq<byte>, a: seq<byte>, q: seq<byte>, c: seq<byte>)
    requires a != [] && |a| % PACKET_SIZE == 0 && SafeRun(st, a) && rest <= a
    requires |q| == PACKET_SIZE && Reach(Run(st, a).state, q) <= PACKET_SIZE && !Fills(Run(st, a).state, q)
    ensures var call := Feed(st, rest, [a[|rest|..], q + c]);
            call.Aborted? || call != DecodeFrom(st, a + (q + c), 0)
  {
    hide Step, Reach, Fills, SafeRun, Run, DecodeFrom, Feed, Stuck, FramesFor, NoneCompleted;
    var first, b := Run(st, a), a + (q + c);
    CutHere(st, rest, a, q, c);
    SafeFront(st, a, q + c);
    ThenPacket(first.state, a, q, c);
    OneOrMore(|a|);
    var frame := ShortStep(first.state, q, |a|);
    var there, here := Step(first.state, q, |a|), Step(first.state, q, 0);
    StuckRun(there.state, b, |a| + PACKET_SIZE, frame.pid);
    NeverTheSameCall(first.events, there.events, here.events, frame, DecodeFrom(here.state, q + c, PACKET_SIZE),
                     DecodeFrom(there.state, b, |a| + PACKET_SIZE));
  }

  lemma NeverTheSameCall(first: seq<Event>, there: seq<Event>, here: seq<Event>, frame: Es, more: Call, stuck: Call)
    requires here == there + [Frame(frame)] && frame.completed
    requires stuck.Returned? ==> NoneCompleted(FramesFor(frame.pid, stuck.events))
    ensures var call := After(first, After(here, more)); call.Aborted? || call != After(first, After(there, stuck))
  {
    hide FramesFor, NoneCompleted;
    if more.Returned? && stuck.Returned? {
      NeverTheSame(first, there, frame, more.events, stuck.events);
    }
  }

  // The calls for a and for the rest.
  lemma CutHere(st: State, rest: seq<byte>, a: seq<byte>, q: seq<byte>, c: seq<byte>)
    requires |a| % PACKET_SIZE == 0 && SafeRun(st, a) && rest <= a
    requires |q| == PACKET_SIZE && Reach(Run(st, a).state, q) <= PACKET_SIZE
    ensures var first := Run(st, a);
            var here := Step(first.state, q, 0);
            Feed(st, rest, [a[|rest|..], q + c])
            == After(first.events, After(here.events, DecodeFrom(here.state, q + c, PACKET_SIZE)))
  {
    hide Step, Reach, SafeRun, Run, DecodeFrom, Feed;
    var first := Run(st, a);
    FeedRest(st, rest, a, q + c);
    SafeDecode(st, a);
    RunWhole(st, a);
    assert first.rest + (q + c) == q + c;
    FirstPacketOf(first.state, q, c);
  }

  lemma FirstPacketOf(st: State, q: seq<byte>, c: seq<byte>)
    requires |q| == PACKET_SIZE && Reach(st, q) <= PACKET_SIZE
    ensures var here := Step(st, q, 0);
            DecodeFrom(st, q + c, 0) == After(here.events, DecodeFrom(here.state, q + c, PACKET_SIZE))
  {
    hide Step, Reach, DecodeFrom;
    assert [] + (q + c) == q + c;
    ThenPacket(st, [], q, c);
  }

  lemma FeedRest(st: State, rest: seq<byte>, a: seq<byte>, y: seq<byte>)
    requires rest <= a
    ensures var first := DecodeFrom(st, a, 0);
            Feed(st, rest, [a[|rest|..], y])
            == if first.Aborted? then Aborted
               else After(first.events, DecodeFrom(first.state, first.rest + y, 0))
  {
    hide DecodeFrom, Feed;
    assert rest + a[|rest|..] == a;
    FeedTwo(st, rest, a[|rest|..], y);
  }

  // A buffer that ends with a packet whose headers run past its end aborts.
  lemma CutAfterOverrun(st: State, rest: seq<byte>, a: seq<byte>, q: seq<byte>, c: seq<byte>)
    requires |a| % PACKET_SIZE == 0 && SafeRun(st, a) && rest <= a + q && |q| == PACKET_SIZE
    requires Reach(Run(st, a).state, q) > PACKET_SIZE
    ensures Feed(st, rest, [(a + q)[|rest|..], c]) == Aborted
  {
    hide Step, Reach, SafeRun, Feed, DecodeFrom;
    FeedRest(st, rest, a + q, c);
    ThenOverrun(Run(st, a).state, a, q);
    if a == [] {
      EmptyRun(st);
    } else {
      SafeFront(st, a, q);
    }
  }

  // ---------- The exact condition ----------

  // However the stream is cut, no call aborts and the outcome is that of one call.
  ghost predicate Robust(st: State, rest: seq<byte>, s: seq<byte>) {
    forall chunks | Concat(chunks) == s ::
      Feed(st, rest, chunks).Returned? && Feed(st, rest, chunks) == DecodeFrom(st, rest + s, 0)
  }

  lemma {:induction false} FirstWild(st: State, s: seq<byte>) returns (k: nat)
    requires !TameRun(st, s)
    ensures k % PACKET_SIZE == 0 && k + PACKET_SIZE <= |s| && TameRun(st, s[..k])
    ensures !Tame(Run(st, s[..k]).state, s[k..k + PACKET_SIZE])
    decreases |s|
  {
    hide Step, Tame;
    var p, more := s[..PACKET_SIZE], s[PACKET_SIZE..];
    if !Tame(st, p) {
      k := 0;
    } else {
      var j := FirstWild(Step(st, p, 0).state, more);
      k := PACKET_SIZE + j;
      SliceOfTail(s, PACKET_SIZE, j, PACKET_SIZE);
      assert s[..k][..PACKET_SIZE] == p;
      OneMoreWhole(j);
    }
  }

  lemma OneMoreWhole(j: nat)
    requires j % PACKET_SIZE == 0
    ensures (PACKET_SIZE + j) % PACKET_SIZE == 0
  {
    ModUnique(188 + j, 188, j / 188 + 1, 0);
  }

  lemma WildBreaks(st: State, rest: seq<byte>, s: seq<byte>, k: nat)
    requires |rest| < PACKET_SIZE && k % PACKET_SIZE == 0 && k + PACKET_SIZE <= |rest + s|
    requires var b := rest + s;
             SafeRun(st, b[..k])
             && var q, st' := b[k..k + PACKET_SIZE], Run(st, b[..k]).state;
                Reach(st', q) > PACKET_SIZE || (k > 0 && !Fills(st', q))
    ensures !Robust(st, rest, s)
  {
    hide Reach, Fills, SafeRun, Run, Feed, DecodeFrom, Concat;
    var b := rest + s;
    var a, q, c := b[..k], b[k..k + PACKET_SIZE], b[k + PACKET_SIZE..];
    if Reach(Run(st, a).state, q) > PACKET_SIZE {
      CutAfterOverrun(st, rest, a, q, c);
      CutOfWhole(rest, s, a + q, c);
      FeedTwo(st, rest, (a + q)[|rest|..], c);
    } else {
      OneOrMore(k);
      CutBeforeShort(st, rest, a, q, c);
      CutOfWhole(rest, s, a, q + c);
      FeedTwo(st, rest, a[|rest|..], q + c);
      assert a + (q + c) == b;
    }
  }

  lemma CutOfWhole(rest: seq<byte>, s: seq<byte>, front: seq<byte>, back: seq<byte>)
    requires front + back == rest + s && |rest| <= |front|
    ensures rest <= front && front[|rest|..] + back == s
  {
    assert front == (rest + s)[..|front|];
    assert (front + back)[|rest|..] == front[|rest|..] + back;
  }

  /**
   A stream is decoded without abort and alike however it is cut into calls if and only if
   every header ends inside its packet and every packet after the first is filled by a payload
   that starts in it.
   */
  lemma RobustExactly(st: State, rest: seq<byte>, s: seq<byte>)
    requires |rest| < PACKET_SIZE
    ensures Robust(st, rest, s) <==> SafeRun(st, rest + s)
  {
    hide Step, Reach, Fills, TameRun, Run, Feed, DecodeFrom;
    var b := rest + s;
    if SafeRun(st, b) {
      forall chunks | Concat(chunks) == s
        ensures Feed(st, rest, chunks).Returned? && Feed(st, rest, chunks) == DecodeFrom(st, b, 0)
      {
        ChunkIndependence(st, rest, chunks);
      }
    } else {
      var p, more := b[..PACKET_SIZE], b[PACKET_SIZE..];
      if Reach(st, p) > PACKET_SIZE {
        assert b[..0] == [] && b[0..0 + PACKET_SIZE] == p;
        EmptyRun(st);
        WildBreaks(st, rest, s, 0);
      } else {
        var j := FirstWild(Step(st, p, 0).state, more);
        var k := PACKET_SIZE + j;
        SliceOfTail(b, PACKET_SIZE, j, PACKET_SIZE);
        assert b[..k][..PACKET_SIZE] == p && b[..k][PACKET_SIZE..] == more[..j];
        RunFirst(st, b[..k]);
        WildBreaks(st, rest, s, k);
      }
    }
  }

  lemma SliceOfTail(b: seq<byte>, n: nat, j: nat, m: nat)
    requires n + j + m <= |b|
    ensures b[n..][j..j + m] == b[n + j..n + j + m] && b[..n + j][n..] == b[n..][..j]
  {
  }

  lemma EmptyRun(st: State)
    ensures Run(st, []) == Returned(st, [], [])
  {
  }

  lemma SafeMore(st: State, a: seq<byte>, p: seq<byte>)
    requires a != [] && |a| % PACKET_SIZE == 0 && SafeRun(st, a)
    requires |p| == PACKET_SIZE && Tame(Run(st, a).state, p)
    ensures SafeRun(st, a + p)
  {
    hide Step, Reach, Tame, Run, TameRun;
    OneOrMore(|a|);
    var front, more := a[..PACKET_SIZE], a[PACKET_SIZE..];
    var st1 := Step(st, front, 0).state;
    RunFirst(st, a);
    RunWhole(st1, more);
    RunConcat(st1, more, p);
    TameOne(Run(st1, more).state, p);
    assert [] + p == p;
    assert (a + p)[..PACKET_SIZE] == front && (a + p)[PACKET_SIZE..] == more + p;
  }

  lemma TameOne(st: State, p: seq<byte>)
    requires |p| == PACKET_SIZE && Tame(st, p)
    ensures TameRun(st, p)
  {
    hide Step, Tame;
    assert p[..PACKET_SIZE] == p && p[PACKET_SIZE..] == [];
  }

  /**
   A safe stream and one more packet: cutting in front of it makes a difference if and only if
   its headers end inside it and a payload that starts in it ends before it does.
   */
  lemma CutMattersExactly(st: State, a: seq<byte>, p: seq<byte>)
    requires a != [] && |a| % PACKET_SIZE == 0 && SafeRun(st, a) && |p| == PACKET_SIZE
    ensures Feed(st, [], [a, p]) != DecodeFrom(st, a + p, 0)
            <==> Reach(Run(st, a).state, p) <= PACKET_SIZE && !Fills(Run(st, a).state, p)
  {
    hide Step, Reach, Fills, SafeRun, Run, DecodeFrom, Feed;
    var st' := Run(st, a).state;
    SafeFront(st, a, p);
    assert a[0..] == a && p + [] == p && [] + p == p && a + (p + []) == a + p;
    if Reach(st', p) > PACKET_SIZE {
      FeedTwo(st, [], a, p);
      assert [] + a == a;
      SafeDecode(st, a);
      RunWhole(st, a);
      ThenOverrun(st', a, p);
      ThenOverrun(st', [], p);
    } else if Fills(st', p) {
      SafeMore(st, a, p);
      FeedTwo(st, [], a, p);
      assert [] + Concat([a, p]) == a + p;
      ChunkIndependence(st, [], [a, p]);
    } else {
      CutBeforeShort(st, [], a, p, []);
      ThenPacket(st', a, p, []);
      AtEnd(Step(st', p, |a|).state, a + p);
    }
  }

  lemma AtEnd(st: State, buffer: seq<byte>)
    ensures DecodeFrom(st, buffer, |buffer|) == Returned(st, [], [])
  {
  }
}
