/**
 Once the program map is known, the streams do not disturb one another: what is delivered for a
 PID is settled by the packets of that PID alone, however the stream is cut, exactly as long as
 every header ends inside its packet and the payloads that start on that PID fill theirs.
 */
module Isolation {
  import opened Bytes
  import opened TsFields
  import opened DemuxSpec
  import opened Chunking
  import opened Cuts
  import opened Frames

  predicate Learned(st: State) {
    st.pmtId != 0 && st.frames != map[]
  }

  function PidOf(packet: seq<byte>): u16 { DecodeTs(packet, 0).pid }

  function OnPid(pid: u16, packets: seq<seq<byte>>): seq<seq<byte>> {
    if packets == [] then [] else
      (if PidOf(packets[0]) == pid then [packets[0]] else []) + OnPid(pid, packets[1..])
  }

  // The frame object of one PID, run over packets of that PID alone.
  function AloneRun(es: Es, packets: seq<seq<byte>>): EsOutcome
    decreases |packets|
  {
    if packets == [] then EsOutcome(es, []) else
      var outcome := EsStep(es, DecodeTs(packets[0], 0), packets[0], 0, 4);
      var more := AloneRun(outcome.es, packets[1..]);
      EsOutcome(more.es, outcome.events + more.events)
  }

  lemma {:induction false} OnPidConcat(pid: u16, a: seq<seq<byte>>, b: seq<seq<byte>>)
    ensures OnPid(pid, a + b) == OnPid(pid, a) + OnPid(pid, b)
  {
    hide PidOf;
    if a == [] {
      assert a + b == b;
    } else {
      assert (a + b)[0] == a[0] && (a + b)[1..] == a[1..] + b;
      OnPidConcat(pid, a[1..], b);
      var own := if PidOf(a[0]) == pid then [a[0]] else [];
      assert own + (OnPid(pid, a[1..]) + OnPid(pid, b)) == own + OnPid(pid, a[1..]) + OnPid(pid, b);
    }
  }

  lemma {:induction false} AloneConcat(es: Es, a: seq<seq<byte>>, b: seq<seq<byte>>)
    ensures var first := AloneRun(es, a);
            var second := AloneRun(first.es, b);
            AloneRun(es, a + b) == EsOutcome(second.es, first.events + second.events)
    decreases |a|
  {
    hide EsStep, DecodeTs;
    if a == [] {
      assert a + b == b;
    } else {
      assert (a + b)[0] == a[0] && (a + b)[1..] == a[1..] + b;
      var outcome := EsStep(es, DecodeTs(a[0], 0), a[0], 0, 4);
      AloneConcat(outcome.es, a[1..], b);
      var more := AloneRun(outcome.es, a[1..]);
      var last := AloneRun(more.es, b);
      assert outcome.events + (more.events + last.events) == outcome.events + more.events + last.events;
    }
  }

  lemma AloneOne(es: Es, p: seq<byte>)
    ensures AloneRun(es, [p]) == EsStep(es, DecodeTs(p, 0), p, 0, 4)
  {
    hide EsStep, DecodeTs;
    var step := EsStep(es, DecodeTs(p, 0), p, 0, 4);
    assert [p][1..] == [];
    assert AloneRun(step.es, []) == EsOutcome(step.es, []);
    assert step.events + [] == step.events;
  }

  // ---------- What packets do and what they need ----------

  // States of one shape differ only in what the frame objects hold.
  predicate SameShape(st: State, st': State) {
    st'.pmtId == st.pmtId && st'.pcrId == st.pcrId && st'.frames.Keys == st.frames.Keys
  }

  lemma ShapeDecides(st: State, st': State, w: seq<byte>)
    requires Learned(st) && SameShape(st, st')
    ensures Learned(st') && Reach(st', w) == Reach(st, w) && Fills(st', w) == Fills(st, w)
  {
    hide DecodeTs, EsReach, EsFills, DecodeAdaptation;
    var pid := DecodeTs(w, 0).pid;
    assert pid in st.frames.Keys <==> pid in st'.frames.Keys;
    SomeKey(st);
    assert st'.frames != map[];
  }

  lemma SomeKey(st: State)
    requires st.frames != map[]
    ensures exists pid :: pid in st.frames
  {
  }

  lemma StepKeepsShape(st: State, w: seq<byte>, base: nat)
    requires Learned(st)
    ensures SameShape(st, Step(st, w, base).state)
  {
    hide DecodeTs, EsStep, DecodePcr, DecodeAdaptation;
    var h := DecodeTs(w, 0);
    if h.pid in st.frames {
      assert st.frames.Keys + {h.pid} == st.frames.Keys;
    }
  }

  lemma StepOnOther(st: State, w: seq<byte>, base: nat, pid: u16)
    requires Learned(st) && pid in st.frames && PidOf(w) != pid
    ensures var outcome := Step(st, w, base);
            pid in outcome.state.frames && outcome.state.frames[pid] == st.frames[pid]
            && FramesFor(pid, outcome.events) == []
  {
    hide DecodeTs, EsStep, DecodePcr, DecodeAdaptation;
    var h := DecodeTs(w, 0);
    var events := Step(st, w, base).events;
    if h.pid in st.frames {
      EsStepDelivers(st.frames[h.pid], h, w, base, 4);
      OthersGetNothing(pid, h.pid, events);
    } else {
      ClockNoFrames(pid, events);
    }
  }

  lemma StepOnOwn(st: State, w: seq<byte>, pid: u16)
    requires Learned(st) && pid in st.frames && PidOf(w) == pid
    ensures var outcome, alone := Step(st, w, 0), EsStep(st.frames[pid], DecodeTs(w, 0), w, 0, 4);
            pid in outcome.state.frames && outcome.state.frames[pid] == alone.es && outcome.events == alone.events
  {
    hide DecodeTs, EsStep;
    var outcome := Step(st, w, 0);
    assert pid in outcome.state.frames;
  }

  // Every header ends inside its packet.
  predicate Contained(st: State, packets: seq<seq<byte>>) {
    forall p | p in packets :: Reach(st, p) <= PACKET_SIZE
  }

  // Payloads that start on the PID fill their packets.
  predicate OwnFill(st: State, pid: u16, packets: seq<seq<byte>>) {
    forall p | p in packets :: PidOf(p) == pid ==> Fills(st, p)
  }

  function AfterFirst(packets: seq<seq<byte>>): seq<seq<byte>> {
    if packets == [] then [] else packets[1..]
  }

  // The first packet of all lies at the start of its buffer, and need not be filled.
  predicate Isolated(st: State, pid: u16, packets: seq<seq<byte>>) {
    Contained(st, packets) && OwnFill(st, pid, AfterFirst(packets))
  }

  lemma ShapeKeeps(st: State, st': State, pid: u16, packets: seq<seq<byte>>)
    requires Learned(st) && SameShape(st, st')
    ensures Learned(st')
    ensures Contained(st', packets) <==> Contained(st, packets)
    ensures OwnFill(st', pid, packets) <==> OwnFill(st, pid, packets)
  {
    hide Reach, Fills, PidOf, Learned, SameShape;
    ShapeDecides(st, st', []);
    forall p
      ensures Reach(st', p) == Reach(st, p) && Fills(st', p) == Fills(st, p)
    {
      ShapeDecides(st, st', p);
    }
  }

  // ---------- Bytes as packets ----------

  function PacketsOf(s: seq<byte>): (packets: seq<seq<byte>>)
    decreases |s|
  {
    if |s| < PACKET_SIZE then [] else [s[..PACKET_SIZE]] + PacketsOf(s[PACKET_SIZE..])
  }

  function Tail(s: seq<byte>): (rest: seq<byte>)
    ensures |rest| < PACKET_SIZE
    decreases |s|
  {
    if |s| < PACKET_SIZE then s else Tail(s[PACKET_SIZE..])
  }

  lemma {:induction false} PacketsConcat(a: seq<byte>, b: seq<byte>)
    ensures PacketsOf(a + b) == PacketsOf(a) + PacketsOf(Tail(a) + b) && Tail(a + b) == Tail(Tail(a) + b)
    decreases |a|
  {
    hide PacketsOf, Tail;
    if |a| < PACKET_SIZE {
      NoPacketsOf(a);
      assert [] + PacketsOf(a + b) == PacketsOf(a + b);
    } else {
      var p, more := a[..PACKET_SIZE], a[PACKET_SIZE..];
      var ab := a + b;
      assert ab[..PACKET_SIZE] == p && ab[PACKET_SIZE..] == more + b;
      PacketsConcat(more, b);
      PacketsFirst(a);
      PacketsFirst(ab);
      assert [p] + (PacketsOf(more) + PacketsOf(Tail(a) + b)) == [p] + PacketsOf(more) + PacketsOf(Tail(a) + b);
    }
  }

  lemma PacketsFirst(s: seq<byte>)
    requires |s| >= PACKET_SIZE
    ensures var p, more := s[..PACKET_SIZE], s[PACKET_SIZE..];
            PacketsOf(s) == [p] + PacketsOf(more) && AfterFirst(PacketsOf(s)) == PacketsOf(more)
            && Tail(s) == Tail(more)
  {
    var p, more := s[..PACKET_SIZE], PacketsOf(s[PACKET_SIZE..]);
    assert ([p] + more)[0] == p && ([p] + more)[1..] == more;
  }

  // Of all packets: of the first and of the others.
  lemma ContainedFirst(st: State, s: seq<byte>)
    requires |s| >= PACKET_SIZE
    ensures Contained(st, PacketsOf(s))
            <==> Reach(st, s[..PACKET_SIZE]) <= PACKET_SIZE && Contained(st, PacketsOf(s[PACKET_SIZE..]))
  {
    hide Reach, PacketsOf;
    var p, more := s[..PACKET_SIZE], PacketsOf(s[PACKET_SIZE..]);
    PacketsFirst(s);
    assert p in [p] + more && forall x | x in more :: x in [p] + more;
  }

  lemma OwnFillFirst(st: State, pid: u16, s: seq<byte>)
    requires |s| >= PACKET_SIZE
    ensures OwnFill(st, pid, PacketsOf(s))
            <==> (PidOf(s[..PACKET_SIZE]) == pid ==> Fills(st, s[..PACKET_SIZE]))
                 && OwnFill(st, pid, PacketsOf(s[PACKET_SIZE..]))
  {
    hide Fills, PidOf, PacketsOf;
    var p, more := s[..PACKET_SIZE], PacketsOf(s[PACKET_SIZE..]);
    PacketsFirst(s);
    assert p in [p] + more && forall x | x in more :: x in [p] + more;
  }

  lemma NoPacketsOf(s: seq<byte>)
    requires |s| < PACKET_SIZE
    ensures PacketsOf(s) == [] && Tail(s) == s
    ensures forall st :: Contained(st, PacketsOf(s))
    ensures forall st, pid :: OwnFill(st, pid, PacketsOf(s))
  {
    assert PacketsOf(s) == [];
  }

  lemma OnePacketOf(p: seq<byte>)
    requires |p| == PACKET_SIZE
    ensures PacketsOf(p) == [p] && Tail(p) == []
  {
    assert p[..PACKET_SIZE] == p && p[PACKET_SIZE..] == [];
    assert [p] + [] == [p];
  }

  lemma {:induction false} WholeTail(a: seq<byte>)
    requires |a| % PACKET_SIZE == 0
    ensures Tail(a) == []
    decreases |a|
  {
    if a != [] {
      OneOrMore(|a|);
      WholeTail(a[PACKET_SIZE..]);
    }
  }

  // ---------- A call that gives a PID what its packets call for ----------

  // The call returns, its state has the shape of st, and what it leaves in the object of the PID
  // and delivers for it is what the packets of the PID alone do.
  ghost predicate Delivers(call: Call, st: State, pid: u16, packets: seq<seq<byte>>, rest: seq<byte>)
    requires pid in st.frames
  {
    var alone := AloneRun(st.frames[pid], OnPid(pid, packets));
    call.Returned? && SameShape(st, call.state) && call.rest == rest
    && pid in call.state.frames && call.state.frames[pid] == alone.es
    && FramesFor(pid, call.events) == FramesFor(pid, alone.events)
  }

  lemma DeliversNothing(st: State, pid: u16, rest: seq<byte>)
    requires pid in st.frames
    ensures Delivers(Returned(st, [], rest), st, pid, [], rest)
  {
  }

  lemma DeliversOne(st: State, p: seq<byte>, base: nat, pid: u16)
    requires Learned(st) && pid in st.frames && Reach(st, p) <= PACKET_SIZE
    requires PidOf(p) == pid && base > 0 ==> Fills(st, p)
    ensures var outcome := Step(st, p, base); Delivers(Returned(outcome.state, outcome.events, []), st, pid, [p], [])
  {
    hide Step, Reach, Fills, EsStep, PidOf, DecodeTs, Learned, SameShape, FramesFor;
    StepKeepsShape(st, p, base);
    assert [p][1..] == [];
    if PidOf(p) == pid {
      if base > 0 {
        StepAnywhere(st, p, base);
      }
      StepOnOwn(st, p, pid);
      var alone := EsStep(st.frames[pid], DecodeTs(p, 0), p, 0, 4);
      assert OnPid(pid, [p]) == [p] + [] == [p];
      AloneOne(st.frames[pid], p);
    } else {
      StepOnOther(st, p, base, pid);
      assert OnPid(pid, [p]) == [];
      NoFramesFor(pid);
    }
  }

  lemma DeliversThen(st: State, pid: u16, first: Call, a: seq<seq<byte>>, r: seq<byte>, second: Call, b: seq<seq<byte>>,
                     rest: seq<byte>)
    requires pid in st.frames && Delivers(first, st, pid, a, r)
    requires Delivers(second, first.state, pid, b, rest)
    ensures Delivers(After(first.events, second), st, pid, a + b, rest)
  {
    hide AloneRun, OnPid, FramesFor;
    OnPidConcat(pid, a, b);
    AloneConcat(st.frames[pid], OnPid(pid, a), OnPid(pid, b));
    FramesForConcat(pid, first.events, second.events);
    var one := AloneRun(st.frames[pid], OnPid(pid, a));
    FramesForConcat(pid, one.events, AloneRun(one.es, OnPid(pid, b)).events);
  }

  lemma DeliversLearned(call: Call, st: State, pid: u16, packets: seq<seq<byte>>, rest: seq<byte>)
    requires Learned(st) && pid in st.frames && Delivers(call, st, pid, packets, rest)
    ensures call.Returned? && SameShape(st, call.state) && Learned(call.state) && pid in call.state.frames
    ensures call.rest == rest
  {
    hide AloneRun, OnPid, FramesFor, Reach, Fills;
    ShapeDecides(st, call.state, []);
  }

  // ---------- Whole packets in a buffer ----------

  // Whole packets that lie behind the start of a buffer, followed by anything.
  lemma {:induction false} PacketsDeliver(st: State, before: seq<byte>, a: seq<byte>, x: seq<byte>, pid: u16)
    returns (call: Call)
    requires Learned(st) && pid in st.frames && |a| % PACKET_SIZE == 0
    requires Contained(st, PacketsOf(a)) && OwnFill(st, pid, PacketsOf(a))
    ensures Delivers(call, st, pid, PacketsOf(a), [])
    ensures DecodeFrom(st, before + a + x, |before|)
         == After(call.events, DecodeFrom(call.state, before + a + x, |before| + |a|))
    decreases |a|
  {
    hide Step, Reach, Fills, DecodeFrom, Learned, PidOf, Delivers, PacketsOf, Contained, OwnFill;
    if a == [] {
      call := Returned(st, [], []);
      NoPacketsOf(a);
      DeliversNothing(st, pid, []);
      NothingBefore(DecodeFrom(st, before + a + x, |before|));
    } else {
      OneOrMore(|a|);
      var p, more := a[..PACKET_SIZE], a[PACKET_SIZE..];
      PacketsFirst(a);
      ContainedFirst(st, a);
      OwnFillFirst(st, pid, a);
      assert p + more == a;
      call := OnePacketDelivers(st, before, p, more, x, pid);
    }
  }

  lemma {:induction false} OnePacketDelivers(st: State, before: seq<byte>, p: seq<byte>, more: seq<byte>, x: seq<byte>,
                                             pid: u16)
    returns (call: Call)
    requires Learned(st) && pid in st.frames && |p| == PACKET_SIZE && |more| % PACKET_SIZE == 0
    requires Reach(st, p) <= PACKET_SIZE && (PidOf(p) == pid && before != [] ==> Fills(st, p))
    requires Contained(st, PacketsOf(more)) && OwnFill(st, pid, PacketsOf(more))
    ensures Delivers(call, st, pid, [p] + PacketsOf(more), [])
    ensures DecodeFrom(st, before + (p + more) + x, |before|)
         == After(call.events, DecodeFrom(call.state, before + (p + more) + x, |before| + |p + more|))
    decreases |p + more|, 0
  {
    hide Step, Reach, Fills, DecodeFrom, Learned, PidOf, Delivers, SameShape, Contained, OwnFill;
    var outcome := Step(st, p, |before|);
    var one := Returned(outcome.state, outcome.events, []);
    DeliversOne(st, p, |before|, pid);
    DeliversLearned(one, st, pid, [p], []);
    ShapeKeeps(st, outcome.state, pid, PacketsOf(more));
    var rest := PacketsDeliver(outcome.state, before + p, more, x, pid);
    call := After(outcome.events, rest);
    DeliversReturns(rest, outcome.state, pid, PacketsOf(more));
    DeliversThen(st, pid, one, [p], [], rest, PacketsOf(more), []);
    FrontThen(st, before, p, more, x, rest.state, rest.events);
  }

  lemma Regrouped(before: seq<byte>, p: seq<byte>, more: seq<byte>, x: seq<byte>)
    ensures before + (p + (more + x)) == before + (p + more) + x && before + p + more + x == before + (p + more) + x
  {
  }

  lemma DeliversReturns(call: Call, st: State, pid: u16, packets: seq<seq<byte>>)
    requires pid in st.frames && Delivers(call, st, pid, packets, [])
    ensures call.Returned?
  {
    hide AloneRun, OnPid, FramesFor;
  }

  // The same at the start of the buffer, where the first packet need not be filled.
  lemma FrontDelivers(st: State, a: seq<byte>, x: seq<byte>, pid: u16) returns (call: Call)
    requires Learned(st) && pid in st.frames && |a| % PACKET_SIZE == 0 && Isolated(st, pid, PacketsOf(a))
    ensures Delivers(call, st, pid, PacketsOf(a), [])
    ensures DecodeFrom(st, a + x, 0) == After(call.events, DecodeFrom(call.state, a + x, |a|))
  {
    hide Step, Reach, Fills, DecodeFrom, Learned, PidOf, Delivers, PacketsOf, Contained, OwnFill;
    if a == [] {
      call := Returned(st, [], []);
      NoPacketsOf(a);
      DeliversNothing(st, pid, []);
      NothingBefore(DecodeFrom(st, a + x, 0));
    } else {
      OneOrMore(|a|);
      var p, more := a[..PACKET_SIZE], a[PACKET_SIZE..];
      PacketsFirst(a);
      ContainedFirst(st, a);
      assert p + more == a && [] + (p + more) + x == a + x;
      call := OnePacketDelivers(st, [], p, more, x, pid);
    }
  }

  /** One call: the frames of a PID are those of its object run over its packets alone. */
  lemma AloneIsEnough(st: State, s: seq<byte>, pid: u16)
    requires Learned(st) && pid in st.frames && Isolated(st, pid, PacketsOf(s))
    ensures Delivers(DecodeFrom(st, s, 0), st, pid, PacketsOf(s), Tail(s))
  {
    hide Delivers, Isolated, Learned;
    var a, x := WholePart(s);
    var call := FrontDelivers(st, a, x, pid);
    DeliversReturns(call, st, pid, PacketsOf(a));
    assert a + x == s && s[|a|..] == x;
    EndsWith(call.state, s, |a|);
    DeliversMore(call, st, pid, PacketsOf(s), x);
  }

  lemma {:induction false} WholePart(s: seq<byte>) returns (a: seq<byte>, x: seq<byte>)
    ensures s == a + x && |a| % PACKET_SIZE == 0 && PacketsOf(a) == PacketsOf(s) && x == Tail(s)
    decreases |s|
  {
    hide PacketsOf, Tail;
    if |s| < PACKET_SIZE {
      a, x := [], s;
      NoPacketsOf(s);
      NoPacketsOf(a);
      assert s == a + x;
    } else {
      var p, more := s[..PACKET_SIZE], s[PACKET_SIZE..];
      var a', x' := WholePart(more);
      a, x := p + a', x';
      OneMoreWhole(|a'|);
      PacketsFirst(s);
      assert a[..PACKET_SIZE] == p && a[PACKET_SIZE..] == a';
      PacketsFirst(a);
      assert p + (a' + x') == a + x;
      assert s == p + more;
    }
  }

  lemma EndsWith(st: State, s: seq<byte>, pos: nat)
    requires pos <= |s| && |s| - pos < PACKET_SIZE
    ensures DecodeFrom(st, s, pos) == Returned(st, [], s[pos..])
  {
  }

  lemma DeliversMore(call: Call, st: State, pid: u16, packets: seq<seq<byte>>, x: seq<byte>)
    requires pid in st.frames && Delivers(call, st, pid, packets, [])
    ensures call.Returned? && Delivers(After(call.events, Returned(call.state, [], x)), st, pid, packets, x)
  {
    hide AloneRun, OnPid, FramesFor;
    assert call.events + [] == call.events;
  }

  // ---------- Any number of calls ----------

  /** However the stream is cut, the frames of a PID are those of its packets alone. */
  lemma {:induction false} FeedDelivers(st: State, rest: seq<byte>, chunks: seq<seq<byte>>, pid: u16)
    requires |rest| < PACKET_SIZE && Learned(st) && pid in st.frames
    requires Isolated(st, pid, PacketsOf(rest + Concat(chunks)))
    ensures var s := rest + Concat(chunks); Delivers(Feed(st, rest, chunks), st, pid, PacketsOf(s), Tail(s))
    decreases |chunks|
  {
    hide Delivers, Isolated, Learned, DecodeFrom, SameShape;
    if chunks == [] {
      assert rest + Concat(chunks) == rest;
      DeliversNothing(st, pid, rest);
    } else {
      var a, b := rest + chunks[0], Concat(chunks[1..]);
      assert rest + Concat(chunks) == a + b;
      PacketsConcat(a, b);
      IsolatedParts(st, pid, PacketsOf(a), PacketsOf(Tail(a) + b));
      AloneIsEnough(st, a, pid);
      var first := DecodeFrom(st, a, 0);
      DeliversLearned(first, st, pid, PacketsOf(a), Tail(a));
      IsolatedShape(st, first.state, pid, PacketsOf(Tail(a) + b));
      FeedDelivers(first.state, Tail(a), chunks[1..], pid);
      DeliversThen(st, pid, first, PacketsOf(a), Tail(a), Feed(first.state, Tail(a), chunks[1..]),
                   PacketsOf(Tail(a) + b), Tail(a + b));
    }
  }

  lemma IsolatedParts(st: State, pid: u16, a: seq<seq<byte>>, b: seq<seq<byte>>)
    requires Isolated(st, pid, a + b)
    ensures Isolated(st, pid, a) && Isolated(st, pid, b)
  {
    hide Reach, Fills, PidOf;
    assert forall p | p in a :: p in a + b;
    assert forall p | p in b :: p in a + b;
    if a == [] {
      assert a + b == b;
    } else {
      assert AfterFirst(a + b) == AfterFirst(a) + b;
      assert forall p | p in AfterFirst(a) :: p in AfterFirst(a + b);
      assert forall p | p in AfterFirst(b) :: p in b;
      assert forall p | p in b :: p in AfterFirst(a + b);
    }
  }

  lemma IsolatedShape(st: State, st': State, pid: u16, packets: seq<seq<byte>>)
    requires Learned(st) && SameShape(st, st') && Isolated(st, pid, packets)
    ensures Isolated(st', pid, packets)
  {
    hide Contained, OwnFill, Learned, SameShape;
    ShapeKeeps(st, st', pid, packets);
    ShapeKeeps(st, st', pid, AfterFirst(packets));
  }

  /**
   Two streams, met by demuxers that know the program map and agree on one PID, and cut into calls
   in any way: if they carry the same packets of that PID in the same order, the frames delivered
   for it are the same, whatever lies between. Packets of other PIDs need not be filled.
   */
  lemma PidIsolation(st: State, rest: seq<byte>, chunks: seq<seq<byte>>, st': State, rest': seq<byte>,
                     chunks': seq<seq<byte>>, pid: u16)
    requires Learned(st) && Learned(st') && |rest| < PACKET_SIZE && |rest'| < PACKET_SIZE
    requires pid in st.frames && pid in st'.frames && st.frames[pid] == st'.frames[pid]
    requires var packets, packets' := PacketsOf(rest + Concat(chunks)), PacketsOf(rest' + Concat(chunks'));
             Isolated(st, pid, packets) && Isolated(st', pid, packets') && OnPid(pid, packets) == OnPid(pid, packets')
    ensures var a, b := Feed(st, rest, chunks), Feed(st', rest', chunks');
            a.Returned? && b.Returned? && FramesFor(pid, a.events) == FramesFor(pid, b.events)
            && pid in a.state.frames && pid in b.state.frames && a.state.frames[pid] == b.state.frames[pid]
  {
    hide Isolated, Learned, Feed, Concat, AloneRun, OnPid, FramesFor, PacketsOf;
    FeedDelivers(st, rest, chunks, pid);
    FeedDelivers(st', rest', chunks', pid);
  }

  // ---------- The condition is exact ----------

  // However the stream is cut, no call aborts and the PID gets what its packets alone call for.
  ghost predicate Undisturbed(st: State, rest: seq<byte>, s: seq<byte>, pid: u16)
    requires pid in st.frames
  {
    forall chunks | Concat(chunks) == s ::
      var call := Feed(st, rest, chunks);
      call.Returned?
      && FramesFor(pid, call.events)
         == FramesFor(pid, AloneRun(st.frames[pid], OnPid(pid, PacketsOf(rest + s))).events)
  }

  // Whole packets with their headers inside them are decoded, whether they are filled or not.
  lemma {:induction false} ContainedFront(st: State, before: seq<byte>, a: seq<byte>, x: seq<byte>)
    returns (st': State, events: seq<Event>)
    requires Learned(st) && |a| % PACKET_SIZE == 0 && Contained(st, PacketsOf(a))
    ensures SameShape(st, st')
    ensures DecodeFrom(st, before + a + x, |before|)
         == After(events, DecodeFrom(st', before + a + x, |before| + |a|))
    decreases |a|
  {
    hide Step, Reach, DecodeFrom, Learned, PacketsOf, Contained, SameShape;
    if a == [] {
      st', events := st, [];
      SameShapeAs(st);
      NothingBefore(DecodeFrom(st, before + a + x, |before|));
    } else {
      OneOrMore(|a|);
      var p, more := a[..PACKET_SIZE], a[PACKET_SIZE..];
      assert a == p + more;
      ContainedFirst(st, a);
      var outcome := Step(st, p, |before|);
      StepKeepsShape(st, p, |before|);
      ShapeKeeps(st, outcome.state, 0, PacketsOf(more));
      var events';
      st', events' := ContainedFront(outcome.state, before + p, more, x);
      ShapeThen(st, outcome.state, st');
      events := outcome.events + events';
      FrontThen(st, before, p, more, x, st', events');
    }
  }

  lemma FrontThen(st: State, before: seq<byte>, p: seq<byte>, more: seq<byte>, x: seq<byte>, st': State,
                  events: seq<Event>)
    requires |p| == PACKET_SIZE && Reach(st, p) <= PACKET_SIZE
    requires DecodeFrom(Step(st, p, |before|).state, before + p + more + x, |before + p|)
          == After(events, DecodeFrom(st', before + p + more + x, |before + p| + |more|))
    ensures DecodeFrom(st, before + (p + more) + x, |before|)
         == After(Step(st, p, |before|).events + events,
                  DecodeFrom(st', before + (p + more) + x, |before| + |p + more|))
  {
    hide Step, Reach, DecodeFrom;
    Regrouped(before, p, more, x);
    ThenPacket(st, before, p, more + x);
    AfterAfter(Step(st, p, |before|).events, events, DecodeFrom(st', before + p + more + x, |before + p| + |more|));
  }

  lemma SameShapeAs(st: State)
    ensures SameShape(st, st)
  {
  }

  lemma ShapeThen(st: State, st': State, st'': State)
    requires SameShape(st, st') && SameShape(st', st'')
    ensures SameShape(st, st'')
  {
  }

  // The first packet that reads past its end.
  lemma {:induction false} FirstOverrun(st: State, b: seq<byte>) returns (k: nat)
    requires !Contained(st, PacketsOf(b))
    ensures k % PACKET_SIZE == 0 && k + PACKET_SIZE <= |b| && Contained(st, PacketsOf(b[..k]))
    ensures Reach(st, b[k..k + PACKET_SIZE]) > PACKET_SIZE
    decreases |b|
  {
    hide Reach, PacketsOf, Contained;
    if |b| < PACKET_SIZE {
      NoPacketsOf(b);
    }
    var p, more := b[..PACKET_SIZE], b[PACKET_SIZE..];
    ContainedFirst(st, b);
    if Reach(st, p) > PACKET_SIZE {
      k := 0;
      assert b[0..0 + PACKET_SIZE] == p;
      NoPacketsOf(b[..0]);
    } else {
      var j := FirstOverrun(st, more);
      k := PACKET_SIZE + j;
      OneMoreWhole(j);
      SliceOfTail(b, PACKET_SIZE, j, PACKET_SIZE);
      assert b[..k][..PACKET_SIZE] == p;
      ContainedFirst(st, b[..k]);
    }
  }

  lemma OverrunDisturbs(st: State, rest: seq<byte>, s: seq<byte>, pid: u16)
    requires Learned(st) && pid in st.frames && |rest| < PACKET_SIZE && !Contained(st, PacketsOf(rest + s))
    ensures !Undisturbed(st, rest, s, pid)
  {
    hide Learned, Reach, Contained, Feed, DecodeFrom, Concat, PacketsOf, SameShape, Undisturbed;
    var b := rest + s;
    var k := FirstOverrun(st, b);
    var a, q, c := b[..k], b[k..k + PACKET_SIZE], b[k + PACKET_SIZE..];
    var front := a + q;
    ThreeParts(b, k, PACKET_SIZE);
    CutOfWhole(rest, s, front, c);
    FeedRest(st, rest, front, c);
    FeedTwo(st, rest, front[|rest|..], c);
    OverrunAborts(st, a, q);
    Disturbed(st, rest, s, pid, [front[|rest|..], c]);
  }

  lemma OverrunAborts(st: State, a: seq<byte>, q: seq<byte>)
    requires Learned(st) && |a| % PACKET_SIZE == 0 && Contained(st, PacketsOf(a))
    requires |q| == PACKET_SIZE && Reach(st, q) > PACKET_SIZE
    ensures DecodeFrom(st, a + q, 0) == Aborted
  {
    hide Learned, Reach, Fills, Contained, DecodeFrom, PacketsOf, SameShape;
    assert [] + a + q == a + q;
    var st', events := ContainedFront(st, [], a, q);
    ShapeDecides(st, st', q);
    ThenOverrun(st', a, q);
  }

  // One way to cut the stream is enough.
  lemma Disturbed(st: State, rest: seq<byte>, s: seq<byte>, pid: u16, chunks: seq<seq<byte>>)
    requires pid in st.frames && Concat(chunks) == s
    requires var call := Feed(st, rest, chunks);
             call.Aborted?
             || FramesFor(pid, call.events)
                != FramesFor(pid, AloneRun(st.frames[pid], OnPid(pid, PacketsOf(rest + s))).events)
    ensures !Undisturbed(st, rest, s, pid)
  {
    hide Feed, FramesFor, AloneRun, OnPid, PacketsOf, Concat;
  }

  // The first packet, not counting packets at the start, that is on the PID and not filled.
  lemma {:induction false} FirstShort(st: State, pid: u16, b: seq<byte>) returns (k: nat)
    requires !OwnFill(st, pid, PacketsOf(b))
    ensures k % PACKET_SIZE == 0 && k + PACKET_SIZE <= |b| && OwnFill(st, pid, PacketsOf(b[..k]))
    ensures var q := b[k..k + PACKET_SIZE]; PidOf(q) == pid && !Fills(st, q)
    decreases |b|
  {
    hide Fills, PidOf, PacketsOf, OwnFill;
    if |b| < PACKET_SIZE {
      NoPacketsOf(b);
    }
    var p, more := b[..PACKET_SIZE], b[PACKET_SIZE..];
    OwnFillFirst(st, pid, b);
    if PidOf(p) == pid && !Fills(st, p) {
      k := 0;
      assert b[0..0 + PACKET_SIZE] == p;
      NoPacketsOf(b[..0]);
    } else {
      var j := FirstShort(st, pid, more);
      k := PACKET_SIZE + j;
      OneMoreWhole(j);
      SliceOfTail(b, PACKET_SIZE, j, PACKET_SIZE);
      assert b[..k][..PACKET_SIZE] == p;
      OwnFillFirst(st, pid, b[..k]);
    }
  }

  // Behind other packets, a packet of the PID that is not filled costs it a frame for good.
  lemma ShortDisturbs(st: State, a: seq<byte>, q: seq<byte>, c: seq<byte>, pid: u16)
    requires Learned(st) && pid in st.frames && a != [] && |a| % PACKET_SIZE == 0 && |q| == PACKET_SIZE
    requires Isolated(st, pid, PacketsOf(a)) && Reach(st, q) <= PACKET_SIZE && PidOf(q) == pid && !Fills(st, q)
    ensures var call := DecodeFrom(st, a + (q + c), 0);
            call.Returned? ==>
              FramesFor(pid, call.events)
              != FramesFor(pid, AloneRun(st.frames[pid], OnPid(pid, PacketsOf(a + (q + c)))).events)
  {
    hide Learned, Reach, Fills, Step, DecodeFrom, Isolated, FramesFor, PacketsOf, SameShape, Delivers, AloneRun, OnPid,
      Stuck,
      NoneCompleted;
    var b := a + (q + c);
    var first := FrontDelivers(st, a, q + c, pid);
    DeliversLearned(first, st, pid, PacketsOf(a), []);
    ShapeDecides(st, first.state, q);
    ThenPacket(first.state, a, q, c);
    OneOrMore(|a|);
    var frame := ShortStep(first.state, q, |a|);
    var there, here := Step(first.state, q, |a|), Step(first.state, q, 0);
    StuckRun(there.state, b, |a| + PACKET_SIZE, pid);
    AloneSplits(st, a, q, c, pid, first);
    var stuck := DecodeFrom(there.state, b, |a| + PACKET_SIZE);
    if stuck.Returned? {
      FramesForConcat(pid, there.events, stuck.events);
      FramesForConcat(pid, first.events, there.events + stuck.events);
      FramesForConcat(pid, there.events, [Frame(frame)]);
      OneFor(frame);
      var x, y, m := FramesFor(pid, first.events), FramesFor(pid, there.events), AfterAlone(st, a, q, c, pid, first);
      assert y + [frame] == FramesFor(pid, here.events);
      NeverTheSameFrames(x, y, frame, m, FramesFor(pid, stuck.events));
    }
  }

  // What the packets of the PID behind q deliver when they are alone.
  ghost function AfterAlone(st: State, a: seq<byte>, q: seq<byte>, c: seq<byte>, pid: u16, first: Call): seq<Es>
    requires first.Returned? && pid in first.state.frames
  {
    FramesFor(pid, AloneRun(EsStep(first.state.frames[pid], DecodeTs(q, 0), q, 0, 4).es,
                            OnPid(pid, PacketsOf(c))).events)
  }

  lemma AloneSplits(st: State, a: seq<byte>, q: seq<byte>, c: seq<byte>, pid: u16, first: Call)
    requires pid in st.frames && |a| % PACKET_SIZE == 0 && |q| == PACKET_SIZE && PidOf(q) == pid
    requires Delivers(first, st, pid, PacketsOf(a), []) && Learned(first.state)
    ensures FramesFor(pid, AloneRun(st.frames[pid], OnPid(pid, PacketsOf(a + (q + c)))).events)
         == FramesFor(pid, first.events)
            + (FramesFor(pid, Step(first.state, q, 0).events) + AfterAlone(st, a, q, c, pid, first))
  {
    hide FramesFor, Step, EsStep, DecodeTs, PacketsOf, PidOf, Learned;
    WholeTail(a);
    PacketsConcat(a, q + c);
    OnePacketOf(q);
    PacketsConcat(q, c);
    assert [] + (q + c) == q + c && [] + c == c;
    OnPidConcat(pid, PacketsOf(a), [q] + PacketsOf(c));
    OnPidConcat(pid, [q], PacketsOf(c));
    assert OnPid(pid, [q]) == [q] by {
      assert [q][1..] == [];
    }
    var es := first.state.frames[pid];
    var own, more := [q], OnPid(pid, PacketsOf(c));
    AloneConcat(st.frames[pid], OnPid(pid, PacketsOf(a)), own + more);
    AloneConcat(es, own, more);
    StepOnOwn(first.state, q, pid);
    var step := EsStep(es, DecodeTs(q, 0), q, 0, 4);
    AloneOne(es, q);
    var later := AloneRun(step.es, more).events;
    FramesForConcat(pid, AloneRun(st.frames[pid], OnPid(pid, PacketsOf(a))).events, step.events + later);
    FramesForConcat(pid, step.events, later);
  }

  lemma NeverTheSameFrames(x: seq<Es>, y: seq<Es>, frame: Es, more: seq<Es>, stuck: seq<Es>)
    requires frame.completed && NoneCompleted(stuck)
    ensures x + (y + stuck) != x + (y + [frame] + more)
  {
    var rest := [frame] + more;
    assert rest[0] == frame;
    assert y + [frame] + more == y + rest;
    CancelLeft(y, stuck, rest);
    CancelLeft(x, y + stuck, y + rest);
  }

  lemma CancelLeft(x: seq<Es>, u: seq<Es>, v: seq<Es>)
    ensures x + u == x + v ==> u == v
  {
    if x + u == x + v {
      assert u == (x + u)[|x|..] == (x + v)[|x|..] == v;
    }
  }

  /**
   In every learned state, for every carry-over and stream: however the stream is cut, the calls
   return and give the PID exactly what its packets alone call for, if and only if every header
   ends inside its packet and, behind the first packet, every payload that starts on that PID
   fills its packet. Payloads on other PIDs do not matter.
   */
  lemma IsolationExactly(st: State, rest: seq<byte>, s: seq<byte>, pid: u16)
    requires Learned(st) && pid in st.frames && |rest| < PACKET_SIZE
    ensures Undisturbed(st, rest, s, pid) <==> Isolated(st, pid, PacketsOf(rest + s))
  {
    hide Learned, Reach, Fills, Feed, DecodeFrom, FramesFor, AloneRun, OnPid, SameShape, PidOf;
    var b := rest + s;
    if Isolated(st, pid, PacketsOf(b)) {
      forall chunks | Concat(chunks) == s
        ensures var call := Feed(st, rest, chunks);
                call.Returned?
                && FramesFor(pid, call.events)
                   == FramesFor(pid, AloneRun(st.frames[pid], OnPid(pid, PacketsOf(b))).events)
      {
        FeedDelivers(st, rest, chunks, pid);
      }
    } else if !Contained(st, PacketsOf(b)) {
      OverrunDisturbs(st, rest, s, pid);
    } else {
      LaterShortDisturbs(st, rest, s, pid);
    }
  }

  lemma LaterShortDisturbs(st: State, rest: seq<byte>, s: seq<byte>, pid: u16)
    requires Learned(st) && pid in st.frames && |rest| < PACKET_SIZE
    requires var packets := PacketsOf(rest + s); Contained(st, packets) && !OwnFill(st, pid, AfterFirst(packets))
    ensures !Undisturbed(st, rest, s, pid)
  {
    hide Learned, Reach, Fills, Feed, DecodeFrom, FramesFor, AloneRun, OnPid, PidOf, Contained, OwnFill, PacketsOf,
      Undisturbed, Concat;
    var b := rest + s;
    var a, q, c := SplitAtShort(st, b, pid);
    ContainedParts(st, a, q, c);
    ShortDisturbs(st, a, q, c, pid);
    FeedOne(st, rest, s);
    OneChunk(s);
    Disturbed(st, rest, s, pid, [s]);
  }

  lemma SplitAtShort(st: State, b: seq<byte>, pid: u16) returns (a: seq<byte>, q: seq<byte>, c: seq<byte>)
    requires !OwnFill(st, pid, AfterFirst(PacketsOf(b)))
    ensures b == a + (q + c) && a != [] && |a| % PACKET_SIZE == 0 && |q| == PACKET_SIZE
    ensures OwnFill(st, pid, AfterFirst(PacketsOf(a))) && PidOf(q) == pid && !Fills(st, q)
  {
    hide Fills, PidOf, PacketsOf, OwnFill;
    if |b| < PACKET_SIZE {
      NoPacketsOf(b);
    }
    var p, more := b[..PACKET_SIZE], b[PACKET_SIZE..];
    PacketsFirst(b);
    var j := FirstShort(st, pid, more);
    var k := PACKET_SIZE + j;
    OneMoreWhole(j);
    SliceOfTail(b, PACKET_SIZE, j, PACKET_SIZE);
    a, q, c := b[..k], b[k..k + PACKET_SIZE], b[k + PACKET_SIZE..];
    assert a[..PACKET_SIZE] == p;
    PacketsFirst(a);
    ThreeParts(b, k, PACKET_SIZE);
  }

  lemma ThreeParts(b: seq<byte>, k: nat, n: nat)
    requires k + n <= |b|
    ensures b == b[..k] + (b[k..k + n] + b[k + n..]) && b == b[..k] + b[k..k + n] + b[k + n..]
  {
  }

  lemma OneChunk(s: seq<byte>)
    ensures Concat([s]) == s
  {
    assert [s][1..] == [] && s + [] == s;
  }

  lemma ContainedParts(st: State, a: seq<byte>, q: seq<byte>, c: seq<byte>)
    requires |a| % PACKET_SIZE == 0 && |q| == PACKET_SIZE && Contained(st, PacketsOf(a + (q + c)))
    ensures Contained(st, PacketsOf(a)) && Reach(st, q) <= PACKET_SIZE
  {
    hide Reach, PacketsOf;
    WholeTail(a);
    PacketsConcat(a, q + c);
    OnePacketOf(q);
    PacketsConcat(q, c);
    assert [] + (q + c) == q + c && [] + c == c;
    var all := PacketsOf(a) + ([q] + PacketsOf(c));
    assert forall x | x in PacketsOf(a) :: x in all;
    assert q in [q] + PacketsOf(c) && q in all;
  }
}
