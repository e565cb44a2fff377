/** What is delivered for one PID. */
module Frames {
  import opened Bytes
  import opened TsFields
  import opened DemuxSpec

  // The frames delivered for a PID.
  function FramesFor(pid: u16, events: seq<Event>): seq<Es> {
    if events == [] then [] else
      (if events[0].Frame? && events[0].es.pid == pid then [events[0].es] else []) + FramesFor(pid, events[1..])
  }

  lemma {:induction false} FramesForConcat(pid: u16, a: seq<Event>, b: seq<Event>)
    ensures FramesFor(pid, a + b) == FramesFor(pid, a) + FramesFor(pid, b)
    decreases |a|
  {
    if a == [] {
      assert a + b == b;
    } else {
      assert (a + b)[1..] == a[1..] + b;
      FramesForConcat(pid, a[1..], b);
    }
  }

  // Every event of a stream packet is a clock reference or a frame with the packet's PID.
  predicate OnlyFor(pid: u16, events: seq<Event>) {
    forall e | e in events :: e.Frame? ==> e.es.pid == pid
  }

  lemma EsStepDelivers(es: Es, h: TsHeader, w: seq<byte>, base: nat, p: nat)
    ensures OnlyFor(h.pid, EsStep(es, h, w, base, p).events)
  {
    hide DecodePes, DecodeAdaptation, DecodePcr, Slice, OpenFrame;
  }

  lemma {:induction false} OthersGetNothing(pid: u16, other: u16, events: seq<Event>)
    requires pid != other && OnlyFor(other, events)
    ensures FramesFor(pid, events) == []
    decreases |events|
  {
    if events != [] {
      assert events[0] in events;
      OthersGetNothing(pid, other, events[1..]);
    }
  }

  lemma ClockNoFrames(pid: u16, clock: seq<Event>)
    requires clock == [] || (|clock| == 1 && clock[0].Clock?)
    ensures FramesFor(pid, clock) == []
  {
    if clock != [] {
      assert clock[1..] == [];
    }
  }

  lemma OneFor(es: Es)
    ensures FramesFor(es.pid, [Frame(es)]) == [es]
  {
    var events := [Frame(es)];
    assert events[0].es == es && events[1..] == [];
  }

  lemma NoFramesFor(pid: u16)
    ensures FramesFor(pid, []) == []
  {
  }
}
