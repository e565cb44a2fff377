/** What the reference machine says of frames that fit a PES length, and of those that do not. */
module RoundTrips {
  import opened Bytes
  import opened TsFields
  import opened MuxSpec
  import opened DemuxSpec
  import opened Chunking
  import opened Cuts
  import opened Frames
  import opened FrameTrip
  import opened TableTrip
  import opened Trips

  function FramesIn(events: seq<Event>): seq<Es> {
    if events == [] then [] else (if events[0].Frame? then [events[0].es] else []) + FramesIn(events[1..])
  }

  lemma {:induction false} FramesInConcat(a: seq<Event>, b: seq<Event>)
    ensures FramesIn(a + b) == FramesIn(a) + FramesIn(b)
    decreases |a|
  {
    if a == [] {
      assert a + b == b;
    } else {
      var head := if a[0].Frame? then [a[0].es] else [];
      assert (a + b)[0] == a[0] && (a + b)[1..] == a[1..] + b;
      FramesInConcat(a[1..], b);
      assert head + (FramesIn(a[1..]) + FramesIn(b)) == head + FramesIn(a[1..]) + FramesIn(b);
    }
  }

  predicate AllFit(ops: seq<Op>) {
    forall op | op in ops :: op.Encode? ==> Fits(op.meta, op.data)
  }

  // The frames a run is given, in order.
  function Sent(ops: seq<Op>): seq<Es>
    requires AllFit(ops)
  {
    if ops == [] then [] else
      assert ops[0] in ops;
      (if ops[0].Encode? && ops[0].data != [] then [Whole(ops[0].meta, ops[0].data)] else []) + Sent(ops[1..])
  }

  lemma {:induction false} FittingFramesDelivered(cfg: Config, mux: MuxState, known: bool, ops: seq<Op>)
    requires |cfg.streams| <= MAX_STREAMS && AllFit(ops)
    ensures FramesIn(Expected(cfg, mux, known, map[], ops)) == Sent(ops)
    decreases |ops|
  {
    hide Whole, Broken, Fits, FramesIn, Deliveries, Waits, OpState, MapReports;
    if ops == [] {
      NoneIn();
    } else {
      var op, mux' := ops[0], OpState(cfg, mux, ops[0]);
      assert op in ops;
      OneFitting(cfg, op);
      MapIsNoFrame(cfg, mux, known, op);
      FramesInConcat(MapReports(cfg, mux, known, op), Deliveries(cfg, map[], op));
      FramesInConcat(Reports(cfg, mux, known, map[], op), Expected(cfg, mux', true, Waits(map[], op), ops[1..]));
      FittingFramesDelivered(cfg, mux', true, ops[1..]);
      var now := FramesIn(Deliveries(cfg, map[], op));
      assert [] + now == now;
    }
  }

  lemma NoneIn()
    ensures FramesIn([]) == []
  {
  }

  lemma MapIsNoFrame(cfg: Config, mux: MuxState, known: bool, op: Op)
    requires |cfg.streams| <= MAX_STREAMS
    ensures var clock := MapReports(cfg, mux, known, op);
            FramesIn(clock) == [] && forall pid :: FramesFor(pid, clock) == []
  {
    hide PmtPacket, DecodePcr, DecodeAdaptation, OpTables;
    var clock := MapReports(cfg, mux, known, op);
    assert clock == [] || (|clock| == 1 && clock[0].Clock? && clock[1..] == []);
    forall pid
      ensures FramesFor(pid, clock) == []
    {
      ClockNoFrames(pid, clock);
    }
  }

  lemma OneFitting(cfg: Config, op: Op)
    requires op.Encode? ==> Fits(op.meta, op.data)
    ensures Waits(map[], op) == map[]
    ensures FramesIn(Deliveries(cfg, map[], op))
         == if op.Encode? && op.data != [] then [Whole(op.meta, op.data)] else []
  {
    hide Whole, Fits;
    if op.Encode? && op.data != [] {
      var clock, frame := ClockOf(cfg, op.meta), [Frame(Whole(op.meta, op.data))];
      assert Deliveries(cfg, map[], op) == clock + frame;
      FramesInConcat(clock, frame);
      assert FramesIn(clock) == [];
      assert FramesIn(frame) == [frame[0].es];
    } else if op.Tick? {
      var clock := Deliveries(cfg, map[], op);
      assert clock == [] || (|clock| == 1 && clock[0].Clock? && clock[1..] == []);
    }
  }

  /**
   Round trip. For a configuration with 1 to 33 streams on distinct PIDs and any run of
   calls that starts with tables and whose frames fit a sixteen-bit PES length, a fresh
   demuxer given the emitted bytes in chunks of any sizes delivers exactly the non-empty
   frames, in order, each once and none broken, with its bytes, PID, stream type, stream
   id, random access bit, and time stamps modulo 2^32.
   */
  lemma RoundTrip(cfg: Config, mux: MuxState, ops: seq<Op>, chunks: seq<seq<byte>>)
    requires ValidConfig(cfg) && ValidRun(cfg, ops) && AllFit(ops)
    requires ops != [] && OpTables(cfg, mux, ops[0])
    requires Concat(chunks) == MuxBytes(cfg, mux, ops)
    ensures var call := Feed(INITIAL, [], chunks);
            call.Returned? && FramesIn(call.events) == Sent(ops)
  {
    hide OpTables, Expected, Sent, FramesIn, MuxBytes, ValidRun, AllFit;
    TransportedWhole(cfg, mux, ops, chunks);
    FittingFramesDelivered(cfg, mux, false, ops);
  }

  lemma NoTables(cfg: Config, mux: MuxState)
    requires |cfg.streams| <= MAX_STREAMS
    ensures NoTablesFrom(cfg, mux, [], 0) && MuxBytes(cfg, mux, []) == [] && MuxAfter(cfg, mux, []) == mux
  {
  }

  // ---------- Frames too long for their length field ----------

  predicate Keyed(waiting: map<u16, Waiting>) {
    forall pid | pid in waiting :: waiting[pid].meta.pid == pid
  }

  function WaitsAll(waiting: map<u16, Waiting>, ops: seq<Op>): map<u16, Waiting>
    decreases |ops|
  {
    if ops == [] then waiting else WaitsAll(Waits(waiting, ops[0]), ops[1..])
  }

  // What a demuxer is given for b after a.
  function ExpectedAfter(cfg: Config, mux: MuxState, known: bool, waiting: map<u16, Waiting>, a: seq<Op>,
                         b: seq<Op>): seq<Event>
    requires |cfg.streams| <= MAX_STREAMS
  {
    Expected(cfg, MuxAfter(cfg, mux, a), known || a != [], WaitsAll(waiting, a), b)
  }

  lemma {:induction false} ExpectedConcat(cfg: Config, mux: MuxState, known: bool, waiting: map<u16, Waiting>,
                                          a: seq<Op>, b: seq<Op>)
    requires |cfg.streams| <= MAX_STREAMS
    ensures Expected(cfg, mux, known, waiting, a + b)
         == Expected(cfg, mux, known, waiting, a) + ExpectedAfter(cfg, mux, known, waiting, a, b)
    decreases |a|
  {
    hide Reports, Waits, OpState;
    if a == [] {
      assert a + b == b;
    } else {
      assert (a + b)[1..] == a[1..] + b;
      ExpectedConcat(cfg, OpState(cfg, mux, a[0]), true, Waits(waiting, a[0]), a[1..], b);
    }
  }

  // No frame of the run is on the PID.
  predicate Quiet(pid: u16, ops: seq<Op>) {
    forall op | op in ops :: op.Encode? && op.data != [] ==> op.meta.pid != pid
  }

  lemma {:induction false} QuietKeeps(cfg: Config, mux: MuxState, known: bool, waiting: map<u16, Waiting>,
                                      ops: seq<Op>, pid: u16)
    requires |cfg.streams| <= MAX_STREAMS && Quiet(pid, ops) && Keyed(waiting) && pid in waiting
    ensures FramesFor(pid, Expected(cfg, mux, known, waiting, ops)) == []
    ensures pid in WaitsAll(waiting, ops) && WaitsAll(waiting, ops)[pid] == waiting[pid]
    ensures Keyed(WaitsAll(waiting, ops))
    decreases |ops|
  {
    hide Whole, Broken, Fits, FramesFor, Keyed, OpState, Waits, Deliveries, MapReports;
    if ops == [] {
      NoFramesFor(pid);
    } else {
      var op, mux' := ops[0], OpState(cfg, mux, ops[0]);
      assert op in ops;
      QuietOnce(cfg, waiting, op, pid);
      var waiting' := Waits(waiting, op);
      assert Quiet(pid, ops[1..]);
      QuietKeeps(cfg, mux', true, waiting', ops[1..], pid);
      ReportedFor(cfg, mux, known, waiting, op, pid);
      FramesForConcat(pid, Reports(cfg, mux, known, waiting, op), Expected(cfg, mux', true, waiting', ops[1..]));
    }
  }

  // Map packets add no frames.
  lemma ReportedFor(cfg: Config, mux: MuxState, known: bool, waiting: map<u16, Waiting>, op: Op, pid: u16)
    requires |cfg.streams| <= MAX_STREAMS
    ensures FramesFor(pid, Reports(cfg, mux, known, waiting, op)) == FramesFor(pid, Deliveries(cfg, waiting, op))
  {
    hide FramesFor, Deliveries, MapReports;
    MapIsNoFrame(cfg, mux, known, op);
    FramesForConcat(pid, MapReports(cfg, mux, known, op), Deliveries(cfg, waiting, op));
    var frames := FramesFor(pid, Deliveries(cfg, waiting, op));
    assert [] + frames == frames;
  }

  lemma QuietOnce(cfg: Config, waiting: map<u16, Waiting>, op: Op, pid: u16)
    requires op.Encode? && op.data != [] ==> op.meta.pid != pid
    requires Keyed(waiting) && pid in waiting
    ensures FramesFor(pid, Deliveries(cfg, waiting, op)) == []
    ensures var waiting' := Waits(waiting, op); Keyed(waiting') && pid in waiting' && waiting'[pid] == waiting[pid]
  {
    hide Stamp32, Low;
    var now := Deliveries(cfg, waiting, op);
    if op.Encode? && op.data != [] {
      assert OnlyFor(op.meta.pid, now);
      OthersGetNothing(pid, op.meta.pid, now);
    } else if op.Tick? {
      assert OnlyFor(if pid == 0 then 1 else 0, now);
      OthersGetNothing(pid, if pid == 0 then 1 else 0, now);
    }
  }

  lemma LastDeliveries(cfg: Config, waiting: map<u16, Waiting>, op: Op)
    requires op.Encode? && op.data != [] && Keyed(waiting)
    ensures var pid := op.meta.pid;
            FramesFor(pid, Deliveries(cfg, waiting, op))
            == (if pid in waiting then [Broken(waiting[pid], op.meta)] else [])
               + (if Fits(op.meta, op.data) then [Whole(op.meta, op.data)] else [])
  {
    hide Fits, FramesFor, Whole, Broken;
    var pid := op.meta.pid;
    var clock := ClockOf(cfg, op.meta);
    var broken := if pid in waiting then [Frame(Broken(waiting[pid], op.meta))] else [];
    var whole := if Fits(op.meta, op.data) then [Frame(Whole(op.meta, op.data))] else [];
    assert Deliveries(cfg, waiting, op) == clock + broken + whole;
    FramesForConcat(pid, clock + broken, whole);
    FramesForConcat(pid, clock, broken);
    NoFramesFor(pid);
    ClockNoFrames(pid, clock);
    if pid in waiting {
      OneBroken(pid, waiting[pid], op.meta);
    }
    if Fits(op.meta, op.data) {
      OneWhole(op.meta, op.data);
    }
  }

  lemma OneBroken(pid: u16, w: Waiting, m: Meta)
    requires w.meta.pid == pid
    ensures FramesFor(pid, [Frame(Broken(w, m))]) == [Broken(w, m)]
  {
    OneFor(Broken(w, m));
  }

  lemma OneWhole(m: Meta, data: seq<byte>)
    requires Fits(m, data)
    ensures FramesFor(m.pid, [Frame(Whole(m, data))]) == [Whole(m, data)]
  {
    OneFor(Whole(m, data));
  }

  /**
   A frame too long for its length field is not delivered by its own packets, nor by
   anything sent on other PIDs. The next frame on its PID has it delivered, once, with its
   exact bytes and time stamps, marked broken, and with that next frame's random access bit.
   */
  lemma OversizeFrames(cfg: Config, mux: MuxState, known: bool, waiting: map<u16, Waiting>, big: Op, between: seq<Op>,
                       next: Op)
    requires |cfg.streams| <= MAX_STREAMS && Keyed(waiting) && big.Encode? && big.data != []
             && !Fits(big.meta, big.data)
    requires Quiet(big.meta.pid, between)
    requires next.Encode? && next.data != [] && next.meta.pid == big.meta.pid
    ensures var pid := big.meta.pid;
            var earlier := if pid in waiting then [Broken(waiting[pid], big.meta)] else [];
            FramesFor(pid, Expected(cfg, mux, known, waiting, [big] + between)) == earlier
            && FramesFor(pid, Expected(cfg, mux, known, waiting, [big] + between + [next]))
               == earlier + [Broken(Waiting(big.meta, big.data), next.meta)]
                  + (if Fits(next.meta, next.data) then [Whole(next.meta, next.data)] else [])
  {
    hide Whole, Broken, Fits, FramesFor, Deliveries, Reports, OpState, MuxAfter, Keyed;
    var pid, mux' := big.meta.pid, OpState(cfg, mux, big);
    var waiting' := Waits(waiting, big);
    var kept := WaitsAll(waiting', between);
    BigWaits(waiting, big);
    assert ([big] + between)[1..] == between;
    var first := Reports(cfg, mux, known, waiting, big);
    assert Expected(cfg, mux, known, waiting, [big] + between) == first + Expected(cfg, mux', true, waiting', between);
    ReportedFor(cfg, mux, known, waiting, big, pid);
    LastDeliveries(cfg, waiting, big);
    QuietKeeps(cfg, mux', true, waiting', between, pid);
    FramesForConcat(pid, first, Expected(cfg, mux', true, waiting', between));
    ExpectedConcat(cfg, mux, known, waiting, [big] + between, [next]);
    assert WaitsAll(waiting, [big] + between) == kept;
    var mux2 := MuxAfter(cfg, mux, [big] + between);
    var last := Reports(cfg, mux2, true, kept, next);
    assert [big] + between != [];
    OneExpected(cfg, mux2, true, kept, next);
    assert ExpectedAfter(cfg, mux, known, waiting, [big] + between, [next]) == last;
    ReportedFor(cfg, mux2, true, kept, next, pid);
    LastDeliveries(cfg, kept, next);
    FramesForConcat(pid, Expected(cfg, mux, known, waiting, [big] + between), last);
  }

  lemma OneExpected(cfg: Config, mux: MuxState, known: bool, waiting: map<u16, Waiting>, op: Op)
    requires |cfg.streams| <= MAX_STREAMS
    ensures Expected(cfg, mux, known, waiting, [op]) == Reports(cfg, mux, known, waiting, op)
  {
    hide Reports, OpState, Waits;
    var now := Reports(cfg, mux, known, waiting, op);
    assert [op][1..] == [] && now + [] == now;
  }

  lemma BigWaits(waiting: map<u16, Waiting>, big: Op)
    requires Keyed(waiting) && big.Encode? && big.data != [] && !Fits(big.meta, big.data)
    ensures var waiting' := Waits(waiting, big);
            Keyed(waiting') && big.meta.pid in waiting' && waiting'[big.meta.pid] == Waiting(big.meta, big.data)
  {
  }

  // What a run has delivered for a PID when the next frame on it starts.
  function SettledBy(cfg: Config, mux: MuxState, before: seq<Op>, next: Op): seq<Es>
    requires |cfg.streams| <= MAX_STREAMS && next.Encode?
  {
    var pid, waiting := next.meta.pid, WaitsAll(map[], before);
    FramesFor(pid, Expected(cfg, mux, false, map[], before))
    + if pid in waiting then [Broken(waiting[pid], next.meta)] else []
  }

  lemma {:induction false} AlwaysKeyed(waiting: map<u16, Waiting>, ops: seq<Op>)
    requires Keyed(waiting)
    ensures Keyed(WaitsAll(waiting, ops))
    decreases |ops|
  {
    if ops != [] {
      AlwaysKeyed(Waits(waiting, ops[0]), ops[1..]);
    }
  }

  lemma SplitExpected(cfg: Config, mux: MuxState, before: seq<Op>, after: seq<Op>, pid: u16)
    requires |cfg.streams| <= MAX_STREAMS
    ensures FramesFor(pid, Expected(cfg, mux, false, map[], before + after))
         == FramesFor(pid, Expected(cfg, mux, false, map[], before))
            + FramesFor(pid, ExpectedAfter(cfg, mux, false, map[], before, after))
  {
    hide Expected, FramesFor, WaitsAll, ExpectedAfter;
    ExpectedConcat(cfg, mux, false, map[], before, after);
    FramesForConcat(pid, Expected(cfg, mux, false, map[], before),
                    ExpectedAfter(cfg, mux, false, map[], before, after));
  }

  /**
   The same through muxer and demuxer, wherever in a run the frame lies: until its successor
   starts, a fresh demuxer has delivered nothing of it; then it delivers it, broken, once.
   */
  lemma OversizeTransported(cfg: Config, mux: MuxState, before: seq<Op>, big: Op, between: seq<Op>, next: Op,
                            until: seq<seq<byte>>, through: seq<seq<byte>>)
    requires ValidConfig(cfg) && ValidRun(cfg, before + ([big] + between + [next]))
    requires OpTables(cfg, mux, (before + [big])[0])
    requires big.Encode? && big.data != [] && !Fits(big.meta, big.data) && Quiet(big.meta.pid, between)
    requires next.Encode? && next.data != [] && next.meta.pid == big.meta.pid
    requires Concat(until) == MuxBytes(cfg, mux, before + ([big] + between))
    requires Concat(through) == MuxBytes(cfg, mux, before + ([big] + between + [next]))
    ensures var pid, first, all := big.meta.pid, Feed(INITIAL, [], until), Feed(INITIAL, [], through);
            first.Returned? && all.Returned? && FramesFor(pid, first.events) == SettledBy(cfg, mux, before, big)
            && FramesFor(pid, all.events)
               == SettledBy(cfg, mux, before, big) + [Broken(Waiting(big.meta, big.data), next.meta)]
                  + (if Fits(next.meta, next.data) then [Whole(next.meta, next.data)] else [])
  {
    hide Expected, FramesFor, WaitsAll, MuxBytes, OpTables, ValidOp, Feed, Fits, Whole, Broken, Concat, Quiet, Keyed,
      MuxAfter;
    var pid, waiting, mux' := big.meta.pid, WaitsAll(map[], before), MuxAfter(cfg, mux, before);
    var known := before != [];
    var short, long := [big] + between, [big] + between + [next];
    assert before + long == before + short + [next];
    ValidParts(cfg, before + short, [next]);
    assert (before + short)[0] == (before + [big])[0] == (before + long)[0];
    TransportedWhole(cfg, mux, before + short, until);
    TransportedWhole(cfg, mux, before + long, through);
    NoneKeyed();
    AlwaysKeyed(map[], before);
    OversizeFrames(cfg, mux', known, waiting, big, between, next);
    SplitExpected(cfg, mux, before, short, pid);
    SplitExpected(cfg, mux, before, long, pid);
    Regroup(FramesFor(pid, Expected(cfg, mux, false, map[], before)),
            if pid in waiting then [Broken(waiting[pid], big.meta)] else [],
            [Broken(Waiting(big.meta, big.data), next.meta)],
            if Fits(next.meta, next.data) then [Whole(next.meta, next.data)] else []);
  }

  lemma NoneKeyed()
    ensures Keyed(map[])
  {
  }

  lemma Regroup(a: seq<Es>, b: seq<Es>, c: seq<Es>, d: seq<Es>)
    ensures a + (b + c + d) == a + b + c + d
  {
  }

  // Late join from the first byte.
  lemma TransportedWhole(cfg: Config, mux: MuxState, ops: seq<Op>, chunks: seq<seq<byte>>)
    requires ValidConfig(cfg) && ValidRun(cfg, ops) && ops != [] && OpTables(cfg, mux, ops[0])
    requires Concat(chunks) == MuxBytes(cfg, mux, ops)
    ensures var call := Feed(INITIAL, [], chunks);
            call.Returned? && call.events == Expected(cfg, mux, false, map[], ops)
  {
    hide OpTables, Expected, MuxBytes, ValidOp;
    assert [] + ops == ops;
    NoTables(cfg, mux);
    LateJoin(cfg, mux, [], ops, 0, chunks);
  }
}
