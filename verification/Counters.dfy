/** Continuity counters and table intervals over whole runs of the muxer. */
module Counters {
  import opened Bytes
  import opened TsFields
  import opened MuxSpec
  import opened FrameTrip
  import opened TableTrip
  import opened Trips
  import opened Packetization

  // The counters of the packets with payload on a PID, in order.
  function CountersOn(pid: u16, s: seq<byte>): seq<byte>
    decreases |s|
  {
    if |s| < PACKET_SIZE then [] else
      CounterOf(pid, s[..PACKET_SIZE]) + CountersOn(pid, s[PACKET_SIZE..])
  }

  function CounterOf(pid: u16, p: seq<byte>): seq<byte> {
    var h := DecodeTs(p, 0);
    if h.pid == pid && HasPayload(h.adaptation) then [h.counter] else []
  }

  // Each counter is the one before it plus one, modulo 16.
  predicate Rising(cs: seq<byte>) {
    forall i | 0 < i < |cs| :: cs[i] == Plus(cs[i - 1], 1)
  }

  function Plus(c: byte, n: nat): byte { (c as int + n) % 16 }

  function Consecutive(c: byte, n: nat): (cs: seq<byte>)
    ensures |cs| == n
    decreases n
  {
    if n == 0 then [] else [c] + Consecutive(Plus(c, 1), n - 1)
  }

  lemma {:induction false} ConsecutiveRises(c: byte, n: nat)
    ensures Rising(Consecutive(c, n))
    ensures n > 0 ==> Consecutive(c, n)[0] == c
    decreases n
  {
    hide Plus;
    if n > 0 {
      ConsecutiveRises(Plus(c, 1), n - 1);
      var cs := Consecutive(c, n);
      forall i | 0 < i < n
        ensures cs[i] == Plus(cs[i - 1], 1)
      {
        assert cs[i] == Consecutive(Plus(c, 1), n - 1)[i - 1];
      }
    }
  }

  lemma {:induction false} ConsecutiveConcat(c: byte, n: nat, k: nat)
    requires c < 16
    ensures Consecutive(c, n) + Consecutive(Plus(c, n), k) == Consecutive(c, n + k)
    decreases n
  {
    if n == 0 {
      assert Plus(c, 0) == c;
      assert Consecutive(c, 0) + Consecutive(c, k) == Consecutive(c, k);
    } else {
      PlusPlus(c, 1, n - 1);
      ConsecutiveConcat(Plus(c, 1), n - 1, k);
      assert [c] + Consecutive(Plus(c, 1), n - 1) + Consecutive(Plus(c, n), k)
          == [c] + (Consecutive(Plus(c, 1), n - 1) + Consecutive(Plus(c, n), k));
    }
  }

  lemma PlusPlus(c: byte, n: nat, k: nat)
    ensures Plus(Plus(c, n), k) == Plus(c, n + k)
  {
  }

  lemma {:induction false} CountersConcat(pid: u16, a: seq<byte>, b: seq<byte>)
    requires |a| % PACKET_SIZE == 0
    ensures CountersOn(pid, a + b) == CountersOn(pid, a) + CountersOn(pid, b)
    decreases |a|
  {
    hide CounterOf;
    if |a| < PACKET_SIZE {
      assert a + b == b;
    } else {
      assert (a + b)[..PACKET_SIZE] == a[..PACKET_SIZE] && (a + b)[PACKET_SIZE..] == a[PACKET_SIZE..] + b;
      CountersConcat(pid, a[PACKET_SIZE..], b);
      var head := CounterOf(pid, a[..PACKET_SIZE]);
      assert head + (CountersOn(pid, a[PACKET_SIZE..]) + CountersOn(pid, b))
          == head + CountersOn(pid, a[PACKET_SIZE..]) + CountersOn(pid, b);
    }
  }

  lemma OneCounter(pid: u16, p: seq<byte>)
    requires |p| == PACKET_SIZE
    ensures CountersOn(pid, p) == CounterOf(pid, p)
  {
    hide CounterOf;
    assert p[..PACKET_SIZE] == p && CountersOn(pid, p[PACKET_SIZE..]) == [];
  }

  // ---------- One call ----------

  // Identifiers in range.
  predicate Addressable(cfg: Config) {
    |cfg.streams| <= MAX_STREAMS && cfg.pmtPid < 0x2000 && cfg.pcrPid < 0x2000
    && forall t | t in cfg.streams :: cfg.streams[t] < 0x2000
  }

  // A muxer that sends tables, with a frame to send them before.
  predicate SendsTables(cfg: Config) { cfg.muxType in {SegmentType, H222Type} && cfg.streams != map[] }

  predicate TablePid(cfg: Config, pid: u16) { pid == PAT_PID || pid == cfg.pmtPid }

  // No stream is sent on a PID of the tables, and these are two.
  predicate TablesApart(cfg: Config) {
    cfg.pmtPid != PAT_PID && forall t | t in cfg.streams :: !TablePid(cfg, cfg.streams[t])
  }

  // Every PID has a counter of its own: counters are kept by stream type, those of the tables as
  // if of type 0.
  predicate OwnCounters(cfg: Config) {
    Injective(cfg.streams) && (SendsTables(cfg) ==> 0 !in cfg.streams && TablesApart(cfg))
  }

  function If(here: bool, c: byte): seq<byte> { if here then [c] else [] }

  lemma {:induction false} PesCounters(at: u16, pid: u16, unitStart: byte, field: seq<byte>, head: seq<byte>,
                                       body: seq<byte>, c: byte)
    requires Fieldlike(field, head) && pid < 0x2000 && unitStart < 2 && c < 16
    ensures CountersOn(at, PesPackets(pid, unitStart, field, head, body, c))
         == Consecutive(c, if at == pid then PacketCount(field, head, body) else 0)
    decreases |body|
  {
    hide Packet, Stuffed, DecodeTs;
    if body != [] {
      var n := Taken(field, head, body);
      var w := OnePacket(pid, unitStart, field, head, body, c);
      PacketHeader(unitStart, pid, c, Stuffed(field, Room(field, head) - n), head + body[..n]);
      OneCounter(at, w);
      var more := PesPackets(pid, 0, [], [], body[n..], Succ(c));
      PesCounters(at, pid, 0, [], [], body[n..], Succ(c));
      CountersConcat(at, w, more);
      assert Plus(c, 1) == Succ(c);
    }
  }

  lemma FrameCounters(cfg: Config, at: u16, m: Meta, data: seq<byte>, c: byte)
    requires m.pid < 0x2000 && c < 16
    ensures CountersOn(at, FramePackets(cfg, m, |data|, data, c))
         == Consecutive(c, if at == m.pid then FrameCount(cfg, m, |data|, data) else 0)
  {
    hide FirstField, PesHead, PesPackets, PacketCount;
    FirstFieldlike(m, cfg.pcrPid, |data|);
    PesCounters(at, m.pid, 1, FirstField(m, cfg.pcrPid), PesHead(m, |data|), data, c);
  }

  lemma TableCounters(cfg: Config, at: u16, c: byte)
    requires Addressable(cfg) && c < 16
    ensures CountersOn(at, PatPacket(cfg.pmtPid, c) + PmtPacket(cfg, c))
            == If(at == PAT_PID, c) + If(at == cfg.pmtPid, c)
  {
    hide SectionPacket, DecodeTs, PatSection, EncodePmt, PmtOf;
    SectionHeader(PAT_PID, c, PatSection(cfg.pmtPid));
    SectionHeader(cfg.pmtPid, c, EncodePmt(PmtOf(cfg)));
    OneCounter(at, PatPacket(cfg.pmtPid, c));
    OneCounter(at, PmtPacket(cfg, c));
    CountersConcat(at, PatPacket(cfg.pmtPid, c), PmtPacket(cfg, c));
  }

  lemma TickCounters(cfg: Config, at: u16, pcr: u64)
    requires Addressable(cfg)
    ensures CountersOn(at, ClockPacket(cfg, pcr)) == []
  {
    hide DecodeTs, ClockPacket;
    ClockPacketRead(cfg, pcr);
    OneCounter(at, ClockPacket(cfg, pcr));
  }

  lemma {:induction false} CountedKeys(counters: map<nat, byte>, key: nat, n: nat)
    ensures NextCounter(Counted(counters, key, n), key) == Plus(NextCounter(counters, key), n)
    ensures forall k | k != key :: NextCounter(Counted(counters, key, n), k) == NextCounter(counters, k)
    decreases n
  {
    if n > 0 {
      CountedKeys(counters[key := NextCounter(counters, key)], key, n - 1);
      PlusPlus(NextCounter(counters, key), 1, n - 1);
    }
  }

  // The key under which a PID's counter is kept: that of its stream type, or 0 for the tables;
  // 256 if there is none.
  ghost function KeyOf(cfg: Config, pid: u16): nat {
    if SendsTables(cfg) && TablePid(cfg, pid) then 0
    else if exists t :: t in cfg.streams && cfg.streams[t] == pid then
      var t :| t in cfg.streams && cfg.streams[t] == pid; t
    else 256
  }

  lemma KeyOfStream(cfg: Config, t: byte)
    requires Addressable(cfg) && OwnCounters(cfg) && t in cfg.streams
    ensures KeyOf(cfg, cfg.streams[t]) == t
  {
  }

  lemma KeyOfOther(cfg: Config, pid: u16, t: byte)
    requires OwnCounters(cfg) && t in cfg.streams && cfg.streams[t] != pid
    ensures KeyOf(cfg, pid) != t
  {
  }

  // The packets with payload that one call sends on a PID.
  ghost function Share(cfg: Config, mux: MuxState, op: Op, pid: u16): nat {
    if op.Tick? then 0 else
      (if WantsTables(cfg, mux, op.randomAccess) && TablePid(cfg, pid) then 1 else 0)
      + (if pid == op.meta.pid then FrameCount(cfg, op.meta, |op.data|, op.data) else 0)
  }

  lemma OpCounters(cfg: Config, mux: MuxState, op: Op, pid: u16)
    requires Addressable(cfg) && OwnCounters(cfg) && ValidOp(cfg, op)
    ensures var key, n := KeyOf(cfg, pid), Share(cfg, mux, op, pid);
            CountersOn(pid, OpBytes(cfg, mux, op)) == Consecutive(NextCounter(mux.counters, key), n)
            && NextCounter(OpState(cfg, mux, op).counters, key) == Plus(NextCounter(mux.counters, key), n)
  {
    hide FramePackets, PatPacket, PmtPacket, ClockPacket, CountersOn, KeyOf, FrameCount, Counted, Consecutive;
    var key := KeyOf(cfg, pid);
    NextInRange(mux.counters, key);
    NoneConsecutive(NextCounter(mux.counters, key));
    match op {
      case Tick(pcr) =>
        TickCounters(cfg, pid, pcr);
      case Encode(m, data, ra) =>
        var t, counters := m.streamType, AfterTables(cfg, mux, ra);
        var c := NextCounter(counters, t);
        NextInRange(counters, t);
        FrameCounters(cfg, pid, m, data, c);
        CountedKeys(counters, t, FrameCount(cfg, m, |data|, data));
        TablePart(cfg, mux, ra, pid);
        KeyOfStream(cfg, t);
        CountersConcat(pid, TablePackets(cfg, mux, ra), FramePackets(cfg, m, |data|, data, c));
        NoneConsecutive(c);
        if pid != m.pid {
          KeyOfOther(cfg, pid, t);
        }
    }
  }

  lemma NoneConsecutive(c: byte)
    ensures Consecutive(c, 0) == [] && Plus(NextCounter(map[], 0), 0) == 0
    ensures c < 16 ==> Plus(c, 0) == c
  {
  }

  lemma TablePart(cfg: Config, mux: MuxState, ra: bool, pid: u16)
    requires Addressable(cfg) && OwnCounters(cfg) && cfg.streams != map[]
    ensures var key := KeyOf(cfg, pid);
            var n := if WantsTables(cfg, mux, ra) && TablePid(cfg, pid) then 1 else 0;
            CountersOn(pid, TablePackets(cfg, mux, ra)) == Consecutive(NextCounter(mux.counters, key), n)
            && NextCounter(AfterTables(cfg, mux, ra), key) == Plus(NextCounter(mux.counters, key), n)
  {
    hide TablePackets, CountersOn, KeyOf, Consecutive;
    var key := KeyOf(cfg, pid);
    NextInRange(mux.counters, key);
    NoneConsecutive(NextCounter(mux.counters, key));
    SingleConsecutive(NextCounter(mux.counters, key));
    TablesOn(cfg, mux, ra, pid);
    if WantsTables(cfg, mux, ra) {
      KeyOfTables(cfg, pid);
    }
  }

  lemma KeyOfTables(cfg: Config, pid: u16)
    requires OwnCounters(cfg) && SendsTables(cfg)
    ensures KeyOf(cfg, pid) == 0 <==> TablePid(cfg, pid)
  {
  }

  // ---------- Whole runs ----------

  lemma {:induction false} RunCounters(cfg: Config, mux: MuxState, ops: seq<Op>, pid: u16) returns (n: nat)
    requires Addressable(cfg) && OwnCounters(cfg) && ValidRun(cfg, ops)
    ensures CountersOn(pid, MuxBytes(cfg, mux, ops)) == Consecutive(NextCounter(mux.counters, KeyOf(cfg, pid)), n)
    decreases |ops|
  {
    hide OpBytes, OpState, KeyOf, Share, CountersOn, Consecutive, NextCounter;
    var key := KeyOf(cfg, pid);
    var c := NextCounter(mux.counters, key);
    if ops == [] {
      n := 0;
      NoneConsecutive(c);
      NoCounters(pid);
    } else {
      assert ops[0] in ops;
      var mux' := OpState(cfg, mux, ops[0]);
      OpCounters(cfg, mux, ops[0], pid);
      var k := RunCounters(cfg, mux', ops[1..], pid);
      n := Share(cfg, mux, ops[0], pid) + k;
      CountersConcat(pid, OpBytes(cfg, mux, ops[0]), MuxBytes(cfg, mux', ops[1..]));
      NextInRange(mux.counters, key);
      ConsecutiveConcat(c, Share(cfg, mux, ops[0], pid), k);
    }
  }

  lemma NoCounters(pid: u16)
    ensures CountersOn(pid, []) == []
  {
  }

  /**
   In every run of a muxer whose PIDs have counters of their own, the packets with payload on
   every PID, those of the tables included, carry counters that rise by one modulo 16, going on
   from the state the run starts in.
   */
  lemma CountersRise(cfg: Config, mux: MuxState, ops: seq<Op>, pid: u16)
    requires Addressable(cfg) && OwnCounters(cfg) && ValidRun(cfg, ops)
    ensures var cs := CountersOn(pid, MuxBytes(cfg, mux, ops));
            Rising(cs) && (cs != [] ==> cs[0] == NextCounter(mux.counters, KeyOf(cfg, pid)))
  {
    hide MuxBytes, CountersOn, KeyOf, Rising, Consecutive;
    var n := RunCounters(cfg, mux, ops, pid);
    ConsecutiveRises(NextCounter(mux.counters, KeyOf(cfg, pid)), n);
  }

  // ---------- Tables every twenty calls ----------

  function Encodes(ops: seq<Op>): nat {
    if ops == [] then 0 else (if ops[0].Encode? then 1 else 0) + Encodes(ops[1..])
  }

  lemma {:induction false} IndexAfter(cfg: Config, mux: MuxState, ops: seq<Op>)
    requires cfg.muxType == H222Type && mux.index <= PAT_INTERVAL
    ensures var st, n := MuxAfter(cfg, mux, ops), Encodes(ops);
            st.index <= PAT_INTERVAL && st.index % PAT_INTERVAL == (mux.index + n) % PAT_INTERVAL
    decreases |ops|
  {
    hide OpState;
    if ops != [] {
      var mux' := OpState(cfg, mux, ops[0]);
      OpIndex(cfg, mux, ops[0]);
      IndexAfter(cfg, mux', ops[1..]);
    }
  }

  lemma OpIndex(cfg: Config, mux: MuxState, op: Op)
    requires cfg.muxType == H222Type && mux.index <= PAT_INTERVAL
    ensures var index := OpState(cfg, mux, op).index;
            index <= PAT_INTERVAL
            && index == if op.Tick? then mux.index else if mux.index in {0, PAT_INTERVAL} then 1 else mux.index + 1
  {
    hide Counted, FrameCount, AfterTables;
  }

  /**
   In h222 mode, call n of encode carries tables exactly when n is a multiple of 20,
   whatever clock packets are sent in between, and the index stays within the interval.
   */
  lemma TablesEveryTwenty(cfg: Config, before: seq<Op>, randomAccess: bool)
    requires cfg.muxType == H222Type
    ensures var mux := MuxAfter(cfg, INITIAL_MUX, before);
            mux.index <= 20 && (WantsTables(cfg, mux, randomAccess) <==> Encodes(before) % 20 == 0)
  {
    IndexAfter(cfg, INITIAL_MUX, before);
  }

  // ---------- Counters that are shared ----------

  // A one-byte frame.
  function OneByte(cfg: Config, t: byte): Op
    requires t in cfg.streams
  {
    Encode(Meta(cfg.streams[t], t, 0, 0, 0, 0, 0), [0], true)
  }

  lemma OneByteCounters(cfg: Config, at: u16, t: byte, c: byte)
    requires Addressable(cfg) && t in cfg.streams && c < 16
    ensures CountersOn(at, FramePackets(cfg, OneByte(cfg, t).meta, 1, [0], c)) == If(at == cfg.streams[t], c)
    ensures FrameCount(cfg, OneByte(cfg, t).meta, 1, [0]) == 1
  {
    hide FramePackets, CountersOn, FrameCount, Consecutive;
    var op := OneByte(cfg, t);
    OneByteFrame(cfg, op.meta, [0], c);
    FrameCounters(cfg, at, op.meta, [0], c);
    SingleConsecutive(c);
    NoneConsecutive(c);
  }

  lemma TablesOn(cfg: Config, mux: MuxState, ra: bool, at: u16)
    requires Addressable(cfg)
    ensures CountersOn(at, TablePackets(cfg, mux, ra))
         == if WantsTables(cfg, mux, ra) then
              If(at == PAT_PID, NextCounter(mux.counters, 0)) + If(at == cfg.pmtPid, NextCounter(mux.counters, 0))
            else []
  {
    hide PatPacket, PmtPacket, CountersOn;
    var c := NextCounter(mux.counters, 0);
    NextInRange(mux.counters, 0);
    NoCounters(at);
    if WantsTables(cfg, mux, ra) {
      TableCounters(cfg, at, c);
    }
  }

  // A call with such a frame: what it sends on a PID, and the counters after it.
  lemma OneByteStep(cfg: Config, mux: MuxState, t: byte, at: u16)
    requires Addressable(cfg) && t in cfg.streams
    ensures var op, counters := OneByte(cfg, t), AfterTables(cfg, mux, true);
            CountersOn(at, OpBytes(cfg, mux, op))
            == CountersOn(at, TablePackets(cfg, mux, true))
               + If(at == cfg.streams[t], NextCounter(counters, t))
            && OpState(cfg, mux, op) == MuxState(Counted(counters, t, 1), NextIndex(cfg, mux))
  {
    hide FramePackets, TablePackets, CountersOn, Counted, FrameCount, AfterTables, NextIndex;
    var counters := AfterTables(cfg, mux, true);
    var c := NextCounter(counters, t);
    NextInRange(counters, t);
    OneByteCounters(cfg, at, t, c);
    CountersConcat(at, TablePackets(cfg, mux, true), FramePackets(cfg, OneByte(cfg, t).meta, 1, [0], c));
  }

  // ---------- Two streams on one PID ----------

  lemma SharedPidStumbles(cfg: Config, t: byte, u: byte)
    requires Addressable(cfg) && t in cfg.streams && u in cfg.streams && t != u && u != 0
    requires cfg.streams[t] == cfg.streams[u] && (SendsTables(cfg) ==> !TablePid(cfg, cfg.streams[t]))
    ensures !Rising(CountersOn(cfg.streams[t], MuxBytes(cfg, INITIAL_MUX, [OneByte(cfg, t), OneByte(cfg, u)])))
  {
    hide OpBytes, CountersOn, TablePackets, Counted, OpState, MuxBytes, AfterTables, NextCounter, WantsTables;
    var pid, a, b := cfg.streams[t], OneByte(cfg, t), OneByte(cfg, u);
    var mux1 := OpState(cfg, INITIAL_MUX, a);
    OneByteStep(cfg, INITIAL_MUX, t, pid);
    NotOnTables(cfg, INITIAL_MUX, pid);
    CountedKeys(AfterTables(cfg, INITIAL_MUX, true), t, 1);
    OneByteStep(cfg, mux1, u, pid);
    NotOnTables(cfg, mux1, pid);
    var c := NextCounter(AfterTables(cfg, INITIAL_MUX, true), t);
    TwoCalls(cfg, INITIAL_MUX, a, b);
    CountersConcat(pid, OpBytes(cfg, INITIAL_MUX, a), OpBytes(cfg, mux1, b));
    FirstCounters(cfg, t);
    FirstCounters(cfg, u);
    OtherCounter(cfg, mux1, u);
    assert CountersOn(pid, OpBytes(cfg, INITIAL_MUX, a)) == [] + [c] == [c];
    assert CountersOn(pid, OpBytes(cfg, mux1, b)) == [] + [0] == [0];
    var cs := CountersOn(pid, MuxBytes(cfg, INITIAL_MUX, [a, b]));
    assert cs == [c] + [0];
    assert cs[1] != Plus(cs[0], 1);
  }

  lemma NotOnTables(cfg: Config, mux: MuxState, pid: u16)
    requires Addressable(cfg) && cfg.streams != map[] && (SendsTables(cfg) ==> !TablePid(cfg, pid))
    ensures CountersOn(pid, TablePackets(cfg, mux, true)) == []
  {
    hide CountersOn, TablePackets;
    TablesOn(cfg, mux, true, pid);
  }

  lemma FirstCounters(cfg: Config, t: byte)
    ensures NextCounter(AfterTables(cfg, INITIAL_MUX, true), t) <= if t == 0 then 1 else 0
  {
  }

  lemma OtherCounter(cfg: Config, mux: MuxState, u: byte)
    requires u != 0
    ensures NextCounter(AfterTables(cfg, mux, true), u) == NextCounter(mux.counters, u)
  {
  }

  lemma TwoCalls(cfg: Config, mux: MuxState, a: Op, b: Op)
    requires |cfg.streams| <= MAX_STREAMS
    ensures MuxBytes(cfg, mux, [a, b]) == OpBytes(cfg, mux, a) + OpBytes(cfg, OpState(cfg, mux, a), b)
  {
    hide OpBytes, OpState;
    assert [a, b][1..] == [b] && [b][1..] == [];
    var mux' := OpState(cfg, mux, a);
    var last := OpBytes(cfg, mux', b);
    assert MuxBytes(cfg, OpState(cfg, mux', b), []) == [];
    assert MuxBytes(cfg, mux', [b]) == last + [] == last;
    assert MuxBytes(cfg, mux, [a, b]) == OpBytes(cfg, mux, a) + MuxBytes(cfg, mux', [b]);
  }

  // ---------- The PIDs of the tables ----------

  lemma OneCall(cfg: Config, mux: MuxState, a: Op)
    requires |cfg.streams| <= MAX_STREAMS
    ensures MuxBytes(cfg, mux, [a]) == OpBytes(cfg, mux, a)
  {
    hide OpBytes, OpState;
    assert [a][1..] == [];
    assert MuxBytes(cfg, OpState(cfg, mux, a), []) == [];
    assert OpBytes(cfg, mux, a) + [] == OpBytes(cfg, mux, a);
  }

  // Both tables on PID 0, or a stream on a PID of the tables: its packet repeats their counter.
  lemma TablePidStumbles(cfg: Config, t: byte, at: u16)
    requires Addressable(cfg) && SendsTables(cfg) && t in cfg.streams
    requires if cfg.pmtPid == PAT_PID then at == PAT_PID else TablePid(cfg, at) && at == cfg.streams[t] && t != 0
    ensures !Rising(CountersOn(at, MuxBytes(cfg, INITIAL_MUX, [OneByte(cfg, t)])))
  {
    hide OpBytes, CountersOn, TablePackets, OpState, MuxBytes;
    OneCall(cfg, INITIAL_MUX, OneByte(cfg, t));
    OneByteStep(cfg, INITIAL_MUX, t, at);
    TablesOn(cfg, INITIAL_MUX, true, at);
    var cs := CountersOn(at, MuxBytes(cfg, INITIAL_MUX, [OneByte(cfg, t)]));
    assert cs[0] == 0 && cs[1] == 0;
    assert cs[1] != Plus(cs[0], 1);
  }

  // ---------- A stream of type 0 ----------

  function TypeZero(cfg: Config): Op
    requires 0 in cfg.streams
  {
    OneByte(cfg, 0)
  }

  function Copies(op: Op, n: nat): seq<Op> { seq(n, _ => op) }

  // A PID of the tables that the stream is not on.
  function Elsewhere(cfg: Config): u16
    requires 0 in cfg.streams
  {
    if cfg.streams[0] == PAT_PID then cfg.pmtPid else PAT_PID
  }

  // The counters on it in n such calls, c being the next of key 0.
  function PatTrace(cfg: Config, c: byte, index: nat, n: nat): seq<byte>
    decreases n
  {
    if n == 0 then [] else
      var mux := MuxState(map[], index);
      if WantsTables(cfg, mux, true) then [c] + PatTrace(cfg, Plus(c, 2), NextIndex(cfg, mux), n - 1)
      else PatTrace(cfg, Plus(c, 1), NextIndex(cfg, mux), n - 1)
  }

  lemma TypeZeroStep(cfg: Config, mux: MuxState)
    requires Addressable(cfg) && 0 in cfg.streams && cfg.pmtPid != PAT_PID
    ensures var op, c, tables := TypeZero(cfg), NextCounter(mux.counters, 0), WantsTables(cfg, mux, true);
            CountersOn(Elsewhere(cfg), OpBytes(cfg, mux, op)) == (if tables then [c] else [])
            && NextCounter(OpState(cfg, mux, op).counters, 0) == Plus(c, if tables then 2 else 1)
            && OpState(cfg, mux, op).index == NextIndex(cfg, mux)
  {
    hide OpBytes, TablePackets, CountersOn, Counted, NextIndex;
    var c := NextCounter(mux.counters, 0);
    var counters := AfterTables(cfg, mux, true);
    OneByteStep(cfg, mux, 0, Elsewhere(cfg));
    TablesOn(cfg, mux, true, Elsewhere(cfg));
    CountedKeys(counters, 0, 1);
    PlusPlus(c, 1, 1);
  }

  lemma SingleConsecutive(c: byte)
    ensures Consecutive(c, 1) == [c]
  {
    assert Consecutive(Plus(c, 1), 0) == [];
  }

  lemma OneByteFrame(cfg: Config, m: Meta, data: seq<byte>, c: byte)
    requires m.pid < 0x2000 && c < 16 && |data| == 1
    ensures FrameCount(cfg, m, 1, data) == 1
  {
    hide FrameCount, FramePackets, FirstField, PesHead, AllWellBuilt, PayloadsOf;
    FramePacketization(cfg, m, 1, data, c);
  }

  lemma {:induction false} TypeZeroRun(cfg: Config, mux: MuxState, n: nat)
    requires Addressable(cfg) && 0 in cfg.streams && cfg.pmtPid != PAT_PID
    ensures CountersOn(Elsewhere(cfg), MuxBytes(cfg, mux, Copies(TypeZero(cfg), n)))
         == PatTrace(cfg, NextCounter(mux.counters, 0), mux.index, n)
    decreases n
  {
    hide OpBytes, OpState, CountersOn, NextCounter, TypeZero;
    var op := TypeZero(cfg);
    if n == 0 {
      NoCounters(Elsewhere(cfg));
    } else {
      var mux' := OpState(cfg, mux, op);
      assert Copies(op, n)[0] == op && Copies(op, n)[1..] == Copies(op, n - 1);
      TypeZeroStep(cfg, mux);
      TypeZeroRun(cfg, mux', n - 1);
      CountersConcat(Elsewhere(cfg), OpBytes(cfg, mux, op), MuxBytes(cfg, mux', Copies(op, n - 1)));
    }
  }

  lemma TraceQuiet(cfg: Config, c: byte, index: nat, n: nat)
    requires cfg.muxType == H222Type && 1 <= index < PAT_INTERVAL && n > 0
    ensures PatTrace(cfg, c, index, n) == PatTrace(cfg, Plus(c, 1), index + 1, n - 1)
  {
    hide Plus;
  }

  lemma TraceTables(cfg: Config, c: byte, index: nat, n: nat)
    requires cfg.muxType == SegmentType || (cfg.muxType == H222Type && index in {0, PAT_INTERVAL})
    requires n > 0
    ensures PatTrace(cfg, c, index, n)
         == [c] + PatTrace(cfg, Plus(c, 2), if cfg.muxType == H222Type then 1 else index, n - 1)
  {
    hide Plus;
  }

  lemma {:induction false} TraceGap(cfg: Config, c: byte, index: nat, k: nat, n: nat)
    requires cfg.muxType == H222Type && c < 16 && 1 <= index && index + k <= PAT_INTERVAL
    ensures PatTrace(cfg, c, index, k + n) == PatTrace(cfg, Plus(c, k), index + k, n)
    decreases k
  {
    hide PatTrace, Plus;
    if k == 0 {
      NoneConsecutive(c);
    } else {
      PlusPlus(c, 1, k - 1);
      TraceQuiet(cfg, c, index, k + n);
      PlusInRange(c, 1);
      TraceGap(cfg, Plus(c, 1), index + 1, k - 1, n);
    }
  }

  lemma PlusInRange(c: byte, n: nat)
    ensures Plus(c, n) < 16
  {
  }

  // How many such calls it takes to see the association counter skip.
  function Enough(cfg: Config): nat { if cfg.muxType == SegmentType then 2 else 21 }

  lemma TypeZeroSkips(cfg: Config)
    requires Addressable(cfg) && 0 in cfg.streams && SendsTables(cfg) && cfg.pmtPid != PAT_PID
    ensures !Rising(CountersOn(Elsewhere(cfg), MuxBytes(cfg, INITIAL_MUX, Copies(TypeZero(cfg), Enough(cfg)))))
  {
    hide MuxBytes, CountersOn, PatTrace;
    TypeZeroRun(cfg, INITIAL_MUX, Enough(cfg));
    var cs := PatTrace(cfg, 0, 0, Enough(cfg));
    TraceTables(cfg, 0, 0, Enough(cfg));
    if cfg.muxType == SegmentType {
      TraceTables(cfg, 2, 0, 1);
      assert cs[0] == 0 && cs[1] == 2;
    } else {
      TraceGap(cfg, 2, 1, 19, 1);
      TraceTables(cfg, 5, PAT_INTERVAL, 1);
      assert cs[0] == 0 && cs[1] == 5;
    }
    assert cs[1] != Plus(cs[0], 1);
  }

  /**
   Counters rise in every run on every PID if and only if no two streams share a PID and, for a
   muxer that sends tables, these have two PIDs, no stream is on either, and none has type 0.
   */
  lemma CountersRiseExactly(cfg: Config)
    requires Addressable(cfg)
    ensures (forall ops, pid | ValidRun(cfg, ops) :: Rising(CountersOn(pid, MuxBytes(cfg, INITIAL_MUX, ops))))
            <==> OwnCounters(cfg)
  {
    hide MuxBytes, CountersOn, Rising, Enough;
    if OwnCounters(cfg) {
      forall ops, pid | ValidRun(cfg, ops)
        ensures Rising(CountersOn(pid, MuxBytes(cfg, INITIAL_MUX, ops)))
      {
        CountersRise(cfg, INITIAL_MUX, ops, pid);
      }
    } else {
      var ops, pid := Stumble(cfg);
      assert ValidRun(cfg, ops) && !Rising(CountersOn(pid, MuxBytes(cfg, INITIAL_MUX, ops)));
    }
  }

  lemma Stumble(cfg: Config) returns (ops: seq<Op>, pid: u16)
    requires Addressable(cfg) && !OwnCounters(cfg)
    ensures ValidRun(cfg, ops) && !Rising(CountersOn(pid, MuxBytes(cfg, INITIAL_MUX, ops)))
  {
    hide MuxBytes, CountersOn, Rising, Enough;
    if SendsTables(cfg) && cfg.pmtPid == PAT_PID {
      var t := AnyType(cfg.streams);
      ops, pid := [OneByte(cfg, t)], PAT_PID;
      TablePidStumbles(cfg, t, pid);
    } else if t :| SendsTables(cfg) && t in cfg.streams && t != 0 && TablePid(cfg, cfg.streams[t]) {
      ops, pid := [OneByte(cfg, t)], cfg.streams[t];
      TablePidStumbles(cfg, t, pid);
    } else if SendsTables(cfg) && 0 in cfg.streams {
      ops, pid := Copies(TypeZero(cfg), Enough(cfg)), Elsewhere(cfg);
      TypeZeroSkips(cfg);
    } else {
      var t, u := TwoOnOne(cfg.streams);
      ops, pid := [OneByte(cfg, t), OneByte(cfg, u)], cfg.streams[t];
      SharedPidStumbles(cfg, t, u);
    }
  }

  lemma AnyType(streams: map<byte, u16>) returns (t: byte)
    requires streams != map[]
    ensures t in streams
  {
    assert exists u :: u in streams;
    t :| t in streams;
  }

  lemma TwoOnOne(streams: map<byte, u16>) returns (t: byte, u: byte)
    requires !Injective(streams)
    ensures t in streams && u in streams && streams[t] == streams[u] && t != u && u != 0
  {
    var x, y :| x in streams && y in streams && streams[x] == streams[y] && x != y;
    t, u := if y != 0 then x else y, if y != 0 then y else x;
  }
}
