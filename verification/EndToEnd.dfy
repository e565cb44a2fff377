/** The muxer and demuxer objects wired together: calls, bytes in pieces, callbacks. */
module EndToEnd {
  import opened Bytes
  import opened Buffers
  import opened MuxSpec
  import opened Muxer
  import opened DemuxSpec
  import opened Demuxer
  import opened Chunking
  import opened TableTrip
  import opened Trips
  import opened RoundTrips
  import Layout

  // One call on a muxer object; the frame comes in a buffer of its own.
  method Apply(mux: MpegTsMuxer, op: Op) returns (ok: bool)
    modifies mux
    ensures ok <==> CanSend(mux.Cfg(), old(mux.State()), op)
    ensures ok ==> mux.emitted == old(mux.emitted) + OpBytes(mux.Cfg(), old(mux.State()), op)
                   && mux.State() == OpState(mux.Cfg(), old(mux.State()), op)
  {
    hide EncodeBytes, EncodeState, ClockPacket;
    match op {
      case Encode(m, data, ra) =>
        var mData := new SimpleBuffer();
        mData.Append(data);
        assert [] + data == data && Unread(data, 0) == data;
        ok := mux.Encode(m, mData, ra);
      case Tick(pcr) =>
        mux.CreatePcr(pcr);
        ok := true;
    }
  }

  /** A muxer object driven through a run gives out the bytes of the run, unless a call throws. */
  method Multiplex(cfg: Config, ops: seq<Op>) returns (ok: bool, bytes: seq<byte>)
    ensures ok <==> CanSendAll(cfg, INITIAL_MUX, ops)
    ensures ok ==> bytes == MuxBytes(cfg, INITIAL_MUX, ops)
    ensures ok && Layout.InRange(cfg) && |cfg.streams| <= 33
            && (forall op | op in ops :: op.Encode? ==> op.meta.pid < 0x2000) ==>
              bytes == Layout.RunBytes(cfg, map[], 0, ops)
  {
    hide OpBytes, OpState, WantsTables, Layout.RunBytes;
    var mux := new MpegTsMuxer(cfg.streams, cfg.pmtPid, cfg.pcrPid, cfg.muxType);
    for i := 0 to |ops|
      invariant fresh(mux) && mux.Cfg() == cfg
      invariant CanSendAll(cfg, INITIAL_MUX, ops) <==> CanSendAll(cfg, mux.State(), ops[i..])
      invariant CanSendAll(cfg, INITIAL_MUX, ops) ==>
                  mux.emitted + MuxBytes(cfg, mux.State(), ops[i..]) == MuxBytes(cfg, INITIAL_MUX, ops)
    {
      ghost var before, st := mux.emitted, mux.State();
      assert ops[i..][0] == ops[i] && ops[i..][1..] == ops[i + 1..];
      ok := Apply(mux, ops[i]);
      if !ok {
        return false, [];
      }
      if CanSendAll(cfg, INITIAL_MUX, ops) {
        assert before + (OpBytes(cfg, st, ops[i]) + MuxBytes(cfg, mux.State(), ops[i + 1..]))
            == before + OpBytes(cfg, st, ops[i]) + MuxBytes(cfg, mux.State(), ops[i + 1..]);
      }
    }
    assert ops[|ops|..] == [];
    if Layout.InRange(cfg) && |cfg.streams| <= 33 && forall op | op in ops :: op.Encode? ==> op.meta.pid < 0x2000 {
      Layout.NewMuxerSends(cfg, ops);
    }
    return true, mux.emitted;
  }

  /** A fresh demuxer object given chunk after chunk: whether it survives, and what it delivers. */
  method Demultiplex(chunks: seq<seq<byte>>) returns (ok: bool, events: seq<Event>)
    ensures ok <==> Feed(INITIAL, [], chunks).Returned?
    ensures ok ==> events == Feed(INITIAL, [], chunks).events
  {
    hide DecodeFrom;
    var demux := new MpegTsDemuxer();
    for i := 0 to |chunks|
      invariant fresh(demux) && fresh(demux.restData) && Consistent(demux.State())
      invariant Feed(INITIAL, [], chunks) == After(demux.trace, Feed(demux.State(), demux.restData.data, chunks[i..]))
    {
      ghost var st, rest, seen := demux.State(), demux.restData.data, demux.trace;
      assert chunks[i..][0] == chunks[i] && chunks[i..][1..] == chunks[i + 1..];
      var rIn := new SimpleBuffer();
      rIn.Append(chunks[i]);
      assert [] + chunks[i] == chunks[i];
      ok := demux.Decode(rIn);
      if !ok {
        return false, [];
      }
      ghost var call := DecodeFrom(st, rest + chunks[i], 0);
      AfterAfter(seen, call.events, Feed(call.state, call.rest, chunks[i + 1..]));
    }
    assert chunks[|chunks|..] == [];
    assert demux.trace + [] == demux.trace;
    return true, demux.trace;
  }

  // Cuts bytes into pieces of n.
  method Cut(bytes: seq<byte>, n: nat) returns (chunks: seq<seq<byte>>)
    requires n > 0
    ensures Concat(chunks) == bytes
  {
    chunks := [];
    var left := bytes;
    while left != []
      invariant Concat(chunks) + left == bytes
      decreases |left|
    {
      var k := if n <= |left| then n else |left|;
      ConcatSnoc(chunks, left[..k]);
      assert Concat(chunks) + left[..k] + left[k..] == Concat(chunks) + left;
      chunks := chunks + [left[..k]];
      left := left[k..];
    }
  }

  lemma {:induction false} ConcatSnoc(chunks: seq<seq<byte>>, last: seq<byte>)
    ensures Concat(chunks + [last]) == Concat(chunks) + last
    decreases |chunks|
  {
    if chunks == [] {
      assert chunks + [last] == [last] && [last][1..] == [];
      assert last + [] == last;
    } else {
      assert (chunks + [last])[1..] == chunks[1..] + [last];
      ConcatSnoc(chunks[1..], last);
      assert chunks[0] + (Concat(chunks[1..]) + last) == chunks[0] + Concat(chunks[1..]) + last;
    }
  }

  /**
   The whole path: a run is muxed by one object, cut into pieces of any size, and decoded by
   another. The decoder never aborts, and the callbacks get what the reference machine says.
   */
  method Transport(cfg: Config, ops: seq<Op>, pieces: nat) returns (events: seq<Event>)
    requires ValidConfig(cfg) && ValidRun(cfg, ops) && pieces > 0
    requires ops != [] && OpTables(cfg, INITIAL_MUX, ops[0])
    ensures events == Expected(cfg, INITIAL_MUX, false, map[], ops)
    ensures AllFit(ops) ==> FramesIn(events) == Sent(ops)
  {
    hide MuxBytes, OpTables, Expected, Feed, FramesIn, Sent;
    var sent, bytes := Multiplex(cfg, ops);
    var chunks := Cut(bytes, pieces);
    assert [] + ops == ops;
    NoTables(cfg, INITIAL_MUX);
    LateJoin(cfg, INITIAL_MUX, [], ops, 0, chunks);
    var ok, trace := Demultiplex(chunks);
    events := trace;
    if AllFit(ops) {
      FittingFramesDelivered(cfg, INITIAL_MUX, false, ops);
    }
  }
}
