/** The sampled rate controller (srt_net/srt_cc.cpp), with exact reals for doubles. */
module RateControl {
  import opened Options
  import opened RunTasks

  const RTT_MIN := 35
  const RTT_INIT := 100
  const LIST_MAX := 6                 // RTT_LIST_MAX, BW_LIST_MAX and STATE_LIST_MAX
  const VIDEO_UPDATE_INTERVAL := 500_000_000
  const SRT_CHECK_INTERVAL := 300_000_000

  datatype Verdict = Incr | Decr | Keep

  // One successful reading of the socket statistics.
  datatype Sample = Sample(flightPackets: int, sendRate: real, rtt: real)

  datatype Control = Control(
    rtts: seq<int>, rttMin: int, rttReady: bool,
    bws: seq<nat>, bwMax: nat, bwAvg: nat, bwReady: bool,
    states: seq<int>, verdict: Verdict)

  const INITIAL_CONTROL := Control([], RTT_INIT, false, [], 0, 0, false, [], Keep)

  function Max(a: int, b: int): int { if a >= b then a else b }

  // Conversion of a double to an integer type: toward zero.
  function Truncate(x: real): int { if x >= 0.0 then x.Floor else -((-x).Floor) }

  function Smallest(s: seq<int>): (m: int)
    requires s != []
    ensures m in s && forall x | x in s :: m <= x
  {
    if |s| == 1 then s[0] else
      var m := Smallest(s[1..]);
      assert s == [s[0]] + s[1..];
      if s[0] <= m then s[0] else m
  }

  function Largest(s: seq<nat>): (m: nat)
    requires s != []
    ensures m in s && forall x | x in s :: x <= m
  {
    if |s| == 1 then s[0] else
      var m := Largest(s[1..]);
      assert s == [s[0]] + s[1..];
      if s[0] >= m then s[0] else m
  }

  function Sum(s: seq<int>): int { if s == [] then 0 else s[0] + Sum(s[1..]) }

  // accumulate with an int start value: every partial sum is cut to 32 bits.
  function Sum32(acc: int, s: seq<nat>): int
    decreases |s|
  {
    if s == [] then acc else Sum32(Cut32(acc + s[0]), s[1..])
  }

  function Cut32(v: int): int {
    var u := v % 0x1_0000_0000;
    if u >= 0x8000_0000 then u - 0x1_0000_0000 else u
  }

  function UpdateRtt(c: Control, rtt: int): Control {
    var rtts := c.rtts + [Max(rtt, RTT_MIN)];
    if |rtts| >= LIST_MAX then c.(rtts := [], rttMin := Smallest(rtts), rttReady := true)
    else c.(rtts := rtts, rttReady := false)
  }

  // The 32-bit sum is converted to an unsigned 64-bit integer by the division.
  function Average(bws: seq<nat>): nat
    requires bws != []
  {
    (Sum32(0, bws) % 0x1_0000_0000_0000_0000) / |bws|
  }

  function Blend(largest: nat, average: nat): nat {
    ((largest + average) as real * 1.2 / 2.0).Floor
  }

  function UpdateMaxBw(c: Control, bw: nat): Control {
    var bws := c.bws + [bw];
    if |bws| >= LIST_MAX then
      c.(bws := [], bwAvg := Average(bws), bwMax := Blend(Largest(bws), Average(bws)), bwReady := true)
    else c.(bws := bws, bwReady := false)
  }

  const INCREASE := 1316 * 8 * 3
  const DECREASE := -1316 * 8 * 6

  function Judge(total: int): Verdict {
    if total > INCREASE then Incr else if total < DECREASE - 1 then Decr else Keep
  }

  // What the connection can hold beyond what is in flight, in bits.
  function Headroom(bwMax: nat, rttMin: int, inflight: int): int {
    Truncate(1.3 * (bwMax * rttMin / 1000) as real - (inflight * 8) as real)
  }

  // The list of states is never emptied.
  function GetState(c: Control, inflight: int): Control {
    if !c.rttReady || !c.bwReady then c.(verdict := Keep) else
      var states := c.states + [Headroom(c.bwMax, c.rttMin, inflight)];
      c.(states := states, verdict := if |states| < LIST_MAX then Keep else Judge(Sum(states)))
  }

  function Bandwidth(sample: Sample): nat {
    // a negative rate does not occur; the conversion to an unsigned type is taken as 0
    Max(Truncate(sample.sendRate * 1000.0 * 1000.0), 0)
  }

  function RoundTrip(sample: Sample): int { Max(Truncate(sample.rtt), RTT_MIN) }

  function InFlight(sample: Sample): int { sample.flightPackets * 188 * 7 }

  function Sampled(c: Control, sample: Sample): Control {
    GetState(UpdateMaxBw(UpdateRtt(c, RoundTrip(sample)), Bandwidth(sample)), InFlight(sample))
  }

  // ---------- Over every run of samples ----------

  // A failed reading of the statistics changes nothing.
  datatype Reading = Failed | Good(sample: Sample)

  function Run(c: Control, readings: seq<Reading>): Control
    decreases |readings|
  {
    if readings == [] then c
    else Run(match readings[0] case Failed => c case Good(sample) => Sampled(c, sample), readings[1..])
  }

  // The successful samples, in order.
  function Goods(readings: seq<Reading>): seq<Sample> {
    if readings == [] then [] else (if readings[0].Good? then [readings[0].sample] else []) + Goods(readings[1..])
  }

  function RoundTrips(samples: seq<Sample>): seq<int> {
    seq(|samples|, i requires 0 <= i < |samples| => RoundTrip(samples[i]))
  }

  function Bandwidths(samples: seq<Sample>): seq<nat> {
    seq(|samples|, i requires 0 <= i < |samples| => Bandwidth(samples[i]))
  }

  // The state a window of samples stands for: from its smallest round trip, its largest and average
  // bandwidth, and what is in flight at its last sample.
  function WindowState(window: seq<Sample>): int
    requires window != []
  {
    var bws := Bandwidths(window);
    Headroom(Blend(Largest(bws), Average(bws)), Smallest(RoundTrips(window)), InFlight(window[|window| - 1]))
  }

  // One state for each full window of six since the start.
  function WindowStates(samples: seq<Sample>): seq<int> {
    seq(|samples| / LIST_MAX, j requires 0 <= j < |samples| / LIST_MAX => WindowState(Window(samples, j)))
  }

  function Window(samples: seq<Sample>, j: nat): (w: seq<Sample>)
    requires j < |samples| / LIST_MAX
    ensures |w| == LIST_MAX
  {
    samples[LIST_MAX * j..LIST_MAX * j + LIST_MAX]
  }

  // The samples of the window that is not full yet.
  function Open(samples: seq<Sample>): seq<Sample> { samples[|samples| - |samples| % LIST_MAX..] }

  function VerdictAfter(samples: seq<Sample>): Verdict {
    var k := |samples|;
    if k % LIST_MAX == 0 && k >= LIST_MAX * LIST_MAX then Judge(Sum(WindowStates(samples))) else Keep
  }

  // The controller after these successful samples.
  predicate After(c: Control, samples: seq<Sample>) {
    c.rtts == RoundTrips(Open(samples)) && c.bws == Bandwidths(Open(samples)) && c.states == WindowStates(samples)
    && c.rttMin >= RTT_MIN && c.verdict == VerdictAfter(samples)
  }

  lemma NextInWindow(k: nat)
    ensures k % LIST_MAX + 1 >= LIST_MAX <==> (k + 1) % LIST_MAX == 0
    ensures (k + 1) % LIST_MAX == if k % LIST_MAX + 1 >= LIST_MAX then 0 else k % LIST_MAX + 1
    ensures (k + 1) / LIST_MAX == k / LIST_MAX + if (k + 1) % LIST_MAX == 0 then 1 else 0
    ensures (k + 1) % LIST_MAX == 0 ==> (k + 1 >= LIST_MAX * LIST_MAX <==> (k + 1) / LIST_MAX >= LIST_MAX)
  {
  }

  lemma OneMoreInWindow(window: seq<Sample>, sample: Sample)
    ensures RoundTrips(window + [sample]) == RoundTrips(window) + [RoundTrip(sample)]
    ensures Bandwidths(window + [sample]) == Bandwidths(window) + [Bandwidth(sample)]
  {
    hide RoundTrip, Bandwidth;
  }

  // The full windows stay; one more is full when the open one has six samples.
  lemma OneMoreSample(samples: seq<Sample>, sample: Sample)
    ensures |Open(samples)| == |samples| % LIST_MAX && |WindowStates(samples)| == |samples| / LIST_MAX
    ensures var all, open := samples + [sample], Open(samples) + [sample];
            if |open| < LIST_MAX then
              Open(all) == open && WindowStates(all) == WindowStates(samples)
            else
              |open| == LIST_MAX && Open(all) == []
              && WindowStates(all) == WindowStates(samples) + [WindowState(open)]
  {
    hide WindowState;
    var k, all, open := |samples|, samples + [sample], Open(samples) + [sample];
    NextInWindow(k);
    forall j | 0 <= j < k / LIST_MAX
      ensures Window(all, j) == Window(samples, j)
    {
    }
    if |open| == LIST_MAX {
      assert Window(all, k / LIST_MAX) == open;
    }
  }

  lemma {:induction false} SmallestAtLeast(samples: seq<Sample>)
    requires samples != []
    ensures Smallest(RoundTrips(samples)) >= RTT_MIN
  {
    hide Truncate;
    assert forall r | r in RoundTrips(samples) :: r >= RTT_MIN;
  }

  lemma SampleStep(c: Control, samples: seq<Sample>, sample: Sample)
    requires After(c, samples)
    ensures After(Sampled(c, sample), samples + [sample])
  {
    hide Headroom, Judge, Sum, Bandwidth, RoundTrip, Average, Blend, Largest, Smallest, WindowStates, Open;
    var open := Open(samples) + [sample];
    OneMoreInWindow(Open(samples), sample);
    OneMoreSample(samples, sample);
    NextInWindow(|samples|);
    RoundTripAtLeast(sample);
    if |open| == LIST_MAX {
      SmallestAtLeast(open);
      FullWindow(open);
    }
  }

  lemma RoundTripAtLeast(sample: Sample)
    ensures Max(RoundTrip(sample), RTT_MIN) == RoundTrip(sample)
  {
    hide Truncate;
  }

  lemma FullWindow(window: seq<Sample>)
    requires window != []
    ensures var rtts, bws := RoundTrips(window), Bandwidths(window);
            rtts != [] && bws != []
            && WindowState(window)
               == Headroom(Blend(Largest(bws), Average(bws)), Smallest(rtts), InFlight(window[|window| - 1]))
  {
  }

  lemma {:induction false} RunAfter(c: Control, samples: seq<Sample>, readings: seq<Reading>)
    requires After(c, samples)
    ensures After(Run(c, readings), samples + Goods(readings))
    decreases |readings|
  {
    hide After, Sampled;
    if readings == [] {
      assert samples + [] == samples;
    } else {
      match readings[0] {
        case Failed =>
          RunAfter(c, samples, readings[1..]);
          assert [] + Goods(readings[1..]) == Goods(readings[1..]);
        case Good(sample) =>
          SampleStep(c, samples, sample);
          RunAfter(Sampled(c, sample), samples + [sample], readings[1..]);
          assert samples + [sample] + Goods(readings[1..]) == samples + ([sample] + Goods(readings[1..]));
      }
    }
  }

  /**
   Over every run of readings with k successes: the states are those of the windows of samples
   1 to 6, 7 to 12 and so on since the start; the verdict is the judgement of their sum if k is a
   multiple of 6 and at least 36, and Keep otherwise; the round trip estimate never falls below 35.
   */
  lemma VerdictTiming(readings: seq<Reading>)
    ensures var c, samples := Run(INITIAL_CONTROL, readings), Goods(readings);
            c.states == WindowStates(samples) && c.rttMin >= 35
            && c.verdict == if |samples| % 6 == 0 && |samples| >= 36 then Judge(Sum(WindowStates(samples))) else Keep
  {
    hide Run, Judge, Sum, WindowStates, Goods;
    NothingSampled();
    RunAfter(INITIAL_CONTROL, [], readings);
    assert [] + Goods(readings) == Goods(readings);
  }

  lemma NothingSampled()
    ensures After(INITIAL_CONTROL, [])
  {
  }

  // ---------- In numbers ----------

  /** A sum above 31584 is an increase, one below -63169 a decrease, and nothing else is either. */
  lemma JudgedByNumbers(total: int)
    ensures Judge(total) == Incr <==> total > 31584
    ensures Judge(total) == Decr <==> total < -63169
  {
  }

  /** What is taken of a sample: the rate in bits per second and the round trip in whole milliseconds, at least 35. */
  lemma SampleInNumbers(sample: Sample)
    requires sample.sendRate >= 0.0 && sample.rtt >= 0.0
    ensures sample.sendRate * 1_000_000.0 - 1.0 < Bandwidth(sample) as real <= sample.sendRate * 1_000_000.0
    ensures sample.rtt < 36.0 ==> RoundTrip(sample) == 35
    ensures sample.rtt >= 35.0 ==> sample.rtt - 1.0 < RoundTrip(sample) as real <= sample.rtt
  {
    TruncateBounds(sample.sendRate * 1000.0 * 1000.0);
    TruncateBounds(sample.rtt);
  }

  lemma {:induction false} SumInRange(bws: seq<nat>)
    ensures Sum(bws) >= 0
  {
    if bws != [] {
      SumInRange(bws[1..]);
    }
  }

  lemma {:induction false} NoWrap(acc: nat, bws: seq<nat>)
    requires acc + Sum(bws) < 0x8000_0000
    ensures Sum32(acc, bws) == acc + Sum(bws)
    decreases |bws|
  {
    if bws != [] {
      SumInRange(bws[1..]);
      NoWrap(acc + bws[0], bws[1..]);
    }
  }

  // As long as the sum fits 31 bits, the average is one.
  lemma AverageIsOne(bws: seq<nat>)
    requires bws != [] && Sum(bws) < 0x8000_0000
    ensures Average(bws) == Sum(bws) / |bws|
  {
    SumInRange(bws);
    NoWrap(0, bws);
  }

  // Six times 1 Gbit/s do not fit: the average comes out as 284 Mbit/s.
  lemma AverageCanWrap()
    ensures Average([1_000_000_000, 1_000_000_000, 1_000_000_000, 1_000_000_000, 1_000_000_000, 1_000_000_000])
         == 284_172_117
  {
    hide Sum32;
    var bw: nat := 1_000_000_000;
    var s5: seq<nat>, s4: seq<nat>, s3: seq<nat> := [bw, bw, bw, bw, bw], [bw, bw, bw, bw], [bw, bw, bw];
    var s2: seq<nat>, s1: seq<nat>, s0: seq<nat> := [bw, bw], [bw], [];
    assert [bw] + s4 == s5 && [bw] + s3 == s4 && [bw] + s2 == s3 && [bw] + s1 == s2 && [bw] + s0 == s1;
    Sum32Cons(0, bw, s5);
    Sum32Cons(1_000_000_000, bw, s4);
    Sum32Cons(2_000_000_000, bw, s3);
    Sum32Cons(-1_294_967_296, bw, s2);
    Sum32Cons(-294_967_296, bw, s1);
    Sum32Cons(705_032_704, bw, s0);
    Sum32Nothing(1_705_032_704);
    assert [bw] + s5 == [bw, bw, bw, bw, bw, bw];
  }

  lemma Sum32Cons(acc: int, x: nat, rest: seq<nat>)
    ensures Sum32(acc, [x] + rest) == Sum32(Cut32(acc + x), rest)
  {
    assert ([x] + rest)[0] == x && ([x] + rest)[1..] == rest;
  }

  lemma Sum32Nothing(acc: int)
    ensures Sum32(acc, []) == acc
  {
  }

  /**
   The state of a window in numbers: 1.3 times the bandwidth-delay product, less what is in flight.
   The bandwidth is 0.6 times the sum of largest and average, the delay the smallest round trip in
   milliseconds, and a packet in flight is 188 * 7 bytes.
   */
  lemma WindowInNumbers(window: seq<Sample>, largest: nat, total: nat, smallest: int)
    requires |window| == 6
    requires largest in Bandwidths(window) && forall b | b in Bandwidths(window) :: b <= largest
    requires smallest in RoundTrips(window) && forall r | r in RoundTrips(window) :: smallest <= r
    requires total == Sum(Bandwidths(window)) < 0x8000_0000
    ensures var bandwidth := ((largest + total / 6) as real * 0.6).Floor;
            WindowState(window)
            == Truncate(1.3 * (bandwidth * smallest / 1000) as real - (window[5].flightPackets * 10528) as real)
  {
    hide Truncate, Sum, Average, Bandwidth, RoundTrip;
    var bws := Bandwidths(window);
    AverageIsOne(bws);
    assert Largest(bws) == largest && Smallest(RoundTrips(window)) == smallest;
    assert (largest + total / 6) as real * 1.2 / 2.0 == (largest + total / 6) as real * 0.6;
  }

  // ---------- Steady samples ----------

  function Copies(sample: Sample, n: nat): seq<Sample> { seq(n, _ => sample) }

  function Readings(sample: Sample, n: nat): seq<Reading> { seq(n, _ => Good(sample)) }

  lemma {:induction false} GoodsOfCopies(sample: Sample, n: nat)
    ensures Goods(Readings(sample, n)) == Copies(sample, n)
    decreases n
  {
    if n > 0 {
      GoodsOfCopies(sample, n - 1);
      assert Readings(sample, n)[1..] == Readings(sample, n - 1);
      assert [sample] + Copies(sample, n - 1) == Copies(sample, n);
    }
  }

  lemma {:induction false} SumOfCopies(x: int, n: nat)
    ensures Sum(seq(n, _ => x)) == n * x
    decreases n
  {
    var s := seq(n, _ => x);
    if n > 0 {
      SumOfCopies(x, n - 1);
      assert s[1..] == seq(n - 1, _ => x);
    }
  }

  // The same sample over and over: after 6 n of them the sum is n times the state of a window.
  lemma SteadySum(sample: Sample, n: nat)
    ensures Sum(WindowStates(Copies(sample, 6 * n))) == n * WindowState(Copies(sample, 6))
  {
    hide WindowState, Sum;
    var all := Copies(sample, 6 * n);
    forall j | 0 <= j < n
      ensures Window(all, j) == Copies(sample, 6)
    {
    }
    assert WindowStates(all) == seq(n, _ => WindowState(Copies(sample, 6)));
    SumOfCopies(WindowState(Copies(sample, 6)), n);
  }

  lemma SteadyVerdict(sample: Sample, n: nat)
    requires n >= 6
    ensures Run(INITIAL_CONTROL, Readings(sample, 6 * n)).verdict == Judge(n * WindowState(Copies(sample, 6)))
  {
    hide Run, Judge, Sum, WindowStates, Goods, WindowState;
    VerdictTiming(Readings(sample, 6 * n));
    GoodsOfCopies(sample, 6 * n);
    SteadySum(sample, n);
  }

  lemma SumOfSix(x: nat)
    ensures Sum([x, x, x, x, x, x]) == 6 * x
  {
    assert [x, x, x, x, x, x] == seq(6, _ => x);
    SumOfCopies(x, 6);
  }

  // 8 Mbit/s over 50 ms with a number of packets in flight.
  lemma SteadyState(flight: int)
    ensures WindowState(Copies(Sample(flight, 8.0, 50.0), 6)) == 624_000 - 10_528 * flight
  {
    hide Sum, WindowState, Bandwidths, RoundTrips;
    var window := Copies(Sample(flight, 8.0, 50.0), 6);
    SteadyWindow(flight);
    WindowInNumbers(window, 8_000_000, 48_000_000, 50);
    assert (16_000_000 as real * 0.6).Floor == 9_600_000;
    assert 1.3 * (9_600_000 * 50 / 1000) as real == 624_000.0;
  }

  lemma SteadyWindow(flight: int)
    ensures var window := Copies(Sample(flight, 8.0, 50.0), 6);
            8_000_000 in Bandwidths(window) && (forall b | b in Bandwidths(window) :: b == 8_000_000)
            && Sum(Bandwidths(window)) == 48_000_000
            && 50 in RoundTrips(window) && (forall r | r in RoundTrips(window) :: r == 50)
  {
    hide Sum;
    var sample := Sample(flight, 8.0, 50.0);
    var window := Copies(sample, 6);
    assert Bandwidth(sample) == 8_000_000 && RoundTrip(sample) == 50;
    assert Bandwidths(window) == [8_000_000, 8_000_000, 8_000_000, 8_000_000, 8_000_000, 8_000_000];
    SumOfSix(8_000_000);
    assert Bandwidths(window)[0] == 8_000_000 && RoundTrips(window)[0] == 50;
  }

  /**
   Known answers. With 10 packets in flight the verdict after 36 samples is to increase, with 100 to
   decrease; with 59 it is to keep, and since the sum goes on growing, to increase after 72.
   */
  lemma KnownVerdicts()
    ensures Run(INITIAL_CONTROL, Readings(Sample(10, 8.0, 50.0), 36)).verdict == Incr
    ensures Run(INITIAL_CONTROL, Readings(Sample(100, 8.0, 50.0), 36)).verdict == Decr
    ensures Run(INITIAL_CONTROL, Readings(Sample(59, 8.0, 50.0), 36)).verdict == Keep
    ensures Run(INITIAL_CONTROL, Readings(Sample(59, 8.0, 50.0), 72)).verdict == Incr
  {
    hide Run, WindowState;
    SteadyState(10);
    SteadyVerdict(Sample(10, 8.0, 50.0), 6);
    SteadyState(100);
    SteadyVerdict(Sample(100, 8.0, 50.0), 6);
    SteadyState(59);
    SteadyVerdict(Sample(59, 8.0, 50.0), 6);
    SteadyVerdict(Sample(59, 8.0, 50.0), 12);
  }

  // ---------- The encoder bitrate ----------

  function NextBitrate(current: int, stream: int, verdict: Verdict): int {
    match verdict
    case Incr => if current as real < stream as real * 1.3 then Truncate(current as real * 1.08) else current
    case Decr => if current as real > stream as real * 0.4 then Truncate(current as real * 0.85) else current
    case Keep => current
  }

  predicate InBand(current: int, stream: int) {
    0.34 * stream as real - 1.0 <= current as real <= 1.404 * stream as real
  }

  lemma BitrateStep(current: int, stream: int, verdict: Verdict)
    requires stream >= 0 && InBand(current, stream)
    ensures InBand(NextBitrate(current, stream, verdict), stream)
  {
    var x := current as real;
    match verdict {
      case Incr => TruncateBounds(x * 1.08);
      case Decr => TruncateBounds(x * 0.85);
      case Keep =>
    }
  }

  lemma TruncateBounds(x: real)
    ensures x >= 0.0 ==> x - 1.0 < Truncate(x) as real <= x
    ensures x <= 0.0 ==> x <= Truncate(x) as real < x + 1.0
  {
  }

  /**
   Direction and size of one update: Incr never lowers, and below 1.3 times the stream's bitrate
   multiplies by 1.08; Decr never raises, and above 0.4 times multiplies by 0.85; both round down.
   */
  lemma BitrateMoves(current: nat, stream: int, verdict: Verdict)
    ensures var x, s, n := current as real, stream as real, NextBitrate(current, stream, verdict);
            match verdict
            case Incr =>
              n >= current && (x < 1.3 * s ==> 1.08 * x - 1.0 < n as real <= 1.08 * x)
                && (x >= 1.3 * s ==> n == current)
            case Decr =>
              0 <= n <= current && (x > 0.4 * s ==> 0.85 * x - 1.0 < n as real <= 0.85 * x)
              && (x <= 0.4 * s ==> n == current)
            case Keep => n == current
  {
    var x := current as real;
    TruncateBounds(x * 1.08);
    TruncateBounds(x * 0.85);
  }

  lemma KnownBitrates()
    ensures NextBitrate(1000, 1000, Incr) == 1080 && NextBitrate(1000, 1000, Decr) == 850
  {
  }

  function EncoderRun(current: int, stream: int, verdicts: seq<Verdict>): int
    decreases |verdicts|
  {
    if verdicts == [] then current else EncoderRun(NextBitrate(current, stream, verdicts[0]), stream, verdicts[1..])
  }

  /** For a fixed stream bitrate s, an encoder bitrate in [0.34 s - 1, 1.404 s] never leaves it. */
  lemma {:induction false} EncoderStaysInBand(current: int, stream: int, verdicts: seq<Verdict>)
    requires stream >= 0 && InBand(current, stream)
    ensures InBand(EncoderRun(current, stream, verdicts), stream)
    decreases |verdicts|
  {
    hide InBand, NextBitrate;
    if verdicts != [] {
      BitrateStep(current, stream, verdicts[0]);
      EncoderStaysInBand(NextBitrate(current, stream, verdicts[0]), stream, verdicts[1..]);
    }
  }

  /** Verdicts without Decr never lower the bitrate. */
  lemma {:induction false} NeverLowered(current: nat, stream: int, verdicts: seq<Verdict>)
    requires Decr !in verdicts
    ensures EncoderRun(current, stream, verdicts) >= current
    decreases |verdicts|
  {
    hide NextBitrate;
    if verdicts != [] {
      assert verdicts[0] in verdicts;
      BitrateMoves(current, stream, verdicts[0]);
      NeverLowered(NextBitrate(current, stream, verdicts[0]), stream, verdicts[1..]);
    }
  }

  /** Verdicts without Incr never raise it. */
  lemma {:induction false} NeverRaised(current: nat, stream: int, verdicts: seq<Verdict>)
    requires Incr !in verdicts
    ensures 0 <= EncoderRun(current, stream, verdicts) <= current
    decreases |verdicts|
  {
    hide NextBitrate;
    if verdicts != [] {
      assert verdicts[0] in verdicts;
      BitrateMoves(current, stream, verdicts[0]);
      NeverRaised(NextBitrate(current, stream, verdicts[0]), stream, verdicts[1..]);
    }
  }

  // ---------- The controller object ----------

  class SrtCongestionCtrl {
    var rtts: seq<int>
    var rttMin: int
    var rttReady: bool
    var bws: seq<nat>
    var bwMax: nat
    var bwAvg: nat
    var bwReady: bool
    var states: seq<int>
    var verdict: Verdict
    const encodeTask: RunTask
    const controlTask: RunTask

    constructor ()
      ensures Value() == INITIAL_CONTROL && fresh(encodeTask) && fresh(controlTask) && encodeTask != controlTask
      ensures encodeTask.Value() == NewGate(Some(500_000_000), Some(1))
      ensures controlTask.Value() == NewGate(Some(300_000_000), Some(1))
      ensures rttMin == 100 && verdict == Keep
    {
      rtts, rttMin, rttReady := [], RTT_INIT, false;
      bws, bwMax, bwAvg, bwReady := [], 0, 0, false;
      states, verdict := [], Keep;
      encodeTask := new RunTask(Some(VIDEO_UPDATE_INTERVAL), Some(1));
      controlTask := new RunTask(Some(SRT_CHECK_INTERVAL), Some(1));
    }

    function Value(): Control
      reads this
    {
      Control(rtts, rttMin, rttReady, bws, bwMax, bwAvg, bwReady, states, verdict)
    }

    method UpdateRTT(rtt: int)
      modifies this`rtts, this`rttMin, this`rttReady
      ensures Value() == UpdateRtt(old(Value()), rtt)
    {
      rtts := rtts + [Max(rtt, RTT_MIN)];
      rttReady := |rtts| >= LIST_MAX;
      if rttReady {
        rttMin := Smallest(rtts);
        rtts := [];
      }
    }

    method UpdateMaxBW(bw: nat)
      modifies this`bws, this`bwMax, this`bwAvg, this`bwReady
      ensures Value() == UpdateMaxBw(old(Value()), bw)
    {
      bws := bws + [bw];
      bwReady := |bws| >= LIST_MAX;
      if bwReady {
        bwAvg := Average(bws);
        bwMax := Largest(bws);
        bwMax := Blend(bwMax, bwAvg);
        bws := [];
      }
    }

    method BitrateGetState(inflight: int) returns (v: Verdict)
      modifies this`states
      ensures Value().(verdict := v) == GetState(old(Value()), inflight)
    {
      hide Headroom, Judge, Sum;
      if !rttReady || !bwReady {
        return Keep;
      }
      states := states + [Headroom(bwMax, rttMin, inflight)];
      if |states| < LIST_MAX {
        return Keep;
      }
      v := Judge(Sum(states));
    }

    /** One call: nothing unless the gate fires, then one reading, which may fail. */
    method CongestionCtrl(first: int, second: int, reading: Reading)
      modifies this, controlTask
      ensures var g := old(controlTask.Value());
              var fires := Fires(g, true, first, second);
              Value() == (if fires then Run(old(Value()), [reading]) else old(Value()))
              && controlTask.Value() == (if fires then Cleared(Called(g, true, first, second))
                                         else Called(g, true, first, second))
    {
      hide Fires, Called, Cleared, GetState, UpdateRtt, UpdateMaxBw, Bandwidth, Truncate;
      assert [reading][1..] == [];
      var fires := controlTask.DoByTimeAndCount(first, second);
      if fires {
        if reading.Good? {
          var sample := reading.sample;
          UpdateRTT(Max(Truncate(sample.rtt), RTT_MIN));
          UpdateMaxBW(Bandwidth(sample));
          var v := BitrateGetState(sample.flightPackets * 188 * 7);
          verdict := v;
        }
        controlTask.Reset();
      }
    }

    /** One call: the encoder's bitrate moves, if at all, by the rule of the current verdict. */
    method UpdateVideoEncodeBitrate(current: int, stream: int, first: int, second: int)
      returns (changed: bool, next: int)
      modifies encodeTask
      ensures var g := old(encodeTask.Value());
              var fires := Fires(g, true, first, second);
              next == (if fires then NextBitrate(current, stream, verdict) else current)
              && encodeTask.Value() == (if fires then Cleared(Called(g, true, first, second))
                                        else Called(g, true, first, second))
      ensures changed <==> next != current
    {
      hide Fires, Called, Cleared, Truncate;
      changed, next := false, current;
      var fires := encodeTask.DoByTimeAndCount(first, second);
      if fires {
        var wanted := current;
        if verdict == Incr {
          if current as real < stream as real * 1.3 {
            wanted := Truncate(current as real * 1.08);
          }
        } else if verdict == Decr {
          if current as real > stream as real * 0.4 {
            wanted := Truncate(current as real * 0.85);
          }
        }
        encodeTask.Reset();
        if wanted != current {
          changed, next := true, wanted;
        }
      }
    }
  }
}
