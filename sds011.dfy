/**
 * The SDS011 particulate sensor driver (SDS011Sensor.cpp): power control
 * of the sensor, the 10-byte frame recogniser and decoder, and the
 * measurement routine that warms the sensor up, drains stale bytes,
 * samples for a while, powers the sensor off and averages the readings.
 *
 * The UART receive queue is a sequence of bytes; the bytes that arrive
 * during the k-th 100 ms wait of a measurement are the oracle
 * `arrivals(k)`.  Time is an abstract millisecond clock.  Readings are
 * real numbers (the source uses `float`).
 */
module Sds011 {
  import opened Config

  const FrameHead: uint8 := 0xAA
  const FrameCommand: uint8 := 0xC0
  const FrameTail: uint8 := 0xAB

  /** Milliseconds of one `unsigned long` wrap of `millis()`; `int` arguments convert modulo this. */
  const ULongModulus: int := 0x1_0000_0000

  /** One PM2.5/PM10 measurement in micrograms per cubic metre. */
  datatype Reading = Reading(pm25: real, pm10: real)

  /** A little-endian 16-bit count of tenths, as a value. */
  function Tenths(lo: uint8, hi: uint8): (v: real)
    ensures 0.0 <= v <= 6553.5
    ensures v * 10.0 == (hi * 256 + lo) as real
  {
    ((hi * 256 + lo) as real) / 10.0
  }

  /** The frame test and decode of `readSensor`: header AA C0 and tail AB; bytes 6 to 8 are not looked at. */
  function DecodeFrame(f: seq<uint8>): (r: Option<Reading>)
    requires |f| == 10
    ensures r.Some? <==> f[0] == FrameHead && f[1] == FrameCommand && f[9] == FrameTail
    ensures r.Some? ==> 0.0 <= r.value.pm25 <= 6553.5 && 0.0 <= r.value.pm10 <= 6553.5
  {
    if f[0] == FrameHead && f[1] == FrameCommand && f[9] == FrameTail then
      Some(Reading(Tenths(f[2], f[3]), Tenths(f[4], f[5])))
    else
      None
  }

  /** A data frame as the sensor sends it, for given tenths counts, sensor id and checksum. */
  function EncodeFrame(pm25Tenths: nat, pm10Tenths: nat, id: nat, checksum: uint8): (f: seq<uint8>)
    requires pm25Tenths < 0x1_0000 && pm10Tenths < 0x1_0000 && id < 0x1_0000
    ensures |f| == 10 && f[0] == FrameHead && f[1] == FrameCommand && f[9] == FrameTail
  {
    [FrameHead, FrameCommand, pm25Tenths % 256, pm25Tenths / 256, pm10Tenths % 256, pm10Tenths / 256,
     id % 256, id / 256, checksum, FrameTail]
  }

  /** Decoding a frame the sensor sent gives back its two values, whatever the id and checksum. */
  lemma DecodeEncode(pm25Tenths: nat, pm10Tenths: nat, id: nat, checksum: uint8)
    requires pm25Tenths < 0x1_0000 && pm10Tenths < 0x1_0000 && id < 0x1_0000
    ensures DecodeFrame(EncodeFrame(pm25Tenths, pm10Tenths, id, checksum)) ==
              Some(Reading(pm25Tenths as real / 10.0, pm10Tenths as real / 10.0))
  {
    var f := EncodeFrame(pm25Tenths, pm10Tenths, id, checksum);
    assert (f[3] as int) * 256 + (f[2] as int) == pm25Tenths;
    assert (f[5] as int) * 256 + (f[4] as int) == pm10Tenths;
  }

  /** Two frames that agree outside bytes 6 to 8 decode alike: the checksum is never checked. */
  lemma DecodeIgnoresChecksum(f: seq<uint8>, g: seq<uint8>)
    requires |f| == 10 && |g| == 10
    requires f[..6] == g[..6] && f[9] == g[9]
    ensures DecodeFrame(f) == DecodeFrame(g)
  {
    assert forall i :: 0 <= i < 6 ==> f[i] == f[..6][i] == g[..6][i] == g[i];
  }

  /** Sum of a sequence of reals. */
  function Sum(xs: seq<real>): real
  {
    if xs == [] then 0.0 else Sum(xs[..|xs| - 1]) + xs[|xs| - 1]
  }

  lemma SumSnoc(xs: seq<real>, x: real)
    ensures Sum(xs + [x]) == Sum(xs) + x
  {
    assert (xs + [x])[..|xs|] == xs;
  }

  /** Appending a reading adds its values to the two totals. */
  lemma TotalsSnoc(rs: seq<Reading>, r: Reading)
    ensures Sum(Pm25s(rs + [r])) == Sum(Pm25s(rs)) + r.pm25
    ensures Sum(Pm10s(rs + [r])) == Sum(Pm10s(rs)) + r.pm10
  {
    assert Pm25s(rs + [r]) == Pm25s(rs) + [r.pm25];
    assert Pm10s(rs + [r]) == Pm10s(rs) + [r.pm10];
    SumSnoc(Pm25s(rs), r.pm25);
    SumSnoc(Pm10s(rs), r.pm10);
  }

  /** Arithmetic mean of a non-empty sequence of reals. */
  function Mean(xs: seq<real>): real
    requires |xs| > 0
  {
    Sum(xs) / (|xs| as real)
  }

  /** A sum of values within [lo, hi] lies within |xs|·lo and |xs|·hi. */
  lemma {:induction false} SumBounds(xs: seq<real>, lo: real, hi: real)
    requires forall i :: 0 <= i < |xs| ==> lo <= xs[i] <= hi
    ensures (|xs| as real) * lo <= Sum(xs) <= (|xs| as real) * hi
    decreases |xs|
  {
    if xs != [] {
      SumBounds(xs[..|xs| - 1], lo, hi);
    }
  }

  /** The mean of values within [lo, hi] lies within [lo, hi]. */
  lemma MeanBounds(xs: seq<real>, lo: real, hi: real)
    requires |xs| > 0
    requires forall i :: 0 <= i < |xs| ==> lo <= xs[i] <= hi
    ensures lo <= Mean(xs) <= hi
  {
    SumBounds(xs, lo, hi);
    var n := |xs| as real;
    assert Mean(xs) * n == Sum(xs);
  }

  function Pm25s(rs: seq<Reading>): (xs: seq<real>)
    ensures |xs| == |rs| && forall i :: 0 <= i < |rs| ==> xs[i] == rs[i].pm25
  {
    seq(|rs|, i requires 0 <= i < |rs| => rs[i].pm25)
  }

  function Pm10s(rs: seq<Reading>): (xs: seq<real>)
    ensures |xs| == |rs| && forall i :: 0 <= i < |rs| ==> xs[i] == rs[i].pm10
  {
    seq(|rs|, i requires 0 <= i < |rs| => rs[i].pm10)
  }

  /** `count`, `total25` and `total10` are the number of readings in `rs` and the sums of their values. */
  ghost predicate Tallied(total25: real, total10: real, count: nat, rs: seq<Reading>)
  {
    count == |rs| && total25 == Sum(Pm25s(rs)) && total10 == Sum(Pm10s(rs))
  }

  /** What one `readSensor` call keeps from the queue `rx`: the decoded frame, if a full one is accepted. */
  function Accepted(rx: seq<uint8>): (rs: seq<Reading>)
    ensures |rs| <= 1
    ensures |rs| == 1 <==> |rx| >= 10 && DecodeFrame(rx[..10]).Some?
  {
    if |rx| >= 10 && DecodeFrame(rx[..10]).Some? then [DecodeFrame(rx[..10]).value] else []
  }

  /** The queue after one `readSensor` call: ten bytes fewer when ten were there, whatever they held. */
  function AfterRead(rx: seq<uint8>): (rest: seq<uint8>)
    ensures |rx| >= 10 ==> rx == rx[..10] + rest
    ensures |rx| < 10 ==> rest == rx
  {
    if |rx| >= 10 then rx[10..] else rx
  }

  /**
   * The readings a sampling period yields: at each of the `n - k` remaining
   * polls a frame is read (and kept when accepted), then the bytes that
   * arrive during the 100 ms wait are queued.
   */
  function SampleReadings(rx: seq<uint8>, arrivals: nat -> seq<uint8>, k: nat, n: nat): (rs: seq<Reading>)
    ensures |rs| <= if k < n then n - k else 0
    decreases n - k
  {
    if k >= n then [] else Accepted(rx) + SampleReadings(AfterRead(rx) + arrivals(k), arrivals, k + 1, n)
  }

  /** Averages of readings taken from frames are within the frame's range. */
  lemma ReadingMeansInRange(rs: seq<Reading>)
    requires |rs| > 0
    requires forall i :: 0 <= i < |rs| ==> 0.0 <= rs[i].pm25 <= 6553.5 && 0.0 <= rs[i].pm10 <= 6553.5
    ensures 0.0 <= Mean(Pm25s(rs)) <= 6553.5 && 0.0 <= Mean(Pm10s(rs)) <= 6553.5
  {
    MeanBounds(Pm25s(rs), 0.0, 6553.5);
    MeanBounds(Pm10s(rs), 0.0, 6553.5);
  }

  /** One poll of the sampling loop moves its accepted frame, if any, from the remaining readings to the taken ones. */
  lemma SampleAdvance(taken: seq<Reading>, rx: seq<uint8>, arrivals: nat -> seq<uint8>, k: nat, n: nat)
    requires k < n
    ensures taken + SampleReadings(rx, arrivals, k, n) ==
              (taken + Accepted(rx)) + SampleReadings(AfterRead(rx) + arrivals(k), arrivals, k + 1, n)
    ensures Accepted(rx) == [] ==> taken + Accepted(rx) == taken
  {
    var here := Accepted(rx);
    var rest := SampleReadings(AfterRead(rx) + arrivals(k), arrivals, k + 1, n);
    assert SampleReadings(rx, arrivals, k, n) == here + rest;
    assert taken + (here + rest) == (taken + here) + rest;
    if here == [] {
      assert taken + here == taken;
    }
  }

  /** Every reading of a sampling period is within the frame's range. */
  lemma {:induction false} SampleReadingsInRange(rx: seq<uint8>, arrivals: nat -> seq<uint8>, k: nat, n: nat)
    ensures forall i :: 0 <= i < |SampleReadings(rx, arrivals, k, n)| ==>
              0.0 <= SampleReadings(rx, arrivals, k, n)[i].pm25 <= 6553.5 &&
              0.0 <= SampleReadings(rx, arrivals, k, n)[i].pm10 <= 6553.5
    decreases n - k
  {
    if k < n {
      SampleReadingsInRange(AfterRead(rx) + arrivals(k), arrivals, k + 1, n);
    }
  }

  /** The receive queue after the remaining polls `k..n` of a sampling period. */
  function QueueAfter(rx: seq<uint8>, arrivals: nat -> seq<uint8>, k: nat, n: nat): (r: seq<uint8>)
    ensures k >= n ==> r == rx
    ensures k < n ==> |arrivals(n - 1)| <= |r| && r[|r| - |arrivals(n - 1)| ..] == arrivals(n - 1)
    decreases n - k
  {
    if k >= n then rx else QueueAfter(AfterRead(rx) + arrivals(k), arrivals, k + 1, n)
  }

  /**
   * `_buffer` after the remaining polls `k..n` of a sampling period: the last
   * ten bytes a poll read, accepted or not, or `buf` when no poll found ten.
   */
  function BufferAfter(rx: seq<uint8>, arrivals: nat -> seq<uint8>, k: nat, n: nat, buf: seq<uint8>): (r: seq<uint8>)
    ensures |buf| == 10 ==> |r| == 10
    decreases n - k
  {
    if k >= n then buf
    else BufferAfter(AfterRead(rx) + arrivals(k), arrivals, k + 1, n, if |rx| >= 10 then rx[..10] else buf)
  }

  /**
   * Sampling from an empty queue and buffer `buf0` has reached poll `k` of
   * `n` with readings `done` taken, queue `rx` and buffer `buf`: what the
   * remaining polls yield completes what the whole period yields.
   */
  ghost predicate Progress(rx: seq<uint8>, buf: seq<uint8>, arrivals: nat -> seq<uint8>, k: nat, n: nat,
                           done: seq<Reading>, buf0: seq<uint8>)
  {
    && done + SampleReadings(rx, arrivals, k, n) == SampleReadings([], arrivals, 0, n)
    && QueueAfter(rx, arrivals, k, n) == QueueAfter([], arrivals, 0, n)
    && BufferAfter(rx, arrivals, k, n, buf) == BufferAfter([], arrivals, 0, n, buf0)
  }

  /** One poll keeps `Progress`. */
  lemma ProgressStep(rx: seq<uint8>, buf: seq<uint8>, arrivals: nat -> seq<uint8>, k: nat, n: nat,
                     done: seq<Reading>, done': seq<Reading>, buf0: seq<uint8>)
    requires k < n && Progress(rx, buf, arrivals, k, n, done, buf0)
    requires done' + SampleReadings(AfterRead(rx) + arrivals(k), arrivals, k + 1, n) == done + SampleReadings(rx, arrivals, k, n)
    ensures Progress(AfterRead(rx) + arrivals(k), if |rx| >= 10 then rx[..10] else buf, arrivals, k + 1, n, done', buf0)
  {
  }

  /** The number of 100 ms polls `measure` makes in a sampling period of `ms` milliseconds. */
  function Polls(ms: nat): (n: nat)
    ensures 100 * n >= ms && (n > 0 ==> 100 * (n - 1) < ms)
  {
    (ms + 99) / 100
  }

  /** The sensor's wiring, its UART and its last received frame. */
  class Sds011Sensor {
    const rxPin: int
    const txPin: int
    const powerPin: int
    /** `_buffer`: the last ten bytes read from the UART. */
    const buffer: array<uint8>
    /** Baud rate the UART was opened at, 0 while closed. */
    var baud: int
    var powerMode: Option<Mode>
    var powerLevel: Option<Level>
    /** Every level written to the power pin, in order. */
    var powerWrites: seq<Level>
    /** Bytes received and not yet read. */
    var rx: seq<uint8>
    /** The `millis()` clock. */
    var now: nat

    ghost predicate Valid()
      reads this
    {
      buffer.Length == 10
    }

    /** Records the wiring; nothing is configured yet. */
    constructor (rxPin: int, txPin: int, powerPin: int, clock: nat)
      ensures Valid() && fresh(buffer)
      ensures this.rxPin == rxPin && this.txPin == txPin && this.powerPin == powerPin
      ensures baud == 0 && powerMode == None && powerLevel == None && powerWrites == [] && rx == [] && now == clock
    {
      this.rxPin, this.txPin, this.powerPin := rxPin, txPin, powerPin;
      buffer := new uint8[10];
      baud, powerMode, powerLevel, powerWrites, rx, now := 0, None, None, [], [], clock;
    }

    /** Opens the UART at 9600 baud and leaves the sensor configured and powered off. */
    method Begin()
      modifies this`baud, this`powerMode, this`powerLevel, this`powerWrites
      ensures baud == 9600 && powerMode == Some(Output) && powerLevel == Some(Low)
      ensures powerWrites == old(powerWrites) + [Low]
    {
      baud := 9600;
      powerMode := Some(Output);
      PowerOff();
    }

    /** Drives the power pin HIGH. */
    method PowerOn()
      modifies this`powerLevel, this`powerWrites
      ensures powerLevel == Some(High) && powerWrites == old(powerWrites) + [High]
    {
      powerLevel := Some(High);
      powerWrites := powerWrites + [High];
    }

    /** Drives the power pin LOW. */
    method PowerOff()
      modifies this`powerLevel, this`powerWrites
      ensures powerLevel == Some(Low) && powerWrites == old(powerWrites) + [Low]
    {
      powerLevel := Some(Low);
      powerWrites := powerWrites + [Low];
    }

    /**
     * Reads one frame when at least ten bytes are queued.  The ten bytes are
     * consumed even when the frame is rejected; the outputs are written only
     * when it is accepted.
     */
    method ReadSensor(pm25In: real, pm10In: real) returns (ok: bool, pm25: real, pm10: real)
      requires Valid()
      modifies this`rx, buffer
      ensures rx == AfterRead(old(rx))
      ensures |old(rx)| >= 10 ==> buffer[..] == old(rx)[..10]
      ensures |old(rx)| < 10 ==> buffer[..] == old(buffer[..])
      ensures Accepted(old(rx)) == if ok then [Reading(pm25, pm10)] else []
      ensures !ok ==> pm25 == pm25In && pm10 == pm10In
    {
      ok, pm25, pm10 := false, pm25In, pm10In;
      if |rx| >= 10 {
        ReadBytes();
        if buffer[0] == 0xAA && buffer[1] == 0xC0 && buffer[9] == 0xAB {
          pm25 := Tenths(buffer[2], buffer[3]);
          pm10 := Tenths(buffer[4], buffer[5]);
          ok := true;
        }
      }
    }

    /** `readBytes(_buffer, 10)`: moves the first ten queued bytes into the buffer. */
    method ReadBytes()
      requires Valid() && |rx| >= 10
      modifies this`rx, buffer
      ensures buffer[..] == old(rx)[..10] && rx == old(rx)[10..]
    {
      forall i | 0 <= i < 10 {
        buffer[i] := rx[i];
      }
      rx := rx[10..];
    }

    /**
     * Powers the sensor on, waits `warmupTime`, discards every queued byte,
     * samples for `sampleTime`, and powers the sensor off.  The result is
     * true exactly when some frame of the sampling period was accepted, and
     * then the outputs are the means of the accepted readings; otherwise
     * they are left as they were.  Both durations are `int`s converted to
     * `unsigned long`, so a negative one means a wait of nearly 50 days;
     * their defaults are the header's 10 s warm-up and 5 s sampling period.
     */
    method Measure(pm25In: real, pm10In: real, arrivals: nat -> seq<uint8>,
                   warmupTime: int32 := 10000, sampleTime: int32 := 5000)
      returns (ok: bool, pm25: real, pm10: real)
      requires Valid()
      modifies this`rx, this`now, this`powerLevel, this`powerWrites, buffer
      ensures powerLevel == Some(Low) && powerWrites == old(powerWrites) + [High, Low]
      ensures var rs := SampleReadings([], arrivals, 0, Polls(sampleTime % ULongModulus));
              (ok <==> |rs| > 0) &&
              (ok ==> pm25 == Mean(Pm25s(rs)) && pm10 == Mean(Pm10s(rs))) &&
              (!ok ==> pm25 == pm25In && pm10 == pm10In)
      ensures ok ==> 0.0 <= pm25 <= 6553.5 && 0.0 <= pm10 <= 6553.5
      ensures now == old(now) + warmupTime % ULongModulus + 100 * Polls(sampleTime % ULongModulus)
      ensures rx == QueueAfter([], arrivals, 0, Polls(sampleTime % ULongModulus))
      ensures buffer[..] == BufferAfter([], arrivals, 0, Polls(sampleTime % ULongModulus), old(buffer[..]))
    {
      PowerOn();
      now := now + warmupTime % ULongModulus;
      while |rx| > 0
        invariant now == old(now) + warmupTime % ULongModulus
        invariant powerLevel == Some(High) && powerWrites == old(powerWrites) + [High]
        invariant buffer[..] == old(buffer[..])
        decreases |rx|
      {
        rx := rx[1..];
      }
      var total25, total10, count := Sample(sampleTime % ULongModulus, arrivals);
      PowerOff();
      ghost var rs := SampleReadings([], arrivals, 0, Polls(sampleTime % ULongModulus));
      if count > 0 {
        pm25 := total25 / (count as real);
        pm10 := total10 / (count as real);
        ok := true;
        SampleReadingsInRange([], arrivals, 0, Polls(sampleTime % ULongModulus));
        ReadingMeansInRange(rs);
      } else {
        ok, pm25, pm10 := false, pm25In, pm10In;
      }
    }

    /**
     * The sampling loop of `measure`, run with the sensor powered: while
     * less than `ms` milliseconds have passed, reads a frame, adds an
     * accepted reading to the totals, and waits 100 ms.  The totals are those
     * of exactly the readings `SampleReadings` yields from an empty queue.
     */
    method Sample(ms: nat, arrivals: nat -> seq<uint8>) returns (total25: real, total10: real, count: nat)
      requires Valid() && rx == [] && powerLevel == Some(High)
      modifies this`rx, this`now, buffer
      ensures now == old(now) + 100 * Polls(ms)
      ensures var rs := SampleReadings([], arrivals, 0, Polls(ms));
              count == |rs| && total25 == Sum(Pm25s(rs)) && total10 == Sum(Pm10s(rs))
      ensures rx == QueueAfter([], arrivals, 0, Polls(ms))
      ensures buffer[..] == BufferAfter([], arrivals, 0, Polls(ms), old(buffer[..]))
    {
      var start := now;
      total25, total10, count := 0.0, 0.0, 0;
      var k: nat := 0;
      var n := Polls(ms);
      ghost var done: seq<Reading> := [];
      ghost var buf0 := buffer[..];
      while now - start < ms
        invariant start <= now && now == start + 100 * k && k <= n
        invariant Progress(rx, buffer[..], arrivals, k, n, done, buf0)
        invariant Tallied(total25, total10, count, done)
        decreases ms - (now - start)
      {
        ghost var rx0, bufK, done0 := rx, buffer[..], done;
        total25, total10, count, done := Poll(total25, total10, count, done, arrivals, k, n);
        ProgressStep(rx0, bufK, arrivals, k, n, done0, done, buf0);
        k := k + 1;
      }
      assert k == n && SampleReadings(rx, arrivals, k, n) == [];
      assert done + [] == done;
    }

    /**
     * One iteration of the sampling loop (poll `k` of `n`): reads a frame,
     * adds an accepted reading to the totals, queues the bytes that arrive
     * during the 100 ms wait, and waits.
     */
    method Poll(total25: real, total10: real, count: nat, ghost done: seq<Reading>,
                arrivals: nat -> seq<uint8>, k: nat, n: nat)
      returns (total25': real, total10': real, count': nat, ghost done': seq<Reading>)
      requires Valid() && k < n
      requires Tallied(total25, total10, count, done)
      modifies this`rx, this`now, buffer
      ensures rx == AfterRead(old(rx)) + arrivals(k)
      ensures buffer[..] == if |old(rx)| >= 10 then old(rx)[..10] else old(buffer[..])
      ensures done' + SampleReadings(rx, arrivals, k + 1, n) == done + SampleReadings(old(rx), arrivals, k, n)
      ensures Tallied(total25', total10', count', done')
      ensures now == old(now) + 100
    {
      SampleAdvance(done, rx, arrivals, k, n);
      total25', total10', count', done' := total25, total10, count, done;
      var got, t25, t10 := ReadSensor(0.0, 0.0);
      if got {
        TotalsSnoc(done, Reading(t25, t10));
        total25', total10', count' := total25 + t25, total10 + t10, count + 1;
        done' := done + [Reading(t25, t10)];
      }
      rx := rx + arrivals(k);
      now := now + 100;
    }
  }
}
