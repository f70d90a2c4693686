/**
 * The battery monitor (BatteryMonitor.cpp, BatteryMonitor.h): averages a
 * number of ADC samples taken while the divider's control pin enables the
 * measurement, converts the average to the battery voltage, and maps the
 * voltage to a charge percentage clamped to 0..100.
 *
 * ADC readings are inputs in 0..4095; `float` arithmetic is modelled over
 * the reals.
 */
module Battery {
  import opened Config

  /** Full scale of the 12-bit ADC. */
  const AdcMax: int := 4095

  /** A hardware call of the monitor, in the order it was made. */
  datatype Event =
    | CtrlMode(mode: Mode)
    | CtrlLevel(level: Level)
    | Delay(ms: int)
    | AnalogRead(pin: int, value: int)

  /** C's conversion of a floating value to `int`: truncation toward zero. */
  function Trunc(x: real): (r: int)
    ensures x >= 0.0 ==> 0 <= r && r as real <= x < r as real + 1.0
    ensures x < 0.0 ==> r <= 0 && r as real - 1.0 < x <= r as real
  {
    if x >= 0.0 then x.Floor else -((-x).Floor)
  }

  /**
   * The charge percentage for voltage `v`: 100 at or above `maxV`, 0 at or
   * below `minV`, and otherwise the truncated linear interpolation.
   */
  function Percentage(v: real, minV: real, maxV: real): (p: int)
    ensures 0 <= p <= 100
    ensures v >= maxV ==> p == 100
    ensures v < maxV && v <= minV ==> p == 0
    ensures minV < v < maxV ==> p < 100 && p as real <= (v - minV) / (maxV - minV) * 100.0 < p as real + 1.0
  {
    if v >= maxV then 100
    else if v <= minV then 0
    else
      var x := (v - minV) / (maxV - minV) * 100.0;
      InterpolationBelow100(v, minV, maxV);
      Trunc(x)
  }

  /** Strictly between the thresholds, the interpolated value lies strictly between 0 and 100. */
  lemma InterpolationBelow100(v: real, minV: real, maxV: real)
    requires minV < v < maxV
    ensures 0.0 < (v - minV) / (maxV - minV) * 100.0 < 100.0
  {
    var d := maxV - minV;
    var q := (v - minV) / d;
    assert q * d == v - minV;
    if q >= 1.0 {
      MulMonotone(1.0, q, d);
    }
    if q <= 0.0 {
      MulMonotone(q, 0.0, d);
    }
  }

  /** Multiplying by a non-negative factor keeps the order. */
  lemma MulMonotone(a: real, b: real, c: real)
    requires a <= b && c >= 0.0
    ensures a * c <= b * c
    ensures a < b && c > 0.0 ==> a * c < b * c
  {
    assert b * c - a * c == (b - a) * c;
  }

  /** Dividing by a positive number keeps the order. */
  lemma DivMonotone(a: real, b: real, d: real)
    requires a <= b && d > 0.0
    ensures a / d <= b / d
  {
    assert a / d * d == a && b / d * d == b;
  }

  /** For fixed thresholds, a higher voltage never yields a lower percentage. */
  lemma PercentageMonotone(v1: real, v2: real, minV: real, maxV: real)
    requires v1 <= v2
    ensures Percentage(v1, minV, maxV) <= Percentage(v2, minV, maxV)
  {
    if minV < v1 && v2 < maxV {
      var d := maxV - minV;
      DivMonotone(v1 - minV, v2 - minV, d);
      MulMonotone((v1 - minV) / d, (v2 - minV) / d, 100.0);
      InterpolationBelow100(v1, minV, maxV);
    }
  }

  /**
   * The battery voltage for the sum of `n` ADC readings: the average scaled
   * so that full scale (4095) reads as `vRef`, times the divider ratio.
   */
  function BatteryVoltage(sum: int, n: int, vRef: real, dividerRatio: real): (v: real)
    requires n >= 1
    ensures sum == 0 ==> v == 0.0
    ensures sum == n * AdcMax ==> v == vRef * dividerRatio
  {
    var avg := sum as real / n as real;
    assert sum == n * AdcMax ==> avg == AdcMax as real;
    avg * vRef * dividerRatio / AdcMax as real
  }

  /** Sum of the ADC readings. */
  function SumOf(xs: seq<int>): int
  {
    if xs == [] then 0 else SumOf(xs[..|xs| - 1]) + xs[|xs| - 1]
  }

  ghost predicate AdcReadings(xs: seq<int>)
  {
    forall i :: 0 <= i < |xs| ==> 0 <= xs[i] <= AdcMax
  }

  /** A sum of ADC readings lies within 0 and the count times full scale. */
  lemma {:induction false} SumOfBounds(xs: seq<int>)
    requires AdcReadings(xs)
    ensures 0 <= SumOf(xs) <= |xs| * AdcMax
    decreases |xs|
  {
    if xs != [] {
      SumOfBounds(xs[..|xs| - 1]);
    }
  }

  /** With at most 255 samples the sum fits easily in a 32-bit `long`. */
  lemma SampleSumFitsLong(xs: seq<int>)
    requires AdcReadings(xs) && |xs| <= 255
    ensures 0 <= SumOf(xs) <= 255 * AdcMax < 0x8000_0000
  {
    SumOfBounds(xs);
  }

  /** With readings in 0..4095 and non-negative calibration, the voltage lies in [0, vRef · dividerRatio]. */
  lemma VoltageBounds(xs: seq<int>, vRef: real, dividerRatio: real)
    requires |xs| >= 1 && AdcReadings(xs)
    requires vRef >= 0.0 && dividerRatio >= 0.0
    ensures 0.0 <= BatteryVoltage(SumOf(xs), |xs|, vRef, dividerRatio) <= vRef * dividerRatio
  {
    SumOfBounds(xs);
    var avg := SumOf(xs) as real / |xs| as real;
    AverageBounds(SumOf(xs), |xs|);
    var k := vRef * dividerRatio;
    MulMonotone(0.0, vRef, dividerRatio);
    ScaleBounds(avg, k);
    assert BatteryVoltage(SumOf(xs), |xs|, vRef, dividerRatio) == avg * k / AdcMax as real by {
      assert avg * vRef * dividerRatio == avg * k;
    }
  }

  /** The average of `n` readings in 0..4095 is in 0..4095. */
  lemma AverageBounds(sum: int, n: int)
    requires n >= 1 && 0 <= sum <= n * AdcMax
    ensures 0.0 <= sum as real / n as real <= AdcMax as real
  {
    var r := n as real;
    assert (n * AdcMax) as real == r * AdcMax as real;
    DivMonotone(0.0, sum as real, r);
    DivMonotone(sum as real, r * AdcMax as real, r);
  }

  /** Scaling an ADC average by `k / 4095` gives a value in 0..k. */
  lemma ScaleBounds(avg: real, k: real)
    requires 0.0 <= avg <= AdcMax as real && k >= 0.0
    ensures 0.0 <= avg * k / AdcMax as real <= k
  {
    var full := AdcMax as real;
    MulMonotone(0.0, avg, k);
    MulMonotone(avg, full, k);
    DivMonotone(0.0, avg * k, full);
    DivMonotone(avg * k, full * k, full);
  }

  /** The hardware calls of the sampling loop: each reading of `pin` followed by a 5 ms wait. */
  function Sampling(pin: int, samples: seq<int>): (r: seq<Event>)
    ensures |r| == 2 * |samples|
    ensures forall i :: 0 <= i < |samples| ==> r[2 * i] == AnalogRead(pin, samples[i]) && r[2 * i + 1] == Delay(5)
  {
    if samples == [] then []
    else Sampling(pin, samples[..|samples| - 1]) + [AnalogRead(pin, samples[|samples| - 1]), Delay(5)]
  }

  /** The monitor's calibration and its last result. */
  class BatteryMonitor {
    const pinBat: uint8
    const pinBatCtrl: uint8
    const vRef: real
    var dividerRatio: real
    const numSamples: uint8
    var maxVoltage: real
    var minVoltage: real
    var voltage: real
    var percentage: int
    /** Hardware calls made so far. */
    var trace: seq<Event>

    /** Stores the calibration as given (the defaults are the board's); no result yet. */
    constructor (pinBat: uint8 := 1, pinBatCtrl: uint8 := 37, vRef: real := 3.3, dividerRatio: real := 2.74,
                 numSamples: uint8 := 10, maxVoltage: real := 4.2, minVoltage: real := 3.3)
      ensures this.pinBat == pinBat && this.pinBatCtrl == pinBatCtrl && this.vRef == vRef
      ensures this.dividerRatio == dividerRatio && this.numSamples == numSamples
      ensures this.maxVoltage == maxVoltage && this.minVoltage == minVoltage
      ensures voltage == 0.0 && percentage == 0 && trace == []
    {
      this.pinBat, this.pinBatCtrl, this.vRef := pinBat, pinBatCtrl, vRef;
      this.dividerRatio, this.numSamples := dividerRatio, numSamples;
      this.maxVoltage, this.minVoltage := maxVoltage, minVoltage;
      voltage, percentage, trace := 0.0, 0, [];
    }

    /** Configures the control pin as an output, HIGH so that no measurement current flows. */
    method Begin()
      modifies this`trace
      ensures trace == old(trace) + [CtrlMode(Output), CtrlLevel(High)]
    {
      trace := trace + [CtrlMode(Output), CtrlLevel(High)];
    }

    /**
     * Takes `numSamples` readings (`samples`, in order) with the control pin
     * LOW, sets it HIGH again, and stores the voltage of their average and
     * the percentage for that voltage.
     */
    method Update(samples: seq<int>)
      requires numSamples >= 1 && |samples| == numSamples && AdcReadings(samples)
      modifies this`voltage, this`percentage, this`trace
      ensures trace == old(trace) + [CtrlLevel(Low), Delay(20)] + Sampling(pinBat, samples) + [CtrlLevel(High)]
      ensures voltage == BatteryVoltage(SumOf(samples), numSamples, vRef, dividerRatio)
      ensures percentage == Percentage(voltage, minVoltage, maxVoltage)
      ensures vRef >= 0.0 && dividerRatio >= 0.0 ==> 0.0 <= voltage <= vRef * dividerRatio
    {
      trace := trace + [CtrlLevel(Low), Delay(20)];
      var sumReadings := ReadSamples(samples);
      SampleSumFitsLong(samples);
      trace := trace + [CtrlLevel(High)];
      voltage := BatteryVoltage(sumReadings, numSamples, vRef, dividerRatio);
      if vRef >= 0.0 && dividerRatio >= 0.0 {
        VoltageBounds(samples, vRef, dividerRatio);
      }
      percentage := Percentage(voltage, minVoltage, maxVoltage);
    }

    /** The sampling loop of `update`: reads each of `samples` in turn, waiting 5 ms after each, and sums them. */
    method ReadSamples(samples: seq<int>) returns (sumReadings: int)
      requires |samples| == numSamples
      modifies this`trace
      ensures sumReadings == SumOf(samples)
      ensures trace == old(trace) + Sampling(pinBat, samples)
    {
      sumReadings := 0;
      for i := 0 to numSamples
        invariant sumReadings == SumOf(samples[..i])
        invariant trace == old(trace) + Sampling(pinBat, samples[..i])
      {
        assert samples[..i + 1][..i] == samples[..i];
        sumReadings := sumReadings + samples[i];
        trace := trace + [AnalogRead(pinBat, samples[i]), Delay(5)];
      }
      assert samples[..numSamples] == samples;
    }

    function GetVoltage(): (v: real)
      reads this
      ensures v == voltage
    {
      voltage
    }

    function GetPercentage(): (p: int)
      reads this
      ensures p == percentage
    {
      percentage
    }

    method SetMaxVoltage(v: real)
      modifies this`maxVoltage
      ensures maxVoltage == v
    {
      maxVoltage := v;
    }

    method SetMinVoltage(v: real)
      modifies this`minVoltage
      ensures minVoltage == v
    {
      minVoltage := v;
    }

    method SetDividerRatio(ratio: real)
      modifies this`dividerRatio
      ensures dividerRatio == ratio
    {
      dividerRatio := ratio;
    }
  }
}
