/**
 * The LoRa link (lora_manager.h): a single-flight sender guarded by the
 * global `lora_idle` flag, the two radio callbacks that release it, the
 * radio initialisation, and the send routine that polls the radio's
 * interrupt handler until the flag is released or 5000 ms have passed.
 *
 * Interrupt servicing is an oracle `irq`: `irq(k)` is the event the k-th
 * `Radio.IrqProcess()` call of a send dispatches.  Time is an abstract
 * millisecond clock `now`; `tick(k)` is how long the k-th poll iteration
 * takes, at least the 10 ms of its `delay(10)`.
 */
module LoRa {
  import opened Config

  /** What one `Radio.IrqProcess()` call dispatches to the registered callbacks. */
  datatype RadioEvent = NoEvent | TxDone | TxTimeout

  /** A call into the radio driver, in the order it was made. */
  datatype RadioCall =
    | McuBegin
    | Init
    | SetChannel(hz: int)
    | SetTxConfig(power: int, fdev: int, bandwidth: int, datarate: int, coderate: int,
                  preambleLen: int, fixLen: bool, crcOn: bool, freqHopOn: bool,
                  hopPeriod: int, iqInverted: bool, timeoutMs: int)
    | Send(payload: seq<uint8>)
    | Sleep

  /** Polls never take less than the `delay(10)` they contain. */
  ghost predicate TicksAtLeast10(tick: nat -> nat)
  {
    forall k :: tick(k) >= 10
  }

  /** The time, from the start of the poll loop, at which poll `k` begins. */
  function PollStart(tick: nat -> nat, k: nat): nat
  {
    if k == 0 then 0 else PollStart(tick, k - 1) + tick(k - 1)
  }

  /** Later polls start at least 10 ms per intervening poll later. */
  lemma {:induction false} PollStartGrows(tick: nat -> nat, i: nat, j: nat)
    requires TicksAtLeast10(tick)
    requires i <= j
    ensures PollStart(tick, i) + 10 * (j - i) <= PollStart(tick, j)
    decreases j
  {
    if i < j {
      PollStartGrows(tick, i, j - 1);
    }
  }

  /** Only the first 500 polls can start before the deadline, so the wait loop ends. */
  lemma PollsBeforeDeadline(tick: nat -> nat, k: nat)
    requires TicksAtLeast10(tick)
    requires PollStart(tick, k) < 5000
    ensures k < 500
  {
    PollStartGrows(tick, 0, k);
  }

  /** None of the first `k` polls dispatched an event. */
  ghost predicate Quiet(irq: nat -> RadioEvent, k: nat)
  {
    k == 0 || (Quiet(irq, k - 1) && irq(k - 1) == NoEvent)
  }

  /** `Quiet` says what its name says: every one of the first `k` polls saw no event. */
  lemma {:induction false} QuietMeansNoEvent(irq: nat -> RadioEvent, k: nat)
    ensures Quiet(irq, k) <==> forall i: nat :: i < k ==> irq(i) == NoEvent
  {
    if k > 0 {
      QuietMeansNoEvent(irq, k - 1);
    }
  }

  /** The length `strlen` reports: the index of the first NUL. */
  function StrLen(s: seq<uint8>): (n: nat)
    requires 0 in s
    ensures n < |s| && s[n] == 0
    ensures forall i :: 0 <= i < n ==> s[i] != 0
  {
    if s[0] == 0 then 0
    else
      assert 0 in s[1..];
      1 + StrLen(s[1..])
  }

  /**
   * The length the radio is told: `strlen` passed as the driver's 8-bit
   * `size` argument, so it wraps modulo 256.
   */
  function SentLength(s: seq<uint8>): (n: nat)
    requires 0 in s
    ensures n < 256 && n <= StrLen(s)
    ensures n == StrLen(s) <==> StrLen(s) < 256
    ensures (StrLen(s) - n) % 256 == 0
  {
    StrLen(s) % 256
  }

  /** The radio state the firmware keeps, with the driver calls it made. */
  class LoRaManager {
    /** `lora_idle`: no transmission is in flight. */
    var idle: bool
    /** The `millis()` clock. */
    var now: nat
    var calls: seq<RadioCall>

    /** Program start: `lora_idle` is initialised to true. */
    constructor (clock: nat)
      ensures idle && now == clock && calls == []
    {
      idle, now, calls := true, clock, [];
    }

    /** The TX-done callback releases the flag. */
    method OnTxDone()
      modifies this`idle
      ensures idle
    {
      idle := true;
    }

    /** The TX-timeout callback puts the radio to sleep and releases the flag. */
    method OnTxTimeout()
      modifies this`idle, this`calls
      ensures idle
      ensures calls == old(calls) + [Sleep]
    {
      calls := calls + [Sleep];
      idle := true;
    }

    /** One `Radio.IrqProcess()`: runs the callback for the pending event, if any. */
    method IrqProcess(ev: RadioEvent)
      modifies this`idle, this`calls
      ensures idle == (old(idle) || ev != NoEvent)
      ensures calls == old(calls) + (if ev == TxTimeout then [Sleep] else [])
    {
      match ev {
        case NoEvent =>
        case TxDone => OnTxDone();
        case TxTimeout => OnTxTimeout();
      }
    }

    /** Board and radio bring-up with the configured channel and TX parameters; the flag is reset. */
    method InitLoRa()
      modifies this`idle, this`calls
      ensures idle
      ensures calls == old(calls) + [McuBegin, Init, SetChannel(RfFrequency),
                                     SetTxConfig(TxOutputPower, 0, LoRaBandwidth, LoRaSpreadingFactor,
                                                 LoRaCodingRate, LoRaPreambleLength, LoRaFixLengthPayloadOn,
                                                 true, false, 0, LoRaIqInversionOn, 3000)]
    {
      calls := calls + [McuBegin, Init, SetChannel(RfFrequency),
                        SetTxConfig(TxOutputPower, 0, LoRaBandwidth, LoRaSpreadingFactor,
                                    LoRaCodingRate, LoRaPreambleLength, LoRaFixLengthPayloadOn,
                                    true, false, 0, LoRaIqInversionOn, 3000)];
      idle := true;
    }

    /**
     * Sends the NUL-terminated bytes `data` and waits for the radio to
     * report the end of the transmission.  A busy radio is refused outright.
     * Otherwise one send is made of the bytes before the first NUL, cut to
     * the 8-bit length the driver takes, and the result is true exactly when
     * some poll that began before the 5000 ms deadline saw a callback fire
     * (TX done or TX timeout); the flag is released either way.
     */
    method SendLoRaPacket(data: seq<uint8>, irq: nat -> RadioEvent, tick: nat -> nat) returns (ok: bool)
      requires 0 in data
      requires TicksAtLeast10(tick)
      modifies this`idle, this`calls, this`now
      ensures !old(idle) ==> !ok && !idle && calls == old(calls) && now == old(now)
      ensures old(idle) ==> idle
      ensures old(idle) ==> (ok <==> exists j: nat :: PollStart(tick, j) < 5000 && irq(j) != NoEvent)
      ensures old(idle) && ok ==>
                exists j: nat :: PollStart(tick, j) < 5000 && irq(j) != NoEvent &&
                  (forall i: nat :: i < j ==> irq(i) == NoEvent) &&
                  now == old(now) + PollStart(tick, j + 1) &&
                  calls == old(calls) + [Send(data[..SentLength(data)])] + (if irq(j) == TxTimeout then [Sleep] else [])
      ensures old(idle) && !ok ==>
                exists k: nat :: 0 < k && PollStart(tick, k - 1) < 5000 <= PollStart(tick, k) &&
                  now == old(now) + PollStart(tick, k) &&
                  calls == old(calls) + [Send(data[..SentLength(data)])]
    {
      if !idle {
        return false;
      }
      idle := false;
      calls := calls + [Send(data[..SentLength(data)])];
      var k := PollUntilIdle(irq, tick);
      if !idle {
        QuietMeansNoEvent(irq, k);
        forall j: nat | PollStart(tick, j) < 5000 ensures irq(j) == NoEvent {
          if k <= j {
            PollStartGrows(tick, k, j);
          }
        }
        assert !exists j: nat :: PollStart(tick, j) < 5000 && irq(j) != NoEvent;
        idle := true;
        return false;
      }
      ghost var j: nat := k - 1;
      QuietMeansNoEvent(irq, j);
      assert PollStart(tick, j) < 5000 && irq(j) != NoEvent && PollStart(tick, j + 1) == PollStart(tick, k);
      return true;
    }

    /**
     * The wait loop of `sendLoRaPacket`: services the radio interrupt and
     * waits, while the flag is still clear and less than 5000 ms have passed
     * since the loop began.  `k` is the number of polls made.
     */
    method PollUntilIdle(irq: nat -> RadioEvent, tick: nat -> nat) returns (k: nat)
      requires TicksAtLeast10(tick)
      requires !idle
      modifies this`idle, this`calls, this`now
      ensures 0 < k <= 500 && now == old(now) + PollStart(tick, k) && PollStart(tick, k - 1) < 5000
      ensures !idle ==> 5000 <= PollStart(tick, k) && calls == old(calls) && Quiet(irq, k)
      ensures idle ==> irq(k - 1) != NoEvent && Quiet(irq, k - 1) &&
                       calls == old(calls) + (if irq(k - 1) == TxTimeout then [Sleep] else [])
    {
      var start := now;
      k := 0;
      while !idle && now - start < 5000
        invariant start <= now && now == start + PollStart(tick, k) && k <= 500
        invariant k > 0 ==> PollStart(tick, k - 1) < 5000
        invariant !idle ==> calls == old(calls) && Quiet(irq, k)
        invariant idle ==> 0 < k && irq(k - 1) != NoEvent && Quiet(irq, k - 1) &&
                           calls == old(calls) + (if irq(k - 1) == TxTimeout then [Sleep] else [])
        decreases 5000 - (now - start)
      {
        IrqProcess(irq(k));
        now := now + tick(k);
        PollsBeforeDeadline(tick, k);
        k := k + 1;
      }
    }
  }
}
