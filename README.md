# Sensing-node firmware core in Dafny

This project models the firmware of a battery-powered environmental sensing node. The node wakes, measures, encrypts its payload, sends it over LoRa and goes back to deep sleep. Five pieces carry its logic, and each is a Dafny module:

- **Crypter** (`crypter.dfy`, from `ESP32S3Crypter.cpp`) covers three things.
  - The device key is the first 16 bytes of SHA-256 over the Wi-Fi station MAC.
  - Encryption pads the payload up to a multiple of 16 bytes and sends `IV || AES-128-CBC(padded)`.
  - Decryption splits off the IV, decrypts, and subtracts the last plaintext byte from the length.

  AES-128 and SHA-256 are function parameters. The round-trip lemmas assume only that block decryption undoes block encryption under the same key. CBC follows section 6.2 of NIST SP 800-38A.
- **LoRa** (`lora.dfy`, from `lora_manager.h`) is the single-flight sender guarded by the `lora_idle` flag.
  - Two radio callbacks release the flag.
  - The radio bring-up resets it.
  - The send routine polls the radio's interrupt handler until the flag is released or 5000 ms have passed.
- **Power** (`power.dfy`, from `power_manager.h`) covers the external rail, peripheral power-off, pin retention before deep sleep, and the deep-sleep entry. That entry floats a fixed table of 14 pins and arms the wake timer with a value computed in 32-bit `int`.
- **Sds011** (`sds011.dfy`, from `SDS011Sensor.cpp`) covers the 10-byte frame recogniser and decoder of the SDS011 particulate sensor. It also covers the measurement routine, which warms up, drains, samples, powers off and averages.
- **Battery** (`battery.dfy`, from `BatteryMonitor.cpp` and `BatteryMonitor.h`) averages ADC samples, converts them to a battery voltage and maps that voltage to a percentage clamped to 0..100.
- **Config** (`config.dfy`) holds the board constants of `config.h`: pins, the LoRa radio parameters and `Vext` = 43. It also holds the GPIO vocabulary that the other modules share.

The model's state takes the source's own form:
- The crypter key is an `array`.
- `lora_idle`, the GPIO mode and level maps, the SDS011 receive queue and the battery monitor's fields are class fields that the methods update.
- The loops of `sendLoRaPacket`, `measure` and `update` are `while`/`for` loops with invariants.
- Each method is proved against a specification function: `EncryptMessage`, `ApplyModes`, `SampleReadings`, `Percentage`, `BatteryVoltage` and so on. The properties the firmware relies on are lemmas about those functions.

The Crypter `Encrypt`/`Decrypt` methods follow the code, not the design description. The design asks for unconditional PKCS#7 padding (1..16 bytes, a full block on aligned input) and a `PaddingError` on a bad pad byte. The code pads only up to the next multiple of 16 and subtracts the last byte unchecked. The corrected scheme is modelled beside it (`Pkcs7Pad`, `Pkcs7Unpad`, `EncryptFixed`, `DecryptFixed`); see Findings. In the same way, `SendLoRaPacket` returns the code's `bool` rather than the design's busy/timeout result values.

## Model

| member | source | states |
|---|---|---|
| Crypter.PaddedLen | ESP32S3Crypter.cpp:33 | the padded length is the least multiple of 16 at or above the input length |
| Crypter.PadCount | ESP32S3Crypter.cpp:33-36 | the pad count is 0..15, and it is 0 exactly when the input length is a multiple of 16 (empty input included) |
| Crypter.Pad | ESP32S3Crypter.cpp:33-36 | the padded buffer is the input followed by bytes that all equal the pad count, and its length is the padded length |
| Crypter.XorBlockCancel | ESP32S3Crypter.cpp:39 | xoring with the same block twice gives the block back (the chaining step of CBC) |
| Crypter.CbcEncrypt | ESP32S3Crypter.cpp:39 | CBC encryption chains each block through the previous ciphertext block and keeps the length of the block-aligned input |
| Crypter.CbcDecrypt | ESP32S3Crypter.cpp:58 | CBC decryption xors each decrypted block with the previous ciphertext block (the IV first) and keeps the length |
| Crypter.CbcEncryptBlock | ESP32S3Crypter.cpp:39 | ciphertext block i is E(P_i xor C_{i-1}), with C_{-1} the IV |
| Crypter.CbcRoundTrip | ESP32S3Crypter.cpp:39 | if D undoes E, CBC decryption under the same key and IV gives back the CBC-encrypted plaintext |
| Crypter.EncryptMessage | ESP32S3Crypter.cpp:28-41 | the message is 16 + padded-length bytes long, starts with the IV, and is at most 31 bytes longer than the payload |
| Crypter.DecryptedLength | ESP32S3Crypter.cpp:57-61 | the output length is the plaintext length minus its last byte when that fits; otherwise it wraps to a size_t above 2^32 - 256 |
| Crypter.WrapSizeT | ESP32S3Crypter.cpp:61 | a value within one modulus of the range reduces modulo 2^32 as unsigned subtraction does |
| Crypter.RoundTripUnaligned | ESP32S3Crypter.cpp:33-61 | for a payload whose length is not a multiple of 16, decryption recovers the padded buffer, the output length is the payload length, and the prefix is the payload |
| Crypter.RoundTripAligned | ESP32S3Crypter.cpp:33-61 | for a non-empty aligned payload, decryption returns the payload itself, but the output length is the payload length minus its own last byte |
| Crypter.EmptyPayloadIsBareIv | ESP32S3Crypter.cpp:33-41 | an empty payload is sent as the bare 16-byte IV |
| Crypter.AlignedRoundTripFails | ESP32S3Crypter.cpp:33-61 | sixteen bytes of 0x05 come back with output length 11: the round trip fails on aligned input |
| Crypter.Pkcs7Pad | ESP32S3Crypter.cpp:33-36 | corrected padding: 1..16 bytes, each equal to the pad count, up to the next multiple of 16 strictly above the length |
| Crypter.Pkcs7Unpad | ESP32S3Crypter.cpp:60-61 | corrected unpadding: it fails exactly when the last byte is 0, above 16 or above the length, and otherwise strips that many bytes |
| Crypter.EncryptFixed | ESP32S3Crypter.cpp:28-41 | the corrected message is 16 + (floor(len/16) + 1)·16 bytes and starts with the IV |
| Crypter.DecryptFixed | ESP32S3Crypter.cpp:47-61 | a successful corrected decryption is shorter than the ciphertext |
| Crypter.Pkcs7RoundTrip | ESP32S3Crypter.cpp:33-61 | the corrected codec round-trips every payload, aligned and empty ones included |
| Crypter.StoreBytes | ESP32S3Crypter.cpp:38 | `memcpy` into an array: the target range holds the bytes and the rest is unchanged |
| Crypter.CryptCbcEncrypt | ESP32S3Crypter.cpp:39 | `output[16..16 + padded_len)` becomes the CBC encryption of the padded buffer under the IV, and nothing else changes |
| Crypter.CryptCbcDecrypt | ESP32S3Crypter.cpp:58 | a length that is not a multiple of 16 is refused with the output untouched; otherwise the output prefix is the CBC decryption |
| Crypter.ESP32S3Crypter.constructor | ESP32S3Crypter.cpp:19-21 | construction derives the key at once: the key is the first 16 bytes of SHA-256 of the MAC |
| Crypter.ESP32S3Crypter.GenerateKeyFromMac | ESP32S3Crypter.cpp:3-17 | the key array holds the first 16 bytes of SHA-256 over the 6 MAC bytes |
| Crypter.ESP32S3Crypter.PadInput | ESP32S3Crypter.cpp:33-36 | the fresh padded buffer equals `Pad` of the input prefix |
| Crypter.ESP32S3Crypter.Encrypt | ESP32S3Crypter.cpp:23-45 | `*output_len` is padded_len + 16, the output prefix is `EncryptMessage` of the input with the drawn IV, and the bytes beyond it are unchanged |
| Crypter.ESP32S3Crypter.Decrypt | ESP32S3Crypter.cpp:47-64 | the output is the CBC decryption of `input[16..)` under `input[0..16)` (untouched when the length is not aligned), and `*output_len` is `DecryptedLength` of it |
| Power.SleepPinTableShape | power_manager.h:55-68 | the sleep table has 14 distinct pins: 14 and 8 are pulled up, 37, 9, 11, 12, 10, 41, 42, 39, 38, 40, 4 and 5 are inputs, and neither Vext nor the SDS011 power pin is among them |
| Power.ToInt32 | power_manager.h:71 | two's-complement truncation agrees with the true value modulo 2^32 and is the value itself when it fits |
| Power.WakeTimerArgument | power_manager.h:71 | the timer argument is below 2^64, and it equals sleepSeconds · 10^6 exactly when 0 <= sleepSeconds <= 2147 |
| Power.WakeTimerInRange | power_manager.h:71 | the 32-bit product converted to uint64 equals the true product exactly for 0..2147 seconds |
| Power.ConfiguredSleepIsExact | config.h:12 | the configured `TIME_TO_SLEEP` of 5 s arms the timer with exactly 5 000 000 µs |
| Power.LastModeInSpec | power_manager.h:48-74 | `LastModeIn` is None exactly when no `pinMode` call names the pin, and otherwise names a call for it that no later call overrides |
| Power.ApplyModes | power_manager.h:19-68 | replaying calls never removes a configured pin, and calls without a `pinMode` leave the mode map as it was |
| Power.LastModeInAppend | power_manager.h:48-74 | in a concatenation, the last call for a pin is in the suffix when the suffix has one |
| Power.ApplyModesAppend | power_manager.h:48-74 | replaying two runs of calls in turn is replaying their concatenation |
| Power.ApplyModesLastWins | power_manager.h:48-74 | after a run of calls, a pin's mode is the one its last `pinMode` call gave, or its old mode if no call named it |
| Power.SleepTableModes | power_manager.h:55-68 | the sleep table's last call for each pin gives exactly the mode the table lists |
| Power.RadioSleepReplay | power_manager.h:55-61 | the first seven table calls are the seven map updates in program order |
| Power.BusSleepReplay | power_manager.h:62-68 | the last seven table calls are the seven map updates in program order |
| Power.GoToSleepSteps | power_manager.h:48-74 | the order is radio sleep, then Vext off, then the 14 table calls, then the timer, with deep-sleep start last and nowhere before |
| Power.GoToSleepReplay | power_manager.h:49-68 | of `goToSleep`'s calls, only the Vext `pinMode` and the table change pin modes |
| Power.GoToSleepModes | power_manager.h:48-74 | after `goToSleep` every table pin has its sleep mode, Vext stays an output, and every other pin keeps its mode |
| Power.Hardware.VextOn | power_manager.h:18-21 | Vext becomes an output driven LOW (the rail is active-low), and nothing else changes |
| Power.Hardware.VextOff | power_manager.h:24-27 | Vext becomes an output driven HIGH, and nothing else changes |
| Power.Hardware.PowerOff | power_manager.h:30-33 | the pin becomes an output driven LOW |
| Power.Hardware.PrepareDeepSleep | power_manager.h:36-45 | in source order: Vext off, the peripheral pin an output driven LOW, radio asleep, SPI ended, the pin held and the deep-sleep hold on; exactly that pin joins the held set, and Vext stays HIGH when it is a different pin |
| Power.Hardware.GoToSleep | power_manager.h:48-74 | the mode map is the replay of `GoToSleepSteps`, Vext is driven HIGH, the timer holds `WakeTimerArgument`, the node sleeps, and the trace is exactly those steps |
| Power.Hardware.EnterSleep | power_manager.h:49-51 | radio asleep, a 100 ms wait, then Vext off |
| Power.Hardware.ArmAndSleep | power_manager.h:71-73 | the wake timer is armed, then deep sleep starts |
| Power.Hardware.FloatSleepPins | power_manager.h:55-68 | the mode map is the replay of the 14-entry table, and the trace grows by the table |
| Power.Hardware.FloatRadioPins | power_manager.h:55-61 | the first seven table pins get their modes in order |
| Power.Hardware.FloatBusPins | power_manager.h:62-68 | the last seven table pins get their modes in order |
| LoRa.PollStartGrows | lora_manager.h:63-66 | each poll takes at least 10 ms, so later polls start at least 10 ms per intervening poll later |
| LoRa.PollsBeforeDeadline | lora_manager.h:63-66 | only the first 500 polls can begin before 5000 ms, so the wait loop terminates |
| LoRa.QuietMeansNoEvent | lora_manager.h:63-66 | the loop's quiet-so-far predicate holds exactly when none of the first k polls dispatched an event |
| LoRa.StrLen | lora_manager.h:59 | `strlen` is the index of the first NUL |
| LoRa.SentLength | lora_manager.h:59 | the length the radio is told is `strlen` modulo 256: below 256, at most `strlen`, and equal to it exactly when `strlen` is below 256 |
| LoRa.LoRaManager.constructor | lora_manager.h:16 | `lora_idle` starts true |
| LoRa.LoRaManager.OnTxDone | lora_manager.h:20-23 | the TX-done callback sets the flag to true |
| LoRa.LoRaManager.OnTxTimeout | lora_manager.h:25-29 | the TX-timeout callback puts the radio to sleep and sets the flag to true |
| LoRa.LoRaManager.IrqProcess | lora_manager.h:64 | servicing the interrupt only ever sets the flag, and a TX timeout adds a radio sleep |
| LoRa.LoRaManager.InitLoRa | lora_manager.h:32-49 | board and radio bring-up with the configured channel and TX parameters, then the flag is reset to true |
| LoRa.LoRaManager.SendLoRaPacket | lora_manager.h:52-76 | when busy it returns false with nothing sent or changed; otherwise it makes exactly one send, of the bytes before the first NUL cut to the driver's 8-bit length (`strlen` mod 256), ends idle, and returns true iff some poll that began before 5000 ms saw a callback (TX timeout included); the time and calls of both exits are spelled out |
| LoRa.LoRaManager.PollUntilIdle | lora_manager.h:62-66 | the wait loop makes 1..500 polls, all begun before the deadline, and stops at the first callback or the deadline |
| Sds011.Tenths | SDS011Sensor.cpp:29-30 | a little-endian 16-bit count of tenths, as a value in 0..6553.5 |
| Sds011.DecodeFrame | SDS011Sensor.cpp:27-30 | a frame is accepted iff byte 0 is AA, byte 1 is C0 and byte 9 is AB, and its values lie within 0..6553.5 |
| Sds011.EncodeFrame | SDS011Sensor.cpp:27-30 | a frame as the sensor sends it carries the header and tail the decoder looks for |
| Sds011.DecodeEncode | SDS011Sensor.cpp:27-30 | decoding a sensor frame gives back its two tenths values, whatever the id and checksum |
| Sds011.DecodeIgnoresChecksum | SDS011Sensor.cpp:27 | frames that differ only in bytes 6 to 8 decode alike: the checksum is never checked |
| Sds011.TotalsSnoc | SDS011Sensor.cpp:60-61 | adding a reading adds its values to the running totals |
| Sds011.SumBounds | SDS011Sensor.cpp:71-73 | a sum of values in [lo, hi] lies between n·lo and n·hi |
| Sds011.MeanBounds | SDS011Sensor.cpp:71-73 | the mean of values in [lo, hi] lies in [lo, hi] |
| Sds011.Accepted | SDS011Sensor.cpp:22-35 | one `readSensor` yields a reading exactly when ten bytes are queued and they form an accepted frame |
| Sds011.AfterRead | SDS011Sensor.cpp:23-24 | one `readSensor` consumes ten bytes when ten are queued, even for a rejected frame, and nothing otherwise |
| Sds011.SampleReadings | SDS011Sensor.cpp:57-65 | the readings of the remaining polls, in order: at most one per poll |
| Sds011.QueueAfter | SDS011Sensor.cpp:57-65 | each remaining poll drops ten bytes when ten are queued, then appends that poll's arrivals, so the final queue ends with the last poll's arrivals |
| Sds011.BufferAfter | SDS011Sensor.cpp:57-65 | `_buffer` after the remaining polls holds the last ten bytes a poll read, and keeps its ten-byte size |
| Sds011.ProgressStep | SDS011Sensor.cpp:57-65 | one poll keeps the loop's progress: readings taken plus readings to come, the final queue and the final buffer stay those of the whole period |
| Sds011.ReadingMeansInRange | SDS011Sensor.cpp:71-75 | averages of frame readings are within the frame range |
| Sds011.SampleAdvance | SDS011Sensor.cpp:57-65 | one poll moves its accepted reading, if any, from the readings still to come to the readings taken |
| Sds011.SampleReadingsInRange | SDS011Sensor.cpp:57-65 | every reading of a sampling period is within the frame range |
| Sds011.Polls | SDS011Sensor.cpp:57-65 | the sampling loop makes ceil(ms / 100) polls of 100 ms |
| Sds011.Sds011Sensor.constructor | SDS011Sensor.cpp:4-6 | the pins are stored as given, nothing is configured, and no level has been written to the power pin |
| Sds011.Sds011Sensor.Begin | SDS011Sensor.cpp:8-12 | the UART opens at 9600 baud and the power pin is an output driven LOW, one write: the sensor starts off |
| Sds011.Sds011Sensor.PowerOn | SDS011Sensor.cpp:14-16 | the power pin is driven HIGH, and that write is appended to its history |
| Sds011.Sds011Sensor.PowerOff | SDS011Sensor.cpp:18-20 | the power pin is driven LOW, and that write is appended to its history |
| Sds011.Sds011Sensor.ReadSensor | SDS011Sensor.cpp:22-35 | the queue loses ten bytes when ten were there, and is untouched otherwise; the result is the accepted frame's reading, if any; the outputs are written only on acceptance |
| Sds011.Sds011Sensor.ReadBytes | SDS011Sensor.cpp:24 | the buffer holds the first ten queued bytes, and they leave the queue |
| Sds011.Sds011Sensor.Measure | SDS011Sensor.cpp:37-78 | the power pin gets exactly HIGH then LOW, and sampling runs while it is HIGH; the result is true iff the sampling period yields a reading, and then the outputs are the means of the readings, within 0..6553.5; otherwise the outputs keep their old values; time, final queue and `_buffer` are those the period leaves; the durations default to 10000 and 5000 ms |
| Sds011.Sds011Sensor.Sample | SDS011Sensor.cpp:52-65 | run with the sensor on, the loop's count and totals are those of exactly the readings the sampling period yields, and the queue and `_buffer` end as `QueueAfter` and `BufferAfter` say |
| Sds011.Sds011Sensor.Poll | SDS011Sensor.cpp:58-64 | one iteration reads a frame (ten bytes leave the queue into `_buffer` when ten are there), adds an accepted reading to the totals, appends the bytes that arrive to the queue, and takes 100 ms |
| Battery.Trunc | BatteryMonitor.cpp:60 | C's float-to-int conversion truncates toward zero |
| Battery.Percentage | BatteryMonitor.cpp:55-61 | the percentage is 0..100: 100 at or above max, 0 at or below min (below max), and otherwise the truncated interpolation, which is below 100 |
| Battery.InterpolationBelow100 | BatteryMonitor.cpp:60 | strictly between the thresholds, the interpolation lies strictly between 0 and 100 |
| Battery.PercentageMonotone | BatteryMonitor.cpp:55-61 | for fixed thresholds, a higher voltage never gives a lower percentage |
| Battery.SumOfBounds | BatteryMonitor.cpp:39-42 | a sum of n readings in 0..4095 lies in 0..n·4095 |
| Battery.SampleSumFitsLong | BatteryMonitor.cpp:30-42 | with at most 255 samples the sum fits in a 32-bit `long` |
| Battery.BatteryVoltage | BatteryMonitor.cpp:47-52 | no signal reads as 0 V, and a full-scale average (4095) reads as vRef · dividerRatio |
| Battery.Sampling | BatteryMonitor.cpp:39-42 | the loop's calls are, for each sample in order, its `analogRead` followed by a 5 ms wait |
| Battery.VoltageBounds | BatteryMonitor.cpp:47-52 | with readings in 0..4095 and non-negative calibration, the voltage lies in [0, vRef · dividerRatio] |
| Battery.AverageBounds | BatteryMonitor.cpp:47 | the average of readings in 0..4095 is in 0..4095 |
| Battery.ScaleBounds | BatteryMonitor.cpp:52 | scaling an average by k / 4095 gives a value in 0..k |
| Battery.BatteryMonitor.constructor | BatteryMonitor.cpp:5-16 | every parameter is stored unchanged (defaults 1, 37, 3.3, 2.74, 10, 4.2, 3.3), and voltage and percentage start at 0 |
| Battery.BatteryMonitor.Begin | BatteryMonitor.cpp:18-21 | the control pin becomes an output driven HIGH: no measurement current |
| Battery.BatteryMonitor.Update | BatteryMonitor.cpp:29-62 | exactly numSamples readings are taken with the control pin LOW, which goes HIGH afterwards; the voltage is the scaled average, within [0, vRef · dividerRatio]; the percentage is `Percentage` of it |
| Battery.BatteryMonitor.ReadSamples | BatteryMonitor.cpp:39-42 | the loop sums exactly the given readings and makes exactly the calls of `Sampling` |
| Battery.BatteryMonitor.GetVoltage | BatteryMonitor.h:42 | returns the stored voltage and changes nothing |
| Battery.BatteryMonitor.GetPercentage | BatteryMonitor.h:43 | returns the stored percentage and changes nothing |
| Battery.BatteryMonitor.SetMaxVoltage | BatteryMonitor.h:46 | changes only the upper threshold and does not recompute the result |
| Battery.BatteryMonitor.SetMinVoltage | BatteryMonitor.h:47 | changes only the lower threshold and does not recompute the result |
| Battery.BatteryMonitor.SetDividerRatio | BatteryMonitor.h:48 | changes only the divider ratio and does not recompute the result |

## Left out

- AES-128, SHA-256, `esp_fill_random` and `esp_read_mac` are parameters: the block cipher pair, the digest function, the drawn IV and the MAC. The round trips assume only that decryption inverts encryption. IV freshness is probabilistic and is not modelled.
- mbedtls context setup and teardown (`mbedtls_aes_init`, `setkey`, `free`, `mbedtls_md_*`) is not modelled. The key schedule is part of the cipher parameter.
- Crypter.CryptCbcEncrypt: models `mbedtls_aes_crypt_cbc` by what it computes. It does not model the library's in-place update of the IV buffer, which the callers never read again.
- Crypter.ESP32S3Crypter.Encrypt: requires the output buffer to hold padded_len + 16 bytes and the lengths to stay below 2^32. The source writes past a smaller buffer unchecked.
- Crypter.ESP32S3Crypter.Decrypt: requires more than 16 input bytes, because the source reads `output[-1]` at exactly 16. It also requires an output buffer of ciphertext_len bytes that does not alias the input.
- LoRa: `Radio.IrqProcess` is an oracle `irq(k)`, the event that the k-th poll dispatches. The interrupt context is not modelled as concurrent code.
- LoRa.LoRaManager.SendLoRaPacket: `millis()` is an unbounded abstract clock, and poll k takes `tick(k)` ms, at least the 10 ms of its `delay(10)`. The 49-day wrap of `unsigned long` is not modelled; the source's unsigned subtraction is immune to it. The payload is a byte string that must contain a NUL, as a C string does. The radio driver (`radio.h`) is not part of this model; its `Send` takes a `uint8_t` size, so the recorded send carries `strlen` modulo 256 bytes.
- LoRa: `Mcu.begin`, the radio driver's internals and the `MODEM_LORA` argument are recorded only as calls. Callback registration is implicit in `IrqProcess`.
- Sds011: the UART receive queue is a sequence. The bytes that arrive during the k-th 100 ms wait of a measurement are an oracle `arrivals(k)`. No bytes arrive while frames are read or while the queue is drained, so the drain and each `readSensor` take no time.
- Sds011.Sds011Sensor.Measure: `warmupTime` and `sampleTime` are converted to `unsigned long` modulo 2^32. The clock itself does not wrap.
- Sds011: `getJSON` (ArduinoJson and `String` formatting) is not modelled.
- Floating point is modelled over the reals in Sds011 and Battery. IEEE-754 rounding, infinities and NaN are not modelled.
- Battery.BatteryMonitor.Update: requires `numSamples >= 1`. With 0 samples the sum is 0 too, so the source computes `0 / 0.0f`, a NaN voltage. Both threshold comparisons are then false, and the percentage comes from `int(NaN)`, which is undefined behaviour. The real-number model cannot represent either. Readings are inputs in 0..4095.
- Battery.BatteryMonitor.Begin: only the control-pin writes are modelled. `adcAttachPin`, the attenuation and the ADC resolution setup are hardware configuration with no recorded state.
- Power: `gpio_hold_en`, the deep-sleep hold, the timer and `esp_deep_sleep_start` are recorded state only. Their electrical effect and the restart on wake are not modelled.
- Power.WakeTimerArgument: `sleepSeconds * 1000000` overflowing `int` is undefined behaviour in C++. The model assumes the two's-complement wrap the compiler produces on this target.
- Serial logging (`Serial.print*`, `Serial.flush`) throughout is not modelled.

## Findings

| source | as written | input that shows it | evidently intended | confidence | as-written member | corrected member |
|---|---|---|---|---|---|---|
| ESP32S3Crypter.cpp:33-61 | padding rounds up to the next multiple of 16, so aligned input gets no pad, and decrypt still subtracts the last plaintext byte as a pad count | a 16-byte payload of 0x05 decrypts to output length 11 instead of 16; an empty payload becomes a bare 16-byte IV that decrypt cannot accept | PKCS#7 padding of 1..16 bytes (section 6.3 of RFC 5652) with a checked unpad, so every payload round-trips | not executed | Crypter.AlignedRoundTripFails | Crypter.Pkcs7RoundTrip |
