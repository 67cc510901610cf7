# DS4 motion-sensor calibration and sixaxis processing

A Dafny model of the motion-sensor path of DS4Windows' controller library.

- **`DS4Cal`** reads a DualShock 4 factory calibration report. It derives a bias and multiplier for each of the six motion axes: gyro pitch, yaw and roll, and accelerometer X, Y and Z.
- **`DS4Cal.ApplyCalToInReport`** applies those six calibrations in place to the six motion fields of an input report.
- **`DS4SixAxis`** does the per-report work:
  - it turns the controller's wrapping 16-bit tick into a microsecond timestamp;
  - it calibrates the report when a calibration is set;
  - it decodes the six readings;
  - it replaces its current `SixAxis` sample with a new one that remembers a copy of the old.

Files:

- `wire.dfy` (module `Wire`) holds the integer building blocks:
  - the C# `short`/`ushort` casts;
  - little-endian 16-bit fields in byte buffers;
  - C# truncating division;
  - `Math.Round`'s round-half-to-even on exact rationals.
- `calibration.dfy` (module `Calibration`) holds:
  - `CalValue` and its saturating `Apply`;
  - the two calibration-report layouts and their decoder and encoder;
  - the derivation of the six calibrations;
  - the class `DS4Cal`, with its constructor and `ApplyCalToInReport`.
  
  The calibration loop is specified by a recursive function `Passes` over the buffer and the two value arrays. The method's loop invariant is one equation with it, and the lemmas `Passes*` state what the passes do.
- `sixaxis.dfy` (module `SixAxisProcessing`) holds:
  - the `SixAxis` sample and its constructor;
  - tick unwrapping and the timestamp timeline;
  - axis decoding;
  - the specification function `Handle` of one report;
  - the class `DS4SixAxis`, with `SetCalibrationData` and `HandleSixaxis`.
  
  `HandleSixaxis` is proved equal to `Handle` on its whole new state. The properties of one call are lemmas about `Handle`. The class invariant `Valid` is the predicate `Coherent`, which `HandleCoherent` shows is preserved.

Modelling decisions:

- **The multiplier.** `CalValue.mult` is a `double` in the source. Here it is kept as the exact rational `multNum / multDen` of the two integers the constructor divides. `Math.Round` of the scaled value is the nearest integer to that rational, ties to even.
- **Exceptions.** An index outside a buffer throws `IndexOutOfRangeException` in the source. Here each such method returns `ok == false`, and the state is what the source has written before the throw:
  - `ApplyCalToInReport` leaves the fields before the first out-of-range index rewritten;
  - `HandleSixaxis` has already stored the new tick by then.
- **Float samples.** The readings in a `SixAxis` are `float`s in the source, `count / 16` deg/s and `count / 8192` g. Both are exact in single precision for 16-bit counts. The model therefore keeps the counts, and the fake values (`Math.Round` of the rescaled floats) are the exact roundings `count / 256` and `count / 64`.
- **The `ulong` timestamp.** `timestampUs` wraps modulo 2^64, as an unchecked `ulong` addition does.
- **Accelerometer bias.** It uses C#'s truncating `/ 2`, so an odd negative range rounds toward zero.
- **The Y and Z biases.** The Y bias is computed from the Z shorts, because the second assignment at `DS4Cal.cs:100` targets `_calY`. The Z bias stays 0. The model keeps both as written.
- **Zero ranges.** A zero measured range gives an infinite or NaN multiplier. The model requires non-zero ranges (`NonDegenerate`) wherever a calibration is applied.

## Model

| member | source | states |
|---|---|---|
| Wire.ToInt16 | DS4Windows/DS4Library/DS4Cal.cs:42 | the `(short)` cast is the 16-bit value congruent to its argument mod 2^16 and the identity on values in range |
| Wire.ToUInt16 | DS4Windows/DS4Library/DS4Sixaxis.cs:89-91 | the `(ushort)` cast is congruent mod 2^16 and the identity on values in range |
| Wire.ReadInt16Cast | DS4Windows/DS4Library/DS4Cal.cs:112 | reading a signed short is the `(short)` cast of the unsigned little-endian value |
| Wire.EncodeThenRead | DS4Windows/DS4Library/DS4Cal.cs:130-131 | the two bytes written for a short read back as that short |
| Wire.ReadThenEncode | DS4Windows/DS4Library/DS4Cal.cs:112-131 | encoding the short read at `i` reproduces bytes `i` and `i + 1` |
| Wire.WriteInt16 | DS4Windows/DS4Library/DS4Cal.cs:130-131 | writing a short changes only its two bytes and the field then reads back as the value |
| Wire.WriteKeepsOtherField | DS4Windows/DS4Library/DS4Cal.cs:130-131 | writing one field leaves every non-overlapping field's value unchanged |
| Wire.TruncDiv | DS4Windows/DS4Library/DS4Cal.cs:94 | C# `/` truncates: the remainder is smaller than the divisor in magnitude and has the dividend's sign |
| Wire.RoundHalfEven | DS4Windows/DS4Library/DS4Cal.cs:19 | `Math.Round` of `n / d`, `d > 0`, is within half of `n / d` and even on a tie |
| Wire.RoundHalfEvenUnique | DS4Windows/DS4Library/DS4Cal.cs:19 | those two properties determine the rounded value uniquely |
| Wire.RoundRatio | DS4Windows/DS4Library/DS4Cal.cs:19 | nearest integer to `n / d` for a denominator of either sign, even on a tie |
| Wire.RoundRatioUnique | DS4Windows/DS4Library/DS4Cal.cs:19 | the nearest-integer and tie-to-even properties determine `RoundRatio` |
| Wire.RoundRatioMonotone | DS4Windows/DS4Library/DS4Cal.cs:19 | rounding is monotone in the ratio for either sign of denominator |
| Wire.RoundHalfEvenMonotone | DS4Windows/DS4Library/DS4Cal.cs:19 | rounding `n / d` is monotone in `n` |
| Wire.RoundHalfEvenNeg | DS4Windows/DS4Library/DS4Sixaxis.cs:46 | rounding to even is symmetric: rounding `-n / d` gives minus the rounding of `n / d` |
| Calibration.Scaled | DS4Windows/DS4Library/DS4Cal.cs:17-19 | the rounded scaled value is the integer nearest `(in - bias) * mult`, ties to even |
| Calibration.Clamp16 | DS4Windows/DS4Library/DS4Cal.cs:20-25 | identity on shorts; the result is `short.MaxValue`/`MinValue` exactly when the input is at or beyond that end |
| Calibration.ApplySaturates | DS4Windows/DS4Library/DS4Cal.cs:15-26 | `apply` returns the rounded value when it fits a short and saturates at the nearer end otherwise, in both directions |
| Calibration.ScaledMonotone | DS4Windows/DS4Library/DS4Cal.cs:17-19 | with a non-negative multiplier, the rounded scaled value is monotone in the reading |
| Calibration.ApplyMonotone | DS4Windows/DS4Library/DS4Cal.cs:15-26 | with a non-negative multiplier, calibration preserves the order of readings |
| Calibration.ApplyAtDenominator | DS4Windows/DS4Library/DS4Cal.cs:15-26 | a reading one denominator above the bias calibrates to the saturated numerator |
| Calibration.ApplyAsWritten | DS4Windows/DS4Library/DS4Cal.cs:19 | as written, a rounded value above or below the int range (or a zero range) converts to `int.MinValue` and yields `short.MinValue`; within it, equals `Apply` |
| Calibration.AsWrittenOverflowFlipsSign | DS4Windows/DS4Library/DS4Cal.cs:19-23 | a concrete calibration where the as-written conversion turns a full positive reading into `short.MinValue` while `Apply` gives `short.MaxValue` |
| Calibration.ReadFieldsAt | DS4Windows/DS4Library/DS4Cal.cs:41-87 | the k-th short read in sequence is the one at bytes 2k, 2k+1 |
| Calibration.ReadEncodedFields | DS4Windows/DS4Library/DS4Cal.cs:41-87 | reading back encoded shorts gives the shorts |
| Calibration.EncodeReadFields | DS4Windows/DS4Library/DS4Cal.cs:41-87 | encoding the shorts read from bytes gives the bytes |
| Calibration.LayoutUnlayout | DS4Windows/DS4Library/DS4Cal.cs:47-67 | naming 17 shorts under a layout and laying them out again is the identity |
| Calibration.UnlayoutLayout | DS4Windows/DS4Library/DS4Cal.cs:47-67 | laying out named shorts and naming them again is the identity, in both layouts |
| Calibration.DecodeEncodeRaw | DS4Windows/DS4Library/DS4Cal.cs:39-87 | decoding a report encoded from raw shorts under any report id gives those shorts |
| Calibration.EncodeDecodeRaw | DS4Windows/DS4Library/DS4Cal.cs:39-87 | re-encoding a decoded report under its own id reproduces its first 35 bytes |
| Calibration.LayoutIndependent | DS4Windows/DS4Library/DS4Cal.cs:39-102 | the same physical shorts give the same calibration in the Bluetooth (id 5) and USB layouts |
| Calibration.DecodeRawOffsets | DS4Windows/DS4Library/DS4Cal.cs:41-87 | each decoded short is the one at its byte offset 1, 3, ..., 33, the gyro range offsets depending on the layout |
| Calibration.DecodeRawFromOffsets | DS4Windows/DS4Library/DS4Cal.cs:41-87 | conversely, shorts at those offsets are the decoded ones |
| Calibration.GyroRangeLayout | DS4Windows/DS4Library/DS4Cal.cs:47-67 | Bluetooth: positive triple then negative triple; USB: positive/negative interleaved per axis |
| Calibration.ReportFieldAt | DS4Windows/DS4Library/DS4Cal.cs:41-87 | field k of the report is the short at byte 1 + 2k |
| Calibration.ParseCalPrefix | DS4Windows/DS4Library/DS4Cal.cs:41-87 | only the first 35 bytes of the report affect the calibration |
| Calibration.GyroCalibration | DS4Windows/DS4Library/DS4Cal.cs:42-76 | gyro bias is the raw bias, mult `(pos_scale + neg_scale) * 16 / (pos - neg)`, and a reading one span above the bias calibrates to the numerator |
| Calibration.AccelBiasFits | DS4Windows/DS4Library/DS4Cal.cs:94 | `pos - trunc((pos - neg) / 2)` always fits a short, so the cast never wraps |
| Calibration.AccelXCalibration | DS4Windows/DS4Library/DS4Cal.cs:78-95 | X bias `pos - trunc(range / 2)`, mult `16384 / range`; with an even range the ±1 g readings calibrate to ±8192 |
| Calibration.AccelYZAsWritten | DS4Windows/DS4Library/DS4Cal.cs:97-101 | the Y bias is the Z-derived value, the Z bias is 0, each multiplier comes from its own range |
| Calibration.BluetoothExample | DS4Windows/DS4Library/DS4Cal.cs:37-102 | a symmetric Bluetooth report gives gyro `0 + 32/200` and accel `0 + 16384/16384` on every axis |
| Calibration.PassesNext | DS4Windows/DS4Library/DS4Cal.cs:110-132 | one more pass of the loop is one more step of the pass function |
| Calibration.PassesFrame | DS4Windows/DS4Library/DS4Cal.cs:104-132 | no byte outside the fields visited so far changes |
| Calibration.PassesRecorded | DS4Windows/DS4Library/DS4Cal.cs:112-113 | `prevVals[k]` is the original reading of field k; entries not reached are 0 |
| Calibration.PassesCalibrated | DS4Windows/DS4Library/DS4Cal.cs:115-128 | `currVals[k]` is axis k's `apply` of `prevVals[k]`; entries not reached are 0 |
| Calibration.PassesWrittenBack | DS4Windows/DS4Library/DS4Cal.cs:128-131 | each visited field reads back as its `currVals` entry |
| Calibration.PassesComplete | DS4Windows/DS4Library/DS4Cal.cs:108-113 | after six passes `prevVals` is the six raw readings |
| Calibration.FieldsDone | DS4Windows/DS4Library/DS4Cal.cs:110-112 | the number of fields completed before the first index outside the buffer |
| Calibration.ReadAxes | DS4Windows/DS4Library/DS4Cal.cs:112 | the six raw readings at the motion offset |
| Calibration.DS4Cal.constructor | DS4Windows/DS4Library/DS4Cal.cs:37-102 | the stored calibrations are those `ParseCal` derives from the report |
| Calibration.DS4Cal.ApplyCalToInReport | DS4Windows/DS4Library/DS4Cal.cs:104-135 | success exactly when all six fields fit; the buffer and the two arrays are those the passes produce; the calibration is unchanged |
| Calibration.CalibratePass | DS4Windows/DS4Library/DS4Cal.cs:112-131 | one loop body: read, record, calibrate, record, write back |
| Calibration.ReadShort | DS4Windows/DS4Library/DS4Cal.cs:112 | the short read is the one whose little-endian encoding is the two bytes at `idx` |
| Calibration.WriteShort | DS4Windows/DS4Library/DS4Cal.cs:130-131 | the buffer with the short written little-endian at `idx` |
| Calibration.AssembleCal | DS4Windows/DS4Library/DS4Cal.cs:72-101 | the constructor's field-by-field assignments, including the overwritten Y bias, produce `Derive(raw)` |
| Calibration.ReadRawCal | DS4Windows/DS4Library/DS4Cal.cs:39-87 | reading the 17 shorts with an advancing cursor gives the layout-aware decoding |
| SixAxisProcessing.NewSixAxisFields | DS4Windows/DS4Library/DS4Sixaxis.cs:32-56 | the constructor keeps timestamp, readings and previous; fake values are the nearest integers, even on a tie, the Z one negated; output accelerations equal the fake ones |
| SixAxisProcessing.FakeRanges | DS4Windows/DS4Library/DS4Sixaxis.cs:43-55 | for 16-bit readings fake accelerations lie in [-512, 512] and fake gyro values in [-128, 128] |
| SixAxisProcessing.FakeAccelOneG | DS4Windows/DS4Library/DS4Sixaxis.cs:44-46 | a reading of ±1 g has fake acceleration ±128 |
| SixAxisProcessing.SnapshotKeeps | DS4Windows/DS4Library/DS4Sixaxis.cs:139-140 | the copy kept as `previous` has the old timestamp and readings and no history |
| SixAxisProcessing.DeltaModular | DS4Windows/DS4Library/DS4Sixaxis.cs:87-91 | both delta branches compute `(tick - prev) mod 65536` |
| SixAxisProcessing.DeltaBranches | DS4Windows/DS4Library/DS4Sixaxis.cs:87-91 | without a wrap the delta is `tick - prev`, with one it is `65536 - prev + tick` |
| SixAxisProcessing.DeltaWrapExample | DS4Windows/DS4Library/DS4Sixaxis.cs:87-91 | previous tick 65530 and tick 5 give a delta of 11 |
| SixAxisProcessing.StepUs | DS4Windows/DS4Library/DS4Sixaxis.cs:84-93 | `d * 16 / 3` truncated, at most 349520 |
| SixAxisProcessing.TimestampMonotone | DS4Windows/DS4Library/DS4Sixaxis.cs:93 | away from the `ulong` limit a later timestamp is the old one plus the step, never smaller, at most one maximal step larger |
| SixAxisProcessing.TimelineMonotone | DS4Windows/DS4Library/DS4Sixaxis.cs:83-95 | over a run of reports below the `ulong` limit the timestamps never decrease and grow by at most one maximal step per report |
| SixAxisProcessing.TimelineFromStart | DS4Windows/DS4Library/DS4Sixaxis.cs:73-95 | from a new processor's state (no tick seen, timestamp 0) a run below the `ulong` limit never decreases and the i-th timestamp is at most i + 1 maximal steps |
| SixAxisProcessing.TimelinePerStepExample | DS4Windows/DS4Library/DS4Sixaxis.cs:93 | truncation applies per step: ticks 1, 2, 3 give 5, 10, 15 µs, not 16 at the third |
| SixAxisProcessing.NegatedField | DS4Windows/DS4Library/DS4Sixaxis.cs:125-129 | `(short)-` of the unsigned field is the 16-bit negation of the signed one; -32768 stays -32768 |
| SixAxisProcessing.DecodeAxesSigned | DS4Windows/DS4Library/DS4Sixaxis.cs:124-129 | pitch is the signed field at 13; yaw, roll and the accelerations the 16-bit negations of the fields at 15..23 |
| SixAxisProcessing.HandleOutcome | DS4Windows/DS4Library/DS4Sixaxis.cs:79-129 | the call succeeds exactly on reports of at least 25 bytes; a failure keeps the sample, a report too short for the tick changes nothing, any other stores its tick |
| SixAxisProcessing.HandleReport | DS4Windows/DS4Library/DS4Sixaxis.cs:97-99 | the report is untouched without a calibration, and with one no byte outside the motion fields changes |
| SixAxisProcessing.CalibratedFields | DS4Windows/DS4Library/DS4Sixaxis.cs:97-99 | each motion field of a calibrated report reads back as its axis's `apply` of the original field |
| SixAxisProcessing.HandleSample | DS4Windows/DS4Library/DS4Sixaxis.cs:93-141 | on success the new sample has the unwrapped timestamp, the decoded readings, a snapshot of the old sample as `previous`, and history depth one |
| SixAxisProcessing.HandleCalibratedAxes | DS4Windows/DS4Library/DS4Sixaxis.cs:97-129 | with a calibration the stored readings are the calibrated fields, the last five negated in 16 bits |
| SixAxisProcessing.HandleTimestamp | DS4Windows/DS4Library/DS4Sixaxis.cs:83-93 | the first report's timestamp is its tick converted alone; later ones below the `ulong` limit do not go back |
| SixAxisProcessing.HandleCoherent | DS4Windows/DS4Library/DS4Sixaxis.cs:73-141 | the stored tick stays -1 or a 16-bit tick, -1 only with the initial sample, and history depth stays one |
| SixAxisProcessing.DS4SixAxis.constructor | DS4Windows/DS4Library/DS4Sixaxis.cs:63-76 | no calibration, the all-zero sample, stored tick -1 |
| SixAxisProcessing.DS4SixAxis.SetCalibrationData | DS4Windows/DS4Library/DS4Sixaxis.cs:65-71 | null clears the calibration; a report of at least 35 bytes installs a fresh one parsed from it; a shorter one throws and keeps the old; the sample and tick are unchanged |
| SixAxisProcessing.DS4SixAxis.HandleSixaxis | DS4Windows/DS4Library/DS4Sixaxis.cs:77-149 | the outcome, stored tick, sample and report are those `Handle` gives for the old state; the calibration is unchanged; the invariant is kept |

## Left out

- Calibration.Apply: the multiplier is an exact rational, not a `double`. The rounding error of the double product, and `Math.Round` on a double near a half, are not modelled.
- Calibration.Apply: it carries no `ensures` of its own. Its saturation properties are stated in `ApplySaturates` and its monotonicity in `ApplyMonotone`.
- Zero measured ranges are not modelled; they give an infinite or NaN multiplier in the source. `ApplyCalToInReport` and `HandleSixaxis` require `NonDegenerate`. What the source does in that case is described by `ApplyAsWritten` only.
- Calibration.DS4Cal.ApplyCalToInReport: calibrates with the saturating `Apply`. In the source, the `(int)` conversion of an out-of-range double at `DS4Cal.cs:19` depends on the platform: on x86/x64 .NET Framework it gives `int.MinValue`, so the source writes -32768 where the model writes 32767. `ApplyAsWritten` models that conversion.
- SixAxisProcessing.DS4SixAxis.HandleSixaxis: calibrates through `ApplyCalToInReport` and so with the saturating `Apply`, not the platform-dependent conversion that `ApplyAsWritten` models.
- Calibration.DS4Cal.constructor: requires a report of at least 35 bytes, where the source throws on a shorter one. `SetCalibrationData` models that throw as `ok == false`.
- Calibration.DS4Cal.ApplyCalToInReport: `startOffs + 13` is computed in unbounded integers, not in 32-bit `int`. No caller passes an offset near the limit.
- The `float` fields of `SixAxis` are kept as exact counts. Float rounding is not modelled, since it does not occur for 16-bit counts at these power-of-two scales.
- The public `outputAccel*` fields can be reassigned by other code after construction. No operation here does that.
- The `#if DUMP_DS4_CALIBRATION` block is diagnostics printed to the console.
- The `SixAccelMoved` event, `SixAxisEventArgs`, and the `receivedTimestamp` and `MacAddress` parameters only carry the sample to listeners.
- DS4Windows/DS4Library/DS4StateExposed.cs is not part of this model. It is a getter wrapper over state defined elsewhere.
- SixAxisProcessing.DS4SixAxis.HandleSixaxis: requires the class invariant `Valid()`. The constructor establishes it and every method keeps it.
- Concurrent calls on one `DS4SixAxis` are not modelled.

## Findings

| source | as written | input that shows it | evidently intended | confidence | as-written member | corrected member |
|---|---|---|---|---|---|---|
| DS4Windows/DS4Library/DS4Cal.cs:19 | `(int)Math.Round(scaled)` converts a double outside the `int` range to `int.MinValue` on x86/x64 .NET Framework, so the clamp below it returns `short.MinValue` for a huge positive value | gyro scales 32767 and 32767 over a measured range of 1 (mult 1048544), bias 0, reading 32767: the scaled value is about 3.4e10 | saturate to `short.MaxValue`, as the clamp on lines 20-23 intends | not executed | Calibration.ApplyAsWritten, Calibration.AsWrittenOverflowFlipsSign | Calibration.Apply |
