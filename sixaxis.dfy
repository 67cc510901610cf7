/** Per-report motion processing: the controller's wrapping 16-bit tick is
    unwrapped into a microsecond timestamp, the report's six motion fields
    are optionally calibrated in place and decoded, and the current sample
    is replaced by a new one that remembers a copy of the old. */
module SixAxisProcessing {
  import opened Wire
  import opened Calibration

  datatype Option<T> = None | Some(value: T)

  /** A C# `ulong`. */
  type uint64 = x: int | 0 <= x < 0x1_0000_0000_0000_0000
  const UINT64_MOD: int := 0x1_0000_0000_0000_0000

  /** The tick is the unsigned short at bytes 10 (low) and 11 (high). */
  const TICK_OFFSET: int := 10
  /** Reading the last motion byte, 24, needs a report this long. */
  const MOTION_END: int := MOTION_OFFSET + 2 * AXIS_COUNT
  /** A tick lasts 16/3 microseconds. */
  const TICK_US_NUM: int := 16
  const TICK_US_DEN: int := 3
  /** The largest step one report can add to the timestamp: 65535 * 16 / 3. */
  const MAX_STEP_US: int := 349520

  /** `accel * (8192 / 64)` for an accelerometer reading of `c` counts,
      that is `c / 8192` g, is `c / 64`. */
  const FAKE_ACCEL_DIV: int := 64
  /** `gyro / (256 / 16)` for a gyro reading of `c` counts, that is `c / 16`
      deg/s, is `c / 256`. */
  const FAKE_GYRO_DIV: int := 256

  // ---------------------------------------------------------------------
  // Samples
  // ---------------------------------------------------------------------

  /** One motion sample. The gyro readings are the controller's counts,
      1/16 deg/s each, and the accelerometer readings its counts, 1/8192 g
      each: the source keeps them as `float` count / 16 and count / 8192,
      which are exact for 16-bit counts, so a count stands for its float
      without loss. The fake values are those floats rescaled and rounded. */
  datatype SixAxis = SixAxis(
    previous: Option<SixAxis>,
    gyroPitch: int, gyroYaw: int, gyroRoll: int,
    accelX: int, accelY: int, accelZ: int,
    timestampUs: uint64,
    fakeGyroPitch: int, fakeGyroYaw: int, fakeGyroRoll: int,
    fakeAccelX: int, fakeAccelY: int, fakeAccelZ: int,
    outputAccelX: int, outputAccelY: int, outputAccelZ: int)

  /** The `SixAxis` constructor: it stores the timestamp, the readings and
      the previous sample, and derives the fake values with `Math.Round`
      (ties to even); the Z accelerometer's fake value is negated, and the
      output accelerations start out as the fake ones. */
  function NewSixAxis(microseconds: uint64, gX: int, gY: int, gZ: int,
                      aX: int, aY: int, aZ: int, prevAxis: Option<SixAxis>): SixAxis
  {
    var fakeX := RoundHalfEven(aX, FAKE_ACCEL_DIV);
    var fakeY := RoundHalfEven(aY, FAKE_ACCEL_DIV);
    var fakeZ := RoundHalfEven(-aZ, FAKE_ACCEL_DIV);
    SixAxis(prevAxis, gX, gY, gZ, aX, aY, aZ, microseconds,
            RoundHalfEven(gX, FAKE_GYRO_DIV), RoundHalfEven(gY, FAKE_GYRO_DIV), RoundHalfEven(gZ, FAKE_GYRO_DIV),
            fakeX, fakeY, fakeZ, fakeX, fakeY, fakeZ)
  }

  /** The sample a `DS4SixAxis` starts with: all zero, no previous one. */
  function InitialSample(): SixAxis
  {
    NewSixAxis(0, 0, 0, 0, 0, 0, 0, None)
  }

  /** The copy of a sample kept as the next one's `previous`: its timestamp
      and readings, and no previous sample of its own. */
  function Snapshot(v: SixAxis): SixAxis
  {
    NewSixAxis(v.timestampUs, v.gyroPitch, v.gyroYaw, v.gyroRoll, v.accelX, v.accelY, v.accelZ, None)
  }

  /** A sample remembers at most one earlier sample. */
  predicate HistoryDepthOne(v: SixAxis)
  {
    v.previous.None? || v.previous.value.previous.None?
  }

  /** A snapshot keeps the timestamp and readings of the sample it copies
      and has no history; a sample without history that the constructor
      built is its own snapshot. */
  lemma SnapshotKeeps(v: SixAxis)
    ensures var p := Snapshot(v);
      p.previous == None && p.timestampUs == v.timestampUs &&
      p.gyroPitch == v.gyroPitch && p.gyroYaw == v.gyroYaw && p.gyroRoll == v.gyroRoll &&
      p.accelX == v.accelX && p.accelY == v.accelY && p.accelZ == v.accelZ
    ensures IsBuilt(v) && v.previous.None? ==> Snapshot(v) == v
  {
  }

  /** `v` is what the constructor makes of its own fields. */
  predicate IsBuilt(v: SixAxis)
  {
    v == NewSixAxis(v.timestampUs, v.gyroPitch, v.gyroYaw, v.gyroRoll,
                    v.accelX, v.accelY, v.accelZ, v.previous)
  }

  /** For 16-bit readings the fake accelerations lie in [-512, 512] and the
      fake gyro values in [-128, 128]. */
  lemma FakeRanges(gX: int16, aX: int16)
    ensures -512 <= RoundHalfEven(aX, FAKE_ACCEL_DIV) <= 512
    ensures -512 <= RoundHalfEven(-(aX as int), FAKE_ACCEL_DIV) <= 512
    ensures -128 <= RoundHalfEven(gX, FAKE_GYRO_DIV) <= 128
  {
    RoundHalfEvenMonotone(INT16_MIN, aX, FAKE_ACCEL_DIV);
    RoundHalfEvenMonotone(aX, INT16_MAX, FAKE_ACCEL_DIV);
    RoundHalfEvenMonotone(-INT16_MAX, -(aX as int), FAKE_ACCEL_DIV);
    RoundHalfEvenMonotone(-(aX as int), -INT16_MIN, FAKE_ACCEL_DIV);
    RoundHalfEvenMonotone(INT16_MIN, gX, FAKE_GYRO_DIV);
    RoundHalfEvenMonotone(gX, INT16_MAX, FAKE_GYRO_DIV);
    RoundHalfEvenUnique(INT16_MIN, FAKE_ACCEL_DIV, -512);
    RoundHalfEvenUnique(INT16_MAX, FAKE_ACCEL_DIV, 512);
    RoundHalfEvenUnique(-INT16_MAX, FAKE_ACCEL_DIV, -512);
    RoundHalfEvenUnique(-INT16_MIN, FAKE_ACCEL_DIV, 512);
    RoundHalfEvenUnique(INT16_MIN, FAKE_GYRO_DIV, -128);
    RoundHalfEvenUnique(INT16_MAX, FAKE_GYRO_DIV, 128);
  }

  /** A reading of one g, 8192 counts, has a fake acceleration of 128. */
  lemma FakeAccelOneG()
    ensures RoundHalfEven(ACC_RESOLUTION_PER_G, FAKE_ACCEL_DIV) == 128
    ensures RoundHalfEven(-ACC_RESOLUTION_PER_G, FAKE_ACCEL_DIV) == -128
  {
    RoundHalfEvenUnique(ACC_RESOLUTION_PER_G, FAKE_ACCEL_DIV, 128);
    RoundHalfEvenUnique(-ACC_RESOLUTION_PER_G, FAKE_ACCEL_DIV, -128);
  }

  /** What the constructor makes of its arguments: it keeps them, each fake
      gyro value is the integer nearest to the reading in 1/256 deg/s, each
      fake acceleration the one nearest to it in 1/64 g, the even one of
      the two on a tie, the Z one of the
      negated reading and so the negation of Z's own rounding, and the
      output accelerations are the fake ones. */
  lemma NewSixAxisFields(us: uint64, gX: int, gY: int, gZ: int, aX: int, aY: int, aZ: int, prev: Option<SixAxis>)
    ensures var v := NewSixAxis(us, gX, gY, gZ, aX, aY, aZ, prev);
      IsBuilt(v) && v.previous == prev && v.timestampUs == us &&
      v.gyroPitch == gX && v.gyroYaw == gY && v.gyroRoll == gZ &&
      v.accelX == aX && v.accelY == aY && v.accelZ == aZ &&
      2 * Abs(gX - v.fakeGyroPitch * FAKE_GYRO_DIV) <= FAKE_GYRO_DIV &&
      2 * Abs(gY - v.fakeGyroYaw * FAKE_GYRO_DIV) <= FAKE_GYRO_DIV &&
      2 * Abs(gZ - v.fakeGyroRoll * FAKE_GYRO_DIV) <= FAKE_GYRO_DIV &&
      2 * Abs(aX - v.fakeAccelX * FAKE_ACCEL_DIV) <= FAKE_ACCEL_DIV &&
      2 * Abs(aY - v.fakeAccelY * FAKE_ACCEL_DIV) <= FAKE_ACCEL_DIV &&
      2 * Abs(-aZ - v.fakeAccelZ * FAKE_ACCEL_DIV) <= FAKE_ACCEL_DIV &&
      (2 * Abs(gX - v.fakeGyroPitch * FAKE_GYRO_DIV) == FAKE_GYRO_DIV ==> v.fakeGyroPitch % 2 == 0) &&
      (2 * Abs(gY - v.fakeGyroYaw * FAKE_GYRO_DIV) == FAKE_GYRO_DIV ==> v.fakeGyroYaw % 2 == 0) &&
      (2 * Abs(gZ - v.fakeGyroRoll * FAKE_GYRO_DIV) == FAKE_GYRO_DIV ==> v.fakeGyroRoll % 2 == 0) &&
      (2 * Abs(aX - v.fakeAccelX * FAKE_ACCEL_DIV) == FAKE_ACCEL_DIV ==> v.fakeAccelX % 2 == 0) &&
      (2 * Abs(aY - v.fakeAccelY * FAKE_ACCEL_DIV) == FAKE_ACCEL_DIV ==> v.fakeAccelY % 2 == 0) &&
      (2 * Abs(-aZ - v.fakeAccelZ * FAKE_ACCEL_DIV) == FAKE_ACCEL_DIV ==> v.fakeAccelZ % 2 == 0) &&
      v.fakeAccelZ == -RoundHalfEven(aZ, FAKE_ACCEL_DIV) &&
      v.outputAccelX == v.fakeAccelX && v.outputAccelY == v.fakeAccelY && v.outputAccelZ == v.fakeAccelZ
  {
    RoundHalfEvenNeg(aZ, FAKE_ACCEL_DIV);
  }

  // ---------------------------------------------------------------------
  // Timestamps
  // ---------------------------------------------------------------------

  /** The controller's tick: `report[11] << 8 | report[10]`. */
  function Tick(report: seq<byte>): uint16
    requires |report| >= TICK_OFFSET + 2
  {
    ReadUInt16(report, TICK_OFFSET)
  }

  /** The ticks elapsed since the previous report, as the source computes
      them: `(ushort)(ushort.MaxValue - prev + tick + 1)` when the tick has
      wrapped past the previous one, `(ushort)(tick - prev)` otherwise. */
  function Delta(prev: int, tick: uint16): uint16
  {
    if prev > tick then ToUInt16(0xFFFF - prev + tick + 1)
    else ToUInt16(tick - prev)
  }

  /** Both branches compute the distance from `prev` to `tick` modulo 2^16. */
  lemma DeltaModular(prev: int, tick: uint16)
    ensures Delta(prev, tick) == (tick - prev) % UINT16_MOD
  {
    var d := Delta(prev, tick);
    var m := (tick - prev) % UINT16_MOD;
    assert (d - (tick - prev)) % UINT16_MOD == 0 by {
      if prev > tick {
        var x := 0xFFFF - prev + tick + 1;
        assert (d - x) % UINT16_MOD == 0;
        assert d - (tick - prev) == (d - x) + UINT16_MOD;
      }
    }
    ModularEqual(d, tick - prev);
  }

  /** The value in [0, 2^16) congruent to `x` is `x % 2^16`. */
  lemma ModularEqual(d: int, x: int)
    requires 0 <= d < UINT16_MOD && (d - x) % UINT16_MOD == 0
    ensures d == x % UINT16_MOD
  {
    var k := (d - x) / UINT16_MOD;
    assert d - x == k * UINT16_MOD;
    var q := x / UINT16_MOD;
    assert x == q * UINT16_MOD + x % UINT16_MOD;
    assert d == (k + q) * UINT16_MOD + x % UINT16_MOD;
  }

  /** For a previous tick in range the wrap branch is taken exactly when
      that tick is ahead of the current one, and the delta is then the
      ticks up to the wrap plus those after it. */
  lemma DeltaBranches(prev: uint16, tick: uint16)
    ensures prev <= tick ==> Delta(prev, tick) == tick - prev
    ensures prev > tick ==> Delta(prev, tick) == UINT16_MOD - prev + tick
  {
  }

  /** A wrap from 65530 to 5 is eleven ticks. */
  lemma DeltaWrapExample()
    ensures Delta(65530, 5) == 11
  {
  }

  /** The microseconds of `d` ticks, truncated: `(uint)d * 16 / 3`. */
  function StepUs(d: uint16): (us: nat)
    ensures us <= MAX_STEP_US
    ensures us * TICK_US_DEN <= d * TICK_US_NUM < (us + 1) * TICK_US_DEN
  {
    DivMod(d * TICK_US_NUM, TICK_US_DEN);
    d * TICK_US_NUM / TICK_US_DEN
  }

  /** The timestamp of a report with tick `tick`, after one whose tick was
      `prevTick` and whose timestamp was `prevUs`: on the first report
      (`prevTick` negative) the tick converted alone, later the previous
      timestamp plus the converted delta, wrapping as a `ulong` does. */
  function NextTimestamp(prevTick: int, prevUs: uint64, tick: uint16): uint64
  {
    if prevTick < 0 then StepUs(tick)
    else (prevUs + StepUs(Delta(prevTick, tick))) % UINT64_MOD
  }

  /** Away from the `ulong` limit the timestamp never goes back, and it
      moves by at most one maximal step. */
  lemma TimestampMonotone(prevTick: int, prevUs: uint64, tick: uint16)
    requires prevTick >= 0 && prevUs + MAX_STEP_US < UINT64_MOD
    ensures NextTimestamp(prevTick, prevUs, tick) == prevUs + StepUs(Delta(prevTick, tick))
    ensures prevUs <= NextTimestamp(prevTick, prevUs, tick) <= prevUs + MAX_STEP_US
  {
  }

  /** The timestamps of successive reports with ticks `ticks`, after one
      with tick `prevTick` and timestamp `prevUs`. */
  function Timeline(prevTick: int, prevUs: uint64, ticks: seq<uint16>): (ts: seq<uint64>)
    ensures |ts| == |ticks|
    decreases |ticks|
  {
    if ticks == [] then []
    else
      var us := NextTimestamp(prevTick, prevUs, ticks[0]);
      [us] + Timeline(ticks[0], us, ticks[1..])
  }

  /** Over a run of reports that stays below the `ulong` limit the
      timestamps never decrease, and the `i`-th is at most `i + 1` maximal
      steps after the start. */
  lemma {:induction false} TimelineMonotone(prevTick: int, prevUs: uint64, ticks: seq<uint16>)
    requires prevTick >= 0 && prevUs + |ticks| * MAX_STEP_US < UINT64_MOD
    ensures forall i :: 0 <= i < |ticks| ==>
      prevUs <= Timeline(prevTick, prevUs, ticks)[i] <= prevUs + (i + 1) * MAX_STEP_US
    ensures forall i, j :: 0 <= i <= j < |ticks| ==>
      Timeline(prevTick, prevUs, ticks)[i] <= Timeline(prevTick, prevUs, ticks)[j]
    decreases |ticks|
  {
    if ticks != [] {
      var us := NextTimestamp(prevTick, prevUs, ticks[0]);
      TimestampMonotone(prevTick, prevUs, ticks[0]);
      TimelineMonotone(ticks[0], us, ticks[1..]);
      var ts, rest := Timeline(prevTick, prevUs, ticks), Timeline(ticks[0], us, ticks[1..]);
      assert ts == [us] + rest;
      forall i | 0 < i < |ticks|
        ensures prevUs <= ts[i] <= prevUs + (i + 1) * MAX_STEP_US
      {
        assert ts[i] == rest[i - 1];
      }
      forall i, j | 0 <= i <= j < |ticks|
        ensures ts[i] <= ts[j]
      {
        if 0 < i {
          assert ts[i] == rest[i - 1] && ts[j] == rest[j - 1];
        } else if 0 < j {
          assert ts[j] == rest[j - 1];
        }
      }
    }
  }

  /** From the state a new `DS4SixAxis` starts in (no tick seen, timestamp
      0) a run of reports below the `ulong` limit never goes back in time,
      and the `i`-th timestamp is at most `i + 1` maximal steps. */
  lemma {:induction false} TimelineFromStart(ticks: seq<uint16>)
    requires |ticks| * MAX_STEP_US < UINT64_MOD
    ensures forall i :: 0 <= i < |ticks| ==>
      Timeline(-1, InitialSample().timestampUs, ticks)[i] <= (i + 1) * MAX_STEP_US
    ensures forall i, j :: 0 <= i <= j < |ticks| ==>
      Timeline(-1, InitialSample().timestampUs, ticks)[i] <= Timeline(-1, InitialSample().timestampUs, ticks)[j]
  {
    if ticks != [] {
      var us := StepUs(ticks[0]);
      var ts, rest := Timeline(-1, 0, ticks), Timeline(ticks[0], us, ticks[1..]);
      assert ts == [us] + rest;
      TimelineMonotone(ticks[0], us, ticks[1..]);
      forall i | 0 < i < |ticks|
        ensures us <= ts[i] <= (i + 1) * MAX_STEP_US
      {
        assert ts[i] == rest[i - 1];
      }
      forall i, j | 0 <= i <= j < |ticks|
        ensures ts[i] <= ts[j]
      {
        if 0 < i {
          assert ts[i] == rest[i - 1] && ts[j] == rest[j - 1];
        } else if 0 < j {
          assert ts[j] == rest[j - 1];
        }
      }
    }
  }

  /** The conversion truncates each step on its own: three reports one tick
      apart give 5, 10 and 15 microseconds, not 16 at the third. */
  lemma TimelinePerStepExample()
    ensures Timeline(0, 0, [1, 2, 3]) == [5, 10, 15]
  {
    assert Timeline(3, 15, []) == [];
    assert Timeline(2, 10, [3]) == [15];
    assert Timeline(1, 5, [2, 3]) == [10, 15];
  }

  // ---------------------------------------------------------------------
  // Decoding the motion fields
  // ---------------------------------------------------------------------

  /** The six 16-bit readings of a report, in the source's `int` locals. */
  datatype Axes = Axes(pitch: int16, yaw: int16, roll: int16, accX: int16, accY: int16, accZ: int16)

  /** `(short)-x`: the negation, cast to 16 bits. */
  function NegShort(x: int): int16
  {
    ToInt16(-x)
  }

  /** `(short)(report[14] << 8 | report[13])` for the pitch, and
      `(short)-(report[k + 1] << 8 | report[k])` at 15, 17, 19, 21 and 23
      for the other five. */
  function DecodeAxes(report: seq<byte>): Axes
    requires |report| >= MOTION_END
  {
    Axes(ToInt16(ReadUInt16(report, 13)), NegShort(ReadUInt16(report, 15)),
         NegShort(ReadUInt16(report, 17)), NegShort(ReadUInt16(report, 19)),
         NegShort(ReadUInt16(report, 21)), NegShort(ReadUInt16(report, 23)))
  }

  /** `(short)-` of the unsigned field is the 16-bit negation of the signed
      field: its plain negation, except that -32768 stays -32768. */
  lemma NegatedField(report: seq<byte>, i: int)
    requires 0 <= i && i + 1 < |report|
    ensures NegShort(ReadUInt16(report, i)) == NegShort(ReadInt16(report, i))
    ensures ReadInt16(report, i) == INT16_MIN ==> NegShort(ReadUInt16(report, i)) == INT16_MIN
    ensures ReadInt16(report, i) != INT16_MIN ==> NegShort(ReadUInt16(report, i)) == -ReadInt16(report, i)
  {
    var u: int, v: int := ReadUInt16(report, i), ReadInt16(report, i);
    assert (-u) - (-v) == 0 || (-u) - (-v) == -UINT16_MOD;
    ToInt16Congruent(-u, -v);
    if v == INT16_MIN {
      ToInt16Congruent(-v, INT16_MIN);
    }
  }

  /** The decoded readings in terms of the signed fields: the pitch is the
      field at 13, the other five the 16-bit negations of theirs. */
  lemma DecodeAxesSigned(report: seq<byte>)
    requires |report| >= MOTION_END
    ensures var a := DecodeAxes(report);
      a.pitch == ReadInt16(report, 13) &&
      a.yaw == NegShort(ReadInt16(report, 15)) && a.roll == NegShort(ReadInt16(report, 17)) &&
      a.accX == NegShort(ReadInt16(report, 19)) && a.accY == NegShort(ReadInt16(report, 21)) &&
      a.accZ == NegShort(ReadInt16(report, 23))
  {
    ReadInt16Cast(report, 13);
    NegatedField(report, 15);
    NegatedField(report, 17);
    NegatedField(report, 19);
    NegatedField(report, 21);
    NegatedField(report, 23);
  }

  /** The sample made from a report's readings. */
  function Sample(us: uint64, a: Axes, prev: Option<SixAxis>): SixAxis
  {
    NewSixAxis(us, a.pitch, a.yaw, a.roll, a.accX, a.accY, a.accZ, prev)
  }

  // ---------------------------------------------------------------------
  // One report
  // ---------------------------------------------------------------------

  /** The state `handleSixaxis` leaves behind: whether it returned without
      an exception, the stored tick, the current sample and the report. */
  datatype Handled = Handled(ok: bool, prevTick: int, values: SixAxis, report: seq<byte>)

  /** The report after calibration, if there is one: the fields that fit
      are rewritten, up to the first index outside the buffer. */
  function CalibratedReport(cal: Option<CalSet>, report: seq<byte>): (r: seq<byte>)
    requires cal.Some? ==> NonDegenerate(cal.value)
    ensures |r| == |report|
  {
    if cal.None? then report
    else Passes(cal.value, Start(report), MOTION_OFFSET, FieldsDone(MOTION_OFFSET, |report|)).buf
  }

  /** `handleSixaxis` on `report`, given the calibration, the stored tick
      and the current sample. Reading the tick fails on a report shorter
      than 12 bytes and changes nothing; otherwise the tick is stored first,
      the report calibrated in place, and reading the motion fields fails
      on one shorter than 25 bytes, before the sample is replaced. */
  function Handle(cal: Option<CalSet>, prevTick: int, values: SixAxis, report: seq<byte>): Handled
    requires cal.Some? ==> NonDegenerate(cal.value)
  {
    if |report| < TICK_OFFSET + 2 then Handled(false, prevTick, values, report)
    else
      var tick := Tick(report);
      var us := NextTimestamp(prevTick, values.timestampUs, tick);
      var buf := CalibratedReport(cal, report);
      if |report| < MOTION_END then Handled(false, tick, values, buf)
      else Handled(true, tick, Sample(us, DecodeAxes(buf), Some(Snapshot(values))), buf)
  }

  /** The call succeeds exactly on a report that holds all six motion
      fields. A shorter one leaves the sample as it was; one too short for
      the tick leaves everything as it was; any other stores its tick. */
  lemma HandleOutcome(cal: Option<CalSet>, prevTick: int, values: SixAxis, report: seq<byte>)
    requires cal.Some? ==> NonDegenerate(cal.value)
    ensures var h := Handle(cal, prevTick, values, report);
      (h.ok <==> |report| >= MOTION_END) &&
      (!h.ok ==> h.values == values) &&
      (|report| < TICK_OFFSET + 2 ==> h == Handled(false, prevTick, values, report)) &&
      (|report| >= TICK_OFFSET + 2 ==> h.prevTick == Tick(report) && 0 <= h.prevTick < UINT16_MOD)
  {
  }

  /** Without a calibration the report is never written; with one, no byte
      outside the six motion fields changes. */
  lemma HandleReport(cal: Option<CalSet>, prevTick: int, values: SixAxis, report: seq<byte>)
    requires cal.Some? ==> NonDegenerate(cal.value)
    ensures var h := Handle(cal, prevTick, values, report);
      |h.report| == |report| &&
      (cal.None? ==> h.report == report) &&
      (forall j :: 0 <= j < |report| && !(MOTION_OFFSET <= j < MOTION_END) ==> h.report[j] == report[j])
  {
    if cal.Some? && |report| >= TICK_OFFSET + 2 {
      PassesFrame(cal.value, report, MOTION_OFFSET, FieldsDone(MOTION_OFFSET, |report|));
    }
  }

  /** On success the new sample carries the unwrapped timestamp and the
      decoded readings of the (calibrated) report, and its previous sample
      is a snapshot of the old one: same timestamp and readings, no history
      of its own. */
  lemma HandleSample(cal: Option<CalSet>, prevTick: int, values: SixAxis, report: seq<byte>)
    requires cal.Some? ==> NonDegenerate(cal.value)
    ensures var h := Handle(cal, prevTick, values, report);
      h.ok ==>
        h.values.timestampUs == NextTimestamp(prevTick, values.timestampUs, Tick(report)) &&
        h.values.gyroPitch == DecodeAxes(h.report).pitch && h.values.gyroYaw == DecodeAxes(h.report).yaw &&
        h.values.gyroRoll == DecodeAxes(h.report).roll && h.values.accelX == DecodeAxes(h.report).accX &&
        h.values.accelY == DecodeAxes(h.report).accY && h.values.accelZ == DecodeAxes(h.report).accZ &&
        h.values.previous == Some(Snapshot(values)) &&
        HistoryDepthOne(h.values)
  {
  }

  /** With a calibration, the stored readings are the calibrated fields:
      the pitch as it is, the other five negated in 16 bits. */
  lemma HandleCalibratedAxes(cs: CalSet, prevTick: int, values: SixAxis, report: seq<byte>)
    requires NonDegenerate(cs) && |report| >= MOTION_END
    ensures var v := Handle(Some(cs), prevTick, values, report).values;
      v.gyroPitch == Apply(cs.pitch, ReadInt16(report, 13)) &&
      v.gyroYaw == NegShort(Apply(cs.yaw, ReadInt16(report, 15))) &&
      v.gyroRoll == NegShort(Apply(cs.roll, ReadInt16(report, 17))) &&
      v.accelX == NegShort(Apply(cs.x, ReadInt16(report, 19))) &&
      v.accelY == NegShort(Apply(cs.y, ReadInt16(report, 21))) &&
      v.accelZ == NegShort(Apply(cs.z, ReadInt16(report, 23)))
  {
    var b := CalibratedReport(Some(cs), report);
    CalibratedFields(cs, report);
    DecodeAxesSigned(b);
  }

  /** The six fields of a calibrated report, each read back as its axis's
      calibration of the original field. */
  lemma CalibratedFields(cs: CalSet, report: seq<byte>)
    requires NonDegenerate(cs) && |report| >= MOTION_END
    ensures var b := CalibratedReport(Some(cs), report);
      ReadInt16(b, 13) == Apply(cs.pitch, ReadInt16(report, 13)) &&
      ReadInt16(b, 15) == Apply(cs.yaw, ReadInt16(report, 15)) &&
      ReadInt16(b, 17) == Apply(cs.roll, ReadInt16(report, 17)) &&
      ReadInt16(b, 19) == Apply(cs.x, ReadInt16(report, 19)) &&
      ReadInt16(b, 21) == Apply(cs.y, ReadInt16(report, 21)) &&
      ReadInt16(b, 23) == Apply(cs.z, ReadInt16(report, 23))
  {
    PassesRecorded(cs, report, MOTION_OFFSET, AXIS_COUNT);
    PassesCalibrated(cs, report, MOTION_OFFSET, AXIS_COUNT);
    PassesWrittenBack(cs, report, MOTION_OFFSET, AXIS_COUNT);
    var p := Passes(cs, Start(report), MOTION_OFFSET, AXIS_COUNT);
    assert AxisCal(cs, 0) == cs.pitch && AxisCal(cs, 1) == cs.yaw && AxisCal(cs, 2) == cs.roll;
    assert AxisCal(cs, 3) == cs.x && AxisCal(cs, 4) == cs.y && AxisCal(cs, 5) == cs.z;
    assert ReadInt16(p.buf, 13) == p.curr[0] && ReadInt16(p.buf, 15) == p.curr[1];
    assert ReadInt16(p.buf, 17) == p.curr[2] && ReadInt16(p.buf, 19) == p.curr[3];
    assert ReadInt16(p.buf, 21) == p.curr[4] && ReadInt16(p.buf, 23) == p.curr[5];
  }

  /** The first call starts the timeline at the tick's own conversion; a
      later one that stays below the `ulong` limit does not go back. */
  lemma HandleTimestamp(cal: Option<CalSet>, prevTick: int, values: SixAxis, report: seq<byte>)
    requires cal.Some? ==> NonDegenerate(cal.value)
    requires |report| >= MOTION_END
    ensures var h := Handle(cal, prevTick, values, report);
      (prevTick < 0 ==> h.values.timestampUs == StepUs(Tick(report))) &&
      (prevTick >= 0 && values.timestampUs + MAX_STEP_US < UINT64_MOD ==>
        values.timestampUs <= h.values.timestampUs <= values.timestampUs + MAX_STEP_US)
  {
    if prevTick >= 0 && values.timestampUs + MAX_STEP_US < UINT64_MOD {
      TimestampMonotone(prevTick, values.timestampUs, Tick(report));
    }
  }

  /** What every `DS4SixAxis` keeps: the stored tick is -1 or a 16-bit
      tick, it is -1 only while the sample is still the initial one, and
      the sample remembers at most one earlier sample. */
  predicate Coherent(prevTick: int, values: SixAxis)
  {
    -1 <= prevTick < UINT16_MOD &&
    (prevTick < 0 ==> values == InitialSample()) &&
    HistoryDepthOne(values)
  }

  /** `handleSixaxis` keeps that invariant. */
  lemma HandleCoherent(cal: Option<CalSet>, prevTick: int, values: SixAxis, report: seq<byte>)
    requires cal.Some? ==> NonDegenerate(cal.value)
    requires Coherent(prevTick, values)
    ensures var h := Handle(cal, prevTick, values, report);
      Coherent(h.prevTick, h.values)
  {
  }

  // ---------------------------------------------------------------------
  // The processor object
  // ---------------------------------------------------------------------

  class DS4SixAxis {
    var cal: DS4Cal?
    var values: SixAxis
    var prevReportTimestamp: int

    predicate Valid()
      reads this
    {
      Coherent(prevReportTimestamp, values)
    }

    /** The calibration in force, as a value. */
    function CalOf(): Option<CalSet>
      reads this, cal
    {
      if cal == null then None else Some(cal.Cal())
    }

    /** No calibration, the all-zero sample, and no tick seen yet. */
    constructor ()
      ensures Valid() && cal == null && values == InitialSample() && prevReportTimestamp == -1
    {
      cal := null;
      values := InitialSample();
      prevReportTimestamp := -1;
    }

    /** `setCalibrationData`: a null report clears the calibration, any
        other is parsed into a new one. Parsing a report shorter than 35
        bytes throws before `_cal` is assigned (`ok` false). */
    method SetCalibrationData(calibData: array?<byte>) returns (ok: bool)
      modifies this
      ensures values == old(values) && prevReportTimestamp == old(prevReportTimestamp)
      ensures ok <==> calibData == null || calibData.Length >= CAL_REPORT_LEN
      ensures calibData == null ==> cal == null
      ensures calibData != null && ok ==> cal != null && fresh(cal) && cal.Cal() == ParseCal(calibData[..])
      ensures !ok ==> cal == old(cal)
    {
      if calibData == null {
        cal := null;
        ok := true;
      } else if calibData.Length < CAL_REPORT_LEN {
        ok := false;
      } else {
        cal := new DS4Cal(calibData);
        ok := true;
      }
    }

    /** `handleSixaxis`: unwraps the tick into a timestamp, stores the
        tick, calibrates the report in place when there is a calibration,
        decodes the six readings and replaces the sample with a new one
        whose previous sample is a snapshot of the old. An index outside
        the report throws (`ok` false) with the state as far as it got. */
    method HandleSixaxis(inputReport: array<byte>) returns (ok: bool)
      requires Valid()
      requires cal != null ==> NonDegenerate(cal.Cal())
      modifies this, inputReport
      ensures Valid()
      ensures cal == old(cal) && CalOf() == old(CalOf())
      ensures Handled(ok, prevReportTimestamp, values, inputReport[..]) ==
              Handle(old(CalOf()), old(prevReportTimestamp), old(values), old(inputReport[..]))
    {
      ghost var calSet, report, prevTick, prevValues := CalOf(), inputReport[..], prevReportTimestamp, values;
      ghost var h := Handle(calSet, prevTick, prevValues, report);
      HandleCoherent(calSet, prevTick, prevValues, report);
      if inputReport.Length < TICK_OFFSET + 2 {
        ok := false;
        assert h == Handled(false, prevTick, prevValues, report);
        return;
      }
      var timestamp := U16(inputReport[TICK_OFFSET], inputReport[TICK_OFFSET + 1]);
      assert timestamp == Tick(report);
      var fullTimestamp := UnwrapTimestamp(prevReportTimestamp, values.timestampUs, timestamp);
      prevReportTimestamp := timestamp;

      if cal != null {
        var calOk, prevVals, currVals := cal.ApplyCalToInReport(inputReport, 0);
        if !calOk {
          ok := false;
          assert h == Handled(false, timestamp, prevValues, inputReport[..]);
          return;
        }
      }
      assert inputReport[..] == CalibratedReport(calSet, report);
      if inputReport.Length < MOTION_END {
        ok := false;
        assert h == Handled(false, timestamp, prevValues, inputReport[..]);
        return;
      }
      var axes := ReadMotion(inputReport);
      var sPrev := Snapshot(values);
      values := Sample(fullTimestamp, axes, Some(sPrev));
      ok := true;
      assert h == Handled(true, timestamp, values, inputReport[..]);
    }
  }

  /** Converts the wrapped tick into an absolute timestamp as the source
      does, step by step. */
  method UnwrapTimestamp(prevTick: int, prevUs: uint64, timestamp: uint16) returns (fullTimestamp: uint64)
    ensures fullTimestamp == NextTimestamp(prevTick, prevUs, timestamp)
  {
    if prevTick < 0 {
      fullTimestamp := timestamp * TICK_US_NUM / TICK_US_DEN;
    } else {
      var delta: uint16;
      if prevTick > timestamp {
        delta := ToUInt16(0xFFFF - prevTick + timestamp + 1);
      } else {
        delta := ToUInt16(timestamp - prevTick);
      }
      fullTimestamp := (prevUs + delta * TICK_US_NUM / TICK_US_DEN) % UINT64_MOD;
    }
  }

  /** Reads the six motion fields of a report as the source does. */
  method ReadMotion(a: array<byte>) returns (axes: Axes)
    requires a.Length >= MOTION_END
    ensures axes == DecodeAxes(a[..])
  {
    var intPitch := ToInt16(U16(a[13], a[14]));
    var intYaw := NegShort(U16(a[15], a[16]));
    var intRoll := NegShort(U16(a[17], a[18]));
    var intAccX := NegShort(U16(a[19], a[20]));
    var intAccY := NegShort(U16(a[21], a[22]));
    var intAccZ := NegShort(U16(a[23], a[24]));
    axes := Axes(intPitch, intYaw, intRoll, intAccX, intAccY, intAccZ);
  }
}
