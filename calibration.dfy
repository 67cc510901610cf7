/** Factory calibration of the DS4 motion sensors: the per-axis
    bias/multiplier pair and its saturating application, the decoding of the
    calibration feature report in its Bluetooth and USB layouts, and the
    in-place calibration of the six motion fields of an input report. */
module Calibration {
  import opened Wire

  const ACC_RESOLUTION_PER_G: int := 8192
  const GYRO_RESOLUTION_IN_DEG_SEC: int := 16

  /** Bytes of the calibration report the parser reads: the report id and
      17 little-endian shorts. */
  const CAL_REPORT_LEN: int := 35
  const CAL_FIELD_COUNT: int := 17

  /** Report id of the feature report read over Bluetooth. */
  const BT_REPORT_ID: byte := 5

  // ---------------------------------------------------------------------
  // One axis
  // ---------------------------------------------------------------------

  /** The calibration of one axis. The source keeps the multiplier as a
      double; here it is the exact rational `multNum / multDen`. */
  datatype CalValue = CalValue(bias: int16, multNum: int, multDen: int)

  /** `Math.Round((inValue - bias) * mult)` before the clamp: the integer
      nearest to the exact scaled value, ties to even. */
  function Scaled(c: CalValue, inValue: int16): (k: int)
    requires c.multDen != 0
    ensures var n := (inValue - c.bias) * c.multNum;
      2 * Abs(n - k * c.multDen) <= Abs(c.multDen) &&
      (2 * Abs(n - k * c.multDen) == Abs(c.multDen) ==> k % 2 == 0)
  {
    RoundRatio((inValue - c.bias) * c.multNum, c.multDen)
  }

  /** Saturation to the range of a short. */
  function Clamp16(x: int): (r: int16)
    ensures INT16_MIN <= x <= INT16_MAX ==> r == x
    ensures x >= INT16_MAX <==> r == INT16_MAX
    ensures x <= INT16_MIN <==> r == INT16_MIN
  {
    if x > INT16_MAX then INT16_MAX
    else if x < INT16_MIN then INT16_MIN
    else x
  }

  /** `CalValue.apply`: the rounded calibrated value, saturated to a short.
      Out-of-range values clamp to the nearer end of the range instead of
      wrapping around. */
  function Apply(c: CalValue, inValue: int16): int16
    requires c.multDen != 0
  {
    Clamp16(Scaled(c, inValue))
  }

  /** The calibrated value is the rounded one when that fits in a short,
      and the nearer end of the range otherwise. */
  lemma ApplySaturates(c: CalValue, inValue: int16)
    requires c.multDen != 0
    ensures var k, r := Scaled(c, inValue), Apply(c, inValue);
      (INT16_MIN <= k <= INT16_MAX ==> r == k) &&
      (k >= INT16_MAX <==> r == INT16_MAX) &&
      (k <= INT16_MIN <==> r == INT16_MIN)
  {
  }

  /** Multiplying both sides by a non-negative factor keeps the order. */
  lemma MulNonNegMonotone(a: int, b: int, m: int)
    requires a <= b && m >= 0
    ensures a * m <= b * m
  {
    assert b * m - a * m == (b - a) * m;
  }

  /** The multiplier `multNum / multDen` is non-negative. */
  predicate NonNegativeMult(c: CalValue)
  {
    (c.multDen > 0 && c.multNum >= 0) || (c.multDen < 0 && c.multNum <= 0)
  }

  lemma ScaledMonotone(c: CalValue, v1: int16, v2: int16)
    requires NonNegativeMult(c) && v1 <= v2
    ensures Scaled(c, v1) <= Scaled(c, v2)
  {
    var d1, d2 := v1 - c.bias, v2 - c.bias;
    if c.multDen > 0 {
      MulNonNegMonotone(d1, d2, c.multNum);
    } else {
      MulNonNegMonotone(d1, d2, -c.multNum);
      MulNeg(d1, c.multNum);
      MulNeg(d2, c.multNum);
    }
    RoundRatioMonotone(d1 * c.multNum, d2 * c.multNum, c.multDen);
  }

  /** With a non-negative multiplier, calibration preserves the order of
      the raw readings. */
  lemma ApplyMonotone(c: CalValue, v1: int16, v2: int16)
    requires NonNegativeMult(c) && v1 <= v2
    ensures Apply(c, v1) <= Apply(c, v2)
  {
    ScaledMonotone(c, v1, v2);
  }

  /** A reading that lies exactly `span` above the bias, where `span` is the
      multiplier's denominator, calibrates to the numerator (saturated). */
  lemma ApplyAtDenominator(c: CalValue, v: int16)
    requires c.multDen != 0
    requires v - c.bias == c.multDen
    ensures Apply(c, v) == Clamp16(c.multNum)
  {
    assert (v - c.bias) * c.multNum - c.multNum * c.multDen == 0;
    RoundRatioUnique((v - c.bias) * c.multNum, c.multDen, c.multNum);
  }

  // ---------------------------------------------------------------------
  // apply as the x86/x64 .NET Framework runtime executes it
  // ---------------------------------------------------------------------

  const INT32_MIN: int := -0x8000_0000
  const INT32_MAX: int := 0x7FFF_FFFF

  /** `apply` with the `(int)` conversion of `Math.Round`'s double as the
      x86/x64 .NET Framework JIT performs it: a value outside the int range,
      an infinity or a NaN (the multiplier of a zero-width range) all become
      `int.MinValue`, and the clamp then yields `short.MinValue`. */
  function ApplyAsWritten(c: CalValue, inValue: int16): (r: int16)
    ensures c.multDen == 0 ==> r == INT16_MIN
    ensures c.multDen != 0 && INT32_MIN <= Scaled(c, inValue) <= INT32_MAX ==> r == Apply(c, inValue)
    ensures c.multDen != 0 && Scaled(c, inValue) > INT32_MAX ==> r == INT16_MIN
    ensures c.multDen != 0 && Scaled(c, inValue) < INT32_MIN ==> r == INT16_MIN
  {
    var rounded :=
      if c.multDen == 0 then INT32_MIN
      else if INT32_MIN <= Scaled(c, inValue) <= INT32_MAX then Scaled(c, inValue)
      else INT32_MIN;
    Clamp16(rounded)
  }

  /** A large gyro multiplier (scales of 32767 over a measured range of 1)
      makes the rounded value exceed the int range: as written, the
      saturating clamp is bypassed and a full positive reading comes out as
      the most negative short, where the saturating `Apply` gives the most
      positive one. */
  lemma AsWrittenOverflowFlipsSign()
    ensures var c := CalValue(0, (32767 + 32767) * GYRO_RESOLUTION_IN_DEG_SEC, 1);
      ApplyAsWritten(c, INT16_MAX) == INT16_MIN && Apply(c, INT16_MAX) == INT16_MAX
  {
    var c := CalValue(0, (32767 + 32767) * GYRO_RESOLUTION_IN_DEG_SEC, 1);
    RoundRatioUnique(INT16_MAX * c.multNum, 1, INT16_MAX * c.multNum);
    assert Scaled(c, INT16_MAX) == INT16_MAX * 1048544;
  }

  // ---------------------------------------------------------------------
  // The calibration report
  // ---------------------------------------------------------------------

  /** The six axes' calibrations, in report order. */
  datatype CalSet = CalSet(pitch: CalValue, yaw: CalValue, roll: CalValue,
                           x: CalValue, y: CalValue, z: CalValue)

  /** The calibration of axis `i` in the order pitch, yaw, roll, X, Y, Z. */
  function AxisCal(cs: CalSet, i: int): CalValue
    requires 0 <= i < 6
  {
    match i
    case 0 => cs.pitch
    case 1 => cs.yaw
    case 2 => cs.roll
    case 3 => cs.x
    case 4 => cs.y
    case _ => cs.z
  }

  /** Every multiplier is finite: no measured range is empty. */
  predicate NonDegenerate(cs: CalSet)
  {
    cs.pitch.multDen != 0 && cs.yaw.multDen != 0 && cs.roll.multDen != 0 &&
    cs.x.multDen != 0 && cs.y.multDen != 0 && cs.z.multDen != 0
  }

  /** The 17 shorts of a calibration report, layout-independently named. */
  datatype RawCal = RawCal(
    pitchBias: int16, yawBias: int16, rollBias: int16,
    pitchPos: int16, pitchNeg: int16, yawPos: int16, yawNeg: int16, rollPos: int16, rollNeg: int16,
    gyroPosScale: int16, gyroNegScale: int16,
    xPos: int16, xNeg: int16, yPos: int16, yNeg: int16, zPos: int16, zNeg: int16)

  /** The shorts at `s[0..2n]`, in order. */
  function ReadFields(s: seq<byte>, n: nat): (fs: seq<int16>)
    requires 2 * n <= |s|
    ensures |fs| == n
    decreases n
  {
    if n == 0 then [] else [ReadInt16(s, 0)] + ReadFields(s[2..], n - 1)
  }

  /** The little-endian encoding of the shorts `fs`, one after another. */
  function EncodeFields(fs: seq<int16>): (s: seq<byte>)
    ensures |s| == 2 * |fs|
  {
    if fs == [] then [] else EncodeInt16(fs[0]) + EncodeFields(fs[1..])
  }

  lemma {:induction false} ReadFieldsAt(s: seq<byte>, n: nat, k: nat)
    requires 2 * n <= |s| && k < n
    ensures ReadFields(s, n)[k] == ReadInt16(s, 2 * k)
    decreases n
  {
    if k > 0 {
      ReadFieldsAt(s[2..], n - 1, k - 1);
    }
  }

  /** Reading back encoded shorts gives the shorts. */
  lemma {:induction false} ReadEncodedFields(fs: seq<int16>)
    ensures ReadFields(EncodeFields(fs), |fs|) == fs
  {
    if fs != [] {
      var s := EncodeFields(fs);
      assert s == EncodeInt16(fs[0]) + EncodeFields(fs[1..]);
      assert s[..2] == EncodeInt16(fs[0]);
      EncodeThenRead(fs[0]);
      assert ReadInt16(s, 0) == ReadInt16(EncodeInt16(fs[0]), 0);
      assert s[2..] == EncodeFields(fs[1..]);
      ReadEncodedFields(fs[1..]);
    }
  }

  /** Encoding the shorts read from bytes gives the bytes. */
  lemma {:induction false} EncodeReadFields(s: seq<byte>, n: nat)
    requires 2 * n <= |s|
    ensures EncodeFields(ReadFields(s, n)) == s[..2 * n]
    decreases n
  {
    if n > 0 {
      var fs := ReadFields(s, n);
      assert fs[0] == ReadInt16(s, 0);
      assert fs[1..] == ReadFields(s[2..], n - 1);
      ReadThenEncode(s, 0);
      EncodeReadFields(s[2..], n - 1);
      assert s[..2 * n] == s[0..2] + s[2..][..2 * (n - 1)];
    }
  }

  /** The 17 shorts of a calibration report: `Field(r, k)` is at byte 1 + 2k. */
  function ReportFields(r: seq<byte>): (fs: seq<int16>)
    requires |r| >= CAL_REPORT_LEN
    ensures |fs| == CAL_FIELD_COUNT
  {
    ReadFields(r[1..CAL_REPORT_LEN], CAL_FIELD_COUNT)
  }

  /** The order of the 17 shorts on the wire. Over Bluetooth the six gyro
      range shorts are the positive triple then the negative triple; over
      USB they alternate positive and negative per axis. */
  function LayoutFields(raw: RawCal, fromBluetooth: bool): (fs: seq<int16>)
    ensures |fs| == CAL_FIELD_COUNT
  {
    [raw.pitchBias, raw.yawBias, raw.rollBias] +
    (if fromBluetooth
     then [raw.pitchPos, raw.yawPos, raw.rollPos, raw.pitchNeg, raw.yawNeg, raw.rollNeg]
     else [raw.pitchPos, raw.pitchNeg, raw.yawPos, raw.yawNeg, raw.rollPos, raw.rollNeg]) +
    [raw.gyroPosScale, raw.gyroNegScale,
     raw.xPos, raw.xNeg, raw.yPos, raw.yNeg, raw.zPos, raw.zNeg]
  }

  /** Names the 17 shorts read in wire order. */
  function Unlayout(fs: seq<int16>, fromBluetooth: bool): RawCal
    requires |fs| == CAL_FIELD_COUNT
  {
    RawCal(
      fs[0], fs[1], fs[2],
      fs[3], if fromBluetooth then fs[6] else fs[4],
      if fromBluetooth then fs[4] else fs[5], if fromBluetooth then fs[7] else fs[6],
      if fromBluetooth then fs[5] else fs[7], fs[8],
      fs[9], fs[10],
      fs[11], fs[12], fs[13], fs[14], fs[15], fs[16])
  }

  /** Naming 17 shorts and laying them out again gives the same shorts. */
  lemma LayoutUnlayout(fs: seq<int16>, fromBluetooth: bool)
    requires |fs| == CAL_FIELD_COUNT
    ensures LayoutFields(Unlayout(fs, fromBluetooth), fromBluetooth) == fs
  {
    var out := LayoutFields(Unlayout(fs, fromBluetooth), fromBluetooth);
    assert forall k :: 0 <= k < CAL_FIELD_COUNT ==> out[k] == fs[k];
  }

  /** Laying the named shorts out and naming them again gives the same
      names: the two layouts lose nothing. */
  lemma UnlayoutLayout(raw: RawCal, fromBluetooth: bool)
    ensures Unlayout(LayoutFields(raw, fromBluetooth), fromBluetooth) == raw
  {
  }

  /** The shorts of a calibration report, named according to its layout. */
  function DecodeRaw(r: seq<byte>): RawCal
    requires |r| >= CAL_REPORT_LEN
  {
    Unlayout(ReportFields(r), r[0] == BT_REPORT_ID)
  }

  /** A calibration report with report id `id` carrying the shorts of `raw`
      in the layout that id selects. */
  function EncodeRaw(raw: RawCal, id: byte): (r: seq<byte>)
    ensures |r| == CAL_REPORT_LEN
  {
    [id] + EncodeFields(LayoutFields(raw, id == BT_REPORT_ID))
  }

  /** The derivation of the six calibrations, as the constructor writes it:
      gyro bias is the raw bias and gyro mult (pos_scale + neg_scale) * 16 /
      (pos - neg); accel mult is 16384 / (pos - neg) and accel bias
      pos - (pos - neg) / 2 with C# truncation, except that the Y bias is
      computed from the Z shorts and the Z bias is never assigned. */
  function Derive(raw: RawCal): CalSet
  {
    var gyroNumer := (raw.gyroPosScale + raw.gyroNegScale) * GYRO_RESOLUTION_IN_DEG_SEC;
    var accDblRange: int := 2 * ACC_RESOLUTION_PER_G;
    var xDblRange := raw.xPos - raw.xNeg;
    var yDblRange := raw.yPos - raw.yNeg;
    var zDblRange := raw.zPos - raw.zNeg;
    CalSet(
      CalValue(raw.pitchBias, gyroNumer, raw.pitchPos - raw.pitchNeg),
      CalValue(raw.yawBias, gyroNumer, raw.yawPos - raw.yawNeg),
      CalValue(raw.rollBias, gyroNumer, raw.rollPos - raw.rollNeg),
      CalValue(AccelBias(raw.xPos, raw.xNeg), accDblRange, xDblRange),
      CalValue(AccelBias(raw.zPos, raw.zNeg), accDblRange, yDblRange),
      CalValue(0, accDblRange, zDblRange))
  }

  /** `(short)(pos - (pos - neg) / 2)` with C#'s truncating division: the
      midpoint of the two readings an accelerometer axis gives at +1 g and
      -1 g. */
  function AccelBias(pos: int16, neg: int16): int16
  {
    ToInt16(pos - TruncDiv(pos - neg, 2))
  }

  /** What the `DS4Cal` constructor computes from a calibration report. */
  function ParseCal(r: seq<byte>): CalSet
    requires |r| >= CAL_REPORT_LEN
  {
    Derive(DecodeRaw(r))
  }

  /** Decoding a report built from `raw`, in either layout, gives `raw`. */
  lemma DecodeEncodeRaw(raw: RawCal, id: byte)
    ensures DecodeRaw(EncodeRaw(raw, id)) == raw
  {
    var fs := LayoutFields(raw, id == BT_REPORT_ID);
    var r := EncodeRaw(raw, id);
    assert r[1..CAL_REPORT_LEN] == EncodeFields(fs);
    ReadEncodedFields(fs);
    assert ReportFields(r) == fs;
    UnlayoutLayout(raw, id == BT_REPORT_ID);
  }

  /** Re-encoding the decoded shorts in the layout the report id selects
      reproduces the report's first 35 bytes. */
  lemma EncodeDecodeRaw(r: seq<byte>)
    requires |r| >= CAL_REPORT_LEN
    ensures EncodeRaw(DecodeRaw(r), r[0]) == r[..CAL_REPORT_LEN]
  {
    var fs := ReportFields(r);
    LayoutUnlayout(fs, r[0] == BT_REPORT_ID);
    EncodeReadFields(r[1..CAL_REPORT_LEN], CAL_FIELD_COUNT);
    assert EncodeFields(fs) == r[1..CAL_REPORT_LEN];
    assert r[..CAL_REPORT_LEN] == [r[0]] + r[1..CAL_REPORT_LEN];
  }

  /** The same physical constants give the same calibration whether the
      controller sends them in the Bluetooth or the USB layout. */
  lemma LayoutIndependent(raw: RawCal, usbId: byte)
    requires usbId != BT_REPORT_ID
    ensures ParseCal(EncodeRaw(raw, BT_REPORT_ID)) == ParseCal(EncodeRaw(raw, usbId)) == Derive(raw)
  {
    DecodeEncodeRaw(raw, BT_REPORT_ID);
    DecodeEncodeRaw(raw, usbId);
  }

  /** The named shorts of a report, each at the byte offset where the
      constructor reads it: 1, 3, ..., 33, with the gyro range shorts in the
      order the report id selects. */
  lemma DecodeRawOffsets(r: seq<byte>)
    requires |r| >= CAL_REPORT_LEN
    ensures var raw, bt := DecodeRaw(r), r[0] == BT_REPORT_ID;
      raw.pitchBias == ReadInt16(r, 1) && raw.yawBias == ReadInt16(r, 3) && raw.rollBias == ReadInt16(r, 5) &&
      raw.pitchPos == ReadInt16(r, 7) &&
      raw.yawPos == ReadInt16(r, if bt then 9 else 11) &&
      raw.rollPos == ReadInt16(r, if bt then 11 else 15) &&
      raw.pitchNeg == ReadInt16(r, if bt then 13 else 9) &&
      raw.yawNeg == ReadInt16(r, if bt then 15 else 13) &&
      raw.rollNeg == ReadInt16(r, 17) &&
      raw.gyroPosScale == ReadInt16(r, 19) && raw.gyroNegScale == ReadInt16(r, 21) &&
      raw.xPos == ReadInt16(r, 23) && raw.xNeg == ReadInt16(r, 25) &&
      raw.yPos == ReadInt16(r, 27) && raw.yNeg == ReadInt16(r, 29) &&
      raw.zPos == ReadInt16(r, 31) && raw.zNeg == ReadInt16(r, 33)
  {
    forall k | 0 <= k < CAL_FIELD_COUNT ensures ReportFields(r)[k] == ReadInt16(r, 1 + 2 * k) {
      ReportFieldAt(r, k);
    }
  }

  /** Conversely, shorts found at those offsets are the decoded ones. */
  lemma DecodeRawFromOffsets(r: seq<byte>, raw: RawCal)
    requires |r| >= CAL_REPORT_LEN
    requires var bt := r[0] == BT_REPORT_ID;
      raw.pitchBias == ReadInt16(r, 1) && raw.yawBias == ReadInt16(r, 3) && raw.rollBias == ReadInt16(r, 5) &&
      raw.pitchPos == ReadInt16(r, 7) &&
      raw.yawPos == ReadInt16(r, if bt then 9 else 11) &&
      raw.rollPos == ReadInt16(r, if bt then 11 else 15) &&
      raw.pitchNeg == ReadInt16(r, if bt then 13 else 9) &&
      raw.yawNeg == ReadInt16(r, if bt then 15 else 13) &&
      raw.rollNeg == ReadInt16(r, 17) &&
      raw.gyroPosScale == ReadInt16(r, 19) && raw.gyroNegScale == ReadInt16(r, 21) &&
      raw.xPos == ReadInt16(r, 23) && raw.xNeg == ReadInt16(r, 25) &&
      raw.yPos == ReadInt16(r, 27) && raw.yNeg == ReadInt16(r, 29) &&
      raw.zPos == ReadInt16(r, 31) && raw.zNeg == ReadInt16(r, 33)
    ensures DecodeRaw(r) == raw
  {
    DecodeRawOffsets(r);
  }

  /** Where each gyro range short sits: Bluetooth puts the three positive
      values before the three negative ones, USB alternates them per axis. */
  lemma GyroRangeLayout(r: seq<byte>)
    requires |r| >= CAL_REPORT_LEN
    ensures var raw, f := DecodeRaw(r), ReportFields(r);
      raw.pitchPos == f[3] &&
      (r[0] == BT_REPORT_ID ==>
        raw.yawPos == f[4] && raw.rollPos == f[5] &&
        raw.pitchNeg == f[6] && raw.yawNeg == f[7] && raw.rollNeg == f[8]) &&
      (r[0] != BT_REPORT_ID ==>
        raw.pitchNeg == f[4] && raw.yawPos == f[5] &&
        raw.yawNeg == f[6] && raw.rollPos == f[7] && raw.rollNeg == f[8])
  {
  }

  /** Field `k` of the report is the short at bytes 1 + 2k and 2 + 2k. */
  lemma ReportFieldAt(r: seq<byte>, k: nat)
    requires |r| >= CAL_REPORT_LEN && k < CAL_FIELD_COUNT
    ensures ReportFields(r)[k] == ReadInt16(r, 1 + 2 * k)
  {
    ReadFieldsAt(r[1..CAL_REPORT_LEN], CAL_FIELD_COUNT, k);
  }

  /** Only the first 35 bytes of the report are read. */
  lemma ParseCalPrefix(r: seq<byte>, tail: seq<byte>)
    requires |r| >= CAL_REPORT_LEN
    ensures ParseCal(r + tail) == ParseCal(r[..CAL_REPORT_LEN]) == ParseCal(r)
  {
    assert (r + tail)[1..CAL_REPORT_LEN] == r[1..CAL_REPORT_LEN];
    assert r[..CAL_REPORT_LEN][1..CAL_REPORT_LEN] == r[1..CAL_REPORT_LEN];
  }

  /** The gyro calibration: bias is the raw bias, and the multiplier maps
      the measured span pos - neg onto (pos_scale + neg_scale) * 16, so a
      reading that far above the bias calibrates to that value. */
  lemma GyroCalibration(raw: RawCal, i: int)
    requires 0 <= i < 3
    ensures var c, bias, pos, neg := AxisCal(Derive(raw), i),
        [raw.pitchBias, raw.yawBias, raw.rollBias][i],
        [raw.pitchPos, raw.yawPos, raw.rollPos][i],
        [raw.pitchNeg, raw.yawNeg, raw.rollNeg][i];
      c.bias == bias &&
      c.multNum == (raw.gyroPosScale + raw.gyroNegScale) * GYRO_RESOLUTION_IN_DEG_SEC &&
      c.multDen == pos - neg &&
      (pos != neg && INT16_MIN <= bias + (pos - neg) <= INT16_MAX ==>
        Apply(c, bias + (pos - neg)) == Clamp16(c.multNum))
  {
    var c := AxisCal(Derive(raw), i);
    var bias := [raw.pitchBias, raw.yawBias, raw.rollBias][i];
    var pos := [raw.pitchPos, raw.yawPos, raw.rollPos][i];
    var neg := [raw.pitchNeg, raw.yawNeg, raw.rollNeg][i];
    if pos != neg && INT16_MIN <= bias + (pos - neg) <= INT16_MAX {
      ApplyAtDenominator(c, bias + (pos - neg));
    }
  }

  /** The accelerometer bias pos - (pos - neg) / 2 always fits a short, so
      the `(short)` cast in the source never wraps. */
  lemma AccelBiasFits(pos: int16, neg: int16)
    ensures INT16_MIN <= pos - TruncDiv(pos - neg, 2) <= INT16_MAX
  {
  }

  /** The X calibration: bias pos - trunc((pos - neg) / 2) and multiplier
      16384 / (pos - neg). With an even range it takes the +1 g reading to
      +8192 and the -1 g reading to -8192. */
  lemma AccelXCalibration(raw: RawCal)
    ensures var c, range := Derive(raw).x, raw.xPos - raw.xNeg;
      c.bias == raw.xPos - TruncDiv(range, 2) &&
      c.multNum == 2 * ACC_RESOLUTION_PER_G && c.multDen == range &&
      (range != 0 && range % 2 == 0 ==>
        Apply(c, raw.xPos) == ACC_RESOLUTION_PER_G && Apply(c, raw.xNeg) == -ACC_RESOLUTION_PER_G)
  {
    var c, range := Derive(raw).x, raw.xPos - raw.xNeg;
    AccelBiasFits(raw.xPos, raw.xNeg);
    if range != 0 && range % 2 == 0 {
      var half := range / 2;
      assert TruncDiv(range, 2) == half;
      assert raw.xPos - c.bias == half;
      assert raw.xNeg - c.bias == -half;
      assert half * (2 * ACC_RESOLUTION_PER_G) == ACC_RESOLUTION_PER_G * range;
      assert -half * (2 * ACC_RESOLUTION_PER_G) == -ACC_RESOLUTION_PER_G * range;
      RoundRatioUnique(half * c.multNum, range, ACC_RESOLUTION_PER_G);
      RoundRatioUnique(-half * c.multNum, range, -ACC_RESOLUTION_PER_G);
    }
  }

  /** The Y and Z calibrations as the constructor leaves them: the second
      assignment to the Y bias overwrites the first with the Z-derived
      value, the Z bias keeps its default 0, and each multiplier comes from
      its own axis's range. */
  lemma AccelYZAsWritten(raw: RawCal)
    ensures var cs := Derive(raw);
      cs.y.bias == raw.zPos - TruncDiv(raw.zPos - raw.zNeg, 2) &&
      cs.y.multNum == 2 * ACC_RESOLUTION_PER_G && cs.y.multDen == raw.yPos - raw.yNeg &&
      cs.z.bias == 0 &&
      cs.z.multNum == 2 * ACC_RESOLUTION_PER_G && cs.z.multDen == raw.zPos - raw.zNeg
  {
    AccelBiasFits(raw.zPos, raw.zNeg);
  }

  /** The symmetric Bluetooth example: zero biases, gyro ranges of +-100,
      gyro scales 1 and 1, accel ranges of +-8192. */
  lemma BluetoothExample()
    ensures var raw := RawCal(0, 0, 0, 100, -100, 100, -100, 100, -100, 1, 1,
                              8192, -8192, 8192, -8192, 8192, -8192);
      var cs := ParseCal(EncodeRaw(raw, BT_REPORT_ID));
      cs.pitch == cs.yaw == cs.roll == CalValue(0, 32, 200) &&
      cs.x == cs.y == cs.z == CalValue(0, 16384, 16384)
  {
    var raw := RawCal(0, 0, 0, 100, -100, 100, -100, 100, -100, 1, 1,
                      8192, -8192, 8192, -8192, 8192, -8192);
    DecodeEncodeRaw(raw, BT_REPORT_ID);
  }

  // ---------------------------------------------------------------------
  // Calibrating an input report in place
  // ---------------------------------------------------------------------

  /** The six motion fields start this many bytes after the report start. */
  const MOTION_OFFSET: int := 13
  const AXIS_COUNT: int := 6

  /** The buffer and the two value arrays of the calibration loop. */
  datatype PassState = PassState(buf: seq<byte>, prev: seq<int16>, curr: seq<int16>)

  /** The loop state before the first pass: both value arrays zero. */
  function Start(buf: seq<byte>): (p: PassState)
    ensures p.buf == buf && |p.prev| == AXIS_COUNT && |p.curr| == AXIS_COUNT
  {
    PassState(buf, [0, 0, 0, 0, 0, 0], [0, 0, 0, 0, 0, 0])
  }

  /** One pass of the loop over the field at `at`, which holds axis `k`:
      the field is read, recorded in `prev`, calibrated into `curr` and the
      calibrated value is written back in its place. */
  function Pass(cs: CalSet, p: PassState, at: int, k: int): (q: PassState)
    requires NonDegenerate(cs) && 0 <= k < AXIS_COUNT
    requires |p.prev| == AXIS_COUNT && |p.curr| == AXIS_COUNT && 0 <= at && at + 1 < |p.buf|
    ensures |q.buf| == |p.buf| && |q.prev| == AXIS_COUNT && |q.curr| == AXIS_COUNT
  {
    var v := ReadInt16(p.buf, at);
    var w := Apply(AxisCal(cs, k), v);
    PassState(WriteInt16(p.buf, at, w), p.prev[k := v], p.curr[k := w])
  }

  /** The loop state after `n` passes over the fields at `base`. */
  function Passes(cs: CalSet, s: PassState, base: int, n: nat): (p: PassState)
    requires NonDegenerate(cs) && n <= AXIS_COUNT
    requires |s.prev| == AXIS_COUNT && |s.curr| == AXIS_COUNT
    requires n > 0 ==> 0 <= base && base + 2 * n <= |s.buf|
    ensures |p.buf| == |s.buf| && |p.prev| == AXIS_COUNT && |p.curr| == AXIS_COUNT
  {
    if n == 0 then s
    else Pass(cs, Passes(cs, s, base, n - 1), base + 2 * (n - 1), n - 1)
  }

  /** The state after one more pass. */
  lemma PassesNext(cs: CalSet, s: PassState, base: int, n: nat)
    requires NonDegenerate(cs) && n < AXIS_COUNT
    requires |s.prev| == AXIS_COUNT && |s.curr| == AXIS_COUNT
    requires 0 <= base && base + 2 * n + 1 < |s.buf|
    ensures Passes(cs, s, base, n + 1) == Pass(cs, Passes(cs, s, base, n), base + 2 * n, n)
  {
  }

  /** After `n` passes from a fresh start no byte outside the first `n`
      fields has changed. */
  lemma {:induction false} PassesFrame(cs: CalSet, s: seq<byte>, base: int, n: nat)
    requires NonDegenerate(cs) && n <= AXIS_COUNT
    requires n > 0 ==> 0 <= base && base + 2 * n <= |s|
    ensures forall j :: 0 <= j < |s| && !(base <= j < base + 2 * n) ==>
      Passes(cs, Start(s), base, n).buf[j] == s[j]
  {
    if n > 0 {
      PassesFrame(cs, s, base, n - 1);
    }
  }

  /** After `n` passes from a fresh start, entry `k` of `prev` holds the
      original reading of axis `k`; the entries not yet reached are still
      zero. */
  lemma {:induction false} PassesRecorded(cs: CalSet, s: seq<byte>, base: int, n: nat)
    requires NonDegenerate(cs) && n <= AXIS_COUNT
    requires n > 0 ==> 0 <= base && base + 2 * n <= |s|
    ensures forall k :: 0 <= k < n ==> Passes(cs, Start(s), base, n).prev[k] == ReadInt16(s, base + 2 * k)
    ensures forall k :: n <= k < AXIS_COUNT ==> Passes(cs, Start(s), base, n).prev[k] == 0
  {
    if n > 0 {
      PassesRecorded(cs, s, base, n - 1);
      PassesFrame(cs, s, base, n - 1);
      var q := Passes(cs, Start(s), base, n - 1);
      var at := base + 2 * (n - 1);
      assert q.buf[at] == s[at] && q.buf[at + 1] == s[at + 1];
    }
  }

  /** After `n` passes from a fresh start, entry `k` of `curr` is the
      calibration of entry `k` of `prev` with axis `k`'s value; the entries
      not yet reached are still zero. */
  lemma {:induction false} PassesCalibrated(cs: CalSet, s: seq<byte>, base: int, n: nat)
    requires NonDegenerate(cs) && n <= AXIS_COUNT
    requires n > 0 ==> 0 <= base && base + 2 * n <= |s|
    ensures forall k :: 0 <= k < n ==>
      Passes(cs, Start(s), base, n).curr[k] == Apply(AxisCal(cs, k), Passes(cs, Start(s), base, n).prev[k])
    ensures forall k :: n <= k < AXIS_COUNT ==> Passes(cs, Start(s), base, n).curr[k] == 0
  {
    if n > 0 {
      PassesCalibrated(cs, s, base, n - 1);
    }
  }

  /** After `n` passes from a fresh start, each of the first `n` fields of
      the buffer reads back as the calibrated value in `curr`. */
  lemma {:induction false} PassesWrittenBack(cs: CalSet, s: seq<byte>, base: int, n: nat)
    requires NonDegenerate(cs) && n <= AXIS_COUNT
    requires n > 0 ==> 0 <= base && base + 2 * n <= |s|
    ensures forall k :: 0 <= k < n ==>
      ReadInt16(Passes(cs, Start(s), base, n).buf, base + 2 * k) == Passes(cs, Start(s), base, n).curr[k]
  {
    if n > 0 {
      PassesWrittenBack(cs, s, base, n - 1);
      var q, p := Passes(cs, Start(s), base, n - 1), Passes(cs, Start(s), base, n);
      var at := base + 2 * (n - 1);
      var w := Apply(AxisCal(cs, n - 1), ReadInt16(q.buf, at));
      assert p.buf == WriteInt16(q.buf, at, w) && p.curr == q.curr[n - 1 := w];
      forall k | 0 <= k < n - 1
        ensures ReadInt16(p.buf, base + 2 * k) == p.curr[k]
      {
        WriteKeepsOtherField(q.buf, at, w, base + 2 * k);
      }
    }
  }

  /** After all six passes the values recorded before calibration are the
      six raw readings at `base`. */
  lemma PassesComplete(cs: CalSet, s: seq<byte>, base: int)
    requires NonDegenerate(cs) && 0 <= base && base + 2 * AXIS_COUNT <= |s|
    ensures Passes(cs, Start(s), base, AXIS_COUNT).prev == ReadAxes(s, base)
  {
    PassesRecorded(cs, s, base, AXIS_COUNT);
  }

  /** How many of the six fields at `base` fit in a buffer of `len` bytes
      before the first index outside it. */
  function FieldsDone(base: int, len: nat): (n: nat)
    ensures n <= AXIS_COUNT
    ensures n > 0 ==> 0 <= base && base + 2 * n <= len
    ensures n < AXIS_COUNT ==> base < 0 || base + 2 * n + 1 >= len
  {
    if base < 0 then 0
    else if base + 12 <= len then 6
    else if base + 10 <= len then 5
    else if base + 8 <= len then 4
    else if base + 6 <= len then 3
    else if base + 4 <= len then 2
    else if base + 2 <= len then 1
    else 0
  }

  /** The six raw values at `base`, in axis order. */
  function ReadAxes(s: seq<byte>, base: int): (v: seq<int16>)
    requires 0 <= base && base + 2 * AXIS_COUNT <= |s|
    ensures |v| == AXIS_COUNT
    ensures forall i :: 0 <= i < AXIS_COUNT ==> v[i] == ReadInt16(s, base + 2 * i)
  {
    var v := ReadFields(s[base..], AXIS_COUNT);
    assert forall i :: 0 <= i < AXIS_COUNT ==> v[i] == ReadInt16(s, base + 2 * i) by {
      forall i | 0 <= i < AXIS_COUNT ensures v[i] == ReadInt16(s, base + 2 * i) {
        ReadFieldsAt(s[base..], AXIS_COUNT, i);
      }
    }
    v
  }

  /** A calibration, held for the lifetime of a device. */
  class DS4Cal {
    var calPitch: CalValue
    var calYaw: CalValue
    var calRoll: CalValue
    var calX: CalValue
    var calY: CalValue
    var calZ: CalValue

    function Cal(): CalSet
      reads this
    {
      CalSet(calPitch, calYaw, calRoll, calX, calY, calZ)
    }

    /** Parses a calibration report, reading its 17 shorts one after the
        other from byte 1, and stores the six calibrations it assembles. */
    constructor (calibReport: array<byte>)
      requires calibReport.Length >= CAL_REPORT_LEN
      ensures Cal() == ParseCal(calibReport[..])
    {
      var raw := ReadRawCal(calibReport[..]);
      var pitch, yaw, roll, x, y, z := AssembleCal(raw);
      calPitch, calYaw, calRoll, calX, calY, calZ := pitch, yaw, roll, x, y, z;
    }

    /** Calibrates the six motion fields at `startOffs + 13` in place and
        returns their values before and after. An index outside the buffer
        ends the walk as the source's exception does (`ok` false), with the
        fields before it already rewritten. */
    method ApplyCalToInReport(inputReport: array<byte>, startOffs: int)
      returns (ok: bool, prevVals: array<int16>, currVals: array<int16>)
      requires NonDegenerate(Cal())
      modifies inputReport
      ensures Cal() == old(Cal())
      ensures fresh(prevVals) && fresh(currVals)
      ensures ok <==> 0 <= startOffs + MOTION_OFFSET &&
                      startOffs + MOTION_OFFSET + 2 * AXIS_COUNT <= inputReport.Length
      ensures var p := Passes(Cal(), Start(old(inputReport[..])), startOffs + MOTION_OFFSET,
                              FieldsDone(startOffs + MOTION_OFFSET, inputReport.Length));
        inputReport[..] == p.buf && (ok ==> prevVals[..] == p.prev && currVals[..] == p.curr)
    {
      var base := startOffs + MOTION_OFFSET;
      var idx := base;
      prevVals := new int16[] [0, 0, 0, 0, 0, 0];
      currVals := new int16[] [0, 0, 0, 0, 0, 0];
      ghost var start := Start(inputReport[..]);
      var cs := Cal();
      var i := 0;
      // an index outside the buffer throws before the field is touched
      while i < AXIS_COUNT && 0 <= idx && idx + 1 < inputReport.Length
        invariant 0 <= i <= AXIS_COUNT && idx == base + 2 * i
        invariant prevVals != currVals
        invariant i > 0 ==> 0 <= base && base + 2 * i <= inputReport.Length
        invariant PassState(inputReport[..], prevVals[..], currVals[..]) == Passes(cs, start, base, i)
      {
        PassesNext(cs, start, base, i);
        CalibratePass(cs, inputReport, prevVals, currVals, idx, i);
        idx := idx + 2;
        i := i + 1;
      }
      ok := i == AXIS_COUNT;
      assert FieldsDone(base, inputReport.Length) == i;
      assert cs == Cal() && start == Start(old(inputReport[..]));
    }
  }

  /** One pass of the calibration loop: reads the short at `idx` into
      `prevVals[i]`, calibrates it with axis `i`'s value into `currVals[i]`
      and writes it back little-endian at `idx`. */
  method CalibratePass(cs: CalSet, a: array<byte>, prevVals: array<int16>, currVals: array<int16>,
                       idx: int, i: int)
    requires NonDegenerate(cs) && 0 <= i < AXIS_COUNT && 0 <= idx && idx + 1 < a.Length
    requires prevVals.Length == AXIS_COUNT && currVals.Length == AXIS_COUNT && prevVals != currVals
    modifies a, prevVals, currVals
    ensures PassState(a[..], prevVals[..], currVals[..]) ==
            Pass(cs, PassState(old(a[..]), old(prevVals[..]), old(currVals[..])), idx, i)
  {
    var axisVal := ReadShort(a, idx);
    EncodeThenRead(axisVal);
    assert ReadInt16(a[idx..idx + 2], 0) == ReadInt16(a[..], idx);
    prevVals[i] := axisVal;
    axisVal := Apply(AxisCal(cs, i), axisVal);
    currVals[i] := axisVal;
    WriteShort(a, idx, axisVal);
  }

  /** `(short)(a[idx + 1] << 8 | a[idx])`: the short whose little-endian
      encoding is the two bytes at `idx`. */
  method ReadShort(a: array<byte>, idx: int) returns (v: int16)
    requires 0 <= idx && idx + 1 < a.Length
    ensures EncodeInt16(v) == a[idx..idx + 2]
  {
    v := ToInt16(U16(a[idx], a[idx + 1]));
    ReadThenEncode(a[..], idx);
  }

  /** Stores `v` little-endian at `a[idx]`, `a[idx + 1]`. */
  method WriteShort(a: array<byte>, idx: int, v: int16)
    requires 0 <= idx && idx + 1 < a.Length
    modifies a
    ensures a[..] == WriteInt16(old(a[..]), idx, v)
  {
    var u := ToUInt16(v);
    a[idx] := u % 0x100;
    a[idx + 1] := u / 0x100;
  }

  /** The body of the `DS4Cal` constructor after the reads: it assembles
      the six calibrations field by field, in the source's order, from the
      17 raw shorts. */
  method AssembleCal(raw: RawCal) returns (pitch: CalValue, yaw: CalValue, roll: CalValue,
                                           x: CalValue, y: CalValue, z: CalValue)
    ensures CalSet(pitch, yaw, roll, x, y, z) == Derive(raw)
  {
    // the fields of a C# struct start out zero
    pitch, yaw, roll := CalValue(0, 0, 1), CalValue(0, 0, 1), CalValue(0, 0, 1);
    x, y, z := CalValue(0, 0, 1), CalValue(0, 0, 1), CalValue(0, 0, 1);

    pitch := pitch.(bias := raw.pitchBias);
    yaw := yaw.(bias := raw.yawBias);
    roll := roll.(bias := raw.rollBias);

    var gyroNumer: int := (raw.gyroPosScale as int + raw.gyroNegScale as int) * GYRO_RESOLUTION_IN_DEG_SEC;

    pitch := pitch.(multNum := gyroNumer, multDen := raw.pitchPos as int - raw.pitchNeg as int);
    yaw := yaw.(multNum := gyroNumer, multDen := raw.yawPos as int - raw.yawNeg as int);
    roll := roll.(multNum := gyroNumer, multDen := raw.rollPos as int - raw.rollNeg as int);

    var accDblRange: int := 2 * ACC_RESOLUTION_PER_G;
    var xDblRange: int := raw.xPos as int - raw.xNeg as int;
    var yDblRange: int := raw.yPos as int - raw.yNeg as int;
    var zDblRange: int := raw.zPos as int - raw.zNeg as int;

    x := x.(bias := AccelBias(raw.xPos, raw.xNeg));
    x := x.(multNum := accDblRange, multDen := xDblRange);

    y := y.(bias := AccelBias(raw.yPos, raw.yNeg));
    y := y.(multNum := accDblRange, multDen := yDblRange);

    y := y.(bias := AccelBias(raw.zPos, raw.zNeg));
    z := z.(multNum := accDblRange, multDen := zDblRange);
  }

  /** Reads the 17 shorts of a calibration report one after the other from
      byte 1, in the order the report id selects. */
  method ReadRawCal(report: seq<byte>) returns (raw: RawCal)
    requires |report| >= CAL_REPORT_LEN
    ensures raw == DecodeRaw(report)
  {
    var fromBluetooth := report[0] == BT_REPORT_ID;
    var idx := 1;
    var pitchBias := ReadInt16(report, idx); idx := idx + 2;
    var yawBias := ReadInt16(report, idx); idx := idx + 2;
    var rollBias := ReadInt16(report, idx); idx := idx + 2;

    var pitchPos: int16, pitchNeg: int16, yawPos: int16, yawNeg: int16, rollPos: int16, rollNeg: int16;
    if fromBluetooth {
      pitchPos := ReadInt16(report, idx); idx := idx + 2;
      yawPos := ReadInt16(report, idx); idx := idx + 2;
      rollPos := ReadInt16(report, idx); idx := idx + 2;
      pitchNeg := ReadInt16(report, idx); idx := idx + 2;
      yawNeg := ReadInt16(report, idx); idx := idx + 2;
      rollNeg := ReadInt16(report, idx); idx := idx + 2;
    } else {
      pitchPos := ReadInt16(report, idx); idx := idx + 2;
      pitchNeg := ReadInt16(report, idx); idx := idx + 2;
      yawPos := ReadInt16(report, idx); idx := idx + 2;
      yawNeg := ReadInt16(report, idx); idx := idx + 2;
      rollPos := ReadInt16(report, idx); idx := idx + 2;
      rollNeg := ReadInt16(report, idx); idx := idx + 2;
    }

    var gyroPosScale := ReadInt16(report, idx); idx := idx + 2;
    var gyroNegScale := ReadInt16(report, idx); idx := idx + 2;

    var xPos := ReadInt16(report, idx); idx := idx + 2;
    var xNeg := ReadInt16(report, idx); idx := idx + 2;
    var yPos := ReadInt16(report, idx); idx := idx + 2;
    var yNeg := ReadInt16(report, idx); idx := idx + 2;
    var zPos := ReadInt16(report, idx); idx := idx + 2;
    var zNeg := ReadInt16(report, idx); idx := idx + 2;
    // the cursor ends just past the 17th short
    assert idx == CAL_REPORT_LEN;

    raw := RawCal(pitchBias, yawBias, rollBias, pitchPos, pitchNeg, yawPos, yawNeg, rollPos, rollNeg,
                  gyroPosScale, gyroNegScale, xPos, xNeg, yPos, yNeg, zPos, zNeg);
    DecodeRawFromOffsets(report, raw);
  }
}
