/** The wire's fixed-point fields, in exact arithmetic. */
module FixedPoint {
  import opened Framing
  import opened Telemetry
  import opened Numbers

  const POS_SCALE := 10000.0
  const VEL_SCALE := 100.0
  const TAU_SCALE := 100.0
  const KP_SCALE := 10.0
  const KD_SCALE := 100.0

  datatype Encoded<Raw> = Encoded(raw: Raw, saturated: bool)

  /** The conversion of a floating value to an integer type: toward zero. */
  function Truncate(x: real): int {
    if x >= 0.0 then x.Floor else -((-x).Floor)
  }

  function EncodeI16(v: Num, scale: real): Encoded<i16> {
    if !v.IsFinite() then Encoded(0, true)
    else
      var scaled := v.r * scale;
      var rounded := if scaled >= 0.0 then scaled + 0.5 else scaled - 0.5;
      if rounded > 32767.0 then Encoded(32767, true)
      else if rounded < -32768.0 then Encoded(-32768, true)
      else Encoded(Truncate(rounded), false)
  }

  function EncodeU16(v: Num, scale: real): Encoded<u16> {
    if !v.IsFinite() then Encoded(0, true)
    else
      var rounded := v.r * scale + 0.5;
      if rounded > 65535.0 then Encoded(65535, true)
      else if rounded < 0.0 then Encoded(0, true)
      else Encoded(rounded.Floor, false)
  }

  function DecodeI16(raw: i16, scale: real): real
    requires scale > 0.0
  {
    raw as real / scale
  }

  /** Unsaturated exactly when the scaled value keeps half an LSB clear of the type's limits: the
      top half LSB of the range is refused even though it would round to a representable value. */
  lemma EncodeI16Saturation(v: Num, scale: real)
    ensures !EncodeI16(v, scale).saturated
      <==> v.IsFinite() && -32767.5 <= v.r * scale <= 32766.5
  {
  }

  /** Unsaturated encoding rounds to nearest, ties away from zero. */
  lemma EncodeI16Rounds(v: Num, scale: real)
    requires !EncodeI16(v, scale).saturated
    ensures var e := EncodeI16(v, scale).raw as real - v.r * scale;
      && -0.5 <= e <= 0.5
      && (e == 0.5 ==> v.r * scale >= 0.0) && (e == -0.5 ==> v.r * scale <= 0.0)
  {
  }

  /** A value out of range goes out as the end of the range it is beyond, and none at all as zero. */
  lemma EncodeI16Clamps(v: Num, scale: real)
    requires EncodeI16(v, scale).saturated
    ensures EncodeI16(v, scale).raw ==
      if !v.IsFinite() then 0 else if v.r * scale > 0.0 then 32767 else -32768
  {
  }

  lemma EncodeU16Clamps(v: Num, scale: real)
    requires EncodeU16(v, scale).saturated
    ensures EncodeU16(v, scale).raw ==
      if v.IsFinite() && v.r * scale > 0.0 then 65535 else 0
  {
  }

  lemma EncodeU16Saturation(v: Num, scale: real)
    ensures !EncodeU16(v, scale).saturated
      <==> v.IsFinite() && -0.5 <= v.r * scale <= 65534.5
  {
  }

  lemma EncodeU16Rounds(v: Num, scale: real)
    requires !EncodeU16(v, scale).saturated
    ensures -0.5 <= EncodeU16(v, scale).raw as real - v.r * scale <= 0.5
  {
  }

  /** Every raw value decodes and re-encodes to itself; only the two extremes are flagged. */
  lemma EncodeInvertsDecode(raw: i16, scale: real)
    requires scale > 0.0
    ensures var e := EncodeI16(Real(DecodeI16(raw, scale)), scale);
      e.raw == raw && (e.saturated <==> raw == 32767 || raw == -32768)
  {
    assert DecodeI16(raw, scale) * scale == raw as real;
  }

  /** Decoding an unsaturated encoding loses at most half an LSB. */
  lemma DecodeWithinHalfLsb(v: Num, scale: real)
    requires scale > 0.0 && !EncodeI16(v, scale).saturated
    ensures var error := DecodeI16(EncodeI16(v, scale).raw, scale) - v.r;
      -0.5 / scale <= error <= 0.5 / scale
  {
    EncodeI16Rounds(v, scale);
    var raw := EncodeI16(v, scale).raw as real;
    DivideBounds(raw - v.r * scale, scale);
    SplitQuotient(raw, v.r, scale);
  }

  lemma DivideBounds(e: real, scale: real)
    requires scale > 0.0 && -0.5 <= e <= 0.5
    ensures -0.5 / scale <= e / scale <= 0.5 / scale
  {
    DivideKeepsOrder(-0.5, e, scale);
    DivideKeepsOrder(e, 0.5, scale);
  }

  lemma DivideKeepsOrder(a: real, b: real, scale: real)
    requires scale > 0.0 && a <= b
    ensures a / scale <= b / scale
  {
    var x, y := a / scale, b / scale;
    assert x * scale == a && y * scale == b;
    assert x <= y || (x - y) * scale > 0.0;
  }

  lemma SplitQuotient(raw: real, x: real, scale: real)
    requires scale > 0.0
    ensures (raw - x * scale) / scale == raw / scale - x
  {
    assert x * scale / scale == x;
  }

  // ---- One motor's command ----

  datatype MitSetpoint = MitSetpoint(
    position: Num, velocity: Num, stiffness: Num, damping: Num, effort: Num)

  datatype EncodedTuple = EncodedTuple(
    pos: i16, vel: i16, kp: u16, kd: u16, tauFf: i16, representable: bool)

  function EncodeTuple(s: MitSetpoint): EncodedTuple {
    var pos := EncodeI16(s.position, POS_SCALE);
    var vel := EncodeI16(s.velocity, VEL_SCALE);
    var kp := EncodeU16(s.stiffness, KP_SCALE);
    var kd := EncodeU16(s.damping, KD_SCALE);
    var tau := EncodeI16(s.effort, TAU_SCALE);
    var inHomeFrame := AtMost(Abs(s.position), Real(PI));
    EncodedTuple(pos.raw, vel.raw, kp.raw, kd.raw, tau.raw,
      !(pos.saturated || vel.saturated || kp.saturated || kd.saturated || tau.saturated) &&
      inHomeFrame)
  }
}
