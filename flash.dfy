/**
 * The inner flash routines of src/backend/refprop.rs: the ten direct flashes,
 * which echo their two inputs into the state they return, the saturation
 * lookups, and the quality flashes built from a saturation lookup and the
 * two-phase interpolation between saturated liquid and saturated vapour.
 * Every routine here runs with the lock held and the engine set up.
 */
module Flash {
  import opened Properties
  import opened Errors
  import opened NativeEngine
  import opened Session

  // ------------------------------------------------------------------
  //  Direct flashes
  // ------------------------------------------------------------------

  /** The two inputs of a flash primitive, in the order it takes them. */
  function Inputs(prim: FlashPrimitive): (Field, Field)
  {
    match prim
    case TP => (Temperature, Pressure)
    case PH => (Pressure, Enthalpy)
    case PS => (Pressure, Entropy)
    case TD => (Temperature, Density)
    case PD => (Pressure, Density)
    case TH => (Temperature, Enthalpy)
    case TS => (Temperature, Entropy)
    case DH => (Density, Enthalpy)
    case DS => (Density, Entropy)
    case HS => (Enthalpy, Entropy)
  }

  /** `tp` with field `f` replaced by `v`. */
  function WithField(tp: ThermoProp, f: Field, v: real): (r: ThermoProp)
    ensures Value(f, r) == v
    ensures forall g :: g != f ==> Value(g, r) == Value(g, tp)
  {
    match f
    case Temperature => tp.(temperature := v)
    case Pressure => tp.(pressure := v)
    case Density => tp.(density := v)
    case Enthalpy => tp.(enthalpy := v)
    case Entropy => tp.(entropy := v)
    case Quality => tp.(quality := v)
    case Cv => tp.(cv := v)
    case Cp => tp.(cp := v)
    case SoundSpeed => tp.(soundSpeed := v)
    case InternalEnergy => tp.(internalEnergy := v)
  }

  /** Two states that agree on every field are the same state. */
  lemma FieldsDetermineState(a: ThermoProp, b: ThermoProp)
    requires forall f :: Value(f, a) == Value(f, b)
    ensures a == b
  {
    assert Value(Temperature, a) == Value(Temperature, b);
    assert Value(Pressure, a) == Value(Pressure, b);
    assert Value(Density, a) == Value(Density, b);
    assert Value(Enthalpy, a) == Value(Enthalpy, b);
    assert Value(Entropy, a) == Value(Entropy, b);
    assert Value(Quality, a) == Value(Quality, b);
    assert Value(Cv, a) == Value(Cv, b);
    assert Value(Cp, a) == Value(Cp, b);
    assert Value(SoundSpeed, a) == Value(SoundSpeed, b);
    assert Value(InternalEnergy, a) == Value(InternalEnergy, b);
  }

  /**
   * `flash_<xy>_inner`: one flash primitive. On success the state carries the
   * two inputs exactly as given, and every other field as the engine
   * computed it.
   */
  function FlashInner(e: Routines, z: Composition, prim: FlashPrimitive, a: real, b: real): (r: Result<ThermoProp>)
    ensures r.Ok? <==> e.flash(prim, a, b, z).ierr <= 0
    ensures r.Err? ==> r.error.Refprop? && r.error.code == e.flash(prim, a, b, z).ierr
    ensures r.Ok? ==> Value(Inputs(prim).0, r.value) == a && Value(Inputs(prim).1, r.value) == b
    ensures r.Ok? ==> forall f :: f != Inputs(prim).0 && f != Inputs(prim).1 ==>
                        Value(f, r.value) == Value(f, e.flash(prim, a, b, z).value)
  {
    var computed :- Checked(e.flash(prim, a, b, z));
    Ok(WithField(WithField(computed, Inputs(prim).0, a), Inputs(prim).1, b))
  }

  // ------------------------------------------------------------------
  //  Saturation lookups
  // ------------------------------------------------------------------

  /** The curve the quality flashes consult: the dew curve from q = 0.5 on. */
  function ChooseCurve(q: real): (c: Curve)
    ensures Kph(c) == 2 <==> q >= 0.5
    ensures Kph(c) == 1 <==> q < 0.5
  {
    if q >= 0.5 then Dew else Bubble
  }

  /** `sat_t_inner`: the saturation point at temperature `t` on curve `c`. */
  function SatTInner(e: Routines, z: Composition, t: real, c: Curve): (r: Result<SaturationProps>)
    ensures r.Ok? <==> e.satT(t, z, c).ierr <= 0
    ensures r.Ok? ==> r.value.temperature == t && r.value.pressure == e.satT(t, z, c).value.other
    ensures r.Ok? ==> r.value.densityLiquid > 0.0 && r.value.densityVapor > 0.0
  {
    var sp :- Checked(e.satT(t, z, c));
    Ok(SaturationProps(t, sp.other, sp.densityLiquid, sp.densityVapor))
  }

  /** `sat_p_inner`: the saturation point at pressure `p` on curve `c`. */
  function SatPInner(e: Routines, z: Composition, p: real, c: Curve): (r: Result<SaturationProps>)
    ensures r.Ok? <==> e.satP(p, z, c).ierr <= 0
    ensures r.Ok? ==> r.value.pressure == p && r.value.temperature == e.satP(p, z, c).value.other
    ensures r.Ok? ==> r.value.densityLiquid > 0.0 && r.value.densityVapor > 0.0
  {
    var sp :- Checked(e.satP(p, z, c));
    Ok(SaturationProps(sp.other, p, sp.densityLiquid, sp.densityVapor))
  }

  /** `transport_inner`: viscosity and thermal conductivity at (t, d). */
  function TransportInner(e: Routines, z: Composition, t: real, d: real): (r: Result<TransportProps>)
    ensures r.Ok? <==> e.transport(t, d, z).ierr <= 0
    ensures r.Ok? ==> r.value == e.transport(t, d, z).value
  {
    Checked(e.transport(t, d, z))
  }

  // ------------------------------------------------------------------
  //  Two-phase interpolation
  // ------------------------------------------------------------------

  /**
   * `therm_inner` at (t, d) with the given quality in place of the NaN it
   * leaves there: temperature and density as given, the rest from THERMdll.
   */
  function ThermState(e: Routines, z: Composition, t: real, d: real, quality: real): ThermoProp
  {
    var th := e.therm(t, d, z);
    ThermoProp(t, th.pressure, d, th.enthalpy, th.entropy, th.cv, th.cp, th.soundSpeed, quality, th.internalEnergy)
  }

  /** A saturated state: THERMdll at (t, d), with the saturation pressure `p` and the given quality. */
  function Saturated(e: Routines, z: Composition, t: real, p: real, d: real, quality: real): (r: ThermoProp)
    ensures r.temperature == t && r.pressure == p && r.density == d && r.quality == quality
  {
    ThermState(e, z, t, d, quality).(pressure := p)
  }

  /** The quality as the interpolated state reports it: q, clamped to [0, 1]. */
  function Clamp(q: real): (r: real)
    ensures 0.0 <= r <= 1.0
    ensures 0.0 <= q <= 1.0 ==> r == q
  {
    if q <= 0.0 then 0.0 else if q >= 1.0 then 1.0 else q
  }

  function Lerp(a: real, b: real, q: real): real
  {
    a * (1.0 - q) + b * q
  }

  predicate Between(x: real, a: real, b: real)
  {
    (a <= x <= b) || (b <= x <= a)
  }

  /** The fields blended linearly in quality. */
  const Blended: set<Field> := {Enthalpy, Entropy, Cv, Cp, SoundSpeed, InternalEnergy}

  /**
   * The two-phase blend of a liquid and a vapour state at quality q: specific
   * volumes and the fields of `Blended` mix linearly; temperature and
   * pressure are the saturation values.
   */
  function Blend(liq: ThermoProp, vap: ThermoProp, t: real, p: real, dl: Density, dv: Density, q: real): ThermoProp
    requires 0.0 <= q <= 1.0
  {
    VolumePositive(dl, dv, q);
    ThermoProp(
      t, p, 1.0 / ((1.0 - q) / dl + q / dv),
      Lerp(liq.enthalpy, vap.enthalpy, q),
      Lerp(liq.entropy, vap.entropy, q),
      Lerp(liq.cv, vap.cv, q),
      Lerp(liq.cp, vap.cp, q),
      Lerp(liq.soundSpeed, vap.soundSpeed, q),
      q,
      Lerp(liq.internalEnergy, vap.internalEnergy, q))
  }

  /** Every blended field of Blend is the quality-weighted mix of the two states. */
  lemma BlendFields(liq: ThermoProp, vap: ThermoProp, t: real, p: real, dl: Density, dv: Density, q: real)
    requires 0.0 <= q <= 1.0
    ensures forall f :: f in Blended ==> Value(f, Blend(liq, vap, t, p, dl, dv, q)) == Lerp(Value(f, liq), Value(f, vap), q)
  {
  }

  lemma MulNonNegative(a: real, b: real)
    requires a >= 0.0 && b >= 0.0
    ensures a * b >= 0.0
  {
  }

  /** A weighted mix lies between its two ends. */
  lemma LerpBetween(a: real, b: real, q: real)
    requires 0.0 <= q <= 1.0
    ensures Between(Lerp(a, b, q), a, b)
  {
    assert Lerp(a, b, q) - a == (b - a) * q;
    assert b - Lerp(a, b, q) == (b - a) * (1.0 - q);
    if a <= b {
      MulNonNegative(b - a, q);
      MulNonNegative(b - a, 1.0 - q);
    } else {
      MulNonNegative(a - b, q);
      MulNonNegative(a - b, 1.0 - q);
      assert a - Lerp(a, b, q) == (a - b) * q;
      assert Lerp(a, b, q) - b == (a - b) * (1.0 - q);
    }
  }

  /** The reciprocal reverses order on positive numbers. */
  lemma ReciprocalAntitone(x: real, y: real)
    requires 0.0 < x <= y
    ensures 1.0 / y <= 1.0 / x
  {
    assert 1.0 / x - 1.0 / y == (y - x) / (x * y);
    MulNonNegative(y - x, 1.0 / (x * y));
  }

  /** The quality-weighted specific volume of two positive densities is positive. */
  lemma VolumePositive(dl: Density, dv: Density, q: real)
    requires 0.0 <= q <= 1.0
    ensures (1.0 - q) / dl + q / dv > 0.0
  {
    MulNonNegative(1.0 - q, 1.0 / dl);
    MulNonNegative(q, 1.0 / dv);
    assert (1.0 - q) / dl == (1.0 - q) * (1.0 / dl);
    assert q / dv == q * (1.0 / dv);
    if q < 0.5 {
      assert (1.0 - q) * (1.0 / dl) > 0.0;
    } else {
      assert q * (1.0 / dv) > 0.0;
    }
  }

  /**
   * The blended density: its specific volume is the quality-weighted mix of
   * the two specific volumes, so it is positive and lies between dl and dv.
   */
  lemma BlendDensity(dl: Density, dv: Density, q: real)
    requires 0.0 <= q <= 1.0
    ensures var v := (1.0 - q) / dl + q / dv;
      && v > 0.0
      && v == Lerp(1.0 / dl, 1.0 / dv, q)
      && 1.0 / v > 0.0
      && 1.0 / (1.0 / v) == v
      && Between(1.0 / v, dl, dv)
  {
    var vl, vv := 1.0 / dl, 1.0 / dv;
    var v := (1.0 - q) / dl + q / dv;
    assert (1.0 - q) / dl == (1.0 - q) * vl;
    assert q / dv == q * vv;
    assert v == Lerp(vl, vv, q);
    LerpBetween(vl, vv, q);
    assert vl > 0.0 && vv > 0.0;
    assert v > 0.0;
    assert 1.0 / (1.0 / dl) == dl;
    assert 1.0 / (1.0 / dv) == dv;
    if vl <= vv {
      ReciprocalAntitone(vl, v);
      ReciprocalAntitone(v, vv);
    } else {
      ReciprocalAntitone(vv, v);
      ReciprocalAntitone(v, vl);
    }
  }

  /**
   * `interpolate_quality` (newer backend). At or below q = 0 the saturated
   * liquid state, at or above q = 1 the saturated vapour state, both with the
   * saturation pressure `p`; in between the blend of the two. The state always
   * has temperature `t`, pressure `p` and the clamped quality; inside the
   * two-phase region the density is the volume-weighted mix of the saturation
   * densities and every blended field lies between its liquid and vapour
   * values.
   */
  function InterpolateQuality(e: Routines, z: Composition, t: real, p: real, dl: Density, dv: Density, q: real): (r: ThermoProp)
    ensures r.temperature == t && r.pressure == p && r.quality == Clamp(q)
    ensures q <= 0.0 ==> r == Saturated(e, z, t, p, dl, 0.0)
    ensures q >= 1.0 ==> r == Saturated(e, z, t, p, dv, 1.0)
    ensures 0.0 < q < 1.0 ==> r.density > 0.0 && 1.0 / r.density == (1.0 - q) / dl + q / dv
    ensures 0.0 < q < 1.0 ==> Between(r.density, dl, dv)
    ensures 0.0 < q < 1.0 ==> forall f :: f in Blended ==>
              Value(f, r) == Lerp(Value(f, Saturated(e, z, t, p, dl, 0.0)), Value(f, Saturated(e, z, t, p, dv, 1.0)), q)
    ensures 0.0 < q < 1.0 ==> forall f :: f in Blended ==>
              Between(Value(f, r), Value(f, Saturated(e, z, t, p, dl, 0.0)), Value(f, Saturated(e, z, t, p, dv, 1.0)))
  {
    if q <= 0.0 then Saturated(e, z, t, p, dl, 0.0)
    else if q >= 1.0 then Saturated(e, z, t, p, dv, 1.0)
    else
      var liq := ThermState(e, z, t, dl, 0.0);
      var vap := ThermState(e, z, t, dv, 1.0);
      BlendDensity(dl, dv, q);
      BlendFields(liq, vap, t, p, dl, dv, q);
      BlendBetween(liq, vap, t, p, dl, dv, q);
      var r := Blend(liq, vap, t, p, dl, dv, q);
      assert r.density == 1.0 / ((1.0 - q) / dl + q / dv);
      r
  }

  /** Every blended field of Blend lies between its values in the two states. */
  lemma BlendBetween(liq: ThermoProp, vap: ThermoProp, t: real, p: real, dl: Density, dv: Density, q: real)
    requires 0.0 <= q <= 1.0
    ensures forall f :: f in Blended ==> Between(Value(f, Blend(liq, vap, t, p, dl, dv, q)), Value(f, liq), Value(f, vap))
  {
    LerpBetween(liq.enthalpy, vap.enthalpy, q);
    LerpBetween(liq.entropy, vap.entropy, q);
    LerpBetween(liq.cv, vap.cv, q);
    LerpBetween(liq.cp, vap.cp, q);
    LerpBetween(liq.soundSpeed, vap.soundSpeed, q);
    LerpBetween(liq.internalEnergy, vap.internalEnergy, q);
  }

  /** A weighted mix of two different values determines its weight. */
  lemma LerpInverse(a: real, b: real, q: real)
    requires a != b
    ensures q == (Lerp(a, b, q) - a) / (b - a)
  {
    assert Lerp(a, b, q) - a == q * (b - a);
  }

  /**
   * The lever rule: inside the two-phase region the quality can be read back
   * from any blended field whose liquid and vapour values differ.
   */
  lemma LeverRule(e: Routines, z: Composition, t: real, p: real, dl: Density, dv: Density, q: real, f: Field)
    requires 0.0 < q < 1.0 && f in Blended
    requires Value(f, Saturated(e, z, t, p, dl, 0.0)) != Value(f, Saturated(e, z, t, p, dv, 1.0))
    ensures var liq, vap := Value(f, Saturated(e, z, t, p, dl, 0.0)), Value(f, Saturated(e, z, t, p, dv, 1.0));
      q == (Value(f, InterpolateQuality(e, z, t, p, dl, dv, q)) - liq) / (vap - liq)
  {
    var liq, vap := Value(f, Saturated(e, z, t, p, dl, 0.0)), Value(f, Saturated(e, z, t, p, dv, 1.0));
    BlendFields(ThermState(e, z, t, dl, 0.0), ThermState(e, z, t, dv, 1.0), t, p, dl, dv, q);
    LerpInverse(liq, vap, q);
  }

  /** The same for density: the quality is the vapour share of the specific volume. */
  lemma LeverRuleDensity(e: Routines, z: Composition, t: real, p: real, dl: Density, dv: Density, q: real)
    requires 0.0 < q < 1.0 && dl != dv
    ensures q == (1.0 / InterpolateQuality(e, z, t, p, dl, dv, q).density - 1.0 / dl) / (1.0 / dv - 1.0 / dl)
  {
    BlendDensity(dl, dv, q);
    ReciprocalInjective(dl, dv);
    LerpInverse(1.0 / dl, 1.0 / dv, q);
  }

  lemma ReciprocalInjective(x: Density, y: Density)
    requires x != y
    ensures 1.0 / x != 1.0 / y
  {
    assert x * (1.0 / x) == 1.0 && y * (1.0 / y) == 1.0;
  }

  /**
   * The interpolation has no jump at the phase boundaries: the two-phase
   * blend, taken at q = 0 and at q = 1, is exactly the saturated liquid and
   * the saturated vapour state returned there.
   */
  lemma InterpolationContinuous(e: Routines, z: Composition, t: real, p: real, dl: Density, dv: Density)
    ensures Blend(ThermState(e, z, t, dl, 0.0), ThermState(e, z, t, dv, 1.0), t, p, dl, dv, 0.0)
            == InterpolateQuality(e, z, t, p, dl, dv, 0.0)
    ensures Blend(ThermState(e, z, t, dl, 0.0), ThermState(e, z, t, dv, 1.0), t, p, dl, dv, 1.0)
            == InterpolateQuality(e, z, t, p, dl, dv, 1.0)
  {
    assert 1.0 / ((1.0 - 0.0) / dl + 0.0 / dv) == dl;
    assert 1.0 / ((1.0 - 1.0) / dl + 1.0 / dv) == dv;
  }

  // ------------------------------------------------------------------
  //  Quality flashes
  // ------------------------------------------------------------------

  /**
   * `flash_tq_inner`: the saturation point at `t` on the curve the quality
   * selects, then the interpolation at that point. The state has temperature
   * `t`, the saturation pressure and the clamped quality.
   */
  function FlashTQInner(e: Routines, z: Composition, t: real, q: real): (r: Result<ThermoProp>)
    ensures r.Ok? <==> e.satT(t, z, ChooseCurve(q)).ierr <= 0
    ensures r.Ok? ==> && r.value.temperature == t
                      && r.value.pressure == e.satT(t, z, ChooseCurve(q)).value.other
                      && r.value.quality == Clamp(q)
  {
    var sat :- SatTInner(e, z, t, ChooseCurve(q));
    Ok(InterpolateQuality(e, z, t, sat.pressure, sat.densityLiquid, sat.densityVapor, q))
  }

  /**
   * `flash_pq_inner`: the saturation point at `p` on the curve the quality
   * selects, then the interpolation at that point. The state has pressure
   * `p`, the saturation temperature and the clamped quality.
   */
  function FlashPQInner(e: Routines, z: Composition, p: real, q: real): (r: Result<ThermoProp>)
    ensures r.Ok? <==> e.satP(p, z, ChooseCurve(q)).ierr <= 0
    ensures r.Ok? ==> && r.value.pressure == p
                      && r.value.temperature == e.satP(p, z, ChooseCurve(q)).value.other
                      && r.value.quality == Clamp(q)
  {
    var sat :- SatPInner(e, z, p, ChooseCurve(q));
    Ok(InterpolateQuality(e, z, sat.temperature, p, sat.densityLiquid, sat.densityVapor, q))
  }

  /**
   * The quality flashes consult one saturation curve only: two engines that
   * agree on the chosen curve at that point (and on THERMdll) give the same
   * result, whatever they answer on the other curve.
   */
  lemma QualityFlashesConsultChosenCurve(e1: Routines, e2: Routines, z: Composition, x: real, q: real)
    requires e1.therm == e2.therm
    requires e1.satT(x, z, ChooseCurve(q)) == e2.satT(x, z, ChooseCurve(q))
    requires e1.satP(x, z, ChooseCurve(q)) == e2.satP(x, z, ChooseCurve(q))
    ensures FlashTQInner(e1, z, x, q) == FlashTQInner(e2, z, x, q)
    ensures FlashPQInner(e1, z, x, q) == FlashPQInner(e2, z, x, q)
  {
  }

  // ------------------------------------------------------------------
  //  Flash routes
  // ------------------------------------------------------------------

  /** The flash a supported input pair is routed to. */
  datatype Pair = Native(prim: FlashPrimitive) | TQ | PQ

  /** The two inputs a route takes, in the order it takes them. */
  function PairInputs(pair: Pair): (Field, Field)
  {
    match pair
    case Native(prim) => Inputs(prim)
    case TQ => (Temperature, Quality)
    case PQ => (Pressure, Quality)
  }

  /**
   * One flash along a route. On success the first input comes back exactly,
   * and so does the second, except that a quality comes back clamped to
   * [0, 1]; every failure is an engine error.
   */
  function RunPair(e: Routines, z: Composition, pair: Pair, a: real, b: real): (r: Result<ThermoProp>)
    ensures r.Err? ==> r.error.Refprop?
    ensures r.Ok? ==> Value(PairInputs(pair).0, r.value) == a
    ensures r.Ok? ==> Value(PairInputs(pair).1, r.value) == (if pair.Native? then b else Clamp(b))
  {
    match pair
    case Native(prim) => FlashInner(e, z, prim, a, b)
    case TQ => FlashTQInner(e, z, a, b)
    case PQ => FlashPQInner(e, z, a, b)
  }
}
