/**
 * The older backend (refprop/src/backend/refprop.rs). Its session layer,
 * constructors, error classifier, input validation, saturation lookups,
 * transport, critical-point and fluid-info operations are the same as the
 * newer backend's and are shared with it. What differs is modelled here:
 * `get` knows five input pairs only, the quality flashes always consult the
 * bubble curve, and the two-phase interpolation keeps the pressure THERMdll
 * reports at the phase boundaries.
 */
module Legacy {
  import opened Text
  import opened Properties
  import opened Errors
  import opened NativeEngine
  import opened Session
  import opened Flash
  import Dispatch
  import Backend

  // ------------------------------------------------------------------
  //  Two-phase interpolation and quality flashes
  // ------------------------------------------------------------------

  /**
   * `interpolate_quality` (older backend). At or below q = 0 the THERMdll
   * state at the liquid density, at or above q = 1 the one at the vapour
   * density, each with its quality forced to 0 or 1 but with the pressure
   * THERMdll computed there; in between the same blend as the newer backend,
   * at the saturation pressure `p`.
   */
  function InterpolateQuality(e: Routines, z: Composition, t: real, p: real, dl: Density, dv: Density, q: real): (r: ThermoProp)
    ensures r.temperature == t && r.quality == Clamp(q)
    ensures q <= 0.0 ==> r.density == dl && r.pressure == e.therm(t, dl, z).pressure
    ensures q >= 1.0 ==> r.density == dv && r.pressure == e.therm(t, dv, z).pressure
    ensures 0.0 < q < 1.0 ==> r.pressure == p
  {
    if q <= 0.0 then ThermState(e, z, t, dl, 0.0)
    else if q >= 1.0 then ThermState(e, z, t, dv, 1.0)
    else Blend(ThermState(e, z, t, dl, 0.0), ThermState(e, z, t, dv, 1.0), t, p, dl, dv, q)
  }

  /** Inside the two-phase region both backends interpolate identically. */
  lemma InteriorAgrees(e: Routines, z: Composition, t: real, p: real, dl: Density, dv: Density, q: real)
    requires 0.0 < q < 1.0
    ensures InterpolateQuality(e, z, t, p, dl, dv, q) == Flash.InterpolateQuality(e, z, t, p, dl, dv, q)
  {
  }

  /**
   * At the phase boundaries the two backends return the same state except
   * for the pressure: the saturation pressure in the newer one, THERMdll's
   * pressure at the saturation density in the older one.
   */
  lemma BoundaryDiffersOnlyInPressure(e: Routines, z: Composition, t: real, p: real, dl: Density, dv: Density, q: real)
    requires q <= 0.0 || q >= 1.0
    ensures var d := if q <= 0.0 then dl else dv;
      InterpolateQuality(e, z, t, p, dl, dv, q) ==
      Flash.InterpolateQuality(e, z, t, p, dl, dv, q).(pressure := e.therm(t, d, z).pressure)
  {
  }

  /**
   * The pressure jumps at q = 0 whenever THERMdll's pressure at the liquid
   * density is not the saturation pressure: every state strictly inside the
   * two-phase region, and the two-phase blend taken at q = 0 itself, carry
   * the saturation pressure, while the state returned at q = 0 does not.
   */
  lemma BoundaryPressureJump(e: Routines, z: Composition, t: real, p: real, dl: Density, dv: Density)
    requires e.therm(t, dl, z).pressure != p
    ensures forall q :: 0.0 < q < 1.0 ==> InterpolateQuality(e, z, t, p, dl, dv, q).pressure == p
    ensures Blend(ThermState(e, z, t, dl, 0.0), ThermState(e, z, t, dv, 1.0), t, p, dl, dv, 0.0).pressure == p
    ensures InterpolateQuality(e, z, t, p, dl, dv, 0.0).pressure != p
  {
  }

  /**
   * `flash_tq_inner` (older backend): the bubble point at `t`, whatever the
   * quality, then the interpolation at that point.
   */
  function FlashTQ(e: Routines, z: Composition, t: real, q: real): (r: Result<ThermoProp>)
    ensures r.Ok? <==> e.satT(t, z, Bubble).ierr <= 0
    ensures r.Err? ==> r.error.Refprop?
    ensures r.Ok? ==> r.value.temperature == t && r.value.quality == Clamp(q)
    ensures r.Ok? && 0.0 < q < 1.0 ==> r.value.pressure == e.satT(t, z, Bubble).value.other
  {
    var sat :- SatTInner(e, z, t, Bubble);
    Ok(InterpolateQuality(e, z, t, sat.pressure, sat.densityLiquid, sat.densityVapor, q))
  }

  /**
   * `flash_pq_inner` (older backend): the bubble point at `p`, whatever the
   * quality, then the interpolation at that point.
   */
  function FlashPQ(e: Routines, z: Composition, p: real, q: real): (r: Result<ThermoProp>)
    ensures r.Ok? <==> e.satP(p, z, Bubble).ierr <= 0
    ensures r.Err? ==> r.error.Refprop?
    ensures r.Ok? ==> r.value.temperature == e.satP(p, z, Bubble).value.other && r.value.quality == Clamp(q)
    ensures r.Ok? && 0.0 < q < 1.0 ==> r.value.pressure == p
  {
    var sat :- SatPInner(e, z, p, Bubble);
    Ok(InterpolateQuality(e, z, sat.temperature, p, sat.densityLiquid, sat.densityVapor, q))
  }

  /**
   * The older quality flashes never consult the dew curve: two engines that
   * agree on the bubble curve at that point (and on THERMdll) give the same
   * result, whatever they answer on the dew curve.
   */
  lemma QualityFlashesUseBubbleOnly(e1: Routines, e2: Routines, z: Composition, x: real, q: real)
    requires e1.therm == e2.therm
    requires e1.satT(x, z, Bubble) == e2.satT(x, z, Bubble)
    requires e1.satP(x, z, Bubble) == e2.satP(x, z, Bubble)
    ensures FlashTQ(e1, z, x, q) == FlashTQ(e2, z, x, q)
    ensures FlashPQ(e1, z, x, q) == FlashPQ(e2, z, x, q)
  {
  }

  /** Strictly between q = 0 and q = 0.5 both backends compute the same quality flashes. */
  lemma QualityFlashesAgreeBelowHalf(e: Routines, z: Composition, x: real, q: real)
    requires 0.0 < q < 0.5
    ensures FlashTQ(e, z, x, q) == Flash.FlashTQInner(e, z, x, q)
    ensures FlashPQ(e, z, x, q) == Flash.FlashPQInner(e, z, x, q)
  {
  }

  /**
   * Saturated vapour of a mixture with a temperature glide: at q = 1 the
   * older T–Q flash reports the bubble pressure, the newer one the dew
   * pressure, and the two differ.
   */
  lemma SaturatedVaporPressureDiffers(e: Routines, z: Composition, t: real)
    requires e.satT(t, z, Bubble).ierr <= 0 && e.satT(t, z, Dew).ierr <= 0
    requires e.satT(t, z, Bubble).value.other != e.satT(t, z, Dew).value.other
    requires e.therm(t, e.satT(t, z, Bubble).value.densityVapor, z).pressure == e.satT(t, z, Bubble).value.other
    ensures FlashTQ(e, z, t, 1.0).Ok? && Flash.FlashTQInner(e, z, t, 1.0).Ok?
    ensures FlashTQ(e, z, t, 1.0).value.pressure == e.satT(t, z, Bubble).value.other
    ensures Flash.FlashTQInner(e, z, t, 1.0).value.pressure == e.satT(t, z, Dew).value.other
    ensures FlashTQ(e, z, t, 1.0).value.pressure != Flash.FlashTQInner(e, z, t, 1.0).value.pressure
  {
  }

  // ------------------------------------------------------------------
  //  The five-pair `get`
  // ------------------------------------------------------------------

  /** The field an (upper-cased) input key names; the older `get` knows T, P, H, S and Q only. */
  function InputField(u: string): (r: Option<Field>)
    ensures r.Some? ==> r.value in {Temperature, Pressure, Enthalpy, Entropy, Quality}
    ensures r.Some? ==> r == Dispatch.InputField(u)
  {
    if u == "T" then Some(Temperature)
    else if u == "P" then Some(Pressure)
    else if u == "H" then Some(Enthalpy)
    else if u == "S" then Some(Entropy)
    else if u == "Q" then Some(Quality)
    else None
  }

  /** The routes of the older backend. */
  predicate LegacyPair(pair: Pair)
  {
    pair in {Native(TP), Native(PH), Native(PS), TQ, PQ}
  }

  /** The route for two constrained fields in the order the route takes them. */
  function RouteFor(f1: Field, f2: Field): (r: Option<Pair>)
    ensures r.Some? ==> PairInputs(r.value) == (f1, f2) && LegacyPair(r.value)
    ensures r.Some? ==> Dispatch.RouteFor(f1, f2) == r
    ensures r.None? ==> forall pair: Pair :: LegacyPair(pair) ==> PairInputs(pair) != (f1, f2)
  {
    match (f1, f2)
    case (Temperature, Pressure) => Some(Native(TP))
    case (Pressure, Enthalpy) => Some(Native(PH))
    case (Pressure, Entropy) => Some(Native(PS))
    case (Temperature, Quality) => Some(TQ)
    case (Pressure, Quality) => Some(PQ)
    case _ => None
  }

  /**
   * The match on the upper-cased key pair of the older `get`: a supported
   * pair names its route and passes the values in the order the route takes
   * them; any other pair is rejected, naming the upper-cased keys.
   */
  function Resolve(key1: string, v1: real, key2: string, v2: real): (r: Result<Dispatch.Route>)
    ensures r.Ok? ==> InputField(Upper(key1)).Some? && InputField(Upper(key2)).Some? && LegacyPair(r.value.pair)
    ensures r.Ok? ==>
      var f1, f2 := InputField(Upper(key1)).value, InputField(Upper(key2)).value;
      || (PairInputs(r.value.pair) == (f1, f2) && r.value.a == v1 && r.value.b == v2)
      || (PairInputs(r.value.pair) == (f2, f1) && r.value.a == v2 && r.value.b == v1)
    ensures r.Err? ==> r.error == InvalidInput(UnsupportedPair(Upper(key1), Upper(key2)))
  {
    var k1, k2 := Upper(key1), Upper(key2);
    match (InputField(k1), InputField(k2))
    case (Some(f1), Some(f2)) =>
      if RouteFor(f1, f2).Some? then Ok(Dispatch.Route(RouteFor(f1, f2).value, v1, v2))
      else if RouteFor(f2, f1).Some? then Ok(Dispatch.Route(RouteFor(f2, f1).value, v2, v1))
      else Err(InvalidInput(UnsupportedPair(k1, k2)))
    case _ => Err(InvalidInput(UnsupportedPair(k1, k2)))
  }

  const SupportedPairs: set<(string, string)> := {("T", "P"), ("P", "H"), ("P", "S"), ("T", "Q"), ("P", "Q")}

  /** An upper-cased key pair the older `get` accepts: a listed pair, in either order. */
  predicate Supported(u1: string, u2: string)
  {
    (u1, u2) in SupportedPairs || (u2, u1) in SupportedPairs
  }

  lemma InputFieldNames(u: string)
    ensures InputField(u).Some? ==> u == Dispatch.KeyName(InputField(u).value)
    ensures InputField(u).None? ==> u !in {"T", "P", "H", "S", "Q"}
  {
  }

  /** The older `get` accepts exactly the five listed pairs, in either order. */
  lemma ResolveSupported(key1: string, v1: real, key2: string, v2: real)
    ensures Resolve(key1, v1, key2, v2).Ok? <==> Supported(Upper(key1), Upper(key2))
  {
    InputFieldNames(Upper(key1));
    InputFieldNames(Upper(key2));
  }

  /** Swapping the two constraints is accepted exactly when the original is, and routes identically. */
  lemma ResolveCommutes(key1: string, v1: real, key2: string, v2: real)
    ensures Resolve(key1, v1, key2, v2).Ok? <==> Resolve(key2, v2, key1, v1).Ok?
    ensures Resolve(key1, v1, key2, v2).Ok? ==> Resolve(key1, v1, key2, v2) == Resolve(key2, v2, key1, v1)
  {
    var u1, u2 := Upper(key1), Upper(key2);
    if InputField(u1).Some? && InputField(u2).Some? {
      Dispatch.RouteOneWay(InputField(u1).value, InputField(u2).value);
      Dispatch.RouteOneWay(InputField(u2).value, InputField(u1).value);
    }
  }

  /** Every pair the older `get` accepts, the newer one accepts too, routing it the same way. */
  lemma ResolveRefined(key1: string, v1: real, key2: string, v2: real)
    requires Resolve(key1, v1, key2, v2).Ok?
    ensures Dispatch.Resolve(key1, v1, key2, v2) == Resolve(key1, v1, key2, v2)
  {
  }

  /** Density is not an input of the older `get`: (T, D) is rejected there and accepted by the newer one. */
  lemma TemperatureDensityRejected(v1: real, v2: real)
    ensures Resolve("T", v1, "D", v2) == Err(InvalidInput(UnsupportedPair("T", "D")))
    ensures Dispatch.Resolve("T", v1, "D", v2).Ok?
  {
    assert Upper("T") == "T";
    assert Upper("D") == "D";
  }

  /**
   * One flash along a route of the older backend; the quality flashes use
   * the bubble curve. The first input comes back exactly, except that a P–Q
   * flash at a phase boundary reports THERMdll's pressure instead.
   */
  function RunPair(e: Routines, z: Composition, pair: Pair, a: real, b: real): (r: Result<ThermoProp>)
    requires LegacyPair(pair)
    ensures r.Err? ==> r.error.Refprop?
    ensures r.Ok? && (pair != PQ || 0.0 < b < 1.0) ==> Value(PairInputs(pair).0, r.value) == a
    ensures r.Ok? ==> Value(PairInputs(pair).1, r.value) == (if pair.Native? then b else Clamp(b))
  {
    match pair
    case Native(prim) => FlashInner(e, z, prim, a, b)
    case TQ => FlashTQ(e, z, a, b)
    case PQ => FlashPQ(e, z, a, b)
  }

  /** The part of the older `get` that runs after validation, locking and setup. */
  function GetConfigured(e: Routines, z: Composition, output: string,
                         key1: string, v1: real, key2: string, v2: real): Result<real>
  {
    var route :- Resolve(key1, v1, key2, v2);
    var props :- RunPair(e, z, route.pair, route.a, route.b);
    Dispatch.SelectOutput(e, z, output, props)
  }

  /** The older `get` is commutative in its two constraints whenever the pair is supported. */
  lemma GetCommutes(e: Routines, z: Composition, output: string, key1: string, v1: real, key2: string, v2: real)
    ensures GetConfigured(e, z, output, key1, v1, key2, v2).Ok? <==> GetConfigured(e, z, output, key2, v2, key1, v1).Ok?
    ensures Supported(Upper(key1), Upper(key2)) ==>
              GetConfigured(e, z, output, key1, v1, key2, v2) == GetConfigured(e, z, output, key2, v2, key1, v1)
  {
    ResolveCommutes(key1, v1, key2, v2);
    ResolveSupported(key1, v1, key2, v2);
  }

  /**
   * At a phase boundary the older P–Q flash does not give the pressure back:
   * it reports THERMdll's pressure at the saturation density, so `get` asked
   * for P at (P, Q = 0) answers that pressure, where the newer one answers
   * the input.
   */
  lemma PressureNotEchoedAtBoundary(e: Routines, z: Composition, p: real)
    requires e.satP(p, z, Bubble).ierr <= 0
    requires e.therm(e.satP(p, z, Bubble).value.other, e.satP(p, z, Bubble).value.densityLiquid, z).pressure != p
    ensures GetConfigured(e, z, "P", "P", p, "Q", 0.0).Ok?
    ensures GetConfigured(e, z, "P", "P", p, "Q", 0.0).value != p
    ensures Dispatch.GetConfigured(e, z, "P", "P", p, "Q", 0.0) == Ok(p)
  {
    assert Upper("P") == "P";
    assert Upper("Q") == "Q";
    assert Dispatch.OutputKeyOf("P") == Some(Dispatch.FieldOut(Pressure));
  }

  /** An unsupported pair is rejected before any flash, naming the upper-cased keys. */
  lemma UnsupportedPairRejected(e: Routines, z: Composition, output: string, key1: string, v1: real, key2: string, v2: real)
    requires !Supported(Upper(key1), Upper(key2))
    ensures GetConfigured(e, z, output, key1, v1, key2, v2) == Err(InvalidInput(UnsupportedPair(Upper(key1), Upper(key2))))
  {
    ResolveSupported(key1, v1, key2, v2);
  }

  /** On the T–P, P–H and P–S pairs the two backends give the same answer to `get`. */
  lemma NativeRoutesAgree(e: Routines, z: Composition, output: string, key1: string, v1: real, key2: string, v2: real)
    requires Resolve(key1, v1, key2, v2).Ok? && Resolve(key1, v1, key2, v2).value.pair.Native?
    ensures GetConfigured(e, z, output, key1, v1, key2, v2) == Dispatch.GetConfigured(e, z, output, key1, v1, key2, v2)
  {
    ResolveRefined(key1, v1, key2, v2);
  }

  // ------------------------------------------------------------------
  //  The public operations that differ
  // ------------------------------------------------------------------

  /**
   * `props_tp`, `props_ph`, `props_ps`, `props_tq`, `props_pq` (older
   * backend): validation, then lock and setup, then the flash with the
   * definition the engine then holds, `b`'s own from a coherent lock. On
   * success the state carries the second input exactly or (a quality)
   * clamped, and the first input exactly except for a P–Q flash at a phase
   * boundary.
   */
  method Props(s: RefpropLock, e: Engine, b: RefpropBackend, pair: Pair, x: F64, y: F64)
    returns (r: Result<ThermoProp>)
    requires s.Valid() && s.Issued(b) && LegacyPair(pair)
    modifies s
    ensures var v := Backend.Validate2(Backend.ArgName(PairInputs(pair).0), x, Backend.ArgName(PairInputs(pair).1), y);
      && (v.Err? ==> r == Err(v.error) && unchanged(s))
      && (v.Ok? ==> Backend.Entered(s, e, b))
      && (v.Ok? ==> r == Backend.Then(old(s.EnterResult(e, b)), RunPair(e.Holding(s.loaded), b.z, pair, x.value, y.value)))
      && (v.Ok? && old(s.Coherent()) ==>
            r == Backend.Then(old(s.EnterResult(e, b)), RunPair(e.Holding(DefinitionOf(b)), b.z, pair, x.value, y.value)))
    ensures r.Ok? ==> s.currentId == b.id
    ensures r.Ok? && (pair != PQ || 0.0 < y.value < 1.0) ==> Value(PairInputs(pair).0, r.value) == x.value
    ensures r.Ok? ==> Value(PairInputs(pair).1, r.value) == if pair.Native? then y.value else Clamp(y.value)
  {
    var xy :- Backend.Validate2(Backend.ArgName(PairInputs(pair).0), x, Backend.ArgName(PairInputs(pair).1), y);
    var _ :- s.Enter(e, b);
    r := RunPair(e.Holding(s.loaded), b.z, pair, xy.0, xy.1);
  }

  /**
   * `get` (older backend): both values must be finite, the first one first,
   * before the lock is taken; then the engine is set up and the five-pair
   * dispatch runs with the definition it holds.
   */
  method Get(s: RefpropLock, e: Engine, b: RefpropBackend, output: string,
             key1: string, val1: F64, key2: string, val2: F64) returns (r: Result<real>)
    requires s.Valid() && s.Issued(b)
    modifies s
    ensures var v := Backend.Validate2(key1, val1, key2, val2);
      && (v.Err? ==> r == Err(v.error) && unchanged(s))
      && (v.Ok? ==> Backend.Entered(s, e, b))
      && (v.Ok? ==> r == Backend.Then(old(s.EnterResult(e, b)),
                                      GetConfigured(e.Holding(s.loaded), b.z, output, key1, val1.value, key2, val2.value)))
      && (v.Ok? && old(s.Coherent()) ==>
            r == Backend.Then(old(s.EnterResult(e, b)),
                              GetConfigured(e.Holding(DefinitionOf(b)), b.z, output, key1, val1.value, key2, val2.value)))
    ensures r.Ok? ==> s.currentId == b.id
  {
    var vs :- Backend.Validate2(key1, val1, key2, val2);
    var _ :- s.Enter(e, b);
    r := GetConfigured(e.Holding(s.loaded), b.z, output, key1, vs.0, key2, vs.1);
  }
}
