/**
 * The public operations of the newer backend (src/backend/refprop.rs). Each
 * validates its finite inputs first, then takes the global lock and makes
 * sure the engine is set up for the backend, and only then calls the engine.
 */
module Backend {
  import opened Text
  import opened Properties
  import opened Errors
  import opened NativeEngine
  import opened Session
  import opened Flash
  import opened Dispatch
  import Sys

  /** `next` run after `first`, whose failure it passes on. */
  function Then<T>(first: Result<()>, next: Result<T>): (r: Result<T>)
    ensures first.Err? ==> r == Err(first.error)
    ensures first.Ok? ==> r == next
  {
    var _ :- first;
    next
  }

  /** Both values validated, the first one first. */
  function Validate2(name1: string, a: F64, name2: string, b: F64): (r: Result<(real, real)>)
    ensures r.Ok? <==> a.Finite? && b.Finite?
    ensures r.Ok? ==> r.value == (a.value, b.value)
    ensures a.NonFinite? ==> r == Err(InvalidInput(NotFinite(name1)))
    ensures a.Finite? && b.NonFinite? ==> r == Err(InvalidInput(NotFinite(name2)))
  {
    var x :- ValidateFinite(name1, a);
    var y :- ValidateFinite(name2, b);
    Ok((x, y))
  }

  /**
   * The lock state after the prologue of a public operation: the lock was
   * taken and `ensure_setup` ran for `b`. A lock that told the truth about
   * the engine's definition still does.
   */
  twostate predicate Entered(s: RefpropLock, e: Engine, b: RefpropBackend)
    reads s
  {
    && s.Valid()
    && s.nextId == old(s.nextId) && s.poisoned == old(s.poisoned) && s.defs == old(s.defs)
    && s.currentId == old(s.IdAfterEnter(e, b))
    && s.loadedId == old(s.LoadedAfterEnter(e, b))
    && s.loaded == old(s.HeldAfterEnter(e, b))
    && s.setups == old(s.setups) + (if old(s.NeedsSetup(b)) then [b.id] else [])
    && (old(s.Coherent()) ==> s.Coherent())
  }

  /**
   * What `props_<xy>` returns, given the outcome `enter` of taking the lock
   * and `ensure_setup` and the routines `e` of the definition then held:
   * validation first, then the prologue, then the flash.
   */
  function PropsOutcome(enter: Result<()>, e: Routines, b: RefpropBackend, pair: Pair, x: F64, y: F64): Result<ThermoProp>
  {
    var xy :- Validate2(ArgName(PairInputs(pair).0), x, ArgName(PairInputs(pair).1), y);
    var _ :- enter;
    RunPair(e, b.z, pair, xy.0, xy.1)
  }

  /** What `get` returns, given the outcome `enter` of taking the lock and `ensure_setup`. */
  function GetOutcome(enter: Result<()>, e: Routines, b: RefpropBackend, output: string,
                      key1: string, val1: F64, key2: string, val2: F64): Result<real>
  {
    var vs :- Validate2(key1, val1, key2, val2);
    var _ :- enter;
    GetConfigured(e, b.z, output, key1, vs.0, key2, vs.1)
  }

  /** The name `validate_finite` reports for an argument of `props_<xy>`. */
  function ArgName(f: Field): string
  {
    match f
    case Temperature => "temperature"
    case Pressure => "pressure"
    case Density => "density"
    case Enthalpy => "enthalpy"
    case Entropy => "entropy"
    case Quality => "quality"
    case _ => ""
  }

  /**
   * `props_tp` … `props_hs`: the twelve state flashes, one per route, each
   * taking its two inputs in the route's order and naming them after the
   * quantities they constrain. Nothing is locked or set up when an input is
   * not finite. The flash runs with whatever definition the engine holds
   * after the prologue; from a coherent lock that is `b`'s own. On success
   * the state carries the first input exactly, the second exactly or (a
   * quality) clamped, and the engine is set up for `b`.
   */
  method Props(s: RefpropLock, e: Engine, b: RefpropBackend, pair: Pair, x: F64, y: F64)
    returns (r: Result<ThermoProp>)
    requires s.Valid() && s.Issued(b)
    modifies s
    ensures var v := Validate2(ArgName(PairInputs(pair).0), x, ArgName(PairInputs(pair).1), y);
      && (v.Err? ==> r == Err(v.error) && unchanged(s))
      && (v.Ok? ==> Entered(s, e, b))
    ensures r == PropsOutcome(old(s.EnterResult(e, b)), e.Holding(s.loaded), b, pair, x, y)
    ensures old(s.Coherent()) ==> r == PropsOutcome(old(s.EnterResult(e, b)), e.Holding(DefinitionOf(b)), b, pair, x, y)
    ensures r.Ok? ==> s.currentId == b.id
    ensures r.Ok? ==> Value(PairInputs(pair).0, r.value) == x.value
    ensures r.Ok? ==> Value(PairInputs(pair).1, r.value) == if pair.Native? then y.value else Clamp(y.value)
  {
    var xy :- Validate2(ArgName(PairInputs(pair).0), x, ArgName(PairInputs(pair).1), y);
    var _ :- s.Enter(e, b);
    r := RunPair(e.Holding(s.loaded), b.z, pair, xy.0, xy.1);
  }

  /** `saturation_t`: the bubble point at temperature `t`. */
  method SaturationT(s: RefpropLock, e: Engine, b: RefpropBackend, t: F64) returns (r: Result<SaturationProps>)
    requires s.Valid() && s.Issued(b)
    modifies s
    ensures t.NonFinite? ==> r == Err(InvalidInput(NotFinite("temperature"))) && unchanged(s)
    ensures t.Finite? ==> Entered(s, e, b)
    ensures t.Finite? ==> r == Then(old(s.EnterResult(e, b)), SatTInner(e.Holding(s.loaded), b.z, t.value, Bubble))
    ensures t.Finite? && old(s.Coherent()) ==>
      r == Then(old(s.EnterResult(e, b)), SatTInner(e.Holding(DefinitionOf(b)), b.z, t.value, Bubble))
    ensures r.Ok? ==> r.value.temperature == t.value && s.currentId == b.id
  {
    var tv :- ValidateFinite("temperature", t);
    var _ :- s.Enter(e, b);
    r := SatTInner(e.Holding(s.loaded), b.z, tv, Bubble);
  }

  /** `saturation_p`: the bubble point at pressure `p`. */
  method SaturationP(s: RefpropLock, e: Engine, b: RefpropBackend, p: F64) returns (r: Result<SaturationProps>)
    requires s.Valid() && s.Issued(b)
    modifies s
    ensures p.NonFinite? ==> r == Err(InvalidInput(NotFinite("pressure"))) && unchanged(s)
    ensures p.Finite? ==> Entered(s, e, b)
    ensures p.Finite? ==> r == Then(old(s.EnterResult(e, b)), SatPInner(e.Holding(s.loaded), b.z, p.value, Bubble))
    ensures p.Finite? && old(s.Coherent()) ==>
      r == Then(old(s.EnterResult(e, b)), SatPInner(e.Holding(DefinitionOf(b)), b.z, p.value, Bubble))
    ensures r.Ok? ==> r.value.pressure == p.value && s.currentId == b.id
  {
    var pv :- ValidateFinite("pressure", p);
    var _ :- s.Enter(e, b);
    r := SatPInner(e.Holding(s.loaded), b.z, pv, Bubble);
  }

  /** `transport`: viscosity and thermal conductivity at (t, d). */
  method Transport(s: RefpropLock, e: Engine, b: RefpropBackend, t: F64, d: F64) returns (r: Result<TransportProps>)
    requires s.Valid() && s.Issued(b)
    modifies s
    ensures var v := Validate2("temperature", t, "density", d);
      && (v.Err? ==> r == Err(v.error) && unchanged(s))
      && (v.Ok? ==> Entered(s, e, b))
      && (v.Ok? ==> r == Then(old(s.EnterResult(e, b)), TransportInner(e.Holding(s.loaded), b.z, t.value, d.value)))
      && (v.Ok? && old(s.Coherent()) ==>
            r == Then(old(s.EnterResult(e, b)), TransportInner(e.Holding(DefinitionOf(b)), b.z, t.value, d.value)))
    ensures r.Ok? ==> s.currentId == b.id
  {
    var td :- Validate2("temperature", t, "density", d);
    var _ :- s.Enter(e, b);
    r := TransportInner(e.Holding(s.loaded), b.z, td.0, td.1);
  }

  /** `critical_point`: CRITPdll for the backend's composition. */
  method CriticalPoint(s: RefpropLock, e: Engine, b: RefpropBackend) returns (r: Result<CriticalProps>)
    requires s.Valid() && s.Issued(b)
    modifies s
    ensures Entered(s, e, b)
    ensures r == Then(old(s.EnterResult(e, b)), Checked(e.critP(s.loaded, b.z)))
    ensures old(s.Coherent()) ==> r == Then(old(s.EnterResult(e, b)), Checked(e.critP(DefinitionOf(b), b.z)))
    ensures r.Ok? ==> s.currentId == b.id
  {
    var _ :- s.Enter(e, b);
    r := Checked(e.critP(s.loaded, b.z));
  }

  /**
   * `fluid_info`: the constants INFOdll reports for the first component of
   * the definition the engine holds; INFOdll reports no error. From a
   * coherent lock these are the constants of `b`'s own first component.
   */
  method FluidInfo(s: RefpropLock, e: Engine, b: RefpropBackend) returns (r: Result<Properties.FluidInfo>)
    requires s.Valid() && s.Issued(b)
    modifies s
    ensures Entered(s, e, b)
    ensures r == Then(old(s.EnterResult(e, b)), Ok(e.info(s.loaded, 1)))
    ensures old(s.Coherent()) ==> r == Then(old(s.EnterResult(e, b)), Ok(e.info(DefinitionOf(b), 1)))
    ensures r.Ok? ==> s.currentId == b.id
  {
    var _ :- s.Enter(e, b);
    r := Ok(e.info(s.loaded, 1));
  }

  /**
   * `molar_mass_mix`: Σ_{i<nc} z[i]·M_{i+1}, accumulated component by
   * component over the molar masses INFOdll reports for the definition the
   * engine holds. For a pure fluid this is the molar mass `fluid_info`
   * reports.
   */
  method MolarMassMix(s: RefpropLock, e: Engine, b: RefpropBackend) returns (r: Result<real>)
    requires s.Valid() && s.Issued(b)
    requires b.nc <= Sys.RefpropNcMax
    modifies s
    ensures Entered(s, e, b)
    ensures r == Then(old(s.EnterResult(e, b)), Ok(MixMolarMass(e.Holding(s.loaded), b.z, b.nc)))
    ensures old(s.Coherent()) ==> r == Then(old(s.EnterResult(e, b)), Ok(MixMolarMass(e.Holding(DefinitionOf(b)), b.z, b.nc)))
    ensures r.Ok? ==> s.currentId == b.id
  {
    var _ :- s.Enter(e, b);
    var mMix := 0.0;
    for i := 0 to b.nc
      invariant mMix == MixMolarMass(e.Holding(s.loaded), b.z, i)
    {
      mMix := mMix + b.z[i] * e.info(s.loaded, i + 1).molarMass;
    }
    r := Ok(mMix);
  }

  /**
   * `get`: both values must be finite (each reported under its own key, the
   * first one first) before the lock is taken; then the engine is set up and
   * the configured dispatch runs with the definition it holds.
   */
  method Get(s: RefpropLock, e: Engine, b: RefpropBackend, output: string,
             key1: string, val1: F64, key2: string, val2: F64) returns (r: Result<real>)
    requires s.Valid() && s.Issued(b)
    modifies s
    ensures var v := Validate2(key1, val1, key2, val2);
      && (v.Err? ==> r == Err(v.error) && unchanged(s))
      && (v.Ok? ==> Entered(s, e, b))
    ensures r == GetOutcome(old(s.EnterResult(e, b)), e.Holding(s.loaded), b, output, key1, val1, key2, val2)
    ensures old(s.Coherent()) ==>
      r == GetOutcome(old(s.EnterResult(e, b)), e.Holding(DefinitionOf(b)), b, output, key1, val1, key2, val2)
    ensures r.Ok? ==> s.currentId == b.id
  {
    var vs :- Validate2(key1, val1, key2, val2);
    var _ :- s.Enter(e, b);
    r := GetConfigured(e.Holding(s.loaded), b.z, output, key1, vs.0, key2, vs.1);
  }
}
