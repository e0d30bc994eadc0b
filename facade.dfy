/**
 * The user-facing `Fluid` (refprop/src/fluid.rs): a backend together with a
 * unit converter. Every operation converts its inputs from the user's units
 * to the engine's, calls the backend, and converts the result back; backend
 * errors come through unchanged. The converter's molar mass is the backend's
 * mixture-averaged one, taken once at construction.
 */
module Facade {
  import opened Text
  import opened Properties
  import opened Errors
  import opened NativeEngine
  import opened Session
  import opened Flash
  import opened UnitConverter
  import Dispatch
  import Backend
  import Sys

  /** A configured fluid and the converter for its unit system. */
  datatype Fluid = Fluid(backend: RefpropBackend, conv: Converter)

  // ------------------------------------------------------------------
  //  Field-wise conversions
  // ------------------------------------------------------------------

  /** A state field from the engine's units into the user's; sound speed and quality are not converted. */
  function FromRp(c: Converter, f: Field, v: real): real
    requires c.Invertible()
  {
    match f
    case Temperature => c.TFromRp(v)
    case Pressure => c.PFromRp(v)
    case Density => c.DFromRp(v)
    case Enthalpy => c.HFromRp(v)
    case Entropy => c.SFromRp(v)
    case Cv => c.SFromRp(v)
    case Cp => c.SFromRp(v)
    case InternalEnergy => c.HFromRp(v)
    case SoundSpeed => v
    case Quality => v
  }

  /** A flash input from the user's units into the engine's; a quality is passed unconverted. */
  function ToRp(c: Converter, f: Field, v: real): real
    requires c.Invertible()
  {
    match f
    case Temperature => c.TToRp(v)
    case Pressure => c.PToRp(v)
    case Density => c.DToRp(v)
    case Enthalpy => c.HToRp(v)
    case Entropy => c.SToRp(v)
    case _ => v
  }

  /** Converting a flash input in and the matching state field back out gives the input back. */
  lemma FieldRoundTrip(c: Converter, f: Field, v: real)
    requires c.Invertible()
    requires f in Dispatch.InputFields
    ensures FromRp(c, f, ToRp(c, f, v)) == v
  {
    TemperatureRoundTrip(c, v);
    PressureRoundTrip(c, v);
    DensityRoundTrip(c, v);
    EnergyRoundTrip(c, v);
    EntropyRoundTrip(c, v);
  }

  /** An argument converted in: a finite value converts, a non-finite one stays non-finite. */
  function In(c: Converter, f: Field, x: F64): (r: F64)
    requires c.Invertible()
    ensures r.Finite? <==> x.Finite?
  {
    match x
    case Finite(v) => Finite(ToRp(c, f, v))
    case NonFinite => NonFinite
  }

  /** A `get` argument converted in by its key. */
  function InByKey(c: Converter, key: string, x: F64): (r: F64)
    requires c.Invertible()
    ensures r.Finite? <==> x.Finite?
  {
    match x
    case Finite(v) => Finite(c.InputToRp(key, v))
    case NonFinite => NonFinite
  }

  /**
   * `convert_thermo`: T, P, D, H and S with their own conversions, cv and cp
   * like entropy, internal energy like enthalpy; sound speed and quality copied.
   */
  function ConvertThermo(c: Converter, raw: ThermoProp): (r: ThermoProp)
    requires c.Invertible()
    ensures forall f :: Value(f, r) == FromRp(c, f, Value(f, raw))
  {
    ThermoProp(
      c.TFromRp(raw.temperature), c.PFromRp(raw.pressure), c.DFromRp(raw.density),
      c.HFromRp(raw.enthalpy), c.SFromRp(raw.entropy), c.SFromRp(raw.cv), c.SFromRp(raw.cp),
      raw.soundSpeed, raw.quality, c.HFromRp(raw.internalEnergy))
  }

  /** The output key of `get` that names a state field. */
  function OutputName(f: Field): string
  {
    match f
    case Temperature => "T"
    case Pressure => "P"
    case Density => "D"
    case Enthalpy => "H"
    case Entropy => "S"
    case Quality => "Q"
    case Cv => "CV"
    case Cp => "CP"
    case SoundSpeed => "W"
    case InternalEnergy => "E"
  }

  /**
   * The state conversion agrees with the key-driven one: every field of a
   * converted state is what `output_from_rp` makes of it under the key `get`
   * uses for that field, so `props_*` and `get` report in the same units.
   */
  lemma StateConversionMatchesKeys(c: Converter, raw: ThermoProp, f: Field)
    requires c.Invertible()
    ensures Dispatch.OutputKeyOf(OutputName(f)) == Some(Dispatch.FieldOut(f))
    ensures Value(f, ConvertThermo(c, raw)) == c.OutputFromRp(OutputName(f), Value(f, raw))
  {
    assert Upper(OutputName(f)) == OutputName(f);
  }

  /** Under native units the state conversion changes nothing. */
  lemma NativeStateUnchanged(c: Converter, raw: ThermoProp)
    requires IsNative(c.units)
    ensures ConvertThermo(c, raw) == raw
  {
  }

  /** `convert_sat`: temperature, pressure and both densities converted. */
  function ConvertSat(c: Converter, raw: SaturationProps): (r: SaturationProps)
    requires c.Invertible()
    ensures r.temperature == c.TFromRp(raw.temperature) && r.pressure == c.PFromRp(raw.pressure)
    ensures r.densityLiquid == c.DFromRp(raw.densityLiquid) && r.densityVapor == c.DFromRp(raw.densityVapor)
  {
    SaturationProps(c.TFromRp(raw.temperature), c.PFromRp(raw.pressure),
                    c.DFromRp(raw.densityLiquid), c.DFromRp(raw.densityVapor))
  }

  /** The value a public operation returns, converted, or the error it failed with. */
  function Map<T, U>(r: Result<T>, f: T -> U): (s: Result<U>)
    ensures r.Err? ==> s == Err(r.error)
    ensures r.Ok? ==> s == Ok(f(r.value))
  {
    match r
    case Ok(v) => Ok(f(v))
    case Err(err) => Err(err)
  }

  // ------------------------------------------------------------------
  //  What the public operations return
  // ------------------------------------------------------------------

  /** The pairs `Fluid` offers a `props_<xy>` for. */
  predicate FacadePair(pair: Pair)
  {
    pair in {Native(TP), Native(PH), Native(PS), TQ, PQ}
  }

  /** `props_<xy>`: both inputs converted in by the quantity they constrain, the state converted out. */
  function PropsResult(enter: Result<()>, e: Routines, fl: Fluid, pair: Pair, x: F64, y: F64): Result<ThermoProp>
    requires fl.conv.Invertible()
  {
    var raw := Backend.PropsOutcome(enter, e, fl.backend, pair,
                                    In(fl.conv, PairInputs(pair).0, x), In(fl.conv, PairInputs(pair).1, y));
    Map(raw, (tp: ThermoProp) requires fl.conv.Invertible() => ConvertThermo(fl.conv, tp))
  }

  /** `get`: both values converted in by their own keys, the original keys passed on, the result converted out. */
  function GetResult(enter: Result<()>, e: Routines, fl: Fluid, output: string,
                     key1: string, val1: F64, key2: string, val2: F64): Result<real>
    requires fl.conv.Invertible()
  {
    var raw := Backend.GetOutcome(enter, e, fl.backend, output,
                                  key1, InByKey(fl.conv, key1, val1), key2, InByKey(fl.conv, key2, val2));
    Map(raw, (v: real) requires fl.conv.Invertible() => fl.conv.OutputFromRp(output, v))
  }

  /** Backend errors of `get` come through unchanged, with no output conversion. */
  lemma GetErrorsPassThrough(enter: Result<()>, e: Routines, fl: Fluid, output: string,
                             key1: string, val1: F64, key2: string, val2: F64)
    requires fl.conv.Invertible()
    requires Backend.GetOutcome(enter, e, fl.backend, output, key1, InByKey(fl.conv, key1, val1),
                                key2, InByKey(fl.conv, key2, val2)).Err?
    ensures GetResult(enter, e, fl, output, key1, val1, key2, val2) ==
            Err(Backend.GetOutcome(enter, e, fl.backend, output, key1, InByKey(fl.conv, key1, val1),
                                   key2, InByKey(fl.conv, key2, val2)).error)
  {
  }

  /** A non-finite value is still rejected under its own key, the first one first. */
  lemma GetRejectsNonFinite(enter: Result<()>, e: Routines, fl: Fluid, output: string,
                            key1: string, val1: F64, key2: string, val2: F64)
    requires fl.conv.Invertible()
    requires val1.NonFinite? || val2.NonFinite?
    ensures GetResult(enter, e, fl, output, key1, val1, key2, val2) ==
            Err(InvalidInput(NotFinite(if val1.NonFinite? then key1 else key2)))
  {
  }

  /** Under native units `Fluid::get` is the backend's `get`. */
  lemma NativeGetIsBackendGet(enter: Result<()>, e: Routines, fl: Fluid, output: string,
                              key1: string, val1: F64, key2: string, val2: F64)
    requires IsNative(fl.conv.units)
    ensures fl.conv.Invertible()
    ensures GetResult(enter, e, fl, output, key1, val1, key2, val2) ==
            Backend.GetOutcome(enter, e, fl.backend, output, key1, val1, key2, val2)
  {
    NativeKeyConversionIsIdentity(fl.conv, key1, if val1.Finite? then val1.value else 0.0);
    NativeKeyConversionIsIdentity(fl.conv, key2, if val2.Finite? then val2.value else 0.0);
    assert InByKey(fl.conv, key1, val1) == val1;
    assert InByKey(fl.conv, key2, val2) == val2;
    var raw := Backend.GetOutcome(enter, e, fl.backend, output, key1, val1, key2, val2);
    if raw.Ok? {
      NativeKeyConversionIsIdentity(fl.conv, output, raw.value);
    }
  }

  /** A successful `get`: both values finite, and the converted result of the dispatch on converted inputs. */
  lemma GetResultOk(enter: Result<()>, e: Routines, fl: Fluid, output: string,
                    key1: string, val1: F64, key2: string, val2: F64)
    requires fl.conv.Invertible()
    requires GetResult(enter, e, fl, output, key1, val1, key2, val2).Ok?
    ensures val1.Finite? && val2.Finite?
    ensures var g := Dispatch.GetConfigured(e, fl.backend.z, output, key1, fl.conv.InputToRp(key1, val1.value),
                                            key2, fl.conv.InputToRp(key2, val2.value));
            g.Ok? && GetResult(enter, e, fl, output, key1, val1, key2, val2).value == fl.conv.OutputFromRp(output, g.value)
  {
    var x1, x2 := InByKey(fl.conv, key1, val1), InByKey(fl.conv, key2, val2);
    assert Backend.GetOutcome(enter, e, fl.backend, output, key1, x1, key2, x2).Ok?;
  }

  /**
   * Asking `get` for one of its own constraints, in any unit system, gives
   * the caller's value back: exactly for temperature, pressure, density,
   * enthalpy and entropy, and clamped to [0, 1] for a quality.
   */
  lemma GetGivesBackConstraint(enter: Result<()>, e: Routines, fl: Fluid, key1: string, val1: F64, key2: string, val2: F64)
    requires fl.conv.Invertible()
    requires Dispatch.InputField(Upper(key1)).Some?
    requires GetResult(enter, e, fl, key1, key1, val1, key2, val2).Ok?
    ensures val1.Finite?
    ensures GetResult(enter, e, fl, key1, key1, val1, key2, val2).value ==
            if Dispatch.InputField(Upper(key1)).value == Quality then Clamp(val1.value) else val1.value
  {
    GetResultOk(enter, e, fl, key1, key1, val1, key2, val2);
    var u := Upper(key1);
    var f1 := Dispatch.InputField(u).value;
    var v1 := fl.conv.InputToRp(key1, val1.value);
    var v2 := fl.conv.InputToRp(key2, val2.value);
    InputKeyFacts(u);
    Dispatch.GetEchoesInput(e, fl.backend.z, key1, key1, v1, key2, v2);
    if f1 != Quality {
      KeyRoundTrip(fl.conv, key1, val1.value);
    }
  }

  /** An input key is also an output key for the same field, and only a quality goes unconverted. */
  lemma InputKeyFacts(u: string)
    requires Dispatch.InputField(u).Some?
    ensures Dispatch.OutputKeyOf(u) == Some(Dispatch.FieldOut(Dispatch.InputField(u).value))
    ensures Dispatch.InputField(u).value == Quality ==> KeyClass(u) == Unconverted
  {
    if u == "Q" {
      assert KeyClass(u) == Unconverted;
    }
  }

  /** Backend errors of `props_<xy>` come through unchanged. */
  lemma PropsErrorsPassThrough(enter: Result<()>, e: Routines, fl: Fluid, pair: Pair, x: F64, y: F64)
    requires fl.conv.Invertible()
    requires Backend.PropsOutcome(enter, e, fl.backend, pair, In(fl.conv, PairInputs(pair).0, x), In(fl.conv, PairInputs(pair).1, y)).Err?
    ensures PropsResult(enter, e, fl, pair, x, y) ==
            Err(Backend.PropsOutcome(enter, e, fl.backend, pair, In(fl.conv, PairInputs(pair).0, x), In(fl.conv, PairInputs(pair).1, y)).error)
  {
  }

  /**
   * A state from `props_<xy>` carries its inputs back in the user's units:
   * the first exactly, the second exactly or, a quality, clamped.
   */
  lemma PropsGivesBackInputs(enter: Result<()>, e: Routines, fl: Fluid, pair: Pair, x: F64, y: F64)
    requires fl.conv.Invertible() && FacadePair(pair)
    requires PropsResult(enter, e, fl, pair, x, y).Ok?
    ensures x.Finite? && y.Finite?
    ensures Value(PairInputs(pair).0, PropsResult(enter, e, fl, pair, x, y).value) == x.value
    ensures Value(PairInputs(pair).1, PropsResult(enter, e, fl, pair, x, y).value) ==
            if pair.Native? then y.value else Clamp(y.value)
  {
    var f1, f2 := PairInputs(pair).0, PairInputs(pair).1;
    FieldRoundTrip(fl.conv, f1, x.value);
    FieldRoundTrip(fl.conv, f2, y.value);
  }

  /** Under native units `props_<xy>` is the backend's. */
  lemma NativePropsIsBackendProps(enter: Result<()>, e: Routines, fl: Fluid, pair: Pair, x: F64, y: F64)
    requires IsNative(fl.conv.units)
    ensures fl.conv.Invertible()
    ensures PropsResult(enter, e, fl, pair, x, y) == Backend.PropsOutcome(enter, e, fl.backend, pair, x, y)
  {
    var f1, f2 := PairInputs(pair).0, PairInputs(pair).1;
    assert In(fl.conv, f1, x) == x;
    assert In(fl.conv, f2, y) == y;
    var raw := Backend.PropsOutcome(enter, e, fl.backend, pair, x, y);
    if raw.Ok? {
      NativeStateUnchanged(fl.conv, raw.value);
    }
  }

  // ------------------------------------------------------------------
  //  Constructors
  // ------------------------------------------------------------------

  /**
   * The one path on which `with_units` leaves the lock stale: the lock is
   * healthy, SETMIXdll accepts the mixture file, and the SETUPdll that
   * `molar_mass_mix` then runs for the still unrecorded mixture fails.
   */
  predicate MixResetupFails(e: Engine, files: FluidFiles, poisoned: bool, id: nat)
  {
    && files.mixFile.Some? && !poisoned
    && MixResult(e, files.mixFile.value, id).Ok?
    && SetupFluidInner(e, MixResult(e, files.mixFile.value, id).value).Err?
  }

  /**
   * `Fluid::with_units`: the backend for a named fluid or predefined mixture,
   * then its mixture-averaged molar mass, which fixes the converter. Since
   * `new` does not record a mixture's id, `molar_mass_mix` sets the engine
   * up for the mixture a second time; a fluid it returns always leaves the
   * lock coherent, with the engine holding the fluid's own definition, and
   * its molar mass is the one INFOdll reports for that definition. If that
   * second setup fails the constructor fails and the lock keeps naming the
   * previous backend while the engine holds the mixture; on every other path
   * a coherent lock stays coherent.
   */
  method WithUnits(s: RefpropLock, e: Engine, fluidName: string, files: FluidFiles, units: UnitSystem)
    returns (r: Result<Fluid>)
    requires s.Valid()
    modifies s
    ensures s.Valid() && s.poisoned == old(s.poisoned) && old(s.nextId) <= s.nextId && old(s.defs) <= s.defs
    ensures r.Ok? ==> s.Issued(r.value.backend) && s.currentId == r.value.backend.id && s.Coherent()
    ensures r.Ok? ==> s.loaded == DefinitionOf(r.value.backend)
    ensures r.Ok? ==> r.value.backend.id == old(s.nextId) && s.nextId == old(s.nextId) + 1
    ensures r.Ok? ==> r.value.backend.nc <= Sys.RefpropNcMax
    ensures r.Ok? ==>
      r.value.conv == Converter(units, MixMolarMass(e.Holding(DefinitionOf(r.value.backend)), r.value.backend.z, r.value.backend.nc))
    ensures old(s.poisoned) && (files.mixFile.Some? || files.fldExists) ==> r == Err(PoisonedLock)
    ensures files.mixFile.Some? && !old(s.poisoned) ==>
      var m := MixResult(e, files.mixFile.value, old(s.nextId));
      && (r.Ok? <==> m.Ok? && SetupFluidInner(e, m.value).Ok?)
      && (m.Err? ==> r == Err(m.error))
      && (r.Ok? ==> r.value.backend == m.value)
    ensures files.mixFile.None? && files.fldExists && !old(s.poisoned) ==>
      var p := PureResult(e, fluidName, old(s.nextId));
      && (r.Ok? <==> p.Ok?)
      && (p.Err? ==> r == Err(p.error))
      && (r.Ok? ==> r.value.backend == PureBackend(old(s.nextId), fluidName))
    ensures files.mixFile.None? && !files.fldExists ==> r == Err(FluidNotFound(fluidName + FluidNotFoundSuffix))
    ensures MixResetupFails(e, files, old(s.poisoned), old(s.nextId)) ==>
      var m := MixResult(e, files.mixFile.value, old(s.nextId)).value;
      && r == Err(SetupFluidInner(e, m).error)
      && s.currentId == old(s.currentId) && s.loadedId == old(s.nextId) && !s.Coherent()
      && s.loaded == DefinitionOf(m)
    ensures !MixResetupFails(e, files, old(s.poisoned), old(s.nextId)) && old(s.Coherent()) ==> s.Coherent()
  {
    var nb := s.NewAsWritten(e, fluidName, files);
    if nb.Err? {
      return Err(nb.error);
    }
    var b := nb.value;
    if files.mixFile.Some? {
      assert s.currentId < b.id == s.loadedId && !s.poisoned;
      assert s.EnterResult(e, b) == SetupFluidInner(e, b);
    } else {
      assert s.currentId == b.id == s.loadedId;
      assert s.EnterResult(e, b) == Ok(());
    }
    var mm := Backend.MolarMassMix(s, e, b);
    r := Map(mm, (m: real) => Fluid(b, Converter(units, m)));
  }

  /**
   * `Fluid::with_units` over the corrected `new`, which records a mixture's
   * id: `molar_mass_mix` finds the engine set up and runs no second SETUPdll,
   * so a predefined mixture is created whenever SETMIXdll accepts its file,
   * and a coherent lock stays coherent on every path.
   */
  method WithUnitsCorrected(s: RefpropLock, e: Engine, fluidName: string, files: FluidFiles, units: UnitSystem)
    returns (r: Result<Fluid>)
    requires s.Valid()
    modifies s
    ensures s.Valid() && s.poisoned == old(s.poisoned) && old(s.nextId) <= s.nextId && old(s.defs) <= s.defs
    ensures old(s.Coherent()) ==> s.Coherent()
    ensures r.Ok? ==> s.Issued(r.value.backend) && s.currentId == r.value.backend.id && s.Coherent()
    ensures r.Ok? ==> s.loaded == DefinitionOf(r.value.backend)
    ensures r.Ok? ==> r.value.backend.id == old(s.nextId) && s.nextId == old(s.nextId) + 1
    ensures r.Ok? ==> r.value.backend.nc <= Sys.RefpropNcMax
    ensures r.Ok? ==>
      r.value.conv == Converter(units, MixMolarMass(e.Holding(DefinitionOf(r.value.backend)), r.value.backend.z, r.value.backend.nc))
    ensures old(s.poisoned) && (files.mixFile.Some? || files.fldExists) ==> r == Err(PoisonedLock)
    ensures files.mixFile.Some? ==> s.setups == old(s.setups)
    ensures files.mixFile.Some? && !old(s.poisoned) ==>
      var m := MixResult(e, files.mixFile.value, old(s.nextId));
      && (r.Ok? <==> m.Ok?)
      && (m.Err? ==> r == Err(m.error))
      && (r.Ok? ==> r.value.backend == m.value)
    ensures files.mixFile.None? && files.fldExists && !old(s.poisoned) ==>
      var p := PureResult(e, fluidName, old(s.nextId));
      && (r.Ok? <==> p.Ok?)
      && (p.Err? ==> r == Err(p.error))
      && (r.Ok? ==> r.value.backend == PureBackend(old(s.nextId), fluidName))
    ensures files.mixFile.None? && !files.fldExists ==> r == Err(FluidNotFound(fluidName + FluidNotFoundSuffix))
  {
    var nb := s.New(e, fluidName, files);
    if nb.Err? {
      return Err(nb.error);
    }
    var b := nb.value;
    assert s.currentId == b.id == s.loadedId;
    assert s.EnterResult(e, b) == Ok(());
    var mm := Backend.MolarMassMix(s, e, b);
    r := Map(mm, (m: real) => Fluid(b, Converter(units, m)));
  }

  /** `Fluid::new`: `with_units` in the engine's own units. */
  method New(s: RefpropLock, e: Engine, fluidName: string, files: FluidFiles) returns (r: Result<Fluid>)
    requires s.Valid()
    modifies s
    ensures s.Valid() && s.poisoned == old(s.poisoned) && old(s.nextId) <= s.nextId && old(s.defs) <= s.defs
    ensures r.Ok? ==> s.Issued(r.value.backend) && s.currentId == r.value.backend.id && s.Coherent()
    ensures r.Ok? ==> s.loaded == DefinitionOf(r.value.backend)
    ensures r.Ok? ==> r.value.backend.id == old(s.nextId) && s.nextId == old(s.nextId) + 1
    ensures r.Ok? ==> r.value.backend.nc <= Sys.RefpropNcMax
    ensures r.Ok? ==>
      r.value.conv == Converter(UnitConverter.Refprop(),
                                MixMolarMass(e.Holding(DefinitionOf(r.value.backend)), r.value.backend.z, r.value.backend.nc))
    ensures old(s.poisoned) && (files.mixFile.Some? || files.fldExists) ==> r == Err(PoisonedLock)
    ensures files.mixFile.Some? && !old(s.poisoned) ==>
      var m := MixResult(e, files.mixFile.value, old(s.nextId));
      && (r.Ok? <==> m.Ok? && SetupFluidInner(e, m.value).Ok?)
      && (m.Err? ==> r == Err(m.error))
      && (r.Ok? ==> r.value.backend == m.value)
    ensures files.mixFile.None? && files.fldExists && !old(s.poisoned) ==>
      var p := PureResult(e, fluidName, old(s.nextId));
      && (r.Ok? <==> p.Ok?)
      && (p.Err? ==> r == Err(p.error))
      && (r.Ok? ==> r.value.backend == PureBackend(old(s.nextId), fluidName))
    ensures files.mixFile.None? && !files.fldExists ==> r == Err(FluidNotFound(fluidName + FluidNotFoundSuffix))
    ensures MixResetupFails(e, files, old(s.poisoned), old(s.nextId)) ==>
      var m := MixResult(e, files.mixFile.value, old(s.nextId)).value;
      && r == Err(SetupFluidInner(e, m).error)
      && s.currentId == old(s.currentId) && s.loadedId == old(s.nextId) && !s.Coherent()
      && s.loaded == DefinitionOf(m)
    ensures !MixResetupFails(e, files, old(s.poisoned), old(s.nextId)) && old(s.Coherent()) ==> s.Coherent()
  {
    r := WithUnits(s, e, fluidName, files, UnitConverter.Refprop());
  }

  /**
   * The stale lock through the public constructors, as written. In a fresh
   * process a pure fluid is created (id 1); then a predefined mixture whose
   * file SETMIXdll accepts (id 2) but whose second setup in `molar_mass_mix`
   * fails. The constructor reports the error, yet the engine keeps the
   * mixture while the lock still names the pure fluid: the next operation on
   * the pure fluid skips setup and answers with the mixture's constants,
   * while the pure fluid's converter was fixed with its own.
   */
  method StaleLockAfterFailedMixture(e: Engine, fluidName: string, mixFile: string, units: UnitSystem)
    returns (pure: Fluid, mixture: Result<Fluid>, served: Result<Properties.FluidInfo>, heldDuringCall: Definition)
    requires SetupFluidInner(e, PureBackend(1, fluidName)).Ok?
    requires MixResult(e, mixFile, 2).Ok? && SetupFluidInner(e, MixResult(e, mixFile, 2).value).Err?
    ensures pure.backend == PureBackend(1, fluidName) && mixture.Err?
    ensures pure.conv.molarMass == e.info(DefinitionOf(pure.backend), 1).molarMass
    ensures heldDuringCall == DefinitionOf(MixResult(e, mixFile, 2).value)
    ensures served == Ok(e.info(heldDuringCall, 1))
    ensures heldDuringCall != DefinitionOf(pure.backend) <==>
            DefinitionOf(MixResult(e, mixFile, 2).value) != DefinitionOf(PureBackend(1, fluidName))
  {
    var s;
    s, pure := PureFluidInFreshProcess(e, fluidName, units);
    var files := FluidFiles(Some(mixFile), false);
    assert MixResetupFails(e, files, false, 2);
    mixture := WithUnits(s, e, fluidName, files, units);
    assert s.currentId == 1 && s.loadedId == 2 && !s.poisoned;
    assert s.Issued(pure.backend);
    assert s.EnterResult(e, pure.backend) == Ok(());
    heldDuringCall := s.loaded;
    served := Info(s, e, pure);
  }

  /** The first step of the scenario above: a pure fluid created in a fresh process. */
  method PureFluidInFreshProcess(e: Engine, fluidName: string, units: UnitSystem) returns (s: RefpropLock, pure: Fluid)
    requires SetupFluidInner(e, PureBackend(1, fluidName)).Ok?
    ensures fresh(s) && s.Valid() && !s.poisoned && s.Issued(pure.backend)
    ensures s.currentId == 1 && s.loadedId == 1 && s.nextId == 2
    ensures pure.backend == PureBackend(1, fluidName)
    ensures pure.conv.molarMass == e.info(DefinitionOf(pure.backend), 1).molarMass
  {
    s := new RefpropLock(false);
    var rp := WithUnits(s, e, fluidName, FluidFiles(None, true), units);
    assert PureResult(e, fluidName, 1).Ok?;
    pure := rp.value;
    PureMolarMass(e.Holding(DefinitionOf(pure.backend)), fluidName, 1);
  }

  /**
   * `Fluid::mixture_with_units`: the backend for an explicit composition,
   * then its mixture-averaged molar mass, which fixes the converter. A
   * component count out of range fails before anything else; otherwise the
   * fluid exists exactly when SETUPdll accepts the composition's file list.
   */
  method MixtureWithUnits(s: RefpropLock, e: Engine, components: seq<(string, real)>, units: UnitSystem)
    returns (r: Result<Fluid>)
    requires s.Valid()
    modifies s
    ensures s.Valid() && s.poisoned == old(s.poisoned) && old(s.defs) <= s.defs
    ensures old(s.Coherent()) ==> s.Coherent()
    ensures (|components| == 0 || |components| > Sys.RefpropNcMax) ==>
      r == Err(InvalidInput(ComponentCount(|components|))) && unchanged(s)
    ensures 0 < |components| <= Sys.RefpropNcMax ==>
      var b := RefpropBackend(old(s.nextId), |components|, PaddedComposition(Fractions(components)),
                              FldList(Names(components)));
      && s.nextId == old(s.nextId) + 1
      && (old(s.poisoned) ==> r == Err(PoisonedLock))
      && (!old(s.poisoned) ==> (r.Ok? <==> SetupFluidInner(e, b).Ok?))
      && (!old(s.poisoned) && SetupFluidInner(e, b).Err? ==> r == Err(SetupFluidInner(e, b).error))
      && (r.Ok? ==> r.value == Fluid(b, Converter(units, MixMolarMass(e.Holding(DefinitionOf(b)), b.z, b.nc))))
    ensures r.Ok? ==> s.Issued(r.value.backend) && s.currentId == r.value.backend.id && s.Coherent()
    ensures r.Ok? ==> s.loaded == DefinitionOf(r.value.backend)
  {
    var b :- s.NewMixture(e, components);
    assert s.currentId == b.id == s.loadedId;
    assert s.EnterResult(e, b) == Ok(());
    var mm := Backend.MolarMassMix(s, e, b);
    r := Map(mm, (m: real) => Fluid(b, Converter(units, m)));
  }

  /** `Fluid::mixture`: `mixture_with_units` in the engine's own units. */
  method Mixture(s: RefpropLock, e: Engine, components: seq<(string, real)>) returns (r: Result<Fluid>)
    requires s.Valid()
    modifies s
    ensures s.Valid() && s.poisoned == old(s.poisoned) && old(s.defs) <= s.defs
    ensures old(s.Coherent()) ==> s.Coherent()
    ensures (|components| == 0 || |components| > Sys.RefpropNcMax) ==>
      r == Err(InvalidInput(ComponentCount(|components|))) && unchanged(s)
    ensures 0 < |components| <= Sys.RefpropNcMax ==>
      var b := RefpropBackend(old(s.nextId), |components|, PaddedComposition(Fractions(components)),
                              FldList(Names(components)));
      && s.nextId == old(s.nextId) + 1
      && (old(s.poisoned) ==> r == Err(PoisonedLock))
      && (!old(s.poisoned) ==> (r.Ok? <==> SetupFluidInner(e, b).Ok?))
      && (!old(s.poisoned) && SetupFluidInner(e, b).Err? ==> r == Err(SetupFluidInner(e, b).error))
      && (r.Ok? ==> r.value == Fluid(b, Converter(UnitConverter.Refprop(), MixMolarMass(e.Holding(DefinitionOf(b)), b.z, b.nc))))
    ensures r.Ok? ==> s.Issued(r.value.backend) && s.currentId == r.value.backend.id && s.Coherent()
    ensures r.Ok? ==> s.loaded == DefinitionOf(r.value.backend)
  {
    r := MixtureWithUnits(s, e, components, UnitConverter.Refprop());
  }

  // ------------------------------------------------------------------
  //  Public operations
  // ------------------------------------------------------------------

  /**
   * `Fluid::get`: the backend's `get` on converted values; the lock is left
   * alone when a value is not finite, and otherwise goes through the
   * prologue for the fluid's backend. The dispatch runs with the definition
   * the engine then holds, the fluid's own from a coherent lock.
   */
  method Get(s: RefpropLock, e: Engine, fl: Fluid, output: string,
             key1: string, val1: F64, key2: string, val2: F64) returns (r: Result<real>)
    requires s.Valid() && s.Issued(fl.backend) && fl.conv.Invertible()
    modifies s
    ensures s.Valid() && s.Issued(fl.backend) && (old(s.Coherent()) ==> s.Coherent())
    ensures val1.NonFinite? || val2.NonFinite? ==> unchanged(s)
    ensures val1.Finite? && val2.Finite? ==> Backend.Entered(s, e, fl.backend)
    ensures r.Ok? ==> s.currentId == fl.backend.id
    ensures r == GetResult(old(s.EnterResult(e, fl.backend)), e.Holding(s.loaded), fl, output, key1, val1, key2, val2)
    ensures old(s.Coherent()) ==>
      r == GetResult(old(s.EnterResult(e, fl.backend)), e.Holding(DefinitionOf(fl.backend)), fl, output, key1, val1, key2, val2)
  {
    var v1 := InByKey(fl.conv, key1, val1);
    var v2 := InByKey(fl.conv, key2, val2);
    var raw := Backend.Get(s, e, fl.backend, output, key1, v1, key2, v2);
    r := Map(raw, (v: real) requires fl.conv.Invertible() => fl.conv.OutputFromRp(output, v));
  }

  /** `props_tp`, `props_ph`, `props_ps`, `props_tq`, `props_pq`, with the same frame as `get`. */
  method Props(s: RefpropLock, e: Engine, fl: Fluid, pair: Pair, x: F64, y: F64) returns (r: Result<ThermoProp>)
    requires s.Valid() && s.Issued(fl.backend) && fl.conv.Invertible() && FacadePair(pair)
    modifies s
    ensures s.Valid() && s.Issued(fl.backend) && (old(s.Coherent()) ==> s.Coherent())
    ensures x.NonFinite? || y.NonFinite? ==> unchanged(s)
    ensures x.Finite? && y.Finite? ==> Backend.Entered(s, e, fl.backend)
    ensures r.Ok? ==> s.currentId == fl.backend.id
    ensures r == PropsResult(old(s.EnterResult(e, fl.backend)), e.Holding(s.loaded), fl, pair, x, y)
    ensures old(s.Coherent()) ==>
      r == PropsResult(old(s.EnterResult(e, fl.backend)), e.Holding(DefinitionOf(fl.backend)), fl, pair, x, y)
  {
    var raw := Backend.Props(s, e, fl.backend, pair, In(fl.conv, PairInputs(pair).0, x), In(fl.conv, PairInputs(pair).1, y));
    r := Map(raw, (tp: ThermoProp) requires fl.conv.Invertible() => ConvertThermo(fl.conv, tp));
  }

  /** `saturation_t`: the temperature converted in, the bubble point converted out. */
  method SaturationT(s: RefpropLock, e: Engine, fl: Fluid, t: F64) returns (r: Result<SaturationProps>)
    requires s.Valid() && s.Issued(fl.backend) && fl.conv.Invertible()
    modifies s
    ensures s.Valid() && s.Issued(fl.backend) && (old(s.Coherent()) ==> s.Coherent())
    ensures t.NonFinite? ==> r == Err(InvalidInput(NotFinite("temperature"))) && unchanged(s)
    ensures t.Finite? ==> Backend.Entered(s, e, fl.backend)
    ensures r.Ok? ==> s.currentId == fl.backend.id
    ensures t.Finite? ==> r == Map(Backend.Then(old(s.EnterResult(e, fl.backend)),
                                                SatTInner(e.Holding(s.loaded), fl.backend.z, fl.conv.TToRp(t.value), Bubble)),
                                   (sp: SaturationProps) requires fl.conv.Invertible() => ConvertSat(fl.conv, sp))
    ensures t.Finite? && old(s.Coherent()) ==>
      r == Map(Backend.Then(old(s.EnterResult(e, fl.backend)),
                            SatTInner(e.Holding(DefinitionOf(fl.backend)), fl.backend.z, fl.conv.TToRp(t.value), Bubble)),
               (sp: SaturationProps) requires fl.conv.Invertible() => ConvertSat(fl.conv, sp))
    ensures r.Ok? ==> r.value.temperature == t.value
  {
    var raw := Backend.SaturationT(s, e, fl.backend, In(fl.conv, Temperature, t));
    r := Map(raw, (sp: SaturationProps) requires fl.conv.Invertible() => ConvertSat(fl.conv, sp));
    if r.Ok? {
      TemperatureRoundTrip(fl.conv, t.value);
    }
  }

  /** `saturation_p`: the pressure converted in, the bubble point converted out. */
  method SaturationP(s: RefpropLock, e: Engine, fl: Fluid, p: F64) returns (r: Result<SaturationProps>)
    requires s.Valid() && s.Issued(fl.backend) && fl.conv.Invertible()
    modifies s
    ensures s.Valid() && s.Issued(fl.backend) && (old(s.Coherent()) ==> s.Coherent())
    ensures p.NonFinite? ==> r == Err(InvalidInput(NotFinite("pressure"))) && unchanged(s)
    ensures p.Finite? ==> Backend.Entered(s, e, fl.backend)
    ensures r.Ok? ==> s.currentId == fl.backend.id
    ensures p.Finite? ==> r == Map(Backend.Then(old(s.EnterResult(e, fl.backend)),
                                                SatPInner(e.Holding(s.loaded), fl.backend.z, fl.conv.PToRp(p.value), Bubble)),
                                   (sp: SaturationProps) requires fl.conv.Invertible() => ConvertSat(fl.conv, sp))
    ensures p.Finite? && old(s.Coherent()) ==>
      r == Map(Backend.Then(old(s.EnterResult(e, fl.backend)),
                            SatPInner(e.Holding(DefinitionOf(fl.backend)), fl.backend.z, fl.conv.PToRp(p.value), Bubble)),
               (sp: SaturationProps) requires fl.conv.Invertible() => ConvertSat(fl.conv, sp))
    ensures r.Ok? ==> r.value.pressure == p.value
  {
    var raw := Backend.SaturationP(s, e, fl.backend, In(fl.conv, Pressure, p));
    r := Map(raw, (sp: SaturationProps) requires fl.conv.Invertible() => ConvertSat(fl.conv, sp));
    if r.Ok? {
      PressureRoundTrip(fl.conv, p.value);
    }
  }

  /** `transport`: temperature and density converted in, viscosity and conductivity converted out. */
  method Transport(s: RefpropLock, e: Engine, fl: Fluid, t: F64, d: F64) returns (r: Result<TransportProps>)
    requires s.Valid() && s.Issued(fl.backend) && fl.conv.Invertible()
    modifies s
    ensures s.Valid() && s.Issued(fl.backend) && (old(s.Coherent()) ==> s.Coherent())
    ensures t.NonFinite? ==> r == Err(InvalidInput(NotFinite("temperature"))) && unchanged(s)
    ensures t.Finite? && d.NonFinite? ==> r == Err(InvalidInput(NotFinite("density"))) && unchanged(s)
    ensures t.Finite? && d.Finite? ==> Backend.Entered(s, e, fl.backend)
    ensures r.Ok? ==> s.currentId == fl.backend.id
    ensures t.Finite? && d.Finite? ==>
      var held := if old(s.Coherent()) then DefinitionOf(fl.backend) else s.loaded;
      var raw := Backend.Then(old(s.EnterResult(e, fl.backend)),
                              TransportInner(e.Holding(held), fl.backend.z, fl.conv.TToRp(t.value), fl.conv.DToRp(d.value)));
      && (r.Err? <==> raw.Err?)
      && (r.Err? ==> r.error == raw.error)
      && (r.Ok? ==> r.value.viscosity == fl.conv.EtaFromRp(raw.value.viscosity)
                    && r.value.thermalConductivity == fl.conv.TcxFromRp(raw.value.thermalConductivity))
  {
    var raw := Backend.Transport(s, e, fl.backend, In(fl.conv, Temperature, t), In(fl.conv, Density, d));
    r := Map(raw, (tr: TransportProps) requires fl.conv.Invertible() =>
                    TransportProps(fl.conv.EtaFromRp(tr.viscosity), fl.conv.TcxFromRp(tr.thermalConductivity)));
  }

  /** `critical_point`: temperature, pressure and density converted out. */
  method CriticalPoint(s: RefpropLock, e: Engine, fl: Fluid) returns (r: Result<CriticalProps>)
    requires s.Valid() && s.Issued(fl.backend) && fl.conv.Invertible()
    modifies s
    ensures s.Valid() && s.Issued(fl.backend) && (old(s.Coherent()) ==> s.Coherent())
    ensures Backend.Entered(s, e, fl.backend)
    ensures r.Ok? ==> s.currentId == fl.backend.id
    ensures var held := if old(s.Coherent()) then DefinitionOf(fl.backend) else s.loaded;
      var raw := Backend.Then(old(s.EnterResult(e, fl.backend)), Checked(e.critP(held, fl.backend.z)));
      && (r.Err? <==> raw.Err?)
      && (r.Err? ==> r.error == raw.error)
      && (r.Ok? ==> r.value == CriticalProps(fl.conv.TFromRp(raw.value.temperature),
                                             fl.conv.PFromRp(raw.value.pressure),
                                             fl.conv.DFromRp(raw.value.density)))
  {
    var raw := Backend.CriticalPoint(s, e, fl.backend);
    r := Map(raw, (cp: CriticalProps) requires fl.conv.Invertible() =>
                    CriticalProps(fl.conv.TFromRp(cp.temperature), fl.conv.PFromRp(cp.pressure), fl.conv.DFromRp(cp.density)));
  }

  /**
   * `info`: the fluid's constants as the backend reports them, in the
   * engine's units whatever the unit system; from a coherent lock, those of
   * the fluid's own definition.
   */
  method Info(s: RefpropLock, e: Engine, fl: Fluid) returns (r: Result<Properties.FluidInfo>)
    requires s.Valid() && s.Issued(fl.backend)
    modifies s
    ensures s.Valid() && s.Issued(fl.backend) && (old(s.Coherent()) ==> s.Coherent())
    ensures Backend.Entered(s, e, fl.backend)
    ensures r.Ok? ==> s.currentId == fl.backend.id
    ensures r == Backend.Then(old(s.EnterResult(e, fl.backend)), Ok(e.info(s.loaded, 1)))
    ensures old(s.Coherent()) ==> r == Backend.Then(old(s.EnterResult(e, fl.backend)), Ok(e.info(DefinitionOf(fl.backend), 1)))
  {
    r := Backend.FluidInfo(s, e, fl.backend);
  }
}
