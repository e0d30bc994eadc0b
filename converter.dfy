/**
 * The unit converter (converter/src/lib.rs): a choice of user units for each
 * quantity, and the conversions between those units and the engine's native
 * ones (K, kPa, mol/L, J/mol, J/(mol K), µPa s, W/(m K)). Mass-based units
 * go through the fluid's molar mass (g/mol). Arithmetic is over the reals.
 */
module UnitConverter {
  import opened Text

  datatype TempUnit = Kelvin | Celsius | Fahrenheit
  datatype PressUnit = KPa | Bar | MPa | Pa | Atm | Psi
  datatype DensityUnit = MolPerL | KgPerM3
  datatype EnergyUnit = JPerMol | KJPerKg | JPerKg
  datatype EntropyUnit = JPerMolK | KJPerKgK | JPerKgK
  datatype ViscosityUnit = MicroPaS | MilliPaS | PaS
  datatype ConductivityUnit = WPerMK | MilliWPerMK

  /** The user's unit for each quantity, with a builder that replaces one at a time. */
  datatype UnitSystem = UnitSystem(
    temperature: TempUnit,
    pressure: PressUnit,
    density: DensityUnit,
    energy: EnergyUnit,
    entropy: EntropyUnit,
    viscosity: ViscosityUnit,
    conductivity: ConductivityUnit)
  {
    function Temperature(u: TempUnit): UnitSystem { this.(temperature := u) }
    function Pressure(u: PressUnit): UnitSystem { this.(pressure := u) }
    function Density(u: DensityUnit): UnitSystem { this.(density := u) }
    function Energy(u: EnergyUnit): UnitSystem { this.(energy := u) }
    function Entropy(u: EntropyUnit): UnitSystem { this.(entropy := u) }
    function Viscosity(u: ViscosityUnit): UnitSystem { this.(viscosity := u) }
    function Conductivity(u: ConductivityUnit): UnitSystem { this.(conductivity := u) }
  }

  /** Every quantity in the engine's own unit. */
  predicate IsNative(u: UnitSystem)
  {
    && u.temperature == Kelvin && u.pressure == KPa && u.density == MolPerL
    && u.energy == JPerMol && u.entropy == JPerMolK
    && u.viscosity == MicroPaS && u.conductivity == WPerMK
  }

  /** `UnitSystem::refprop()`: the engine's units. */
  function Refprop(): (u: UnitSystem)
    ensures IsNative(u)
  {
    UnitSystem(Kelvin, KPa, MolPerL, JPerMol, JPerMolK, MicroPaS, WPerMK)
  }

  /** `UnitSystem::new()`, the starting point of the builder. */
  function New(): (u: UnitSystem)
    ensures IsNative(u)
  {
    Refprop()
  }

  /** `UnitSystem::default()`. */
  function Default(): (u: UnitSystem)
    ensures IsNative(u)
  {
    Refprop()
  }

  /** °C, bar, kg/m³, kJ/kg, kJ/(kg K), µPa s, W/(m K). */
  function Engineering(): UnitSystem
  {
    UnitSystem(Celsius, Bar, KgPerM3, KJPerKg, KJPerKgK, MicroPaS, WPerMK)
  }

  /** K, Pa, kg/m³, J/kg, J/(kg K), Pa s, W/(m K). */
  function Si(): UnitSystem
  {
    UnitSystem(Kelvin, Pa, KgPerM3, JPerKg, JPerKgK, PaS, WPerMK)
  }

  /** Each builder step replaces its own field and leaves the other six as they were. */
  lemma BuilderReplacesOneField(u: UnitSystem, t: TempUnit, p: PressUnit, d: DensityUnit)
    ensures u.Temperature(t).temperature == t && u.Temperature(t).(temperature := u.temperature) == u
    ensures u.Pressure(p).pressure == p && u.Pressure(p).(pressure := u.pressure) == u
    ensures u.Density(d).density == d && u.Density(d).(density := u.density) == u
  {
  }

  /** Building from `new()` one field at a time reaches every unit system. */
  lemma BuilderReachesEverySystem(u: UnitSystem)
    ensures New().Temperature(u.temperature).Pressure(u.pressure).Density(u.density)
                 .Energy(u.energy).Entropy(u.entropy).Viscosity(u.viscosity)
                 .Conductivity(u.conductivity) == u
  {
  }

  /** The later of two settings of the same field wins; settings of different fields commute. */
  lemma BuilderLastWins(u: UnitSystem, a: TempUnit, b: TempUnit, p: PressUnit)
    ensures u.Temperature(a).Temperature(b) == u.Temperature(b)
    ensures u.Temperature(a).Pressure(p) == u.Pressure(p).Temperature(a)
  {
  }

  // ------------------------------------------------------------------
  //  The converter
  // ------------------------------------------------------------------

  /** A unit system together with the molar mass (g/mol) the mass-based units use. */
  datatype Converter = Converter(units: UnitSystem, molarMass: real)
  {
    /** The molar mass is only divided by when a mass-based unit is chosen. */
    predicate Invertible()
    {
      molarMass != 0.0 ||
      (units.density == MolPerL && units.energy == JPerMol && units.entropy == JPerMolK)
    }

    function TToRp(t: real): real
    {
      match units.temperature
      case Kelvin => t
      case Celsius => t + 273.15
      case Fahrenheit => (t - 32.0) * 5.0 / 9.0 + 273.15
    }

    function TFromRp(t: real): real
    {
      match units.temperature
      case Kelvin => t
      case Celsius => t - 273.15
      case Fahrenheit => (t - 273.15) * 9.0 / 5.0 + 32.0
    }

    function PToRp(p: real): real
    {
      match units.pressure
      case KPa => p
      case Bar => p * 100.0
      case MPa => p * 1000.0
      case Pa => p / 1000.0
      case Atm => p * 101.325
      case Psi => p * 6.894757
    }

    function PFromRp(p: real): real
    {
      match units.pressure
      case KPa => p
      case Bar => p / 100.0
      case MPa => p / 1000.0
      case Pa => p * 1000.0
      case Atm => p / 101.325
      case Psi => p / 6.894757
    }

    function DToRp(d: real): real
      requires units.density == KgPerM3 ==> molarMass != 0.0
    {
      match units.density
      case MolPerL => d
      case KgPerM3 => d / molarMass
    }

    function DFromRp(d: real): real
    {
      match units.density
      case MolPerL => d
      case KgPerM3 => d * molarMass
    }

    function HToRp(h: real): real
    {
      match units.energy
      case JPerMol => h
      case KJPerKg => h * molarMass
      case JPerKg => h * molarMass / 1000.0
    }

    function HFromRp(h: real): real
      requires units.energy != JPerMol ==> molarMass != 0.0
    {
      match units.energy
      case JPerMol => h
      case KJPerKg => h / molarMass
      case JPerKg => h * 1000.0 / molarMass
    }

    function SToRp(s: real): real
    {
      match units.entropy
      case JPerMolK => s
      case KJPerKgK => s * molarMass
      case JPerKgK => s * molarMass / 1000.0
    }

    function SFromRp(s: real): real
      requires units.entropy != JPerMolK ==> molarMass != 0.0
    {
      match units.entropy
      case JPerMolK => s
      case KJPerKgK => s / molarMass
      case JPerKgK => s * 1000.0 / molarMass
    }

    function EtaToRp(eta: real): real
    {
      match units.viscosity
      case MicroPaS => eta
      case MilliPaS => eta * 1000.0
      case PaS => eta * 1000000.0
    }

    function EtaFromRp(eta: real): real
    {
      match units.viscosity
      case MicroPaS => eta
      case MilliPaS => eta / 1000.0
      case PaS => eta / 1000000.0
    }

    function TcxToRp(tcx: real): real
    {
      match units.conductivity
      case WPerMK => tcx
      case MilliWPerMK => tcx / 1000.0
    }

    function TcxFromRp(tcx: real): real
    {
      match units.conductivity
      case WPerMK => tcx
      case MilliWPerMK => tcx * 1000.0
    }

    /** `input_to_rp`: the conversion the (case-insensitive) key selects; other keys pass through. */
    function InputToRp(key: string, v: real): (r: real)
      requires Invertible()
      ensures KeyClass(Upper(key)) == Unconverted ==> r == v
    {
      match KeyClass(Upper(key))
      case TemperatureKey => TToRp(v)
      case PressureKey => PToRp(v)
      case DensityKey => DToRp(v)
      case EnergyKey => HToRp(v)
      case EntropyKey => SToRp(v)
      case ViscosityKey => EtaToRp(v)
      case ConductivityKey => TcxToRp(v)
      case Unconverted => v
    }

    /** `output_from_rp`: the inverse conversion the (case-insensitive) key selects. */
    function OutputFromRp(key: string, v: real): (r: real)
      requires Invertible()
      ensures KeyClass(Upper(key)) == Unconverted ==> r == v
    {
      match KeyClass(Upper(key))
      case TemperatureKey => TFromRp(v)
      case PressureKey => PFromRp(v)
      case DensityKey => DFromRp(v)
      case EnergyKey => HFromRp(v)
      case EntropyKey => SFromRp(v)
      case ViscosityKey => EtaFromRp(v)
      case ConductivityKey => TcxFromRp(v)
      case Unconverted => v
    }
  }

  /** `Converter::identity()`: native units and molar mass 1. */
  function Identity(): (c: Converter)
    ensures IsNative(c.units) && c.Invertible()
  {
    Converter(Refprop(), 1.0)
  }

  /** Which conversion a key selects. */
  datatype KeyConversion =
    | TemperatureKey | PressureKey | DensityKey | EnergyKey | EntropyKey
    | ViscosityKey | ConductivityKey | Unconverted

  /**
   * The conversion class of an upper-cased key: internal energy converts like
   * enthalpy and the heat capacities like entropy; quality, sound speed and
   * every unknown key are not converted.
   */
  function KeyClass(u: string): KeyConversion
  {
    if u == "T" then TemperatureKey
    else if u == "P" then PressureKey
    else if u == "D" || u == "RHO" then DensityKey
    else if u == "H" then EnergyKey
    else if u == "S" then EntropyKey
    else if u == "E" || u == "U" then EnergyKey
    else if u == "CV" || u == "CP" then EntropyKey
    else if u == "ETA" || u == "V" || u == "VIS" then ViscosityKey
    else if u == "TCX" || u == "L" || u == "LAMBDA" then ConductivityKey
    else Unconverted
  }

  // ------------------------------------------------------------------
  //  Properties of the conversions
  // ------------------------------------------------------------------

  /** Temperature: each direction undoes the other, for every unit. */
  lemma TemperatureRoundTrip(c: Converter, t: real)
    ensures c.TFromRp(c.TToRp(t)) == t && c.TToRp(c.TFromRp(t)) == t
  {
  }

  /** Pressure: each direction undoes the other, for every unit. */
  lemma PressureRoundTrip(c: Converter, p: real)
    ensures c.PFromRp(c.PToRp(p)) == p && c.PToRp(c.PFromRp(p)) == p
  {
  }

  /** Density: each direction undoes the other whenever the molar mass is usable. */
  lemma DensityRoundTrip(c: Converter, d: real)
    requires c.Invertible()
    ensures c.DFromRp(c.DToRp(d)) == d && c.DToRp(c.DFromRp(d)) == d
  {
  }

  /** Energy: each direction undoes the other whenever the molar mass is usable. */
  lemma EnergyRoundTrip(c: Converter, h: real)
    requires c.Invertible()
    ensures c.HFromRp(c.HToRp(h)) == h && c.HToRp(c.HFromRp(h)) == h
  {
    if c.units.energy == JPerKg {
      assert h * c.molarMass / 1000.0 * 1000.0 == h * c.molarMass;
    }
  }

  /** Entropy (and heat capacity): each direction undoes the other whenever the molar mass is usable. */
  lemma EntropyRoundTrip(c: Converter, s: real)
    requires c.Invertible()
    ensures c.SFromRp(c.SToRp(s)) == s && c.SToRp(c.SFromRp(s)) == s
  {
    if c.units.entropy == JPerKgK {
      assert s * c.molarMass / 1000.0 * 1000.0 == s * c.molarMass;
    }
  }

  /** Viscosity and thermal conductivity: each direction undoes the other. */
  lemma TransportRoundTrip(c: Converter, eta: real, tcx: real)
    ensures c.EtaFromRp(c.EtaToRp(eta)) == eta && c.EtaToRp(c.EtaFromRp(eta)) == eta
    ensures c.TcxFromRp(c.TcxToRp(tcx)) == tcx && c.TcxToRp(c.TcxFromRp(tcx)) == tcx
  {
  }

  /** Under native units every conversion is the identity, whatever the molar mass. */
  lemma NativeIsIdentity(c: Converter, v: real)
    requires IsNative(c.units)
    ensures c.TToRp(v) == v && c.TFromRp(v) == v && c.PToRp(v) == v && c.PFromRp(v) == v
    ensures c.DToRp(v) == v && c.DFromRp(v) == v && c.HToRp(v) == v && c.HFromRp(v) == v
    ensures c.SToRp(v) == v && c.SFromRp(v) == v
    ensures c.EtaToRp(v) == v && c.EtaFromRp(v) == v && c.TcxToRp(v) == v && c.TcxFromRp(v) == v
  {
  }

  /** Under native units the key-driven conversions are the identity for every key. */
  lemma NativeKeyConversionIsIdentity(c: Converter, key: string, v: real)
    requires IsNative(c.units)
    ensures c.InputToRp(key, v) == v && c.OutputFromRp(key, v) == v
  {
    NativeIsIdentity(c, v);
  }

  /** Temperature offsets and pressure factors, as multiples of the native units. */
  lemma ConversionConstants(m: real, t: real, p: real)
    ensures Converter(Refprop().Temperature(Celsius), m).TToRp(t) == t + 273.15
    ensures Converter(Refprop().Temperature(Fahrenheit), m).TToRp(t) == (t - 32.0) * 5.0 / 9.0 + 273.15
    ensures Converter(Refprop().Pressure(Bar), m).PToRp(p) == 100.0 * p
    ensures Converter(Refprop().Pressure(MPa), m).PToRp(p) == 1000.0 * p
    ensures Converter(Refprop().Pressure(Pa), m).PToRp(p) == p / 1000.0
    ensures Converter(Refprop().Pressure(Atm), m).PToRp(p) == 101.325 * p
    ensures Converter(Refprop().Pressure(Psi), m).PToRp(p) == 6.894757 * p
  {
  }

  /**
   * The J/kg and J/(kg K) forms differ from the kJ forms by exactly 1000:
   * the same native value reads 1000 times larger, and 1000 times the input
   * converts to the same native value.
   */
  lemma PerKilogramScale(u: UnitSystem, m: real, x: real)
    requires m != 0.0
    ensures Converter(u.Energy(JPerKg), m).HToRp(1000.0 * x) == Converter(u.Energy(KJPerKg), m).HToRp(x)
    ensures Converter(u.Energy(JPerKg), m).HFromRp(x) == 1000.0 * Converter(u.Energy(KJPerKg), m).HFromRp(x)
    ensures Converter(u.Entropy(JPerKgK), m).SToRp(1000.0 * x) == Converter(u.Entropy(KJPerKgK), m).SToRp(x)
    ensures Converter(u.Entropy(JPerKgK), m).SFromRp(x) == 1000.0 * Converter(u.Entropy(KJPerKgK), m).SFromRp(x)
  {
  }

  /** The engineering and SI presets both use kg/m³, so they report the same density. */
  lemma PresetDensitiesAgree(m: real, d: real)
    ensures Converter(Engineering(), m).DFromRp(d) == Converter(Si(), m).DFromRp(d) == d * m
    ensures m != 0.0 ==> Converter(Engineering(), m).DToRp(d) == Converter(Si(), m).DToRp(d) == d / m
  {
  }

  /** Keys are matched case-insensitively. */
  lemma KeyConversionCaseInsensitive(c: Converter, key: string, v: real)
    requires c.Invertible()
    ensures c.InputToRp(Upper(key), v) == c.InputToRp(key, v)
    ensures c.OutputFromRp(Upper(key), v) == c.OutputFromRp(key, v)
  {
    UpperIdempotent(key);
  }

  /** Converting a value in by its key and back out by the same key gives it back. */
  lemma KeyRoundTrip(c: Converter, key: string, v: real)
    requires c.Invertible()
    ensures c.OutputFromRp(key, c.InputToRp(key, v)) == v
    ensures c.InputToRp(key, c.OutputFromRp(key, v)) == v
  {
    TemperatureRoundTrip(c, v);
    PressureRoundTrip(c, v);
    DensityRoundTrip(c, v);
    EnergyRoundTrip(c, v);
    EntropyRoundTrip(c, v);
    TransportRoundTrip(c, v, v);
  }

  /** Quality and sound speed are never converted. */
  lemma QualityAndSoundSpeedPassThrough(c: Converter, v: real)
    requires c.Invertible()
    ensures c.InputToRp("Q", v) == v && c.OutputFromRp("Q", v) == v
    ensures c.InputToRp("W", v) == v && c.OutputFromRp("W", v) == v
  {
    assert Upper("Q") == "Q";
    assert Upper("W") == "W";
  }
}
