/**
 * The value records the engine produces (src/properties.rs), all in the
 * engine's native basis: K, kPa, mol/L, J/mol, J/(mol K), m/s, µPa s, W/(m K).
 */
module Properties {

  /**
   * An f64 as far as input validation can tell: a finite number, or not
   * (NaN and both infinities).
   */
  datatype F64 = Finite(value: real) | NonFinite

  /** A full thermodynamic state, the result of one flash or interpolation. */
  datatype ThermoProp = ThermoProp(
    temperature: real,
    pressure: real,
    density: real,
    enthalpy: real,
    entropy: real,
    cv: real,
    cp: real,
    soundSpeed: real,
    quality: real,
    internalEnergy: real)

  /** The fields of a ThermoProp, as the output keys of `get` name them. */
  datatype Field =
    | Temperature | Pressure | Density | Enthalpy | Entropy
    | Quality | Cv | Cp | SoundSpeed | InternalEnergy

  /** The value of one field of a state. */
  function Value(f: Field, tp: ThermoProp): real
  {
    match f
    case Temperature => tp.temperature
    case Pressure => tp.pressure
    case Density => tp.density
    case Enthalpy => tp.enthalpy
    case Entropy => tp.entropy
    case Quality => tp.quality
    case Cv => tp.cv
    case Cp => tp.cp
    case SoundSpeed => tp.soundSpeed
    case InternalEnergy => tp.internalEnergy
  }

  /** One point of a saturation curve. */
  datatype SaturationProps = SaturationProps(
    temperature: real,
    pressure: real,
    densityLiquid: real,
    densityVapor: real)

  /** Viscosity and thermal conductivity at one (T, D) state point. */
  datatype TransportProps = TransportProps(viscosity: real, thermalConductivity: real)

  /** Critical temperature, pressure and density. */
  datatype CriticalProps = CriticalProps(temperature: real, pressure: real, density: real)

  /** Constants of one pure component. */
  datatype FluidInfo = FluidInfo(
    molarMass: real,
    triplePointTemp: real,
    normalBoilingPoint: real,
    criticalTemperature: real,
    criticalPressure: real,
    criticalDensity: real,
    compressibilityFactor: real,
    acentricFactor: real,
    dipoleMoment: real,
    gasConstant: real)
}
