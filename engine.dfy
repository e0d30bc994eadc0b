/**
 * The native engine as the bindings see it: the fixed set of primitives they
 * call, each answering with its outputs plus an error code `ierr` and a
 * message buffer `herr`. The engine's numerics are not modelled; an `Engine`
 * value is any choice of these functions, and every property of the model
 * holds for all of them.
 */
module NativeEngine {
  import opened Text
  import opened Properties
  import Sys

  /** A composition array `[f64; REFPROP_NC_MAX]`. */
  type Composition = z: seq<real> | |z| == Sys.RefpropNcMax witness seq(Sys.RefpropNcMax, _ => 0.0)

  /**
   * A saturation density. The engine reports positive ones; the two-phase
   * blend divides by them.
   */
  type Density = d: real | d > 0.0 witness 1.0

  /** The flash routines of the engine, named by the pair of inputs they take, in that order. */
  datatype FlashPrimitive = TP | PH | PS | TD | PD | TH | TS | DH | DS | HS

  /** The phase flag `kph` of the saturation routines. */
  datatype Curve = Bubble | Dew

  /** `kph` as the engine receives it: 1 for the bubble curve, 2 for the dew curve. */
  function Kph(c: Curve): int
  {
    match c
    case Bubble => 1
    case Dew => 2
  }

  /** The outputs of one engine call together with its `ierr` and `herr`. */
  datatype Reply<T> = Reply(value: T, ierr: int, herr: seq<Byte>)

  /**
   * What SATTdll / SATPdll report: the other coordinate of the saturation
   * point (pressure for SATTdll, temperature for SATPdll) and both densities.
   */
  datatype SatPoint = SatPoint(other: real, densityLiquid: Density, densityVapor: Density)

  /** What THERMdll reports at a given (T, D). */
  datatype ThermPoint = ThermPoint(
    pressure: real,
    internalEnergy: real,
    enthalpy: real,
    entropy: real,
    cv: real,
    cp: real,
    soundSpeed: real)

  /** A component count the engine reports: it never describes more components than its arrays hold. */
  type ComponentCount = n: nat | n <= Sys.RefpropNcMax

  /** What SETMIXdll reports for a predefined mixture file. */
  datatype MixDefinition = MixDefinition(nc: ComponentCount, hfld: seq<Byte>, z: Composition)

  /**
   * The fluid definition the engine holds after a successful SETUPdll or
   * SETMIXdll: the component count and the pipe-separated list of the
   * components' fluid files. Every computing routine answers for the
   * definition it holds; none of them is told which fluid the caller meant.
   */
  datatype Definition = Definition(nc: nat, hfld: string)

  /** What the engine holds before anything has been set up. */
  const NothingLoaded: Definition := Definition(0, "")

  /**
   * The native library. SETUPdll and SETMIXdll replace the definition it
   * holds; the computing routines read it, so each of them is a function of
   * the held definition as well as of its arguments.
   */
  datatype Engine = Engine(
    setup: (nat, string) -> Reply<()>,                                  // SETUPdll(nc, hfld)
    setMix: string -> Reply<MixDefinition>,                             // SETMIXdll(mixture file)
    flash: (Definition, FlashPrimitive, real, real, Composition) -> Reply<ThermoProp>,
    satT: (Definition, real, Composition, Curve) -> Reply<SatPoint>,    // SATTdll(t, z, kph)
    satP: (Definition, real, Composition, Curve) -> Reply<SatPoint>,    // SATPdll(p, z, kph)
    therm: (Definition, real, real, Composition) -> ThermPoint,         // THERMdll(t, d, z); no error code
    transport: (Definition, real, real, Composition) -> Reply<TransportProps>,
    critP: (Definition, Composition) -> Reply<CriticalProps>,
    info: (Definition, int) -> FluidInfo)                               // INFOdll(icomp); no error code
  {
    /** The computing routines as they answer while `d` is the held definition. */
    function Holding(d: Definition): Routines
    {
      Routines(
        (p, a, b, z: Composition) => flash(d, p, a, b, z),
        (t, z: Composition, c) => satT(d, t, z, c),
        (p, z: Composition, c) => satP(d, p, z, c),
        (t, dd, z: Composition) => therm(d, t, dd, z),
        (t, dd, z: Composition) => transport(d, t, dd, z),
        (z: Composition) => critP(d, z),
        i => info(d, i))
    }
  }

  /** The computing routines of the engine with one definition held. */
  datatype Routines = Routines(
    flash: (FlashPrimitive, real, real, Composition) -> Reply<ThermoProp>,
    satT: (real, Composition, Curve) -> Reply<SatPoint>,
    satP: (real, Composition, Curve) -> Reply<SatPoint>,
    therm: (real, real, Composition) -> ThermPoint,
    transport: (real, real, Composition) -> Reply<TransportProps>,
    critP: Composition -> Reply<CriticalProps>,
    info: int -> FluidInfo)
}
