/**
 * The key-driven `get` of the newer backend (src/backend/refprop.rs), after
 * validation, locking and setup: the two constraint keys are upper-cased and
 * routed to one flash with its arguments in the order it takes them; the
 * output key then picks one field of the state, or asks for one transport
 * evaluation at the state's temperature and density.
 */
module Dispatch {
  import opened Text
  import opened Properties
  import opened Errors
  import opened NativeEngine
  import opened Flash

  // ------------------------------------------------------------------
  //  Input keys and routes
  // ------------------------------------------------------------------

  /** The field an (upper-cased) input key constrains; `RHO` names density like `D`. */
  function InputField(u: string): (r: Option<Field>)
    ensures r.Some? ==> r.value in InputFields
  {
    if u == "T" then Some(Temperature)
    else if u == "P" then Some(Pressure)
    else if u == "D" || u == "RHO" then Some(Density)
    else if u == "H" then Some(Enthalpy)
    else if u == "S" then Some(Entropy)
    else if u == "Q" then Some(Quality)
    else None
  }

  /** The fields an input key can name. */
  const InputFields: set<Field> := {Temperature, Pressure, Density, Enthalpy, Entropy, Quality}

  /**
   * The route for two constrained fields in the order the route takes them;
   * none when the pair is not supported in that order.
   */
  function RouteFor(f1: Field, f2: Field): (r: Option<Pair>)
    ensures r.Some? ==> PairInputs(r.value) == (f1, f2)
    ensures r.None? ==> forall pair: Pair :: PairInputs(pair) != (f1, f2)
  {
    match (f1, f2)
    case (Temperature, Pressure) => Some(Native(TP))
    case (Pressure, Enthalpy) => Some(Native(PH))
    case (Pressure, Entropy) => Some(Native(PS))
    case (Temperature, Quality) => Some(TQ)
    case (Pressure, Quality) => Some(PQ)
    case (Temperature, Density) => Some(Native(TD))
    case (Temperature, Enthalpy) => Some(Native(TH))
    case (Temperature, Entropy) => Some(Native(TS))
    case (Pressure, Density) => Some(Native(PD))
    case (Density, Enthalpy) => Some(Native(DH))
    case (Density, Entropy) => Some(Native(DS))
    case (Enthalpy, Entropy) => Some(Native(HS))
    case _ => None
  }

  /** A flash route together with the two values it is called with, in its order. */
  datatype Route = Route(pair: Pair, a: real, b: real)

  /**
   * The match on the upper-cased key pair. A supported pair names its route
   * and passes the values in the order the route takes them: as given, or
   * swapped when the keys came in the other order. Any other pair is
   * rejected, naming the upper-cased keys.
   */
  function Resolve(key1: string, v1: real, key2: string, v2: real): (r: Result<Route>)
    ensures r.Ok? ==> InputField(Upper(key1)).Some? && InputField(Upper(key2)).Some?
    ensures r.Ok? ==>
      var f1, f2 := InputField(Upper(key1)).value, InputField(Upper(key2)).value;
      || (PairInputs(r.value.pair) == (f1, f2) && r.value.a == v1 && r.value.b == v2)
      || (PairInputs(r.value.pair) == (f2, f1) && r.value.a == v2 && r.value.b == v1)
    ensures r.Err? ==> r.error == InvalidInput(UnsupportedPair(Upper(key1), Upper(key2)))
  {
    var k1, k2 := Upper(key1), Upper(key2);
    match (InputField(k1), InputField(k2))
    case (Some(f1), Some(f2)) =>
      if RouteFor(f1, f2).Some? then Ok(Route(RouteFor(f1, f2).value, v1, v2))
      else if RouteFor(f2, f1).Some? then Ok(Route(RouteFor(f2, f1).value, v2, v1))
      else Err(InvalidInput(UnsupportedPair(k1, k2)))
    case _ => Err(InvalidInput(UnsupportedPair(k1, k2)))
  }

  // ------------------------------------------------------------------
  //  The supported pairs, as the documentation of `get` lists them
  // ------------------------------------------------------------------

  const SupportedPairs: set<(string, string)> := {
    ("T", "P"), ("T", "D"), ("T", "H"), ("T", "S"), ("T", "Q"), ("P", "D"),
    ("P", "H"), ("P", "S"), ("P", "Q"), ("D", "H"), ("D", "S"), ("H", "S")
  }

  /** `RHO` is accepted wherever `D` is. */
  function Canon(u: string): string
  {
    if u == "RHO" then "D" else u
  }

  /** An upper-cased key pair is supported when it is a listed pair, in either order. */
  predicate Supported(u1: string, u2: string)
  {
    (Canon(u1), Canon(u2)) in SupportedPairs || (Canon(u2), Canon(u1)) in SupportedPairs
  }

  /** The one-letter key of an input field. */
  function KeyName(f: Field): string
  {
    match f
    case Temperature => "T"
    case Pressure => "P"
    case Density => "D"
    case Enthalpy => "H"
    case Entropy => "S"
    case Quality => "Q"
    case _ => ""
  }

  lemma InputFieldNames(u: string)
    ensures InputField(u).Some? ==> Canon(u) == KeyName(InputField(u).value)
    ensures InputField(u).None? ==> Canon(u) !in {"T", "P", "D", "H", "S", "Q"}
  {
  }

  lemma RouteForListed(f1: Field, f2: Field)
    requires f1 in InputFields && f2 in InputFields
    ensures RouteFor(f1, f2).Some? <==> (KeyName(f1), KeyName(f2)) in SupportedPairs
  {
  }

  /** No supported pair is listed in both orders. */
  lemma RouteOneWay(f1: Field, f2: Field)
    ensures RouteFor(f1, f2).Some? ==> RouteFor(f2, f1).None?
  {
  }

  /** `get` accepts exactly the listed pairs, in either order, with `RHO` for `D`. */
  lemma ResolveSupported(key1: string, v1: real, key2: string, v2: real)
    ensures Resolve(key1, v1, key2, v2).Ok? <==> Supported(Upper(key1), Upper(key2))
  {
    var u1, u2 := Upper(key1), Upper(key2);
    InputFieldNames(u1);
    InputFieldNames(u2);
    if InputField(u1).Some? && InputField(u2).Some? {
      var f1, f2 := InputField(u1).value, InputField(u2).value;
      RouteForListed(f1, f2);
      RouteForListed(f2, f1);
    }
  }

  /**
   * Commutativity: swapping (key1, v1) with (key2, v2) is accepted exactly
   * when the original is, and then calls the same flash with the same
   * arguments in the same order.
   */
  lemma ResolveCommutes(key1: string, v1: real, key2: string, v2: real)
    ensures Resolve(key1, v1, key2, v2).Ok? <==> Resolve(key2, v2, key1, v1).Ok?
    ensures Resolve(key1, v1, key2, v2).Ok? ==> Resolve(key1, v1, key2, v2) == Resolve(key2, v2, key1, v1)
  {
    var u1, u2 := Upper(key1), Upper(key2);
    if InputField(u1).Some? && InputField(u2).Some? {
      RouteOneWay(InputField(u1).value, InputField(u2).value);
      RouteOneWay(InputField(u2).value, InputField(u1).value);
    }
  }

  // ------------------------------------------------------------------
  //  Output selection
  // ------------------------------------------------------------------

  /** What an output key asks for: one field of the state, or a transport property. */
  datatype OutputKey = FieldOut(field: Field) | ViscosityOut | ConductivityOut

  /** The (upper-cased) output keys and their synonyms. */
  function OutputKeyOf(u: string): Option<OutputKey>
  {
    if u == "T" then Some(FieldOut(Temperature))
    else if u == "P" then Some(FieldOut(Pressure))
    else if u == "D" || u == "RHO" then Some(FieldOut(Density))
    else if u == "H" then Some(FieldOut(Enthalpy))
    else if u == "S" then Some(FieldOut(Entropy))
    else if u == "Q" then Some(FieldOut(Quality))
    else if u == "CV" then Some(FieldOut(Cv))
    else if u == "CP" then Some(FieldOut(Cp))
    else if u == "W" || u == "A" then Some(FieldOut(SoundSpeed))
    else if u == "E" || u == "U" then Some(FieldOut(InternalEnergy))
    else if u == "ETA" || u == "V" || u == "VIS" then Some(ViscosityOut)
    else if u == "TCX" || u == "L" || u == "LAMBDA" then Some(ConductivityOut)
    else None
  }

  /**
   * The output half of `get`. A field key returns that field of the state; a
   * viscosity or conductivity key makes one transport call at the state's
   * temperature and density and returns its viscosity or conductivity; any
   * other key is rejected, naming the key as the caller wrote it.
   */
  function SelectOutput(e: Routines, z: Composition, output: string, props: ThermoProp): (r: Result<real>)
    ensures OutputKeyOf(Upper(output)).None? ==> r == Err(InvalidInput(UnknownOutput(output)))
    ensures OutputKeyOf(Upper(output)).Some? && OutputKeyOf(Upper(output)).value.FieldOut? ==>
              r == Ok(Value(OutputKeyOf(Upper(output)).value.field, props))
    ensures !OutputKeyOf(Upper(output)).Some? || OutputKeyOf(Upper(output)).value.FieldOut? ||
              var reply := e.transport(props.temperature, props.density, z);
              && (r.Ok? <==> reply.ierr <= 0)
              && (r.Err? ==> r.error == Refprop(reply.ierr, Decode(Sys.FromCString(reply.herr))))
              && (r.Ok? ==> r.value == if OutputKeyOf(Upper(output)).value.ViscosityOut?
                                       then reply.value.viscosity else reply.value.thermalConductivity)
  {
    match OutputKeyOf(Upper(output))
    case Some(FieldOut(f)) => Ok(Value(f, props))
    case Some(ViscosityOut) =>
      var trn :- TransportInner(e, z, props.temperature, props.density);
      Ok(trn.viscosity)
    case Some(ConductivityOut) =>
      var trn :- TransportInner(e, z, props.temperature, props.density);
      Ok(trn.thermalConductivity)
    case None => Err(InvalidInput(UnknownOutput(output)))
  }

  /** The documented output synonyms ask for the same thing. */
  lemma DensitySynonyms()
    ensures OutputKeyOf("RHO") == OutputKeyOf("D") == Some(FieldOut(Density))
  {
  }

  lemma SoundSpeedSynonyms()
    ensures OutputKeyOf("A") == OutputKeyOf("W") == Some(FieldOut(SoundSpeed))
  {
  }

  lemma EnergySynonyms()
    ensures OutputKeyOf("U") == OutputKeyOf("E") == Some(FieldOut(InternalEnergy))
  {
  }

  lemma ViscositySynonyms()
    ensures OutputKeyOf("V") == OutputKeyOf("VIS") == OutputKeyOf("ETA") == Some(ViscosityOut)
  {
  }

  lemma ConductivitySynonyms()
    ensures OutputKeyOf("L") == OutputKeyOf("LAMBDA") == OutputKeyOf("TCX") == Some(ConductivityOut)
  {
  }

  // ------------------------------------------------------------------
  //  `get` once the engine is set up
  // ------------------------------------------------------------------

  /** The part of `get` that runs after validation, locking and setup. */
  function GetConfigured(e: Routines, z: Composition, output: string,
                         key1: string, v1: real, key2: string, v2: real): Result<real>
  {
    var route :- Resolve(key1, v1, key2, v2);
    var props :- RunPair(e, z, route.pair, route.a, route.b);
    SelectOutput(e, z, output, props)
  }

  /** `get` is commutative in its two constraints whenever the pair is supported. */
  lemma GetCommutes(e: Routines, z: Composition, output: string, key1: string, v1: real, key2: string, v2: real)
    ensures GetConfigured(e, z, output, key1, v1, key2, v2).Ok? <==> GetConfigured(e, z, output, key2, v2, key1, v1).Ok?
    ensures Supported(Upper(key1), Upper(key2)) ==>
              GetConfigured(e, z, output, key1, v1, key2, v2) == GetConfigured(e, z, output, key2, v2, key1, v1)
  {
    ResolveCommutes(key1, v1, key2, v2);
    ResolveSupported(key1, v1, key2, v2);
  }

  /**
   * An unsupported pair is rejected before any flash: the error names the
   * upper-cased keys and is the same whatever the engine would answer.
   */
  lemma UnsupportedPairRejected(e: Routines, z: Composition, output: string, key1: string, v1: real, key2: string, v2: real)
    requires !Supported(Upper(key1), Upper(key2))
    ensures GetConfigured(e, z, output, key1, v1, key2, v2) == Err(InvalidInput(UnsupportedPair(Upper(key1), Upper(key2))))
  {
    ResolveSupported(key1, v1, key2, v2);
  }

  /**
   * An unknown output key never yields a value; once the flash has
   * succeeded the error names the key as written.
   */
  lemma UnknownOutputRejected(e: Routines, z: Composition, output: string, key1: string, v1: real, key2: string, v2: real)
    requires OutputKeyOf(Upper(output)).None?
    ensures GetConfigured(e, z, output, key1, v1, key2, v2).Err?
    ensures Resolve(key1, v1, key2, v2).Ok? &&
            RunPair(e, z, Resolve(key1, v1, key2, v2).value.pair, Resolve(key1, v1, key2, v2).value.a, Resolve(key1, v1, key2, v2).value.b).Ok? ==>
              GetConfigured(e, z, output, key1, v1, key2, v2) == Err(InvalidInput(UnknownOutput(output)))
  {
  }

  /**
   * Asking for a constrained quantity gives the input back: exactly for a
   * temperature, pressure, density, enthalpy or entropy constraint, and
   * clamped to [0, 1] for a quality.
   */
  lemma GetEchoesInput(e: Routines, z: Composition, output: string, key1: string, v1: real, key2: string, v2: real)
    requires GetConfigured(e, z, output, key1, v1, key2, v2).Ok?
    requires InputField(Upper(key1)).Some?
    requires OutputKeyOf(Upper(output)) == Some(FieldOut(InputField(Upper(key1)).value))
    ensures GetConfigured(e, z, output, key1, v1, key2, v2).value ==
              if InputField(Upper(key1)).value == Quality then Clamp(v1) else v1
  {
    var route := Resolve(key1, v1, key2, v2).value;
    var f1, f2 := InputField(Upper(key1)).value, InputField(Upper(key2)).value;
    var props := RunPair(e, z, route.pair, route.a, route.b).value;
    assert f1 != f2 by {
      RouteOneWay(f1, f2);
    }
    if PairInputs(route.pair) == (f1, f2) {
      assert Value(f1, props) == (if route.pair.Native? then v1 else v1);
      assert route.pair.Native? || f1 != Quality;
    } else {
      assert PairInputs(route.pair) == (f2, f1);
      assert f1 == Quality ==> !route.pair.Native?;
    }
  }

  /** The constraint keys are case-insensitive. */
  lemma GetKeysCaseInsensitive(e: Routines, z: Composition, output: string, key1: string, v1: real, key2: string, v2: real)
    ensures GetConfigured(e, z, output, Upper(key1), v1, Upper(key2), v2) == GetConfigured(e, z, output, key1, v1, key2, v2)
  {
    UpperIdempotent(key1);
    UpperIdempotent(key2);
    assert Resolve(Upper(key1), v1, Upper(key2), v2) == Resolve(key1, v1, key2, v2);
  }

  /** The output key is case-insensitive: the same value, or an error in both cases. */
  lemma GetOutputCaseInsensitive(e: Routines, z: Composition, output: string, key1: string, v1: real, key2: string, v2: real)
    ensures GetConfigured(e, z, Upper(output), key1, v1, key2, v2).Ok? <==> GetConfigured(e, z, output, key1, v1, key2, v2).Ok?
    ensures GetConfigured(e, z, output, key1, v1, key2, v2).Ok? ==>
              GetConfigured(e, z, Upper(output), key1, v1, key2, v2) == GetConfigured(e, z, output, key1, v1, key2, v2)
  {
    UpperIdempotent(output);
  }

  /** `RHO` and `D` are interchangeable as constraint keys. */
  lemma RhoIsDensity(e: Routines, z: Composition, output: string, v1: real, key2: string, v2: real)
    ensures GetConfigured(e, z, output, "RHO", v1, key2, v2).Ok? <==> GetConfigured(e, z, output, "D", v1, key2, v2).Ok?
    ensures GetConfigured(e, z, output, "D", v1, key2, v2).Ok? ==>
              GetConfigured(e, z, output, "RHO", v1, key2, v2) == GetConfigured(e, z, output, "D", v1, key2, v2)
  {
    assert Upper("RHO") == "RHO";
    assert Upper("D") == "D";
  }
}
