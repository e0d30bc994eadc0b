# refprop-rs, modelled in Dafny

refprop-rs binds the NIST REFPROP property engine from Rust. The engine is a
stateful native library. One fluid definition is loaded at a time with
SETUPdll or SETMIXdll, and the flash, saturation, transport and
critical-point routines then work on that fluid. This project models the
logic the bindings put around the engine and proves properties of it. The
engine's own numerics are not modelled: `NativeEngine.Engine` is a record of
total functions, one per engine routine. Each routine answers with its outputs,
an error code `ierr` and a message buffer `herr`. Every computing routine also
reads the `NativeEngine.Definition` the engine holds: the component count and
file list that the last successful SETUPdll or SETMIXdll loaded.
`Engine.Holding(d)` gives the routines (`NativeEngine.Routines`) as they answer
while `d` is held. Every property holds for every such engine.

What is modelled:

- `Sys` (src/sys.rs): the buffer sizes, `to_c_string` and `from_c_string`.
  `to_c_string` is an imperative method over an array.
- `Text`: the ASCII part of `to_uppercase` and `trim`, and `join`/`split`.
- `Properties` and `Errors` (src/properties.rs, refprop/src/error.rs): the
  result records and the error enum.
- `Session` (src/backend/refprop.rs): the parts every operation shares.
  - `check_err` and `validate_finite`.
  - The backend value.
  - The process-wide lock as a class `RefpropLock`. It holds the cached
    backend id, the id counter and the poisoned flag.
  - The engine's side of the same state, in the same object:
    - `loaded` is the definition the engine actually holds;
    - `loadedId` is the backend it was loaded for;
    - the ghost `defs` records the definition each issued id was issued for.
  - Every operation computes with `loaded`. A coherent lock (cached id =
    `loadedId`) whose cached id is the backend's guarantees that `loaded` is
    that backend's own definition.
  - `ensure_setup`, `setup_fluid_locked`, and the constructors `new` and
    `new_mixture`.
- `Flash`: the direct flashes, the saturation lookups, the choice of
  saturation curve, and the two-phase interpolation over the reals.
- `Dispatch`: the key-driven `get` of the newer backend, with its 12 input
  pairs, output selection and synonyms.
- `Backend`: the public operations of the newer backend. Each is a method on
  the lock: validation, then lock and setup, then the engine call.
  `molar_mass_mix` keeps its accumulating loop.
- `Legacy` (refprop/src/backend/refprop.rs): the older backend where it
  differs. It has a five-pair `get`, bubble-curve-only quality flashes, and
  boundary states that keep THERMdll's pressure.
- `UnitConverter` (converter/src/lib.rs): unit systems, presets and the
  builder, each conversion in both directions, and the key-driven dispatch.
- `Facade` (refprop/src/fluid.rs): `Fluid`, a backend plus a converter. Inputs
  are converted in, the backend is called, and results are converted out.
  The constructors are built on `new` as written, followed by
  `molar_mass_mix`. A variant over the corrected `new` sits beside them.

A finite `f64` argument that `validate_finite` checks is `F64.Finite(real)`,
and any NaN or infinity is `F64.NonFinite`. Every other floating-point value
is a `real`.

## Model

| member | source | states |
|---|---|---|
| Sys.CopyLen | src/sys.rs:639 | the number of bytes copied is at most the string length and below `max_len`, and is either all of the string or `max_len - 1` |
| Sys.CBuffer | src/sys.rs:636-644 | the buffer has exactly `max_len` entries and its last entry is always 0 |
| Sys.ToCString | src/sys.rs:636-644 | the loop fills a zeroed array: the first min(\|s\|, max_len−1) entries are the bytes of s, every later entry is 0, and the length is `max_len`; needs `max_len ≥ 1` |
| Sys.TakeUntilNul | src/sys.rs:649-652 | keeps a prefix with no zero byte, which stops exactly at the first zero or at the end of the buffer |
| Sys.TakeUntilNulPrefix | src/sys.rs:649-652 | a zero-free prefix followed by a zero (or nothing) is read back exactly |
| Sys.CStringRoundTrip | src/sys.rs:636-655 | `from_c_string(to_c_string(s, max_len))` is trim(s) when \|s\| < max_len, and trim of the first max_len−1 bytes otherwise |
| Sys.FullBufferReadsWhole | src/sys.rs:648-655 | a buffer with no zero byte is read back whole, then trimmed |
| Text.Upper | src/backend/refprop.rs:52 | upper-casing keeps the length and maps each character by ASCII upper-casing |
| Text.UpperIdempotent | src/backend/refprop.rs:1141-1142 | upper-casing an upper-cased key changes nothing |
| Text.UpperAppend | src/backend/refprop.rs:146 | upper-casing distributes over concatenation |
| Text.TrimStart | src/sys.rs:654 | drops exactly the leading whitespace: the rest starts with a non-space, and everything dropped is whitespace |
| Text.TrimEnd | src/sys.rs:654 | drops exactly the trailing whitespace: the rest ends with a non-space, and everything dropped is whitespace |
| Text.TrimIsInfix | src/sys.rs:654 | `trim` returns an infix whose ends are not whitespace, and everything cut from either side is whitespace |
| Text.TrimIdempotent | src/sys.rs:654 | trimming twice is trimming once |
| Text.Decode | src/sys.rs:654 | decoding keeps the length, and each character has the code of its byte |
| Text.Split | src/backend/refprop.rs:143-148 | splitting always yields at least one piece |
| Text.SplitNoSeparator | src/backend/refprop.rs:143-148 | a piece with no separator splits to itself |
| Text.SplitAtSeparator | src/backend/refprop.rs:143-148 | splitting cuts at the first separator |
| Text.SplitJoin | src/backend/refprop.rs:143-148 | when no item contains the separator, splitting the joined list gives the items back |
| Session.CheckErr | src/backend/refprop.rs:1225-1237 | Ok exactly when the code is ≤ 0; a positive code gives a `Refprop` error carrying that code and the decoded, trimmed message |
| Session.Checked | src/backend/refprop.rs:1225-1237 | an engine reply passes `check_err` with its outputs exactly when its code is ≤ 0 |
| Session.ValidateFinite | src/backend/refprop.rs:187-194 | Ok with the value exactly when it is finite; otherwise `InvalidInput` naming the argument |
| Session.FldListSplits | src/backend/refprop.rs:143-148 | the "\|"-joined file list names each component once, in order, as its upper-cased name followed by ".FLD" |
| Session.Names | src/backend/refprop.rs:145-146 | one name per component |
| Session.Fractions | src/backend/refprop.rs:150-153 | one fraction per component |
| Session.PureBackend | src/backend/refprop.rs:101-114 | a pure fluid has one component with fraction 1 and zeros after it, and its file list is its upper-cased name followed by ".FLD" |
| Session.MixResult | src/backend/refprop.rs:72-100 | the mixture backend exists exactly when SETMIXdll reports no error, and it carries the component count, composition and decoded file list SETMIXdll reported |
| Session.PureResult | src/backend/refprop.rs:101-116 | the pure-fluid backend exists exactly when SETUPdll accepts it |
| Session.PureMolarMass | src/backend/refprop.rs:1098-1117 | for a pure fluid the mixture-averaged molar mass is the molar mass of its one component |
| Session.MixMolarMassUniform | src/backend/refprop.rs:1104-1117 | the mixture average is a weighted sum: components with equal molar mass M give M times the sum of the fractions |
| Session.RefpropLock.constructor | src/backend/refprop.rs:14-15 | the lock starts with no backend recorded or loaded and nothing held (`NothingLoaded`), and the id counter starts at 1 |
| Session.RefpropLock.CoherentHoldsIssued | src/backend/refprop.rs:263-269 | when the cached id is an issued backend's, the lock is coherent exactly when the engine was loaded for that backend, and then the engine holds that backend's own definition; this is what makes skipping setup sound |
| Session.RefpropLock.Lock | src/backend/refprop.rs:174-180 | taking the lock fails exactly when it is poisoned, and then with `CalculationFailed` |
| Session.RefpropLock.EnsureSetup | src/backend/refprop.rs:263-269 | with the backend's id cached, nothing happens and the result is Ok. Otherwise SETUPdll runs once; only if it succeeds do the cached id, the loaded id and the held definition change, to the backend's |
| Session.RefpropLock.SetupFluidLocked | src/backend/refprop.rs:225-230 | under an unpoisoned lock SETUPdll always runs; on success the id is recorded and the engine holds the backend's definition; a lock that matched the engine still does |
| Session.RefpropLock.Enter | src/backend/refprop.rs:918-923 | after lock and `ensure_setup`, success means the cached id is the backend's. The held definition becomes the backend's exactly when setup ran and succeeded, and is otherwise unchanged. When the cache matched the engine before, a success means the engine holds this backend's definition |
| Session.RefpropLock.IssueId | src/backend/refprop.rs:155 | the id counter hands out its current value and advances by one; the new id is recorded with the definition it is issued for, and nothing else changes |
| Session.RefpropLock.LoadMixAsWritten | src/backend/refprop.rs:58-100 | SETMIXdll loads the mixture, so the engine holds the mixture's definition, and a new id is issued, but the cached id stays; after success the cache no longer matches the engine |
| Session.RefpropLock.LoadMix | src/backend/refprop.rs:58-100 | the same with the new id recorded: after success the cache matches the engine, and a cache that matched before still does |
| Session.RefpropLock.New | src/backend/refprop.rs:40-122 | a mixture file wins over a fluid file; a pure fluid gets a fresh id and is set up under the lock; a name with neither file gives `FluidNotFound` and changes nothing. The cache keeps matching the engine |
| Session.RefpropLock.NewAsWritten | src/backend/refprop.rs:40-122 | as `New`, except that a mixture leaves the cache naming the previous backend while the engine holds the mixture |
| Session.RefpropLock.NewMixture | src/backend/refprop.rs:126-166 | 0 or more than 20 components give `InvalidInput` and change nothing. Otherwise z holds the fractions, then zeros; the file list is the "\|"-joined upper-cased ".FLD" names; a fresh id is issued and set up under the lock |
| Session.StaleCacheAfterMix | src/backend/refprop.rs:58-100 | a pure fluid (id 1), then a predefined mixture (id 2) via `new` as written: the next call on the pure fluid succeeds while the engine holds the mixture's definition, which differs from the pure fluid's whenever the two definitions differ |
| Session.CoherentAfterMix | src/backend/refprop.rs:225-230 | the same sequence with the id recorded: the call on the pure fluid runs with the pure fluid's own definition held |
| Flash.WithField | src/properties.rs:20-31 | replacing one field of a state sets that field and leaves every other field as it was |
| Flash.FieldsDetermineState | src/properties.rs:20-31 | two states that agree on every field are equal |
| Flash.FlashInner | src/backend/refprop.rs:276-320 | a direct flash succeeds exactly when the engine's code is ≤ 0; the state carries both inputs exactly and every other field as computed |
| Flash.ChooseCurve | src/backend/refprop.rs:861 | the quality flashes use the dew curve (kph = 2) exactly when q ≥ 0.5, and the bubble curve (kph = 1) otherwise |
| Flash.SatTInner | src/backend/refprop.rs:415-447 | the saturation point carries the given temperature and the pressure SATTdll reports, with positive densities |
| Flash.SatPInner | src/backend/refprop.rs:449-479 | the saturation point carries the given pressure and the temperature SATPdll reports, with positive densities |
| Flash.TransportInner | src/backend/refprop.rs:513-535 | viscosity and conductivity as TRNPRPdll reports them, unless its code is positive |
| Flash.Saturated | src/backend/refprop.rs:883-894 | a boundary state has the given temperature, density and quality and the saturation pressure |
| Flash.Clamp | src/backend/refprop.rs:882-906 | the reported quality lies in [0, 1] and equals q inside it |
| Flash.BlendFields | src/backend/refprop.rs:900-910 | each blended field is (1−q)·liquid + q·vapour |
| Flash.LerpBetween | src/backend/refprop.rs:901 | a quality-weighted mix lies between its two ends |
| Flash.BlendDensity | src/backend/refprop.rs:900 | the blended specific volume is the quality-weighted mix of the two, so the density is positive and lies between dl and dv |
| Flash.InterpolateQuality | src/backend/refprop.rs:881-912 | at q ≤ 0 the saturated liquid state, at q ≥ 1 the saturated vapour state, both with the saturation pressure. In between: 1/d = (1−q)/dl + q/dv, and every blended field is exactly (1−q)·liquid + q·vapour, so it lies between the two. T and P are always the saturation values, and the quality is clamped |
| Flash.BlendBetween | src/backend/refprop.rs:901-910 | every blended field lies between its liquid and vapour values |
| Flash.LeverRule | src/backend/refprop.rs:901-910 | inside the two-phase region the quality can be read back from any blended field whose liquid and vapour values differ |
| Flash.LeverRuleDensity | src/backend/refprop.rs:900 | the quality is the vapour share of the specific volume |
| Flash.InterpolationContinuous | src/backend/refprop.rs:881-912 | the interior formula taken at q = 0 and q = 1 gives exactly the boundary states, so there is no jump |
| Flash.FlashTQInner | src/backend/refprop.rs:860-864 | T–Q succeeds exactly when the chosen curve's lookup does; the state has the input temperature, the saturation pressure and the clamped quality |
| Flash.FlashPQInner | src/backend/refprop.rs:870-874 | P–Q succeeds exactly when the chosen curve's lookup does; the state has the input pressure, the saturation temperature and the clamped quality |
| Flash.QualityFlashesConsultChosenCurve | src/backend/refprop.rs:860-874 | the quality flashes depend only on the curve the quality selects |
| Flash.RunPair | src/backend/refprop.rs:276-413 | along any route the first input comes back exactly, and the second exactly or, a quality, clamped; every failure is an engine error |
| Dispatch.InputField | src/backend/refprop.rs:1144-1176 | the input keys T, P, D/RHO, H, S and Q name the six constrainable fields |
| Dispatch.RouteFor | src/backend/refprop.rs:1144-1179 | a route exists for an ordered pair exactly when some flash takes those two inputs in that order |
| Dispatch.Resolve | src/backend/refprop.rs:1141-1187 | an accepted pair is routed with its values in the flash's order, as given or swapped. Any other pair gives `InvalidInput` naming the upper-cased keys |
| Dispatch.InputFieldNames | src/backend/refprop.rs:1144-1179 | the keys that name a field are exactly T, P, D, H, S, Q and RHO |
| Dispatch.RouteForListed | src/backend/refprop.rs:1181-1186 | the routes are exactly the 12 pairs the error message lists |
| Dispatch.RouteOneWay | src/backend/refprop.rs:1144-1179 | no pair is routed in both orders |
| Dispatch.ResolveSupported | src/backend/refprop.rs:1141-1187 | `get` accepts exactly the 12 listed pairs, in either order, with RHO for D |
| Dispatch.ResolveCommutes | src/backend/refprop.rs:1141-1179 | swapping the two constraints is accepted exactly when the original is, and calls the same flash with the same arguments in the same order |
| Dispatch.SelectOutput | src/backend/refprop.rs:1189-1212 | a field key returns that field; a viscosity or conductivity key makes one transport call at the state's T and D; any other key gives `InvalidInput` naming the key |
| Dispatch.DensitySynonyms | src/backend/refprop.rs:1193 | D and RHO ask for the density |
| Dispatch.SoundSpeedSynonyms | src/backend/refprop.rs:1199 | W and A ask for the sound speed |
| Dispatch.EnergySynonyms | src/backend/refprop.rs:1200 | E and U ask for the internal energy |
| Dispatch.ViscositySynonyms | src/backend/refprop.rs:1201-1204 | ETA, V and VIS ask for the viscosity |
| Dispatch.ConductivitySynonyms | src/backend/refprop.rs:1205-1208 | TCX, L and LAMBDA ask for the conductivity |
| Dispatch.GetCommutes | src/backend/refprop.rs:1141-1212 | `get` succeeds with the constraints swapped exactly when it does without, and for a supported pair gives the same answer |
| Dispatch.UnsupportedPairRejected | src/backend/refprop.rs:1181-1187 | an unsupported pair is rejected before any flash, whatever the engine would answer |
| Dispatch.UnknownOutputRejected | src/backend/refprop.rs:1209-1212 | an unknown output key never yields a value; after a successful flash the error names the key |
| Dispatch.GetEchoesInput | src/backend/refprop.rs:1141-1198 | asking for a constrained quantity gives the input back: exactly, or clamped for a quality |
| Dispatch.GetKeysCaseInsensitive | src/backend/refprop.rs:1141-1142 | the constraint keys are case-insensitive |
| Dispatch.GetOutputCaseInsensitive | src/backend/refprop.rs:1189-1190 | the output key is case-insensitive |
| Dispatch.RhoIsDensity | src/backend/refprop.rs:1160-1176 | RHO and D are interchangeable as constraint keys |
| Backend.Validate2 | src/backend/refprop.rs:1135-1136 | Ok exactly when both values are finite; otherwise the first non-finite one is reported under its own name |
| Backend.Props | src/backend/refprop.rs:918-1012 | a non-finite input fails before the lock and changes nothing; otherwise the prologue runs and the flash computes with the definition then held, which from a coherent lock is the backend's own. On success the engine is set up for the backend, the first input comes back exactly, and the second exactly or (a quality) clamped |
| Backend.SaturationT | src/backend/refprop.rs:1021-1026 | after validation, lock and setup: the bubble point (kph = 1) at the given temperature, for the held definition (the backend's own from a coherent lock) |
| Backend.SaturationP | src/backend/refprop.rs:1014-1019 | after validation, lock and setup: the bubble point (kph = 1) at the given pressure, for the held definition (the backend's own from a coherent lock) |
| Backend.Transport | src/backend/refprop.rs:1028-1034 | both inputs are validated in order, then lock and setup, then one TRNPRPdll call for the held definition (the backend's own from a coherent lock) |
| Backend.CriticalPoint | src/backend/refprop.rs:1036-1061 | lock and setup, then CRITPdll for the held definition (the backend's own from a coherent lock) through `check_err` |
| Backend.FluidInfo | src/backend/refprop.rs:1063-1090 | lock and setup, then INFOdll's constants of component 1 of the held definition; from a coherent lock, of the backend's own first component |
| Backend.MolarMassMix | src/backend/refprop.rs:1100-1118 | the loop accumulates Σ_{i<nc} z[i]·M_{i+1} after lock and setup, with each M the molar mass INFOdll reports for the held definition; from a coherent lock, the backend's own components |
| Backend.Get | src/backend/refprop.rs:1134-1214 | a non-finite value fails, naming its key, before the lock and changes nothing; otherwise lock and setup, then the dispatch with the held definition (the backend's own from a coherent lock); on success the engine is set up for the backend |
| Legacy.InterpolateQuality | refprop/src/backend/refprop.rs:404-433 | at the boundaries the state keeps THERMdll's pressure at dl or dv; inside, the saturation pressure; the quality is always clamped |
| Legacy.InteriorAgrees | refprop/src/backend/refprop.rs:418-432 | strictly inside the two-phase region both backends interpolate identically |
| Legacy.BoundaryDiffersOnlyInPressure | refprop/src/backend/refprop.rs:407-416 | at the boundaries the two backends differ only in the pressure |
| Legacy.BoundaryPressureJump | refprop/src/backend/refprop.rs:407-433 | when THERMdll's pressure at dl is not the saturation pressure, the pressure jumps at q = 0 |
| Legacy.FlashTQ | refprop/src/backend/refprop.rs:392-396 | T–Q always uses the bubble point; it carries the temperature and the clamped quality |
| Legacy.FlashPQ | refprop/src/backend/refprop.rs:398-401 | P–Q always uses the bubble point; it carries the saturation temperature and the clamped quality |
| Legacy.QualityFlashesUseBubbleOnly | refprop/src/backend/refprop.rs:315-316 | the older quality flashes never depend on the dew curve |
| Legacy.QualityFlashesAgreeBelowHalf | refprop/src/backend/refprop.rs:392-401 | for 0 < q < 0.5 both backends' quality flashes agree |
| Legacy.SaturatedVaporPressureDiffers | refprop/src/backend/refprop.rs:315-316 | for a mixture with a glide, saturated vapour (q = 1) reports the bubble pressure in the older T–Q flash and the dew pressure in the newer one |
| Legacy.InputField | refprop/src/backend/refprop.rs:574-589 | the older keys are T, P, H, S and Q only, naming the same fields as in the newer backend |
| Legacy.RouteFor | refprop/src/backend/refprop.rs:574-589 | the older routes are a subset of the newer routes |
| Legacy.Resolve | refprop/src/backend/refprop.rs:571-595 | an accepted pair is routed in the flash's order; any other pair gives `InvalidInput` naming the upper-cased keys |
| Legacy.InputFieldNames | refprop/src/backend/refprop.rs:574-589 | the keys that name a field are exactly T, P, H, S and Q |
| Legacy.ResolveSupported | refprop/src/backend/refprop.rs:574-595 | the older `get` accepts exactly (T,P), (P,H), (P,S), (T,Q) and (P,Q), in either order |
| Legacy.ResolveCommutes | refprop/src/backend/refprop.rs:574-589 | swapping the constraints is accepted exactly when the original is, and routes identically |
| Legacy.ResolveRefined | refprop/src/backend/refprop.rs:574-595 | every pair the older `get` accepts, the newer one routes the same way |
| Legacy.TemperatureDensityRejected | refprop/src/backend/refprop.rs:590-595 | (T, D) is rejected by the older `get` and accepted by the newer one |
| Legacy.RunPair | refprop/src/backend/refprop.rs:242-313 | the first input comes back exactly, except for P–Q at a phase boundary; the second exactly or clamped |
| Legacy.GetCommutes | refprop/src/backend/refprop.rs:571-622 | the older `get` succeeds with the constraints swapped exactly when it does without, and for a supported pair gives the same answer |
| Legacy.PressureNotEchoedAtBoundary | refprop/src/backend/refprop.rs:398-416 | P at (P, Q = 0) answers THERMdll's pressure, not the input; the newer backend answers the input |
| Legacy.UnsupportedPairRejected | refprop/src/backend/refprop.rs:590-595 | an unsupported pair is rejected before any flash |
| Legacy.NativeRoutesAgree | refprop/src/backend/refprop.rs:575-582 | on T–P, P–H and P–S the two backends give the same answer |
| Legacy.Props | refprop/src/backend/refprop.rs:439-477 | validation, lock and setup, then the flash with the held definition (the backend's own from a coherent lock); the inputs come back as in `Legacy.RunPair` |
| Legacy.Get | refprop/src/backend/refprop.rs:559-623 | a non-finite value fails, naming its key, before the lock; then the five-pair dispatch with the held definition (the backend's own from a coherent lock) |
| UnitConverter.Refprop | converter/src/lib.rs:136-146 | the engine's own units |
| UnitConverter.New | converter/src/lib.rs:131 | `new()` is the engine's own units |
| UnitConverter.Default | converter/src/lib.rs:185-187 | `default()` is the engine's own units |
| UnitConverter.BuilderReplacesOneField | converter/src/lib.rs:176-182 | each builder step sets its own field and leaves the others |
| UnitConverter.BuilderReachesEverySystem | converter/src/lib.rs:131-182 | every unit system is reachable from `new()` by the builder |
| UnitConverter.BuilderLastWins | converter/src/lib.rs:176-182 | the later setting of a field wins, and settings of different fields commute |
| UnitConverter.Converter.InputToRp | converter/src/lib.rs:362-375 | a key outside the converted classes passes its value through |
| UnitConverter.Converter.OutputFromRp | converter/src/lib.rs:378-391 | a key outside the converted classes passes its value through |
| UnitConverter.Identity | converter/src/lib.rs:211-213 | `identity()` has native units and a usable molar mass |
| UnitConverter.TemperatureRoundTrip | converter/src/lib.rs:218-233 | for every temperature unit each direction undoes the other |
| UnitConverter.PressureRoundTrip | converter/src/lib.rs:238-259 | for every pressure unit each direction undoes the other |
| UnitConverter.DensityRoundTrip | converter/src/lib.rs:264-277 | density conversions undo each other whenever the molar mass is usable |
| UnitConverter.EnergyRoundTrip | converter/src/lib.rs:282-297 | energy conversions undo each other whenever the molar mass is usable |
| UnitConverter.EntropyRoundTrip | converter/src/lib.rs:302-317 | entropy conversions undo each other whenever the molar mass is usable |
| UnitConverter.TransportRoundTrip | converter/src/lib.rs:322-355 | viscosity and conductivity conversions undo each other |
| UnitConverter.NativeIsIdentity | converter/src/lib.rs:218-355 | under native units every conversion is the identity, whatever the molar mass |
| UnitConverter.NativeKeyConversionIsIdentity | converter/src/lib.rs:362-391 | under native units the key-driven conversions are the identity for every key |
| UnitConverter.ConversionConstants | converter/src/lib.rs:218-247 | °C adds 273.15; °F is (t−32)·5/9+273.15; bar ×100, MPa ×1000, Pa ÷1000, atm ×101.325, psi ×6.894757 into kPa |
| UnitConverter.PerKilogramScale | converter/src/lib.rs:282-317 | the J/kg and J/(kg K) forms differ from the kJ forms by exactly 1000 |
| UnitConverter.PresetDensitiesAgree | converter/src/lib.rs:149-172 | the engineering and SI presets report the same density, d·M out and d/M in |
| UnitConverter.KeyConversionCaseInsensitive | converter/src/lib.rs:362-391 | keys are matched case-insensitively |
| UnitConverter.KeyRoundTrip | converter/src/lib.rs:362-391 | converting in by a key and back out by the same key gives the value back |
| UnitConverter.QualityAndSoundSpeedPassThrough | converter/src/lib.rs:372-388 | Q and W are never converted |
| Facade.FieldRoundTrip | refprop/src/fluid.rs:162-204 | converting a flash input in by its quantity and the same state field back out gives the input back |
| Facade.In | refprop/src/fluid.rs:162-204 | converting an argument in keeps it finite or non-finite, so validation sees the same inputs |
| Facade.InByKey | refprop/src/fluid.rs:149-159 | converting a `get` argument in by its key keeps it finite or non-finite |
| Facade.ConvertThermo | refprop/src/fluid.rs:256-269 | every field of the converted state is its own from-engine conversion: cv and cp like entropy, internal energy like enthalpy, sound speed and quality copied |
| Facade.StateConversionMatchesKeys | refprop/src/fluid.rs:256-269 | each converted field equals what `output_from_rp` gives under the `get` output key for that field, so `props_*` and `get` report in the same units |
| Facade.NativeStateUnchanged | refprop/src/fluid.rs:256-269 | under native units the state conversion changes nothing |
| Facade.ConvertSat | refprop/src/fluid.rs:271-278 | temperature, pressure and both densities are converted out |
| Facade.GetErrorsPassThrough | refprop/src/fluid.rs:149-159 | a backend error of `get` comes through unchanged, with no output conversion |
| Facade.GetRejectsNonFinite | refprop/src/fluid.rs:149-159 | a non-finite value is still rejected under its own key, the first one first |
| Facade.NativeGetIsBackendGet | refprop/src/fluid.rs:149-159 | under native units `Fluid::get` is the backend's `get` |
| Facade.GetGivesBackConstraint | refprop/src/fluid.rs:149-159 | in any unit system, asking `get` for one of its own constraints gives the caller's value back: exactly, or clamped for a quality |
| Facade.PropsErrorsPassThrough | refprop/src/fluid.rs:162-168 | a backend error of `props_*` comes through unchanged |
| Facade.PropsGivesBackInputs | refprop/src/fluid.rs:162-204 | a state from `props_*` carries its inputs back in the user's units: the first exactly, the second exactly or (a quality) clamped |
| Facade.NativePropsIsBackendProps | refprop/src/fluid.rs:162-204 | under native units `props_*` is the backend's |
| Facade.WithUnits | refprop/src/fluid.rs:49-56 | `new` as written, then `molar_mass_mix`, whose `ensure_setup` sets the engine up a second time for an unrecorded mixture. A returned fluid has the chosen units and the molar mass averaged over INFOdll's values for its own definition; the lock names its backend coherently and the engine holds that definition. A mixture is created exactly when SETMIXdll accepts its file and that second SETUPdll succeeds; a pure fluid exactly when its SETUPdll succeeds; each failure is returned as the engine reported it. When SETMIXdll succeeds but the second SETUPdll fails, that error is returned, and the lock still names the previous backend while the engine holds the mixture. On every other path a coherent lock stays coherent. A missing fluid gives `FluidNotFound`, a poisoned lock `PoisonedLock` |
| Facade.WithUnitsCorrected | refprop/src/fluid.rs:49-56 | `with_units` over the corrected `new`: no second SETUPdll for a mixture, which is created exactly when SETMIXdll accepts its file; the molar mass is taken with the fluid's own definition held; a coherent lock stays coherent on every path |
| Facade.New | refprop/src/fluid.rs:36-38 | every clause of `Facade.WithUnits` with the engine's own units: the backend and when each kind of fluid is created, each error, the molar mass over the fluid's own definition, and the stale lock after a failed second setup of a mixture |
| Facade.StaleLockAfterFailedMixture | refprop/src/fluid.rs:49-56 | through the public constructors: a pure fluid (id 1), whose converter takes the molar mass of its own definition; then a mixture (id 2) whose SETMIXdll succeeds and whose second SETUPdll fails. The constructor fails, and the next `info` on the pure fluid succeeds with the constants of the mixture's definition, which differs from the pure fluid's exactly when their definitions differ |
| Facade.MixtureWithUnits | refprop/src/fluid.rs:74-84 | a bad component count fails first and changes nothing. Otherwise the backend is the one `new_mixture` builds (fractions then zeros, the joined file list, the next id); a poisoned lock gives `PoisonedLock`; the fluid exists exactly when SETUPdll accepts it, or the SETUPdll error is returned; the converter's molar mass is Σ z[i]·M over its own definition's components; coherence is kept |
| Facade.Mixture | refprop/src/fluid.rs:59-61 | every clause of `Facade.MixtureWithUnits` with the engine's own units |
| Facade.Get | refprop/src/fluid.rs:149-159 | both values are converted in by their own keys, the original keys are passed on, and the result is converted out by the output key. A non-finite value leaves the lock untouched; otherwise the backend's prologue runs for the fluid (nothing else changes, other fluids stay usable), and the dispatch uses the held definition, the fluid's own from a coherent lock |
| Facade.Props | refprop/src/fluid.rs:162-204 | both inputs are converted in by the quantity they constrain (a quality unconverted), and the state is converted out; the lock frame and the held definition as in `Facade.Get` |
| Facade.SaturationT | refprop/src/fluid.rs:213-216 | the temperature is converted in and the bubble point out; a successful result carries the caller's temperature back; the lock frame and the held definition as in `Facade.Get` |
| Facade.SaturationP | refprop/src/fluid.rs:207-210 | the pressure is converted in and the bubble point out; a successful result carries the caller's pressure back; the lock frame and the held definition as in `Facade.Get` |
| Facade.Transport | refprop/src/fluid.rs:219-228 | temperature and density are converted in, and viscosity and conductivity out; errors pass through; the lock frame and the held definition as in `Facade.Get` |
| Facade.CriticalPoint | refprop/src/fluid.rs:231-238 | temperature, pressure and density are converted out; errors pass through; the prologue runs for the fluid and CRITPdll uses the held definition, the fluid's own from a coherent lock |
| Facade.Info | refprop/src/fluid.rs:240-247 | the backend's constants, unconverted whatever the unit system; the prologue runs for the fluid and INFOdll answers for the held definition, the fluid's own from a coherent lock |

## Left out

- Library loading, `SETPATHdll`, the check that the REFPROP directory exists, and the search for fluid and mixture files are left out. They are I/O. `Session.FluidFiles` supplies the result of the file search. `LibraryNotFound` is therefore never produced.
- The `.env` and path discovery in refprop/src/fluid.rs:88-135 is left out. It is I/O.
- The mutex and the atomic id counter are not modelled as concurrency. The lock is one object with a poisoned flag, and the counter is a plain field. Interleavings are not modelled.
- `eprintln!` logging of negative engine codes is left out. It has no effect on results.
- `Display` implementations are left out.
- The `format!` text of `InvalidInput` errors is not modelled. `Errors.InputProblem` says which check failed and with which keys, names or counts. The other messages are modelled as text: the poisoned-lock message, the not-found suffix, and the engine's decoded `herr`.
- Floating point is modelled as real arithmetic. Rounding, overflow, and NaN or infinity produced inside a computation are not modelled. `validate_finite` is modelled through `F64.NonFinite`.
- Facade.In: a finite input that overflows during unit conversion stays finite in the model.
- Text.Upper: upper-casing is modelled for ASCII only. Rust's full Unicode mapping is not.
- Text.Decode: the lossy UTF-8 decoding in `from_c_string` is modelled as one character per byte. This is exact for ASCII.
- The `i32` and `usize` casts of counts and codes are not modelled. `NativeEngine.ComponentCount` bounds the count SETMIXdll reports by `REFPROP_NC_MAX`.
- Strings passed to the engine (fluid lists, mixture file paths) are given to it whole. The truncation `to_c_string` applies to them is proved separately in `Sys`.
- The engine's numerics are not modelled. Two assumptions about engine replies are built into the types:
  - saturation densities are positive;
  - a failed SETUPdll or SETMIXdll leaves the held definition unchanged.
- NativeEngine.Engine: what a routine answers depends on the held definition only through its component count and file list (`NativeEngine.Definition`). For a predefined mixture that is the count and list SETMIXdll reports. Every SETUPdll and SETMIXdll call passes the same mixing-rule file (`HMX.BNC`) and reference state (`DEF`) (src/backend/refprop.rs:62-63, 238-239), so these are not part of `Definition`.
- `therm_inner` leaves the quality NaN. The model writes the quality that every caller overwrites it with.
- Flash.InterpolateQuality: returns a state, not a `Result`, because every branch of the source returns `Ok`.
- UnitConverter.Converter.InputToRp and UnitConverter.Converter.OutputFromRp: require a usable molar mass (`Invertible`). The source would divide by a zero molar mass there.
- The facade (refprop/src/fluid.rs) is bound to the newer backend. It calls `molar_mass_mix`, which only the newer backend defines.
- The older backend's `check_err`, `validate_finite`, lock, `ensure_setup`, `setup_fluid_locked`, `new`, `new_mixture`, saturation, transport, critical-point and fluid-info operations are the same as the newer ones. `Legacy` uses the `Session` and `Backend` members for them.
- Legacy.RunPair and Legacy.Props: the first input is promised back except for P–Q at a phase boundary. That is the older source's behaviour (see Findings).

## Findings

| source | as written | input that shows it | evidently intended | confidence | as-written member | corrected member |
|---|---|---|---|---|---|---|
| src/backend/refprop.rs:58-100 | the predefined-mixture branch of `new` loads the mixture with SETMIXdll under the lock but does not record its id, so the lock still names the previous backend | at the backend level (the `backend` module is private, src/lib.rs:62): create a pure fluid, then a predefined mixture, then call any operation on the pure fluid; its id is still cached, setup is skipped, and the engine computes with the mixture. Through `Fluid` the `molar_mass_mix` call that follows `new` sets the mixture up again, so the stale lock survives only when that SETUPdll fails: `Fluid::with_units` then returns the error, and the next call on the pure fluid computes with the mixture's definition (its `info` reports the mixture's constants) | record the new id once SETMIXdll succeeds, as `setup_fluid_locked` does | not executed | Session.RefpropLock.NewAsWritten, Session.StaleCacheAfterMix, Facade.WithUnits, Facade.StaleLockAfterFailedMixture | Session.RefpropLock.New, Session.CoherentAfterMix, Facade.WithUnitsCorrected |
| refprop/src/backend/refprop.rs:407-416 | at q ≤ 0 and q ≥ 1 the older interpolation keeps the pressure THERMdll computes at the saturation density | a mixture where THERMdll's pressure at dl differs from the bubble pressure: `get("P", "P", p, "Q", 0)` does not return p | the saturation pressure at the boundaries, continuous with the two-phase interior (the newer backend, src/backend/refprop.rs:881-894) | not executed | Legacy.InterpolateQuality, Legacy.BoundaryPressureJump, Legacy.PressureNotEchoedAtBoundary | Flash.InterpolateQuality, Flash.InterpolationContinuous |
| refprop/src/backend/refprop.rs:392-401 | the older quality flashes always use the bubble curve, also for q ≥ 0.5 | a zeotropic mixture at q = 1: `props_tq` reports the bubble pressure instead of the dew pressure | the dew curve from q = 0.5 on (the newer backend, src/backend/refprop.rs:860-874) | not executed | Legacy.FlashTQ, Legacy.SaturatedVaporPressureDiffers | Flash.FlashTQInner, Flash.ChooseCurve |
