/**
 * The session layer of src/backend/refprop.rs: the backend value, the
 * error-code classifier, input validation, and the process-wide lock that
 * records which backend the engine is currently set up for, together with
 * the constructors that issue backend ids and configure the engine.
 */
module Session {
  import opened Text
  import opened Properties
  import opened Errors
  import opened NativeEngine
  import Sys

  /** A configured fluid: its id, component count, composition and fluid-file list. */
  datatype RefpropBackend = RefpropBackend(id: nat, nc: nat, z: Composition, hfldStr: string)

  /** Which definition files the fluid-directory search found for a name. */
  datatype FluidFiles = FluidFiles(mixFile: Option<string>, fldExists: bool)

  const PoisonedLock: RefpropError :=
    CalculationFailed("REFPROP global lock is poisoned (a previous call panicked)")

  // ------------------------------------------------------------------
  //  Error codes and input validation
  // ------------------------------------------------------------------

  /**
   * `check_err`: a positive code is a hard failure carrying the code and the
   * decoded message; zero and negative codes (warnings, only logged) pass.
   */
  function CheckErr(ierr: int, herr: seq<Byte>): (r: Result<()>)
    ensures r.Ok? <==> ierr <= 0
    ensures r.Err? ==> r.error.Refprop? && r.error.code == ierr
    ensures r.Err? ==> r.error.message == Decode(Sys.FromCString(herr))
  {
    if ierr > 0 then Err(Refprop(ierr, Decode(Sys.FromCString(herr)))) else Ok(())
  }

  /** An engine reply passed through `check_err`: its outputs unless the code is positive. */
  function Checked<T>(reply: Reply<T>): (r: Result<T>)
    ensures r.Ok? <==> reply.ierr <= 0
    ensures r.Ok? ==> r.value == reply.value
    ensures r.Err? ==> r == Err(Refprop(reply.ierr, Decode(Sys.FromCString(reply.herr))))
  {
    var _ :- CheckErr(reply.ierr, reply.herr);
    Ok(reply.value)
  }

  /** `validate_finite`: a finite value passes; any other is rejected, naming the argument. */
  function ValidateFinite(name: string, x: F64): (r: Result<real>)
    ensures r.Ok? <==> x.Finite?
    ensures r.Ok? ==> r.value == x.value
    ensures r.Err? ==> r.error == InvalidInput(NotFinite(name))
  {
    match x
    case Finite(v) => Ok(v)
    case NonFinite => Err(InvalidInput(NotFinite(name)))
  }

  // ------------------------------------------------------------------
  //  Setup and composition
  // ------------------------------------------------------------------

  /** `setup_fluid_inner`: SETUPdll with the backend's component count and file list. */
  function SetupFluidInner(e: Engine, b: RefpropBackend): Result<()>
  {
    Checked(e.setup(b.nc, b.hfldStr))
  }

  /** The entry of one component in the file list: its name upper-cased, with ".FLD". */
  function FldEntry(name: string): string
  {
    Upper(name) + ".FLD"
  }

  /** The pipe-separated list of the components' fluid files. */
  function FldList(names: seq<string>): string
  {
    Join(seq(|names|, i requires 0 <= i < |names| => FldEntry(names[i])), "|")
  }

  /**
   * The file list names each component once, in order: cutting it at the
   * pipes gives back the entries, as long as no name holds a pipe.
   */
  lemma FldListSplits(names: seq<string>)
    requires |names| >= 1
    requires forall i :: 0 <= i < |names| ==> '|' !in names[i]
    ensures Split(FldList(names), '|') == seq(|names|, i requires 0 <= i < |names| => FldEntry(names[i]))
  {
    var entries := seq(|names|, i requires 0 <= i < |names| => FldEntry(names[i]));
    forall i | 0 <= i < |names|
      ensures '|' !in entries[i]
    {
      var u := Upper(names[i]);
      assert forall k :: 0 <= k < |u| ==> u[k] != '|';
      assert entries[i] == u + ".FLD";
    }
    SplitJoin(entries, '|');
  }

  /** A composition array holding the fractions first and zeros after them. */
  function PaddedComposition(fractions: seq<real>): (z: Composition)
    requires |fractions| <= Sys.RefpropNcMax
  {
    fractions + seq(Sys.RefpropNcMax - |fractions|, _ => 0.0)
  }

  /** The names of a component list. */
  function Names(components: seq<(string, real)>): (r: seq<string>)
    ensures |r| == |components|
  {
    seq(|components|, i requires 0 <= i < |components| => components[i].0)
  }

  /** The mole fractions of a component list. */
  function Fractions(components: seq<(string, real)>): (r: seq<real>)
    ensures |r| == |components|
  {
    seq(|components|, i requires 0 <= i < |components| => components[i].1)
  }

  /** The definition SETUPdll loads for `b`: its component count and file list. */
  function DefinitionOf(b: RefpropBackend): Definition
  {
    Definition(b.nc, b.hfldStr)
  }

  /** The backend a predefined mixture file describes. */
  function MixBackend(id: nat, m: MixDefinition): RefpropBackend
  {
    RefpropBackend(id, m.nc, m.z, Decode(Sys.FromCString(m.hfld)))
  }

  /** The backend of a pure fluid: one component with fraction 1. */
  function PureBackend(id: nat, fluidName: string): (b: RefpropBackend)
    ensures b.nc == 1 && b.z[0] == 1.0
    ensures forall i :: 1 <= i < Sys.RefpropNcMax ==> b.z[i] == 0.0
    ensures b.hfldStr == FldList([fluidName])
  {
    RefpropBackend(id, 1, PaddedComposition([1.0]), FldEntry(fluidName))
  }

  /** The backend SETMIXdll describes for a mixture file, under id `id`, unless it reports an error. */
  function MixResult(e: Engine, mixFile: string, id: nat): (r: Result<RefpropBackend>)
    ensures r.Ok? <==> e.setMix(mixFile).ierr <= 0
    ensures r.Ok? ==> r.value == MixBackend(id, e.setMix(mixFile).value)
  {
    var m :- Checked(e.setMix(mixFile));
    Ok(MixBackend(id, m))
  }

  /** The pure-fluid backend under id `id`, unless SETUPdll reports an error for it. */
  function PureResult(e: Engine, fluidName: string, id: nat): (r: Result<RefpropBackend>)
    ensures r.Ok? <==> SetupFluidInner(e, PureBackend(id, fluidName)).Ok?
    ensures r.Ok? ==> r.value == PureBackend(id, fluidName)
  {
    var b := PureBackend(id, fluidName);
    var _ :- SetupFluidInner(e, b);
    Ok(b)
  }

  const FluidNotFoundSuffix: string := " (no .FLD in fluids/ and no .MIX in mixtures/)"

  // ------------------------------------------------------------------
  //  Mixture-averaged molar mass
  // ------------------------------------------------------------------

  /** Σ_{i<n} z[i]·M_i, with M_i the molar mass INFOdll reports for component i+1. */
  function MixMolarMass(e: Routines, z: seq<real>, n: nat): real
    requires n <= |z|
  {
    if n == 0 then 0.0 else MixMolarMass(e, z, n - 1) + z[n - 1] * e.info(n).molarMass
  }

  /** For a pure fluid the mixture average is the molar mass of its one component. */
  lemma PureMolarMass(e: Routines, fluidName: string, id: nat)
    ensures MixMolarMass(e, PureBackend(id, fluidName).z, 1) == e.info(1).molarMass
  {
  }

  /** The average is a weighted sum: components of equal molar mass M give M times the fraction total. */
  lemma {:induction false} MixMolarMassUniform(e: Routines, z: seq<real>, n: nat, m: real)
    requires n <= |z|
    requires forall i :: 1 <= i <= n ==> e.info(i).molarMass == m
    ensures MixMolarMass(e, z, n) == m * Sum(z[..n])
  {
    if n > 0 {
      MixMolarMassUniform(e, z, n - 1, m);
      assert z[..n] == z[..n - 1] + [z[n - 1]];
      SumSnoc(z[..n - 1], z[n - 1]);
    }
  }

  function Sum(s: seq<real>): real
  {
    if s == [] then 0.0 else s[0] + Sum(s[1..])
  }

  lemma {:induction false} SumSnoc(s: seq<real>, x: real)
    ensures Sum(s + [x]) == Sum(s) + x
  {
    if s != [] {
      assert (s + [x])[1..] == s[1..] + [x];
      SumSnoc(s[1..], x);
    }
  }

  // ------------------------------------------------------------------
  //  The global lock and the backend-id counter
  // ------------------------------------------------------------------

  /**
   * The process-wide state: the mutex-guarded id of the backend the engine is
   * set up for (0: none yet), the source of fresh backend ids, and whether the
   * mutex has been poisoned. `loaded` is the engine's side of the same fact:
   * the fluid definition the engine actually holds, which every computing
   * routine reads; `loadedId` is the backend it was loaded for (0: none).
   * `defs` records the definition of each issued id, id `k` at index `k - 1`,
   * and `setups` records, in order, the ids for which SETUPdll was called.
   * A failed SETUPdll or SETMIXdll is taken to leave the held definition as
   * it was.
   */
  class RefpropLock {
    var currentId: nat
    var nextId: nat
    var poisoned: bool
    var loadedId: nat
    var loaded: Definition
    ghost var defs: seq<Definition>
    ghost var setups: seq<nat>

    /**
     * Ids are issued in order, each with a recorded definition; the recorded
     * and the loaded id are ones issued (or 0), and the engine holds the
     * definition recorded for the id it was loaded for.
     */
    ghost predicate Valid()
      reads this
    {
      && nextId == |defs| + 1
      && currentId < nextId && loadedId < nextId
      && (loadedId != 0 ==> defs[loadedId - 1] == loaded)
    }

    /**
     * The recorded id tells the truth: the engine holds the definition of
     * the backend the lock names. Skipping setup is only sound under this.
     */
    predicate Coherent()
      reads this
    {
      currentId == loadedId
    }

    /** `b` carries an id this counter issued, for `b`'s own definition. */
    ghost predicate Issued(b: RefpropBackend)
      reads this
    {
      0 < b.id < nextId && b.id <= |defs| && defs[b.id - 1] == DefinitionOf(b)
    }

    /**
     * What coherence buys: while the lock names `b` and tells the truth, the
     * engine holds `b`'s own definition, so every routine answers for `b`.
     */
    lemma CoherentHoldsIssued(b: RefpropBackend)
      requires Valid() && Issued(b) && currentId == b.id
      ensures Coherent() <==> loadedId == b.id
      ensures Coherent() ==> loaded == DefinitionOf(b)
    {
    }

    constructor (poisoned: bool)
      ensures Valid() && Coherent()
      ensures currentId == 0 && nextId == 1 && this.poisoned == poisoned && loadedId == 0
      ensures loaded == NothingLoaded && defs == [] && setups == []
    {
      currentId := 0;
      nextId := 1;
      this.poisoned := poisoned;
      loadedId := 0;
      loaded := NothingLoaded;
      defs := [];
      setups := [];
    }

    /** `lock_refprop`: acquiring a poisoned lock fails; otherwise it succeeds. */
    function Lock(): (r: Result<()>)
      reads this
      ensures r.Err? <==> poisoned
      ensures r.Err? ==> r.error == PoisonedLock
    {
      if poisoned then Err(PoisonedLock) else Ok(())
    }

    /** Whether acquiring the lock for `b` makes the engine reconfigure. */
    predicate NeedsSetup(b: RefpropBackend)
      reads this
    {
      !poisoned && currentId != b.id
    }

    /** The outcome of taking the lock and then `ensure_setup` for `b`. */
    function EnterResult(e: Engine, b: RefpropBackend): (r: Result<()>)
      reads this
    {
      if poisoned then Err(PoisonedLock)
      else if currentId != b.id then SetupFluidInner(e, b)
      else Ok(())
    }

    /** The recorded id after taking the lock and then `ensure_setup` for `b`. */
    function IdAfterEnter(e: Engine, b: RefpropBackend): nat
      reads this
    {
      if NeedsSetup(b) && SetupFluidInner(e, b).Ok? then b.id else currentId
    }

    /** The id the engine's definition was loaded for, after taking the lock and then `ensure_setup` for `b`. */
    function LoadedAfterEnter(e: Engine, b: RefpropBackend): nat
      reads this
    {
      if NeedsSetup(b) && SetupFluidInner(e, b).Ok? then b.id else loadedId
    }

    /** The definition the engine holds after taking the lock and then `ensure_setup` for `b`. */
    function HeldAfterEnter(e: Engine, b: RefpropBackend): Definition
      reads this
    {
      if NeedsSetup(b) && SetupFluidInner(e, b).Ok? then DefinitionOf(b) else loaded
    }

    /**
     * `ensure_setup`: sets the engine up for `b` exactly when the recorded id
     * differs from `b.id`; the id is recorded only when that setup succeeds.
     * With the id already recorded it changes nothing.
     */
    method EnsureSetup(e: Engine, b: RefpropBackend) returns (r: Result<()>)
      requires Valid() && Issued(b)
      modifies this
      ensures Valid()
      ensures nextId == old(nextId) && poisoned == old(poisoned) && defs == old(defs)
      ensures old(currentId) == b.id ==> r == Ok(()) && unchanged(this)
      ensures old(currentId) != b.id ==>
        && r == SetupFluidInner(e, b)
        && setups == old(setups) + [b.id]
        && currentId == (if r.Ok? then b.id else old(currentId))
        && loadedId == (if r.Ok? then b.id else old(loadedId))
        && loaded == (if r.Ok? then DefinitionOf(b) else old(loaded))
    {
      r := Ok(());
      if currentId != b.id {
        setups := setups + [b.id];
        r := SetupFluidInner(e, b);
        if r.Err? {
          return;
        }
        currentId, loadedId, loaded := b.id, b.id, DefinitionOf(b);
      }
    }

    /**
     * `setup_fluid_locked`: takes the lock, always sets the engine up for
     * `b`, and records `b.id` when that succeeds.
     */
    method SetupFluidLocked(e: Engine, b: RefpropBackend) returns (r: Result<()>)
      requires Valid() && Issued(b)
      modifies this
      ensures Valid()
      ensures nextId == old(nextId) && poisoned == old(poisoned) && defs == old(defs)
      ensures r == (if old(poisoned) then Err(PoisonedLock) else SetupFluidInner(e, b))
      ensures setups == old(setups) + (if old(poisoned) then [] else [b.id])
      ensures currentId == (if r.Ok? then b.id else old(currentId))
      ensures loadedId == (if r.Ok? then b.id else old(loadedId))
      ensures loaded == (if r.Ok? then DefinitionOf(b) else old(loaded))
      ensures old(Coherent()) ==> Coherent()
    {
      r := Lock();
      if r.Err? {
        return;
      }
      setups := setups + [b.id];
      r := SetupFluidInner(e, b);
      if r.Err? {
        return;
      }
      currentId, loadedId, loaded := b.id, b.id, DefinitionOf(b);
    }

    /**
     * Taking the lock and then `ensure_setup`, the prologue of every public
     * operation. On success the engine is set up for `b`, and when the
     * recorded id told the truth beforehand the engine holds `b`'s definition.
     */
    method Enter(e: Engine, b: RefpropBackend) returns (r: Result<()>)
      requires Valid() && Issued(b)
      modifies this
      ensures Valid()
      ensures nextId == old(nextId) && poisoned == old(poisoned) && defs == old(defs)
      ensures r == old(EnterResult(e, b))
      ensures currentId == old(IdAfterEnter(e, b))
      ensures loadedId == old(LoadedAfterEnter(e, b))
      ensures loaded == old(HeldAfterEnter(e, b))
      ensures setups == old(setups) + (if old(NeedsSetup(b)) then [b.id] else [])
      ensures r.Ok? ==> currentId == b.id
      ensures old(Coherent()) ==> Coherent()
      ensures old(Coherent()) && r.Ok? ==> loaded == DefinitionOf(b)
    {
      r := Lock();
      if r.Err? {
        return;
      }
      r := EnsureSetup(e, b);
    }

    /** `NEXT_BACKEND_ID.fetch_add(1)`; the new id is recorded with the definition `d` it is issued for. */
    method IssueId(ghost d: Definition) returns (id: nat)
      requires Valid()
      modifies this`nextId, this`defs
      ensures Valid()
      ensures id == old(nextId) && nextId == old(nextId) + 1 && defs == old(defs) + [d]
      ensures currentId == old(currentId) && loadedId == old(loadedId) && loaded == old(loaded)
      ensures poisoned == old(poisoned) && setups == old(setups)
    {
      id := nextId;
      nextId := nextId + 1;
      defs := defs + [d];
    }

    /**
     * The predefined-mixture branch of `RefpropBackend::new` as written: the
     * mixture file is loaded with SETMIXdll under the lock, which puts the
     * mixture's definition into the engine, but the new id is not recorded.
     * The lock then still names the previous backend while the engine holds
     * the mixture.
     */
    method LoadMixAsWritten(e: Engine, mixFile: string) returns (r: Result<RefpropBackend>)
      requires Valid()
      modifies this
      ensures Valid() && poisoned == old(poisoned) && setups == old(setups)
      ensures r == (if old(poisoned) then Err(PoisonedLock) else MixResult(e, mixFile, old(nextId)))
      ensures nextId == old(nextId) + (if r.Ok? then 1 else 0)
      ensures defs == old(defs) + (if r.Ok? then [DefinitionOf(r.value)] else [])
      ensures currentId == old(currentId)
      ensures loadedId == (if r.Ok? then r.value.id else old(loadedId))
      ensures loaded == (if r.Ok? then DefinitionOf(r.value) else old(loaded))
      ensures r.Ok? ==> Issued(r.value) && !Coherent()
    {
      if poisoned {
        return Err(PoisonedLock);
      }
      r := MixResult(e, mixFile, nextId);
      if r.Err? {
        return;
      }
      var b := r.value;
      var id := IssueId(DefinitionOf(b));
      loadedId, loaded := id, DefinitionOf(b);
    }

    /**
     * The predefined-mixture branch of `RefpropBackend::new` with the new id
     * recorded once SETMIXdll has succeeded, as `setup_fluid_locked` does for
     * the other constructors: the lock and the engine agree afterwards.
     */
    method LoadMix(e: Engine, mixFile: string) returns (r: Result<RefpropBackend>)
      requires Valid()
      modifies this
      ensures Valid() && poisoned == old(poisoned) && setups == old(setups)
      ensures r == (if old(poisoned) then Err(PoisonedLock) else MixResult(e, mixFile, old(nextId)))
      ensures nextId == old(nextId) + (if r.Ok? then 1 else 0)
      ensures defs == old(defs) + (if r.Ok? then [DefinitionOf(r.value)] else [])
      ensures currentId == (if r.Ok? then r.value.id else old(currentId))
      ensures loadedId == (if r.Ok? then r.value.id else old(loadedId))
      ensures loaded == (if r.Ok? then DefinitionOf(r.value) else old(loaded))
      ensures r.Ok? ==> Issued(r.value) && Coherent()
      ensures old(Coherent()) ==> Coherent()
    {
      if poisoned {
        return Err(PoisonedLock);
      }
      r := MixResult(e, mixFile, nextId);
      if r.Err? {
        return;
      }
      var b := r.value;
      var id := IssueId(DefinitionOf(b));
      loadedId, currentId, loaded := id, id, DefinitionOf(b);
    }

    /**
     * `RefpropBackend::new` for a name whose definition files have been
     * searched for. A predefined mixture file wins over a fluid file; it is
     * loaded under the lock and its id recorded. A pure fluid gets one
     * component of fraction 1 and is set up under the lock. A name with
     * neither file is not found.
     */
    method New(e: Engine, fluidName: string, files: FluidFiles) returns (r: Result<RefpropBackend>)
      requires Valid()
      modifies this
      ensures Valid() && poisoned == old(poisoned) && old(defs) <= defs
      ensures old(Coherent()) ==> Coherent()
      ensures r.Ok? ==> Issued(r.value) && r.value.id == old(nextId) && r.value.nc <= Sys.RefpropNcMax
      ensures r.Ok? ==> loaded == DefinitionOf(r.value)
      ensures files.mixFile.Some? ==>
        && setups == old(setups)
        && r == (if old(poisoned) then Err(PoisonedLock) else MixResult(e, files.mixFile.value, old(nextId)))
        && nextId == old(nextId) + (if r.Ok? then 1 else 0)
        && currentId == (if r.Ok? then r.value.id else old(currentId))
        && loadedId == (if r.Ok? then r.value.id else old(loadedId))
        && (r.Err? ==> loaded == old(loaded))
      ensures files.mixFile.None? && files.fldExists ==>
        && nextId == old(nextId) + 1
        && r == (if old(poisoned) then Err(PoisonedLock) else PureResult(e, fluidName, old(nextId)))
        && setups == old(setups) + (if old(poisoned) then [] else [old(nextId)])
        && currentId == (if r.Ok? then old(nextId) else old(currentId))
        && loadedId == (if r.Ok? then old(nextId) else old(loadedId))
        && (r.Err? ==> loaded == old(loaded))
      ensures files.mixFile.None? && !files.fldExists ==>
        && r == Err(FluidNotFound(fluidName + FluidNotFoundSuffix))
        && unchanged(this)
    {
      if files.mixFile.Some? {
        r := LoadMix(e, files.mixFile.value);
      } else if files.fldExists {
        var id := IssueId(DefinitionOf(PureBackend(nextId, fluidName)));
        var b := PureBackend(id, fluidName);
        var _ :- SetupFluidLocked(e, b);
        r := Ok(b);
      } else {
        r := Err(FluidNotFound(fluidName + FluidNotFoundSuffix));
      }
    }

    /**
     * `RefpropBackend::new` as written: as `New`, except that a predefined
     * mixture leaves the lock naming the previous backend.
     */
    method NewAsWritten(e: Engine, fluidName: string, files: FluidFiles) returns (r: Result<RefpropBackend>)
      requires Valid()
      modifies this
      ensures Valid() && poisoned == old(poisoned) && old(defs) <= defs
      ensures r.Ok? ==> Issued(r.value) && r.value.id == old(nextId) && r.value.nc <= Sys.RefpropNcMax
      ensures r.Ok? ==> loaded == DefinitionOf(r.value)
      ensures files.mixFile.Some? ==>
        && setups == old(setups) && currentId == old(currentId)
        && r == (if old(poisoned) then Err(PoisonedLock) else MixResult(e, files.mixFile.value, old(nextId)))
        && nextId == old(nextId) + (if r.Ok? then 1 else 0)
        && loadedId == (if r.Ok? then r.value.id else old(loadedId))
        && (r.Err? ==> loaded == old(loaded))
        && (r.Ok? ==> !Coherent())
      ensures files.mixFile.None? && files.fldExists ==>
        && nextId == old(nextId) + 1
        && r == (if old(poisoned) then Err(PoisonedLock) else PureResult(e, fluidName, old(nextId)))
        && setups == old(setups) + (if old(poisoned) then [] else [old(nextId)])
        && currentId == (if r.Ok? then old(nextId) else old(currentId))
        && loadedId == (if r.Ok? then old(nextId) else old(loadedId))
        && (r.Err? ==> loaded == old(loaded))
      ensures files.mixFile.None? && !files.fldExists ==>
        && r == Err(FluidNotFound(fluidName + FluidNotFoundSuffix))
        && unchanged(this)
    {
      if files.mixFile.Some? {
        r := LoadMixAsWritten(e, files.mixFile.value);
      } else {
        r := New(e, fluidName, files);
      }
    }

    /**
     * `RefpropBackend::new_mixture`: rejects an empty list or one longer than
     * REFPROP_NC_MAX before anything else; otherwise fills the composition
     * array with the fractions (zeros after them), builds the file list,
     * takes a fresh id and sets the engine up under the lock.
     */
    method NewMixture(e: Engine, components: seq<(string, real)>) returns (r: Result<RefpropBackend>)
      requires Valid()
      modifies this
      ensures Valid() && poisoned == old(poisoned) && old(defs) <= defs
      ensures old(Coherent()) ==> Coherent()
      ensures (|components| == 0 || |components| > Sys.RefpropNcMax) ==>
        && r == Err(InvalidInput(ComponentCount(|components|)))
        && unchanged(this)
      ensures 0 < |components| <= Sys.RefpropNcMax ==>
        var b := RefpropBackend(old(nextId), |components|, PaddedComposition(Fractions(components)),
                                FldList(Names(components)));
        && nextId == old(nextId) + 1 && Issued(b)
        && r == (if old(poisoned) then Err(PoisonedLock) else var _ :- SetupFluidInner(e, b); Ok(b))
        && setups == old(setups) + (if old(poisoned) then [] else [b.id])
        && currentId == (if r.Ok? then b.id else old(currentId))
        && loadedId == (if r.Ok? then b.id else old(loadedId))
        && loaded == (if r.Ok? then DefinitionOf(b) else old(loaded))
    {
      if |components| == 0 || |components| > Sys.RefpropNcMax {
        return Err(InvalidInput(ComponentCount(|components|)));
      }
      var nc := |components|;
      var hfldStr := FldList(Names(components));
      var z := new real[Sys.RefpropNcMax](_ => 0.0);
      for i := 0 to nc
        modifies z
        invariant forall k :: 0 <= k < i ==> z[k] == components[k].1
        invariant forall k :: i <= k < Sys.RefpropNcMax ==> z[k] == 0.0
      {
        z[i] := components[i].1;
      }
      assert z[..] == PaddedComposition(Fractions(components));
      var id := IssueId(Definition(nc, hfldStr));
      var b := RefpropBackend(id, nc, z[..], hfldStr);
      var _ :- SetupFluidLocked(e, b);
      r := Ok(b);
    }
  }

  /**
   * The stale cache, concretely. In a fresh process, a pure fluid is created
   * (id 1, set up and recorded), then a predefined mixture with `new` as
   * written (id 2, loaded by SETMIXdll, not recorded). The next operation on
   * the pure fluid finds its own id recorded, skips setup and succeeds, while
   * the engine still holds the mixture: whenever the two definitions differ,
   * it computes for the wrong fluid.
   */
  method StaleCacheAfterMix(e: Engine, fluidName: string, mixFile: string)
    returns (pure: RefpropBackend, mix: RefpropBackend, served: Result<()>, heldDuringCall: Definition)
    requires SetupFluidInner(e, PureBackend(1, fluidName)).Ok?
    requires Checked(e.setMix(mixFile)).Ok?
    ensures pure == PureBackend(1, fluidName) && mix == MixBackend(2, e.setMix(mixFile).value)
    ensures served.Ok?
    ensures heldDuringCall == DefinitionOf(mix)
    ensures DefinitionOf(mix) != DefinitionOf(pure) ==> heldDuringCall != DefinitionOf(pure)
  {
    var s := new RefpropLock(false);
    var rp := s.NewAsWritten(e, fluidName, FluidFiles(None, true));
    assert rp == PureResult(e, fluidName, 1);
    pure := rp.value;
    assert s.currentId == 1 && s.loadedId == 1 && s.nextId == 2 && !s.poisoned;
    var rm := s.NewAsWritten(e, fluidName, FluidFiles(Some(mixFile), false));
    assert rm == MixResult(e, mixFile, 2);
    mix := rm.value;
    assert s.currentId == 1 && s.loadedId == 2 && !s.poisoned;
    assert s.Issued(pure);
    served := s.Enter(e, pure);
    heldDuringCall := s.loaded;
  }

  /**
   * The same sequence with the corrected constructor: the operation on the
   * pure fluid notices that the engine was reconfigured, sets it up again,
   * and runs against the pure fluid's own definition.
   */
  method CoherentAfterMix(e: Engine, fluidName: string, mixFile: string)
    returns (pure: RefpropBackend, mix: RefpropBackend, served: Result<()>, heldDuringCall: Definition)
    requires SetupFluidInner(e, PureBackend(1, fluidName)).Ok?
    requires Checked(e.setMix(mixFile)).Ok?
    ensures pure == PureBackend(1, fluidName) && mix == MixBackend(2, e.setMix(mixFile).value)
    ensures served.Ok?
    ensures heldDuringCall == DefinitionOf(pure)
  {
    var s := new RefpropLock(false);
    var rp := s.New(e, fluidName, FluidFiles(None, true));
    assert rp == PureResult(e, fluidName, 1);
    pure := rp.value;
    assert pure == PureBackend(1, fluidName);
    assert s.currentId == 1 && s.loadedId == 1 && s.nextId == 2 && !s.poisoned;
    var rm := s.New(e, fluidName, FluidFiles(Some(mixFile), false));
    assert rm == MixResult(e, mixFile, 2);
    mix := rm.value;
    assert s.currentId == 2 && s.loadedId == 2 && !s.poisoned;
    assert s.Issued(pure);
    assert s.EnterResult(e, pure) == SetupFluidInner(e, pure);
    served := s.Enter(e, pure);
    heldDuringCall := s.loaded;
  }
}
