/** What FmuFunction's operations are specified to do, as functions of their inputs and of the
    model binary's behaviour, with the properties the bridge relies on proved about them. */
module FmuSpec {
  import opened Wrappers
  import opened Search
  import opened Vectors
  import opened Platform
  import opened Fmi2

  /** The errors the bridge raises (casadi_assert / casadi_error). */
  datatype Error =
    | InputPartitions(count: nat)
    | OutputPartitions(count: nat)
    | LibraryNotFound(path: string)
    | CannotRetrieve(symbol: Symbol)
    | InstantiateFailed
    | SetupExperimentFailed
    | EnterInitializationModeFailed(status: Status)
    | ExitInitializationModeFailed
    | EnterContinuousTimeModeFailed(status: Status)
    | SetRealFailed
    | GetRealFailed
    | IndexOutOfRange(index: int)
    | AdjointDirectionsNotSupported(nadj: int)

  function IsFalse(b: bool): bool
  {
    !b
  }

  // ---------------------------------------------------------------------------------------
  // Construction

  /** The symbols init resolves, in the order it resolves them; the directional derivative
      only when the option says the model provides it. */
  function RequiredSymbols(providesDirectionalDerivative: bool): seq<Symbol>
  {
    [Fmi2Instantiate, Fmi2FreeInstance, Fmi2SetupExperiment, Fmi2EnterInitializationMode,
     Fmi2ExitInitializationMode, Fmi2EnterContinuousTimeMode, Fmi2SetReal, Fmi2SetBoolean,
     Fmi2GetReal]
    + if providesDirectionalDerivative then [Fmi2GetDirectionalDerivative] else []
  }

  function IsMissing(exports: set<Symbol>): Symbol -> bool
  {
    s => s !in exports
  }

  /** The symbol whose lookup fails first, in the order init looks them up. */
  function MissingSymbol(exports: set<Symbol>, providesDirectionalDerivative: bool): Option<Symbol>
  {
    if Fmi2Instantiate !in exports then Some(Fmi2Instantiate)
    else if Fmi2FreeInstance !in exports then Some(Fmi2FreeInstance)
    else if Fmi2SetupExperiment !in exports then Some(Fmi2SetupExperiment)
    else if Fmi2EnterInitializationMode !in exports then Some(Fmi2EnterInitializationMode)
    else if Fmi2ExitInitializationMode !in exports then Some(Fmi2ExitInitializationMode)
    else if Fmi2EnterContinuousTimeMode !in exports then Some(Fmi2EnterContinuousTimeMode)
    else if Fmi2SetReal !in exports then Some(Fmi2SetReal)
    else if Fmi2SetBoolean !in exports then Some(Fmi2SetBoolean)
    else if Fmi2GetReal !in exports then Some(Fmi2GetReal)
    else if providesDirectionalDerivative && Fmi2GetDirectionalDerivative !in exports
    then Some(Fmi2GetDirectionalDerivative)
    else None
  }

  /** The lookup that fails is the first required symbol the binary does not export;
      no lookup fails exactly when every required symbol is exported. */
  lemma MissingSymbolIsFirstMissing(exports: set<Symbol>, dd: bool)
    ensures var req := RequiredSymbols(dd);
      var k := FirstWhere(req, IsMissing(exports));
      MissingSymbol(exports, dd) == if k < |req| then Some(req[k]) else None
    ensures MissingSymbol(exports, dd).None? <==>
      forall s :: s in RequiredSymbols(dd) ==> s in exports
  {
    var req := RequiredSymbols(dd);
    var k := FirstWhere(req, IsMissing(exports));
    assert forall j :: 0 <= j < k ==> req[j] in exports;
    assert k < |req| ==> req[k] !in exports;
    assert req[0] == Fmi2Instantiate && req[1] == Fmi2FreeInstance;
    assert req[2] == Fmi2SetupExperiment && req[3] == Fmi2EnterInitializationMode;
    assert req[4] == Fmi2ExitInitializationMode && req[5] == Fmi2EnterContinuousTimeMode;
    assert req[6] == Fmi2SetReal && req[7] == Fmi2SetBoolean && req[8] == Fmi2GetReal;
    assert dd ==> req[9] == Fmi2GetDirectionalDerivative;
  }

  /** The five calls of the construction-time lifecycle, in order, on instance h. */
  function Chain(name: string, guid: string, path: string, h: Handle): seq<Op>
  {
    [Instantiate(name, ModelExchange, guid, ResourceLocation(path)),
     SetupExperiment(h), EnterInitializationMode(h), ExitInitializationMode(h),
     EnterContinuousTimeMode(h)]
  }

  /** Whether each of the five calls succeeded: a non-NULL handle, then fmi2OK four times. */
  function ChainOk(lib: Library, h: Handle): seq<bool>
  {
    [h != 0, lib.setupExperiment == OK, lib.enterInitializationMode == OK,
     lib.exitInitializationMode == OK, lib.enterContinuousTimeMode == OK]
  }

  /** The error raised when call k of the chain fails. */
  function ChainError(k: nat, lib: Library): Error
    requires k < 5
  {
    if k == 0 then InstantiateFailed
    else if k == 1 then SetupExperimentFailed
    else if k == 2 then EnterInitializationModeFailed(lib.enterInitializationMode)
    else if k == 3 then ExitInitializationModeFailed
    else EnterContinuousTimeModeFailed(lib.enterContinuousTimeMode)
  }

  /** The call of the chain that fails first, in the order construction makes them; 5 when
      every call succeeds. */
  function FailedCall(lib: Library, h: Handle): (k: nat)
    ensures k <= 5
  {
    if h == 0 then 0
    else if lib.setupExperiment != OK then 1
    else if lib.enterInitializationMode != OK then 2
    else if lib.exitInitializationMode != OK then 3
    else if lib.enterContinuousTimeMode != OK then 4
    else 5
  }

  /** The call construction stops at is the first call of the chain that does not succeed. */
  lemma FailedCallIsFirstFailure(lib: Library, h: Handle)
    ensures FailedCall(lib, h) == FirstWhere(ChainOk(lib, h), IsFalse)
  {
    FirstWhereIs(ChainOk(lib, h), IsFalse, FailedCall(lib, h));
  }

  /** The result of construction, the calls it made into the binary, and the handle kept. */
  datatype InitRun = InitRun(outcome: Outcome<Error>, trace: seq<Op>, handle: Handle)

  /** Construction: partition checks, then loading the binary found at the model location,
      then symbol lookup, then the lifecycle chain up to its first failure. `fs` maps each
      library file that can be loaded to the behaviour of that binary. */
  function InitSpec(name: string, path: string, idIn: seq<seq<int>>, idOut: seq<seq<int>>,
                    guid: string, dd: bool, host: Host, fs: map<string, Library>): InitRun
  {
    if |idIn| != 2 then InitRun(Fail(InputPartitions(|idIn|)), [], 0)
    else if |idOut| != 2 then InitRun(Fail(OutputPartitions(|idOut|)), [], 0)
    else
      var dll := BinaryPath(path, name, host);
      if dll !in fs then InitRun(Fail(LibraryNotFound(dll)), [], 0)
      else LoadedRun(fs[dll], name, guid, path, dd)
  }

  /** Construction once the binary is loaded: symbol lookup, then the lifecycle chain. */
  function LoadedRun(lib: Library, name: string, guid: string, path: string, dd: bool): InitRun
  {
    match MissingSymbol(lib.exports, dd)
    case Some(s) => InitRun(Fail(CannotRetrieve(s)), [], 0)
    case None => LifecycleRun(lib, name, guid, path)
  }

  /** The lifecycle chain once every symbol is found: instantiate, then the four state
      changes, stopping at the first call that does not succeed. */
  function LifecycleRun(lib: Library, name: string, guid: string, path: string): InitRun
  {
    var h := lib.instantiate(name, guid, ResourceLocation(path));
    var k := FailedCall(lib, h);
    if k == 5 then InitRun(Pass, Chain(name, guid, path, h), h)
    else InitRun(Fail(ChainError(k, lib)), Chain(name, guid, path, h)[..k + 1], h)
  }

  /** The partition counts are checked before anything else: a wrong count is reported
      without calling into the binary, and the result does not depend on which library
      files exist, so no binary is looked at. */
  lemma InitChecksPartitionsFirst(name: string, path: string, idIn: seq<seq<int>>,
                                  idOut: seq<seq<int>>, guid: string, dd: bool, host: Host,
                                  fs: map<string, Library>)
    ensures var run := InitSpec(name, path, idIn, idOut, guid, dd, host, fs);
      && (run.outcome == Fail(InputPartitions(|idIn|)) <==> |idIn| != 2)
      && (run.outcome == Fail(OutputPartitions(|idOut|)) <==> |idIn| == 2 && |idOut| != 2)
      && (|idIn| != 2 || |idOut| != 2 ==>
            && run.trace == [] && run.handle == 0
            && run == InitSpec(name, path, idIn, idOut, guid, dd, host, map[]))
  {
  }

  /** Construction succeeds exactly when there are two input and two output partitions, a
      binary exists at the model location, it exports every required symbol, instantiation
      returns a non-NULL handle and every lifecycle call returns fmi2OK. */
  lemma InitSucceedsIff(name: string, path: string, idIn: seq<seq<int>>, idOut: seq<seq<int>>,
                        guid: string, dd: bool, host: Host, fs: map<string, Library>)
    ensures var run := InitSpec(name, path, idIn, idOut, guid, dd, host, fs);
      var dll := BinaryPath(path, name, host);
      run.outcome.Pass? <==>
        && |idIn| == 2 && |idOut| == 2
        && dll in fs
        && (forall s :: s in RequiredSymbols(dd) ==> s in fs[dll].exports)
        && fs[dll].instantiate(name, guid, ResourceLocation(path)) != 0
        && fs[dll].setupExperiment == OK
        && fs[dll].enterInitializationMode == OK
        && fs[dll].exitInitializationMode == OK
        && fs[dll].enterContinuousTimeMode == OK
  {
    var dll := BinaryPath(path, name, host);
    if |idIn| == 2 && |idOut| == 2 && dll in fs {
      MissingSymbolIsFirstMissing(fs[dll].exports, dd);
    }
  }

  /** The model state after the first j calls of the chain. */
  function ChainState(j: nat): ModelState
    requires j <= 5
  {
    [StartAndEnd, Instantiated, Instantiated, InitializationMode, EventMode, ContinuousTimeMode][j]
  }

  /** Every prefix of the chain is allowed by the calling sequence of FMI 2.0 and the whole
      chain ends in continuous-time mode. */
  lemma ChainPrefixRuns(name: string, guid: string, path: string, h: Handle, j: nat)
    requires j <= 5
    ensures Run(StartAndEnd, Chain(name, guid, path, h)[..j]) == Some(ChainState(j))
  {
    var chain := Chain(name, guid, path, h);
    assert chain[..0] == [];
    var i := 0;
    while i < j
      invariant i <= j
      invariant Run(StartAndEnd, chain[..i]) == Some(ChainState(i))
    {
      RunAppend(StartAndEnd, chain[..i], [chain[i]]);
      assert chain[..i + 1] == chain[..i] + [chain[i]];
      i := i + 1;
    }
  }

  /** The lifecycle chain stops at its first failure: the calls made are a non-empty prefix
      of the chain, every call but the last returned success, a failure is raised exactly
      when the last call made failed, every call after instantiation is on the handle it
      returned, and the calling sequence of FMI 2.0 allows each of them. When it succeeds
      the handle is not NULL, all five calls were made, and the instance is in
      continuous-time mode. */
  lemma LifecycleFollowsCallingSequence(lib: Library, name: string, guid: string, path: string)
    ensures var run := LifecycleRun(lib, name, guid, path);
      var t, ok := run.trace, ChainOk(lib, run.handle);
      && 0 < |t| && t <= Chain(name, guid, path, run.handle)
      && (forall i :: 0 <= i < |t| - 1 ==> ok[i])
      && (run.outcome.Fail? <==> !ok[|t| - 1])
      && (forall i :: 1 <= i < |t| ==> t[i].OnInstance(run.handle))
      && Run(StartAndEnd, t).Some?
      && (run.outcome.Pass? ==>
            run.handle != 0 && t == Chain(name, guid, path, run.handle)
            && Run(StartAndEnd, t) == Some(ContinuousTimeMode))
  {
    var run := LifecycleRun(lib, name, guid, path);
    var chain := Chain(name, guid, path, run.handle);
    ChainPrefixRuns(name, guid, path, run.handle, |run.trace|);
    assert run.trace == chain[..|run.trace|];
  }

  /** The calls construction makes follow the lifecycle chain in order and stop at the first
      failure (see LifecycleFollowsCallingSequence); construction that fails before the
      chain (wrong partition counts, no binary, a missing symbol) makes no call. After a successful construction the instance is in
      continuous-time mode. */
  lemma InitFollowsCallingSequence(name: string, path: string, idIn: seq<seq<int>>,
                                   idOut: seq<seq<int>>, guid: string, dd: bool, host: Host,
                                   fs: map<string, Library>)
    ensures var run := InitSpec(name, path, idIn, idOut, guid, dd, host, fs);
      var dll := BinaryPath(path, name, host);
      var t := run.trace;
      && t <= Chain(name, guid, path, run.handle)
      && (run.outcome.Pass? ==> t == Chain(name, guid, path, run.handle))
      && (|t| > 0 ==>
            && dll in fs
            && MissingSymbol(fs[dll].exports, dd).None?
            && (forall i :: 0 <= i < |t| - 1 ==> ChainOk(fs[dll], run.handle)[i])
            && (run.outcome.Fail? <==> !ChainOk(fs[dll], run.handle)[|t| - 1]))
      && (forall i :: 1 <= i < |t| ==> t[i].OnInstance(run.handle))
      && Run(StartAndEnd, t).Some?
      && (run.outcome.Pass? ==> Run(StartAndEnd, t) == Some(ContinuousTimeMode))
  {
    var dll := BinaryPath(path, name, host);
    if |idIn| == 2 && |idOut| == 2 && dll in fs && MissingSymbol(fs[dll].exports, dd).None? {
      LifecycleFollowsCallingSequence(fs[dll], name, guid, path);
    }
  }

  // ---------------------------------------------------------------------------------------
  // Evaluation

  /** How an evaluation ends: it returns the integer flag, or it raises an error. */
  datatype Completion = Returned(flag: int) | Raised(error: Error)

  /** The differentiable outputs `yd` the binary reports at point x. */
  function Outputs(lib: Library, x: seq<real>, yd: seq<int>): (r: seq<real>)
    ensures |r| == |yd|
  {
    seq(|yd|, j requires 0 <= j < |yd| => lib.getReal(x, yd[j]))
  }

  /** The sensitivities of the differentiable outputs `yd` for `seed` at point x. */
  function Sensitivity(lib: Library, x: seq<real>, seed: seq<real>, yd: seq<int>): (r: seq<real>)
    ensures |r| == |yd|
  {
    seq(|yd|, j requires 0 <= j < |yd| => lib.derivative(x, seed, yd[j]))
  }

  /** Whether the directional derivative for unit seed e_i succeeds, for each column i. */
  function ColumnOk(lib: Library, x: seq<real>, n: nat): seq<bool>
  {
    seq(n, i requires 0 <= i < n => lib.derivativeStatus(x, UnitVector(n, i)) == OK)
  }

  /** The first column whose directional derivative fails, or n when none fails. */
  function FailedColumn(lib: Library, x: seq<real>, n: nat): (k: nat)
    ensures k <= n
  {
    FirstWhere(ColumnOk(lib, x, n), IsFalse)
  }

  /** Columns 0 .. k-1 of the Jacobian at x: column i is the sensitivity for seed e_i. */
  function Columns(lib: Library, x: seq<real>, yd: seq<int>, n: nat, k: nat): (cols: seq<seq<real>>)
    requires k <= n
    ensures |cols| == k && Uniform(cols, |yd|)
  {
    seq(k, i requires 0 <= i < k => Sensitivity(lib, x, UnitVector(n, i), yd))
  }

  /** The Jacobian output buffer after the sweep: the columns computed before the first
      failing one, in column-major order, followed by what the buffer held before. */
  function JacobianBuffer(lib: Library, x: seq<real>, yd: seq<int>, n: nat, before: seq<real>): seq<real>
    requires |before| == n * |yd|
  {
    var k := FailedColumn(lib, x, n);
    var cols := Columns(lib, x, yd, n, k);
    FlattenLength(cols, |yd|);
    assert k * |yd| <= n * |yd| by { MulMono(k, n, |yd|); }
    Flatten(cols) + before[k * |yd|..]
  }

  /** The adjoint output buffer after the sweep: entry i is the sensitivity for e_i dotted
      with the output adjoint seed v, for the columns before the first failing one;
      the other entries stay cleared. */
  function AdjointBuffer(lib: Library, x: seq<real>, yd: seq<int>, n: nat, v: seq<real>): (r: seq<real>)
    requires |v| == |yd|
    ensures |r| == n
  {
    AdjointPrefix(lib, x, yd, n, v, FailedColumn(lib, x, n))
  }

  /** The adjoint buffer after the first i columns of a sweep: their dot products with v,
      then zeros. */
  function AdjointPrefix(lib: Library, x: seq<real>, yd: seq<int>, n: nat, v: seq<real>, i: nat): (r: seq<real>)
    requires |v| == |yd|
    ensures |r| == n
  {
    seq(n, t requires 0 <= t < n =>
      if t < i then Dot(Sensitivity(lib, x, UnitVector(n, t), yd), v) else 0.0)
  }

  /** The directional-derivative calls of a sweep that made m of them. */
  function SweepCalls(h: Handle, yd: seq<int>, xd: seq<int>, n: nat, m: nat): seq<Op>
    requires m <= n
  {
    seq(m, i requires 0 <= i < m => GetDirectionalDerivative(h, yd, xd, UnitVector(n, i)))
  }

  /** A sweep that stops at column k of n made k+1 calls, or n when it did not stop. */
  function CallsMade(k: nat, n: nat): nat
    requires k <= n
  {
    if k < n then k + 1 else n
  }

  /** The seed buffer after the sweep: reset to zero unless column k failed. */
  function SeedAfter(n: nat, k: nat): seq<real>
    requires k <= n
  {
    if k < n then UnitVector(n, k) else Zeros(n)
  }

  /** One more column extends the column-major storage by that column. */
  lemma ColumnsSnoc(lib: Library, x: seq<real>, yd: seq<int>, n: nat, i: nat)
    requires i < n
    ensures Columns(lib, x, yd, n, i + 1) == Columns(lib, x, yd, n, i) + [Sensitivity(lib, x, UnitVector(n, i), yd)]
    ensures Flatten(Columns(lib, x, yd, n, i + 1)) ==
      Flatten(Columns(lib, x, yd, n, i)) + Sensitivity(lib, x, UnitVector(n, i), yd)
  {
    var cols := Columns(lib, x, yd, n, i);
    var col := Sensitivity(lib, x, UnitVector(n, i), yd);
    assert Columns(lib, x, yd, n, i + 1) == cols + [col];
    FlattenSnoc(cols, col);
  }

  /** The column-major storage of Jacobian columns 0 .. k-1, built one column at a time as
      the sweep writes it. */
  function Stored(lib: Library, x: seq<real>, yd: seq<int>, n: nat, k: nat): seq<real>
    requires k <= n
  {
    if k == 0 then [] else Stored(lib, x, yd, n, k - 1) + Sensitivity(lib, x, UnitVector(n, k - 1), yd)
  }

  lemma {:induction false} StoredLength(lib: Library, x: seq<real>, yd: seq<int>, n: nat, k: nat)
    requires k <= n
    ensures |Stored(lib, x, yd, n, k)| == k * |yd|
  {
    if k > 0 {
      StoredLength(lib, x, yd, n, k - 1);
      MulSucc(k - 1, |yd|);
    }
  }

  /** Writing the columns one after another yields the column-major storage of the columns. */
  lemma {:induction false} StoredIsFlatten(lib: Library, x: seq<real>, yd: seq<int>, n: nat, k: nat)
    requires k <= n
    ensures Stored(lib, x, yd, n, k) == Flatten(Columns(lib, x, yd, n, k))
  {
    if k > 0 {
      StoredIsFlatten(lib, x, yd, n, k - 1);
      ColumnsSnoc(lib, x, yd, n, k - 1);
    } else {
      assert Columns(lib, x, yd, n, 0) == [];
    }
  }

  lemma SweepCallsSnoc(h: Handle, yd: seq<int>, xd: seq<int>, n: nat, i: nat)
    requires i < n
    ensures SweepCalls(h, yd, xd, n, i + 1) ==
      SweepCalls(h, yd, xd, n, i) + [GetDirectionalDerivative(h, yd, xd, UnitVector(n, i))]
  {
  }

  /** A sweep's calls are evaluation calls on instance h. */
  lemma SweepCallsOnInstance(h: Handle, yd: seq<int>, xd: seq<int>, n: nat, m: nat)
    requires m <= n
    ensures forall i :: 0 <= i < m ==>
      SweepCalls(h, yd, xd, n, m)[i].IsEvaluation() && SweepCalls(h, yd, xd, n, m)[i].OnInstance(h)
  {
  }

  /** The column at which every earlier directional derivative succeeded and which either
      fails or is past the end is the one FailedColumn finds. */
  lemma FailedColumnIs(lib: Library, x: seq<real>, n: nat, i: nat)
    requires i <= n
    requires forall t :: 0 <= t < i ==> ColumnOk(lib, x, n)[t]
    requires i < n ==> lib.derivativeStatus(x, UnitVector(n, i)) != OK
    ensures FailedColumn(lib, x, n) == i
  {
    FirstWhereIs(ColumnOk(lib, x, n), IsFalse, i);
  }

  /** Every seed a sweep passes to the binary has exactly one active entry, the entry of
      the column being computed, and it is 1: unit seeds are never superposed. */
  lemma SweepSeedsAreUnit(h: Handle, yd: seq<int>, xd: seq<int>, n: nat, m: nat, i: nat)
    requires m <= n && i < m
    ensures Support(SweepCalls(h, yd, xd, n, m)[i].seed) == {i}
    ensures SweepCalls(h, yd, xd, n, m)[i].seed[i] == 1.0
  {
    UnitVectorHasOneActiveEntry(n, i);
  }

  /** After the sweep, entry (j, i) of the Jacobian buffer, stored at i*|yd| + j, is
      component j of the directional derivative for seed e_i when column i was computed,
      and is unchanged otherwise. */
  lemma JacobianBufferEntries(lib: Library, x: seq<real>, yd: seq<int>, n: nat,
                              before: seq<real>, i: nat, j: nat)
    requires |before| == n * |yd|
    requires i < n && j < |yd|
    ensures |JacobianBuffer(lib, x, yd, n, before)| == n * |yd|
    ensures i * |yd| + j < n * |yd|
    ensures JacobianBuffer(lib, x, yd, n, before)[i * |yd| + j] ==
      if i < FailedColumn(lib, x, n) then lib.derivative(x, UnitVector(n, i), yd[j])
      else before[i * |yd| + j]
  {
    var m := |yd|;
    var k := FailedColumn(lib, x, n);
    var cols := Columns(lib, x, yd, n, k);
    FlattenLength(cols, m);
    MulMono(k, n, m);
    MulMono(i + 1, n, m);
    if i < k {
      FlattenAt(cols, m, i, j);
      MulMono(i + 1, k, m);
    } else {
      MulMono(k, i, m);
    }
  }

  /** With a model that is linear in the seed, with matrix `rows` (one row per output), a
      complete sweep stores exactly that matrix: entry (j, i) of the buffer is rows[j][i]. */
  lemma JacobianOfLinearModel(lib: Library, x: seq<real>, yd: seq<int>, n: nat,
                              before: seq<real>, rows: seq<seq<real>>, i: nat, j: nat)
    requires |before| == n * |yd|
    requires |rows| == |yd| && Uniform(rows, n)
    requires forall s: seq<real> :: |s| == n ==> Sensitivity(lib, x, s, yd) == MatVec(rows, s)
    requires FailedColumn(lib, x, n) == n
    requires i < n && j < |yd|
    ensures i * |yd| + j < |JacobianBuffer(lib, x, yd, n, before)|
    ensures JacobianBuffer(lib, x, yd, n, before)[i * |yd| + j] == rows[j][i]
  {
    JacobianBufferEntries(lib, x, yd, n, before, i, j);
    MatVecUnitVector(rows, n, i);
    assert Sensitivity(lib, x, UnitVector(n, i), yd)[j] == MatVec(rows, UnitVector(n, i))[j];
  }

  /** A complete adjoint sweep computes Jᵀ·v for the Jacobian J a complete Jacobian sweep
      stores: entry i is column i of that buffer dotted with v. */
  lemma AdjointIsTransposedJacobian(lib: Library, x: seq<real>, yd: seq<int>, n: nat,
                                    before: seq<real>, v: seq<real>, i: nat)
    requires |before| == n * |yd| && |v| == |yd|
    requires FailedColumn(lib, x, n) == n
    requires i < n
    ensures i * |yd| + |yd| <= |JacobianBuffer(lib, x, yd, n, before)|
    ensures AdjointBuffer(lib, x, yd, n, v)[i] ==
      Dot(JacobianBuffer(lib, x, yd, n, before)[i * |yd| .. i * |yd| + |yd|], v)
  {
    var m := |yd|;
    var cols := Columns(lib, x, yd, n, n);
    FlattenSlice(cols, m, i);
    assert JacobianBuffer(lib, x, yd, n, before) == Flatten(cols) + before[n * m..];
    assert Flatten(cols)[i * m .. i * m + m]
        == (Flatten(cols) + before[n * m..])[i * m .. i * m + m];
  }

  /** With a model linear in the seed, with matrix `rows`, a complete adjoint sweep returns
      the transposed matrix applied to v: entry i is column i of the matrix dotted with v. */
  lemma AdjointOfLinearModel(lib: Library, x: seq<real>, yd: seq<int>, n: nat, v: seq<real>,
                             rows: seq<seq<real>>, i: nat)
    requires |v| == |yd| && |rows| == |yd| && Uniform(rows, n)
    requires forall s: seq<real> :: |s| == n ==> Sensitivity(lib, x, s, yd) == MatVec(rows, s)
    requires FailedColumn(lib, x, n) == n
    requires i < n
    ensures AdjointBuffer(lib, x, yd, n, v)[i] == Dot(ColumnOf(rows, n, i), v)
  {
    MatVecUnitVector(rows, n, i);
  }

  /** With no differentiable inputs the sweeps call nothing and produce empty buffers. */
  lemma EmptySweep(lib: Library, x: seq<real>, yd: seq<int>, v: seq<real>, h: Handle, xd: seq<int>)
    requires |v| == |yd|
    ensures FailedColumn(lib, x, 0) == 0 && CallsMade(0, 0) == 0
    ensures SweepCalls(h, yd, xd, 0, 0) == []
    ensures JacobianBuffer(lib, x, yd, 0, []) == [] && AdjointBuffer(lib, x, yd, 0, v) == []
  {
  }
}
