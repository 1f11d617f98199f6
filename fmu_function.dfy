/** The function node that drives an FMI 2.0 Model Exchange binary: construction through the
    lifecycle chain, shape queries, primal evaluation, and the Jacobian and adjoint sweeps
    with their two redirecting derivative nodes. */
module FmuFunctions {
  import opened Wrappers
  import opened Vectors
  import opened Platform
  import opened Sparsity
  import opened Fmi2
  import opened FmuSpec

  class FmuFunction {
    const name: string
    const path: string
    /** Two input and two output partitions of value references: differentiable, then not. */
    const idIn: seq<seq<int>>
    const idOut: seq<seq<int>>
    const guid: string

    var providesDirectionalDerivative: bool
    var xd: seq<int>
    var xn: seq<int>
    var yd: seq<int>
    var yn: seq<int>
    var resourceLoc: string
    /** The loaded binary. */
    var li: Option<Library>
    /** The symbols whose function pointers have been set, in the order they were looked up. */
    var resolved: seq<Symbol>
    /** The instance handle; 0 is NULL. */
    var c: Handle
    /** Every call made into the binary so far, in order. */
    ghost var calls: seq<Op>

    constructor (name: string, path: string, idIn: seq<seq<int>>, idOut: seq<seq<int>>, guid: string)
      ensures this.name == name && this.path == path && this.guid == guid
      ensures this.idIn == idIn && this.idOut == idOut
      ensures !providesDirectionalDerivative
      ensures li.None? && resolved == [] && c == 0 && calls == []
    {
      this.name := name;
      this.path := path;
      this.idIn := idIn;
      this.idOut := idOut;
      this.guid := guid;
      providesDirectionalDerivative := false;
      xd, xn, yd, yn := [], [], [], [];
      resourceLoc := "";
      li := None;
      resolved := [];
      c := 0;
      calls := [];
    }

    /** The state after a successful construction: the partitions are copied, every required
        function pointer is set, the instance exists, every call since its instantiation was
        made on it, and the calling sequence has brought it to continuous-time mode. */
    ghost predicate Ready()
      reads this
    {
      && |idIn| == 2 && |idOut| == 2
      && Copied()
      && li.Some?
      && resolved == RequiredSymbols(providesDirectionalDerivative)
      && c != 0
      && |calls| > 0 && calls[0].Instantiate?
      && (forall i :: 1 <= i < |calls| ==> calls[i].OnInstance(c))
      && Run(StartAndEnd, calls) == Some(ContinuousTimeMode)
    }

    /** The four partitions, copied as value references. */
    ghost predicate Copied()
      reads this
      requires |idIn| == 2 && |idOut| == 2
    {
      && xd == ToValueReferences(idIn[0]) && xn == ToValueReferences(idIn[1])
      && yd == ToValueReferences(idOut[0]) && yn == ToValueReferences(idOut[1])
    }

    /** Looks up one symbol of the loaded binary; a missing symbol is an error. */
    method GetFunction(sym: Symbol) returns (r: Outcome<Error>)
      requires li.Some?
      modifies this`resolved
      ensures r == if sym in li.value.exports then Pass else Fail(CannotRetrieve(sym))
      ensures resolved == if r.Pass? then old(resolved) + [sym] else old(resolved)
    {
      if sym !in li.value.exports {
        return Fail(CannotRetrieve(sym));
      }
      resolved := resolved + [sym];
      return Pass;
    }

    /** Construction: runs once on a freshly built node. `dd` is the option
        provides_directional_derivative, `host` the platform compiled for, and `fs` the
        library files that can be loaded. */
    method Init(dd: bool, host: Host, fs: map<string, Library>) returns (r: Outcome<Error>)
      requires li.None? && resolved == [] && c == 0 && calls == []
      modifies this
      ensures var run := InitSpec(name, path, idIn, idOut, guid, dd, host, fs);
        r == run.outcome && calls == run.trace && c == run.handle
      ensures r.Pass? ==> Ready()
      ensures |idIn| == 2 && |idOut| == 2 ==> Copied()
      ensures r.Pass? ==> providesDirectionalDerivative == dd && resourceLoc == ResourceLocation(path)
      ensures r.Pass? ==> li == Some(fs[BinaryPath(path, name, host)])
      ensures li.Some? <==> |idIn| == 2 && |idOut| == 2 && BinaryPath(path, name, host) in fs
      ensures li.Some? ==> li.value == fs[BinaryPath(path, name, host)]
      ensures li.None? ==> resolved == []
      ensures c != 0 ==> Fmi2FreeInstance in resolved
    {
      if |idIn| != 2 {
        return Fail(InputPartitions(|idIn|));
      }
      if |idOut| != 2 {
        return Fail(OutputPartitions(|idOut|));
      }
      providesDirectionalDerivative := dd;
      xd := ToValueReferences(idIn[0]);
      xn := ToValueReferences(idIn[1]);
      yd := ToValueReferences(idOut[0]);
      yn := ToValueReferences(idOut[1]);
      r := LoadBinary(host, fs);
    }

    /** The second half of construction, once the partitions are copied: locate and load the
        binary, then connect to it. */
    method LoadBinary(host: Host, fs: map<string, Library>) returns (r: Outcome<Error>)
      requires |idIn| == 2 && |idOut| == 2
      requires Copied()
      requires li.None? && resolved == [] && c == 0 && calls == []
      modifies this`resourceLoc, this`li, this`resolved, this`c, this`calls
      ensures var run := InitSpec(name, path, idIn, idOut, guid, providesDirectionalDerivative, host, fs);
        r == run.outcome && calls == run.trace && c == run.handle
      ensures r.Pass? ==> Ready()
      ensures r.Pass? ==> resourceLoc == ResourceLocation(path)
      ensures r.Pass? ==> li == Some(fs[BinaryPath(path, name, host)])
      ensures li.Some? <==> BinaryPath(path, name, host) in fs
      ensures li.Some? ==> li.value == fs[BinaryPath(path, name, host)]
      ensures li.None? ==> resolved == []
      ensures c != 0 ==> Fmi2FreeInstance in resolved
    {
      var dllPath := BinaryPath(path, name, host);
      resourceLoc := ResourceLocation(path);
      if dllPath !in fs {
        return Fail(LibraryNotFound(dllPath));
      }
      li := Some(fs[dllPath]);
      r := Connect();
    }

    /** Construction once the binary is loaded: look up its symbols, then run the lifecycle
        chain. */
    method Connect() returns (r: Outcome<Error>)
      requires |idIn| == 2 && |idOut| == 2
      requires Copied()
      requires li.Some? && resolved == [] && c == 0 && calls == []
      modifies this`resolved, this`c, this`calls
      ensures var run := LoadedRun(li.value, name, guid, path, providesDirectionalDerivative);
        r == run.outcome && calls == run.trace && c == run.handle
      ensures r.Pass? ==> Ready()
      ensures c != 0 ==> Fmi2FreeInstance in resolved
    {
      r := LoadFunctions();
      if r.Fail? {
        return;
      }
      r := EnterContinuousTime();
      if r.Pass? {
        ReadyAfterLifecycle();
      }
    }

    /** A node whose partitions are copied, whose required symbols are all resolved, and
        whose lifecycle chain succeeded is ready for evaluation. */
    lemma ReadyAfterLifecycle()
      requires |idIn| == 2 && |idOut| == 2
      requires Copied()
      requires li.Some? && resolved == RequiredSymbols(providesDirectionalDerivative)
      requires var run := LifecycleRun(li.value, name, guid, path);
        run.outcome.Pass? && calls == run.trace && c == run.handle
      ensures Ready() && Fmi2FreeInstance in resolved
    {
      LifecycleFollowsCallingSequence(li.value, name, guid, path);
      assert Fmi2FreeInstance in RequiredSymbols(providesDirectionalDerivative);
    }

    /** The symbol lookups of construction, in their order; the first missing one is an error. */
    method LoadFunctions() returns (r: Outcome<Error>)
      requires li.Some? && resolved == []
      modifies this`resolved
      ensures var miss := MissingSymbol(li.value.exports, providesDirectionalDerivative);
        r == if miss.Some? then Fail(CannotRetrieve(miss.value)) else Pass
      ensures r.Pass? ==> resolved == RequiredSymbols(providesDirectionalDerivative)
    {
      r := GetFunction(Fmi2Instantiate);
      if r.Fail? {
        return;
      }
      :- GetFunction(Fmi2FreeInstance);
      :- GetFunction(Fmi2SetupExperiment);
      :- GetFunction(Fmi2EnterInitializationMode);
      :- GetFunction(Fmi2ExitInitializationMode);
      :- GetFunction(Fmi2EnterContinuousTimeMode);
      :- GetFunction(Fmi2SetReal);
      :- GetFunction(Fmi2SetBoolean);
      :- GetFunction(Fmi2GetReal);
      assert resolved == RequiredSymbols(false);
      if providesDirectionalDerivative {
        :- GetFunction(Fmi2GetDirectionalDerivative);
      }
      return Pass;
    }

    /** Instantiation and the lifecycle chain up to continuous-time mode; the first call that
        does not succeed raises its error and no later call is made. */
    method EnterContinuousTime() returns (r: Outcome<Error>)
      requires li.Some? && c == 0 && calls == []
      modifies this`c, this`calls
      ensures var run := LifecycleRun(li.value, name, guid, path);
        r == run.outcome && calls == run.trace && c == run.handle
    {
      var lib := li.value;
      c := lib.instantiate(name, guid, ResourceLocation(path));
      calls := calls + [Instantiate(name, ModelExchange, guid, ResourceLocation(path))];
      if c == 0 {
        return Fail(InstantiateFailed);
      }
      var status := lib.setupExperiment;
      calls := calls + [SetupExperiment(c)];
      if status != OK {
        return Fail(SetupExperimentFailed);
      }
      status := lib.enterInitializationMode;
      calls := calls + [EnterInitializationMode(c)];
      if status != OK {
        return Fail(EnterInitializationModeFailed(status));
      }
      status := lib.exitInitializationMode;
      calls := calls + [ExitInitializationMode(c)];
      if status != OK {
        return Fail(ExitInitializationModeFailed);
      }
      status := lib.enterContinuousTimeMode;
      calls := calls + [EnterContinuousTimeMode(c)];
      if status != OK {
        return Fail(EnterContinuousTimeModeFailed(status));
      }
      return Pass;
    }

    /** Teardown: frees the instance when one was created and the free function was found. */
    method Destroy()
      modifies this`calls
      ensures calls == old(calls) + if c != 0 && Fmi2FreeInstance in resolved then [FreeInstance(c)] else []
      ensures old(Ready()) ==> Run(StartAndEnd, calls) == Some(StartAndEnd)
    {
      if c != 0 && Fmi2FreeInstance in resolved {
        calls := calls + [FreeInstance(c)];
        if old(Ready()) {
          RunAppend(StartAndEnd, old(calls), [FreeInstance(c)]);
        }
      }
    }

    /** Shape of input i: a dense column as long as the partition; an index outside the
        partitions is an error. */
    function SparsityIn(i: int): (r: Result<Sparsity, Error>)
      ensures r.Success? <==> 0 <= i < |idIn|
      ensures r.Success? ==> && r.value.Valid() && r.value.IsDense() && r.value.ncol == 1
                             && r.value.nrow == |idIn[i]| && r.value.Nnz() == |idIn[i]|
      ensures r.Failure? ==> r.error == IndexOutOfRange(i)
    {
      if 0 <= i < |idIn| then Success(DenseColumn(|idIn[i]|)) else Failure(IndexOutOfRange(i))
    }

    /** Shape of output i: a dense column as long as the partition. */
    function SparsityOut(i: int): (r: Result<Sparsity, Error>)
      ensures r.Success? <==> 0 <= i < |idOut|
      ensures r.Success? ==> && r.value.Valid() && r.value.IsDense() && r.value.ncol == 1
                             && r.value.nrow == |idOut[i]| && r.value.Nnz() == |idOut[i]|
      ensures r.Failure? ==> r.error == IndexOutOfRange(i)
    {
      if 0 <= i < |idOut| then Success(DenseColumn(|idOut[i]|)) else Failure(IndexOutOfRange(i))
    }

    /** Primal evaluation: pushes the differentiable inputs x, then, when an output buffer y
        is given, reads the differentiable outputs into it. */
    method Eval(x: array<real>, y: array?<real>) returns (r: Outcome<Error>)
      requires Ready()
      requires x.Length == |xd|
      requires y != null ==> y.Length == |yd| && y != x
      modifies this`calls, y
      ensures Ready()
      ensures var lib, p := li.value, x[..];
        var set_ok := lib.setRealStatus(p) == OK;
        && calls == old(calls) + [SetReal(c, xd, p)] + (if set_ok && y != null then [GetReal(c, yd)] else [])
        && (!set_ok ==> r == Fail(SetRealFailed) && (y != null ==> y[..] == old(y[..])))
        && (set_ok && y != null && lib.getRealStatus(p) != OK ==> r == Fail(GetRealFailed))
        && (set_ok && (y == null || lib.getRealStatus(p) == OK) ==> r == Pass)
        && (r.Pass? && y != null ==> y[..] == Outputs(lib, p, yd))
    {
      var lib := li.value;
      var p := x[..];
      var status := SetInputs(p);
      if status != OK {
        return Fail(SetRealFailed);
      }
      if y != null {
        status := lib.getRealStatus(p);
        calls := calls + [GetReal(c, yd)];
        EvaluationAfter(old(calls) + [SetReal(c, xd, p)], [GetReal(c, yd)]);
        if status != OK {
          return Fail(GetRealFailed);
        }
        ReadOutputs(p, y);
      }
      return Pass;
    }

    /** The fmi2GetReal read-out: the differentiable outputs at point p land in y. */
    method ReadOutputs(p: seq<real>, y: array<real>)
      requires li.Some? && y.Length == |yd|
      modifies y
      ensures y[..] == Outputs(li.value, p, yd)
    {
      forall j | 0 <= j < y.Length {
        y[j] := li.value.getReal(p, yd[j]);
      }
    }

    /** One fmi2GetDirectionalDerivative call at point p with the seed w[..n]: on success the
        sensitivities land in w[n..n+m]; on failure w is left as it was. */
    method DirectionalDerivative(p: seq<real>, w: array<real>) returns (status: Status)
      requires li.Some? && w.Length >= |xd| + |yd|
      modifies this`calls, w
      ensures var n, m, seed := |xd|, |yd|, old(w[..|xd|]);
        && status == li.value.derivativeStatus(p, seed)
        && calls == old(calls) + [GetDirectionalDerivative(c, yd, xd, seed)]
        && w[..n] == seed && w[n + m..] == old(w[n + m..])
        && (status == OK ==> w[n..n + m] == Sensitivity(li.value, p, seed, yd))
        && (status != OK ==> w[..] == old(w[..]))
    {
      var n, m := |xd|, |yd|;
      var seed := w[..n];
      status := li.value.derivativeStatus(p, seed);
      calls := calls + [GetDirectionalDerivative(c, yd, xd, seed)];
      if status == OK {
        forall j | 0 <= j < m {
          w[n + j] := li.value.derivative(p, seed, yd[j]);
        }
        assert w[..n] == seed;
      }
    }

    /** The fmi2SetReal push of the differentiable inputs p that starts every evaluation;
        the instance stays in continuous-time mode whatever the status. */
    method SetInputs(p: seq<real>) returns (status: Status)
      requires Ready()
      modifies this`calls
      ensures Ready()
      ensures status == li.value.setRealStatus(p) && calls == old(calls) + [SetReal(c, xd, p)]
    {
      status := li.value.setRealStatus(p);
      calls := calls + [SetReal(c, xd, p)];
      EvaluationAfter(old(calls), [SetReal(c, xd, p)]);
    }

    /** The Jacobian evaluation: pushes x, then runs the Jacobian sweep. A failing derivative
        ends the sweep with flag 1; the instance is kept. */
    method EvalJac(x: array<real>, jac: array<real>, w: array<real>) returns (r: Completion)
      requires Ready() && Fmi2GetDirectionalDerivative in resolved
      requires x.Length == |xd| && jac.Length == |xd| * |yd| && w.Length >= |xd| + |yd|
      requires x != jac && x != w && jac != w
      modifies this`calls, jac, w
      ensures Ready()
      ensures JacobianSwept(x, jac, w, r)
    {
      var n := |xd|;
      var p := x[..];
      var status := SetInputs(p);
      if status != OK {
        return Raised(SetRealFailed);
      }
      ghost var start := calls;
      var k := JacobianSweep(p, jac, w);
      SweepCompleted(start, n, CallsMade(k, n));
      return Returned(if k == n then 0 else 1);
    }

    /** The Jacobian sweep at point p: clears the seed, then fills the column-major buffer jac
        column by column. The work buffer w holds the seed in its first |xd| entries and the
        sensitivities in the next |yd|. It returns the first failing column, n when none
        fails. */
    method JacobianSweep(p: seq<real>, jac: array<real>, w: array<real>) returns (k: nat)
      requires li.Some? && |p| == |xd| && jac.Length == |xd| * |yd| && w.Length >= |xd| + |yd|
      requires jac != w
      modifies this`calls, jac, w
      ensures var n, m := |xd|, |yd|;
        && k == FailedColumn(li.value, p, n)
        && calls == old(calls) + SweepCalls(c, yd, xd, n, CallsMade(k, n))
        && jac[..] == JacobianBuffer(li.value, p, yd, n, old(jac[..]))
        && w[..n] == SeedAfter(n, k)
        && w[n + m..] == old(w[n + m..])
    {
      var n, m := |xd|, |yd|;
      Clear(w, n);
      assert w[n + m..] == old(w[n + m..]) by {
        assert w[n + m..] == w[n..][m..];
      }
      k := JacobianColumns(p, jac, w);
      FailedColumnIs(li.value, p, n, k);
      StoredIsFlatten(li.value, p, yd, n, k);
    }

    /** The column loop of the Jacobian sweep, from a clear seed: for each column i it sets
        seed entry i, asks for the directional derivative, copies it into column i of the
        column-major buffer jac and clears the seed entry again. It stops at the first
        failing column, which it returns (n when none fails). */
    method JacobianColumns(p: seq<real>, jac: array<real>, w: array<real>) returns (k: nat)
      requires li.Some? && |p| == |xd| && jac.Length == |xd| * |yd| && w.Length >= |xd| + |yd|
      requires jac != w && w[..|xd|] == Zeros(|xd|)
      modifies this`calls, jac, w
      ensures var n, m := |xd|, |yd|;
        && k <= n && (forall t :: 0 <= t < k ==> ColumnOk(li.value, p, n)[t])
        && (k < n ==> !ColumnOk(li.value, p, n)[k])
        && calls == old(calls) + SweepCalls(c, yd, xd, n, CallsMade(k, n))
        && k * m <= jac.Length
        && jac[..] == Stored(li.value, p, yd, n, k) + old(jac[..])[k * m..]
        && w[..n] == SeedAfter(n, k)
        && w[n + m..] == old(w[n + m..])
    {
      var n, m := |xd|, |yd|;
      var lib := li.value;
      var offset: nat := 0;
      ghost var before := jac[..];
      for i := 0 to n
        invariant offset == i * m && offset <= jac.Length
        invariant forall t :: 0 <= t < i ==> ColumnOk(lib, p, n)[t]
        invariant w[..n] == Zeros(n) && w[n + m..] == old(w[n + m..])
        invariant jac[..] == Stored(lib, p, yd, n, i) + before[offset..]
        invariant calls == old(calls) + SweepCalls(c, yd, xd, n, i)
      {
        var status := JacobianColumn(p, jac, w, i, offset, before);
        SweepCallsSnoc(c, yd, xd, n, i);
        if status != OK {
          return i;
        }
        offset := offset + m;
      }
      return n;
    }

    /** Column i of the Jacobian sweep, from a clear seed and a buffer holding columns
        0 .. i-1 followed by the old contents `before`: sets seed entry i, asks for the
        directional derivative and, when it succeeds, copies the sensitivities in after the
        stored columns and clears the seed entry again. */
    method JacobianColumn(p: seq<real>, jac: array<real>, w: array<real>, i: nat, offset: nat,
                          ghost before: seq<real>) returns (status: Status)
      requires li.Some? && i < |xd| && w.Length >= |xd| + |yd| && jac != w && w[..|xd|] == Zeros(|xd|)
      requires |before| == |xd| * |yd| && jac.Length == |before| && offset == i * |yd| <= |before|
      requires jac[..] == Stored(li.value, p, yd, |xd|, i) + before[offset..]
      modifies this`calls, jac, w
      ensures var n, m, e := |xd|, |yd|, UnitVector(|xd|, i);
        && status == li.value.derivativeStatus(p, e)
        && calls == old(calls) + [GetDirectionalDerivative(c, yd, xd, e)]
        && w[n + m..] == old(w[n + m..])
        && (status != OK ==> jac[..] == old(jac[..]) && w[..n] == e)
        && (status == OK ==>
              offset + m == (i + 1) * m <= |before| && w[..n] == Zeros(n)
              && jac[..] == Stored(li.value, p, yd, n, i + 1) + before[offset + m..])
    {
      var n, m := |xd|, |yd|;
      MulMono(i + 1, n, m);
      assert offset + m == (i + 1) * m;
      StoredLength(li.value, p, yd, n, i);
      ghost var done := jac[..];
      assert done[..offset] == Stored(li.value, p, yd, n, i);
      assert done[offset + m..] == before[offset + m..];
      w[i] := 1.0;
      assert w[..n] == UnitVector(n, i);
      status := DirectionalDerivative(p, w);
      if status != OK {
        return;
      }
      Copy(w, n, m, jac, offset);
      w[i] := 0.0;
      assert w[..n] == Zeros(n);
    }

    /** What the Jacobian sweep leaves behind. If pushing x fails, the error is raised and
        the buffers are untouched. Otherwise, with k the first column whose derivative fails
        (n when none does): the flag is 0 exactly when k == n; the calls are the push and the
        derivative calls for e_0, e_1, ... up to and including e_k; jac holds the first k
        columns followed by its former contents; the seed is clear unless column k failed. */
    twostate predicate JacobianSwept(x: array<real>, jac: array<real>, w: array<real>, r: Completion)
      requires old(Ready()) && li.Some? && x.Length == |xd| && jac.Length == |xd| * |yd| && w.Length >= |xd| + |yd|
      reads this, x, jac, w
    {
      var lib, p, n, m := li.value, x[..], |xd|, |yd|;
      var pushed := old(calls) + [SetReal(c, xd, p)];
      if lib.setRealStatus(p) != OK then
        && r == Raised(SetRealFailed)
        && calls == pushed
        && jac[..] == old(jac[..]) && w[..] == old(w[..])
      else
        var k := FailedColumn(lib, p, n);
        && r == Returned(if k == n then 0 else 1)
        && calls == pushed + SweepCalls(c, yd, xd, n, CallsMade(k, n))
        && jac[..] == JacobianBuffer(lib, p, yd, n, old(jac[..]))
        && w[..n] == SeedAfter(n, k)
        && w[n + m..] == old(w[n + m..])
    }

    /** The calls of a sweep keep the instance ready. */
    lemma SweepCompleted(start: seq<Op>, n: nat, made: nat)
      requires made <= n
      requires Run(StartAndEnd, start) == Some(ContinuousTimeMode)
      requires |start| > 0 && forall i :: 1 <= i < |start| ==> start[i].OnInstance(c)
      ensures var all := start + SweepCalls(c, yd, xd, n, made);
        && Run(StartAndEnd, all) == Some(ContinuousTimeMode)
        && forall i :: 1 <= i < |all| ==> all[i].OnInstance(c)
    {
      SweepCallsOnInstance(c, yd, xd, n, made);
      EvaluationAfter(start, SweepCalls(c, yd, xd, n, made));
    }

    /** The adjoint evaluation: pushes x, then runs the adjoint sweep. A failing derivative
        ends the sweep with flag 1; the instance is kept. */
    method EvalAdj(x: array<real>, adjY: array<real>, adjX: array<real>, w: array<real>) returns (r: Completion)
      requires Ready() && Fmi2GetDirectionalDerivative in resolved
      requires x.Length == |xd| && adjY.Length == |yd| && adjX.Length == |xd| && w.Length >= |xd| + |yd|
      requires adjX != x && adjX != adjY && adjX != w && w != x && w != adjY
      modifies this`calls, adjX, w
      ensures Ready()
      ensures AdjointSwept(x, adjY, adjX, w, r)
    {
      var n := |xd|;
      var p := x[..];
      var status := SetInputs(p);
      if status != OK {
        return Raised(SetRealFailed);
      }
      ghost var start := calls;
      var k := AdjointSweep(p, adjY, adjX, w);
      SweepCompleted(start, n, CallsMade(k, n));
      return Returned(if k == n then 0 else 1);
    }

    /** The adjoint sweep at point p: clears adjX and the seed, then computes adjX entry by
        entry. It returns the first failing column, n when none fails. */
    method AdjointSweep(p: seq<real>, adjY: array<real>, adjX: array<real>, w: array<real>) returns (k: nat)
      requires li.Some? && |p| == |xd| && adjY.Length == |yd| && adjX.Length == |xd| && w.Length >= |xd| + |yd|
      requires adjX != adjY && adjX != w && w != adjY
      modifies this`calls, adjX, w
      ensures var n, m := |xd|, |yd|;
        && k == FailedColumn(li.value, p, n)
        && calls == old(calls) + SweepCalls(c, yd, xd, n, CallsMade(k, n))
        && adjX[..] == AdjointBuffer(li.value, p, yd, n, adjY[..])
        && w[..n] == SeedAfter(n, k)
        && w[n + m..] == old(w[n + m..])
    {
      var n, m := |xd|, |yd|;
      Clear(adjX, n);
      Clear(w, n);
      assert w[n + m..] == old(w[n + m..]) by {
        assert w[n + m..] == w[n..][m..];
      }
      k := AdjointColumns(p, adjY, adjX, w);
      FailedColumnIs(li.value, p, n, k);
    }

    /** The column loop of the adjoint sweep, from a clear seed and a clear adjX: for each
        column i it adds the contribution of column i to entry i of adjX. It stops at the first failing column, which it
        returns (n when none fails). */
    method AdjointColumns(p: seq<real>, adjY: array<real>, adjX: array<real>, w: array<real>) returns (k: nat)
      requires li.Some? && |p| == |xd| && adjY.Length == |yd| && adjX.Length == |xd| && w.Length >= |xd| + |yd|
      requires adjX != adjY && adjX != w && w != adjY
      requires adjX[..] == Zeros(|xd|) && w[..|xd|] == Zeros(|xd|)
      modifies this`calls, adjX, w
      ensures var n, m := |xd|, |yd|;
        && k <= n && (forall t :: 0 <= t < k ==> ColumnOk(li.value, p, n)[t])
        && (k < n ==> !ColumnOk(li.value, p, n)[k])
        && calls == old(calls) + SweepCalls(c, yd, xd, n, CallsMade(k, n))
        && adjX[..] == AdjointPrefix(li.value, p, yd, n, adjY[..], k)
        && w[..n] == SeedAfter(n, k)
        && w[n + m..] == old(w[n + m..])
    {
      var n, m := |xd|, |yd|;
      var lib := li.value;
      var v := adjY[..];
      for i := 0 to n
        invariant forall t :: 0 <= t < i ==> ColumnOk(lib, p, n)[t]
        invariant w[..n] == Zeros(n) && w[n + m..] == old(w[n + m..])
        invariant adjX[..] == AdjointPrefix(lib, p, yd, n, v, i)
        invariant calls == old(calls) + SweepCalls(c, yd, xd, n, i)
      {
        var status := AdjointColumn(p, adjY, adjX, w, i);
        SweepCallsSnoc(c, yd, xd, n, i);
        if status != OK {
          return i;
        }
      }
      return n;
    }

    /** Column i of the adjoint sweep, from a clear seed: sets seed entry i, asks for the
        directional derivative and, when it succeeds, adds its dot product with adjY to
        adjX[i] and clears the seed entry again. */
    method AdjointColumn(p: seq<real>, adjY: array<real>, adjX: array<real>, w: array<real>, i: nat) returns (status: Status)
      requires li.Some? && i < |xd| && adjY.Length == |yd| && adjX.Length == |xd| && w.Length >= |xd| + |yd|
      requires adjX != adjY && adjX != w && w != adjY && w[..|xd|] == Zeros(|xd|)
      requires adjX[..] == AdjointPrefix(li.value, p, yd, |xd|, adjY[..], i)
      modifies this`calls, adjX, w
      ensures var n, m, e := |xd|, |yd|, UnitVector(|xd|, i);
        && status == li.value.derivativeStatus(p, e)
        && calls == old(calls) + [GetDirectionalDerivative(c, yd, xd, e)]
        && w[n + m..] == old(w[n + m..])
        && (status != OK ==> adjX[..] == old(adjX[..]) && w[..n] == e)
        && (status == OK ==>
              w[..n] == Zeros(n) && adjX[..] == AdjointPrefix(li.value, p, yd, n, adjY[..], i + 1))
    {
      var n, m := |xd|, |yd|;
      w[i] := 1.0;
      assert w[..n] == UnitVector(n, i);
      status := DirectionalDerivative(p, w);
      if status != OK {
        return;
      }
      adjX[i] := adjX[i] + Dot(w[n..n + m], adjY[..]);
      assert adjX[..] == AdjointPrefix(li.value, p, yd, n, adjY[..], i + 1);
      w[i] := 0.0;
      assert w[..n] == Zeros(n);
    }

    /** What the adjoint sweep leaves behind. If pushing x fails, the error is raised and
        the buffers are untouched. Otherwise, with k the first failing column: the flag is 0
        exactly when k == n; the calls are the push and the derivative calls for e_0 up to
        and including e_k; adjX[i] is (J e_i)·adjY for i < k and 0 from k on; the seed is
        clear unless column k failed. */
    twostate predicate AdjointSwept(x: array<real>, adjY: array<real>, adjX: array<real>, w: array<real>, r: Completion)
      requires old(Ready()) && li.Some? && x.Length == |xd| && adjY.Length == |yd| && adjX.Length == |xd|
      requires w.Length >= |xd| + |yd|
      reads this, x, adjY, adjX, w
    {
      var lib, p, n, m := li.value, x[..], |xd|, |yd|;
      var pushed := old(calls) + [SetReal(c, xd, p)];
      if lib.setRealStatus(p) != OK then
        && r == Raised(SetRealFailed)
        && calls == pushed
        && adjX[..] == old(adjX[..]) && w[..] == old(w[..])
      else
        var k := FailedColumn(lib, p, n);
        && r == Returned(if k == n then 0 else 1)
        && calls == pushed + SweepCalls(c, yd, xd, n, CallsMade(k, n))
        && adjX[..] == AdjointBuffer(lib, p, yd, n, adjY[..])
        && w[..n] == SeedAfter(n, k)
        && w[n + m..] == old(w[n + m..])
    }

    /** The Jacobian node derived from this one. */
    method GetJacobian() returns (f: FmuFunctionJac)
      ensures fresh(f) && f.derivativeOf == this
    {
      f := new FmuFunctionJac(this);
    }

    /** The reverse-mode node derived from this one; only one adjoint direction is supported. */
    method GetReverse(nadj: int) returns (r: Result<FmuFunctionAdj, Error>)
      ensures r.Success? <==> nadj == 1
      ensures r.Failure? ==> r.error == AdjointDirectionsNotSupported(nadj)
      ensures r.Success? ==> fresh(r.value) && r.value.derivativeOf == this
    {
      if nadj != 1 {
        return Failure(AdjointDirectionsNotSupported(nadj));
      }
      var f := new FmuFunctionAdj(this);
      return Success(f);
    }
  }

  /** casadi_clear: zeroes the first n entries of a. */
  method Clear(a: array<real>, n: nat)
    requires n <= a.Length
    modifies a
    ensures a[..n] == Zeros(n) && a[n..] == old(a[n..])
  {
    forall t | 0 <= t < n {
      a[t] := 0.0;
    }
  }

  /** casadi_copy: copies the m entries of src starting at `from` into dst starting at `at`. */
  method Copy(src: array<real>, from: nat, m: nat, dst: array<real>, at: nat)
    requires src != dst && from + m <= src.Length && at + m <= dst.Length
    modifies dst
    ensures dst[..] == old(dst[..at]) + src[from..from + m] + old(dst[at + m..])
  {
    forall t | 0 <= t < m {
      dst[at + t] := src[from + t];
    }
    assert dst[..] == dst[..at] + dst[at..at + m] + dst[at + m..];
  }

  /** The Jacobian node: its evaluation is the Jacobian sweep of the node it derives from. */
  class FmuFunctionJac {
    const derivativeOf: FmuFunction

    constructor (derivativeOf: FmuFunction)
      ensures this.derivativeOf == derivativeOf
    {
      this.derivativeOf := derivativeOf;
    }

    method Eval(x: array<real>, jac: array<real>, w: array<real>) returns (r: Completion)
      requires derivativeOf.Ready() && Fmi2GetDirectionalDerivative in derivativeOf.resolved
      requires x.Length == |derivativeOf.xd| && jac.Length == |derivativeOf.xd| * |derivativeOf.yd|
      requires w.Length >= |derivativeOf.xd| + |derivativeOf.yd|
      requires x != jac && x != w && jac != w
      modifies derivativeOf`calls, jac, w
      ensures derivativeOf.Ready()
      ensures derivativeOf.JacobianSwept(x, jac, w, r)
    {
      r := derivativeOf.EvalJac(x, jac, w);
    }
  }

  /** The reverse-mode node: its evaluation is the adjoint sweep of the node it derives from. */
  class FmuFunctionAdj {
    const derivativeOf: FmuFunction

    constructor (derivativeOf: FmuFunction)
      ensures this.derivativeOf == derivativeOf
    {
      this.derivativeOf := derivativeOf;
    }

    method Eval(x: array<real>, adjY: array<real>, adjX: array<real>, w: array<real>) returns (r: Completion)
      requires derivativeOf.Ready() && Fmi2GetDirectionalDerivative in derivativeOf.resolved
      requires x.Length == |derivativeOf.xd| && adjY.Length == |derivativeOf.yd|
      requires adjX.Length == |derivativeOf.xd| && w.Length >= |derivativeOf.xd| + |derivativeOf.yd|
      requires adjX != x && adjX != adjY && adjX != w && w != x && w != adjY
      modifies derivativeOf`calls, adjX, w
      ensures derivativeOf.Ready()
      ensures derivativeOf.AdjointSwept(x, adjY, adjX, w, r)
    {
      r := derivativeOf.EvalAdj(x, adjY, adjX, w);
    }
  }
}
