/** The parts of the FMI 2.0 Model Exchange interface that the bridge drives: status codes,
    exported symbols, the calls it issues, the calling-sequence state machine of
    section 3.2.3 of FMI 2.0, and the observable behaviour of a loaded model binary. */
module Fmi2 {
  import opened Wrappers

  /** fmi2Status. */
  datatype Status = OK | Warning | Discard | Error | Fatal | Pending

  /** fmi2Type. */
  datatype FmuType = ModelExchange | CoSimulation

  /** An instance handle (fmi2Component); 0 stands for NULL. */
  type Handle = nat

  /** The symbols the bridge looks up in the model binary. */
  datatype Symbol =
    | Fmi2Instantiate
    | Fmi2FreeInstance
    | Fmi2SetupExperiment
    | Fmi2EnterInitializationMode
    | Fmi2ExitInitializationMode
    | Fmi2EnterContinuousTimeMode
    | Fmi2SetReal
    | Fmi2SetBoolean
    | Fmi2GetReal
    | Fmi2GetDirectionalDerivative

  /** fmi2ValueReference is a 32-bit unsigned integer. */
  const ValueReferenceRange: int := 0x1_0000_0000

  /** The value references a list of integer ids becomes when each id is converted to
      fmi2ValueReference: every reference is in range and is congruent to its id modulo 2^32. */
  function ToValueReferences(ids: seq<int>): (vr: seq<int>)
    ensures |vr| == |ids|
    ensures forall j :: 0 <= j < |ids| ==>
      0 <= vr[j] < ValueReferenceRange && (vr[j] - ids[j]) % ValueReferenceRange == 0
  {
    seq(|ids|, j requires 0 <= j < |ids| => ids[j] % ValueReferenceRange)
  }

  /** Ids already in the range of fmi2ValueReference pass through the conversion unchanged. */
  lemma ValueReferencesInRange(ids: seq<int>)
    requires forall j :: 0 <= j < |ids| ==> 0 <= ids[j] < ValueReferenceRange
    ensures ToValueReferences(ids) == ids
  {
  }

  /** The conversion wraps: -1 names reference 2^32 - 1, and 2^32 names the same variable as 0. */
  lemma ValueReferencesWrap()
    ensures ToValueReferences([-1, ValueReferenceRange, 0]) == [ValueReferenceRange - 1, 0, 0]
  {
  }

  /** One call into the model binary, with the arguments that matter to the calling sequence:
      the instance handle, the value references and the real values passed in. */
  datatype Op =
    | Instantiate(instanceName: string, fmuType: FmuType, guid: string, resourceLocation: string)
    | SetupExperiment(c: Handle)
    | EnterInitializationMode(c: Handle)
    | ExitInitializationMode(c: Handle)
    | EnterContinuousTimeMode(c: Handle)
    | SetReal(c: Handle, vr: seq<int>, values: seq<real>)
    | GetReal(c: Handle, vr: seq<int>)
    | GetDirectionalDerivative(c: Handle, unknowns: seq<int>, knowns: seq<int>, seed: seq<real>)
    | FreeInstance(c: Handle)
  {
    /** The call is made on instance h. */
    predicate OnInstance(h: Handle)
    {
      !Instantiate? && c == h
    }

    /** The calls issued while evaluating, as opposed to the lifecycle calls. */
    predicate IsEvaluation()
    {
      SetReal? || GetReal? || GetDirectionalDerivative?
    }
  }

  /** States of a Model Exchange instance between calls, while every call returns fmi2OK. */
  datatype ModelState =
    | StartAndEnd
    | Instantiated
    | InitializationMode
    | EventMode
    | ContinuousTimeMode

  /** The state after `op` returns fmi2OK in state `s`, or None when the calling sequence
      of FMI 2.0 does not allow `op` in `s`. */
  function Step(s: ModelState, op: Op): Option<ModelState>
  {
    match op
    case Instantiate(_, t, _, _) =>
      if s == StartAndEnd && t == ModelExchange then Some(Instantiated) else None
    case SetupExperiment(_) =>
      if s == Instantiated then Some(Instantiated) else None
    case EnterInitializationMode(_) =>
      if s == Instantiated then Some(InitializationMode) else None
    case ExitInitializationMode(_) =>
      if s == InitializationMode then Some(EventMode) else None
    case EnterContinuousTimeMode(_) =>
      if s == EventMode then Some(ContinuousTimeMode) else None
    case SetReal(_, _, _) =>
      if s != StartAndEnd then Some(s) else None
    case GetReal(_, _) =>
      if s == InitializationMode || s == EventMode || s == ContinuousTimeMode then Some(s) else None
    case GetDirectionalDerivative(_, _, _, _) =>
      if s == InitializationMode || s == EventMode || s == ContinuousTimeMode then Some(s) else None
    case FreeInstance(_) =>
      if s != StartAndEnd then Some(StartAndEnd) else None
  }

  /** Replays a sequence of calls from state `s`; None when some call is out of order. */
  function Run(s: ModelState, ops: seq<Op>): Option<ModelState>
    decreases |ops|
  {
    if |ops| == 0 then Some(s)
    else match Step(s, ops[0])
      case None => None
      case Some(t) => Run(t, ops[1..])
  }

  /** Replaying a concatenation replays the first part, then the second from where it left off. */
  lemma {:induction false} RunAppend(s: ModelState, a: seq<Op>, b: seq<Op>)
    ensures Run(s, a + b) == if Run(s, a).Some? then Run(Run(s, a).value, b) else None
    decreases |a|
  {
    if |a| > 0 {
      assert (a + b)[0] == a[0];
      assert (a + b)[1..] == a[1..] + b;
      match Step(s, a[0])
      case None =>
      case Some(t) => RunAppend(t, a[1..], b);
    } else {
      assert a + b == b;
    }
  }

  /** Evaluation calls are all allowed in continuous-time mode and leave the instance there. */
  lemma {:induction false} EvaluationStaysInContinuousTime(ops: seq<Op>)
    requires forall i :: 0 <= i < |ops| ==> ops[i].IsEvaluation()
    ensures Run(ContinuousTimeMode, ops) == Some(ContinuousTimeMode)
  {
    if |ops| > 0 {
      EvaluationStaysInContinuousTime(ops[1..]);
    }
  }

  /** Once in continuous-time mode, any further evaluation calls keep the instance there. */
  lemma EvaluationAfter(prefix: seq<Op>, ops: seq<Op>)
    requires Run(StartAndEnd, prefix) == Some(ContinuousTimeMode)
    requires forall i :: 0 <= i < |ops| ==> ops[i].IsEvaluation()
    ensures Run(StartAndEnd, prefix + ops) == Some(ContinuousTimeMode)
  {
    RunAppend(StartAndEnd, prefix, ops);
    EvaluationStaysInContinuousTime(ops);
  }

  /** Freeing is allowed in every state in which an instance exists, and ends it. */
  lemma FreeInstanceEndsInstance(s: ModelState, h: Handle)
    requires s != StartAndEnd
    ensures Run(s, [FreeInstance(h)]) == Some(StartAndEnd)
  {
  }

  /** What a loaded model binary does, seen from the bridge: which symbols it exports, the
      handle fmi2Instantiate returns for (instance name, GUID, resource location), the status
      of each lifecycle call, and, for a point x of the differentiable inputs, the status of
      fmi2SetReal and fmi2GetReal, the value of the output with a given value reference,
      and the status and components of fmi2GetDirectionalDerivative for a seed. */
  datatype Library = Library(
    exports: set<Symbol>,
    instantiate: (string, string, string) -> Handle,
    setupExperiment: Status,
    enterInitializationMode: Status,
    exitInitializationMode: Status,
    enterContinuousTimeMode: Status,
    setRealStatus: seq<real> -> Status,
    getRealStatus: seq<real> -> Status,
    getReal: (seq<real>, int) -> real,
    derivativeStatus: (seq<real>, seq<real>) -> Status,
    derivative: (seq<real>, seq<real>, int) -> real)
}
