# FMU function bridge

A model of CasADi's `FmuFunction`, the function node that wraps an FMI 2.0 Model Exchange
unit (an FMU). The node is built from:

- a model name and the path of the unpacked FMU;
- two input and two output partitions of value references (differentiable, then not);
- the model GUID.

Construction loads the model's shared library from `<path>/binaries/<platform>/<name><suffix>`
and resolves the FMI symbols it needs. It then instantiates the model with the resource URI
`file:<path>/resources/` and drives the instance into continuous-time mode. After that the
node evaluates in three ways:

- it pushes the differentiable inputs with `fmi2SetReal` and reads the differentiable outputs
  with `fmi2GetReal`;
- its Jacobian node computes the dense Jacobian one column at a time, with unit seeds passed
  to `fmi2GetDirectionalDerivative`;
- its reverse-mode node computes `Jᵀ·v` entry by entry with the same seeds.

Modules:

- `Wrappers` (`wrappers.dfy`): `Option`, `Outcome` and `Result`.
- `Search` (`search.dfy`): `FirstWhere`, the index of the first element that fails a test.
- `Vectors` (`vectors.dfy`): real vectors, unit seeds, dot products and the column-major layout
  of a dense matrix.
- `Platform` (`platform.dfy`): the host descriptor, the platform directory, the library suffix,
  the binary path and the resource URI.
- `Sparsity` (`sparsity.dfy`): compressed-column sparsity patterns and the dense column.
- `Fmi2` (`fmi2.dfy`): the FMI 2.0 status codes, symbols and calls, and the Model Exchange
  calling-sequence state machine of section 3.2.3 of FMI 2.0. It also holds `Library`, the
  observable behaviour of a loaded model binary.
- `FmuSpec` (`fmu_spec.dfy`): specification functions for construction and for the two sweeps,
  and the lemmas about them.
- `FmuFunctions` (`fmu_function.dfy`): the classes `FmuFunction`, `FmuFunctionJac` and
  `FmuFunctionAdj`. Their methods update fields and arrays in place, as the C++ does, and each
  is proved against the specification functions.

The native binary is an oracle. A `Library` value fixes:

- which symbols the binary exports;
- the handle `fmi2Instantiate` returns;
- the status of each lifecycle call;
- for a point of the inputs, the status of `fmi2SetReal` and `fmi2GetReal` and the output values;
- the status and the components of the directional derivative for a seed.

Dynamic loading is a map from library file paths to `Library` values. Every call into the
binary is appended to the ghost field `calls` of the node, so ordering properties are stated
against the FMI 2.0 state machine. Values are `real`: the sweeps only zero, copy, add and take
dot products.

## Model

| member | source | states |
|---|---|---|
| Platform.SystemInfix | casadi/core/fmu_function.cpp:184-199 | The platform directory is win32/win64, darwin32/darwin64 or linux32/linux64, chosen by operating system and pointer width. Reading it back with ParseInfix recovers the host, so no two hosts share a directory. |
| Platform.DllSuffix | casadi/core/fmu_function.cpp:201-212 | The library suffix is .dll, .dylib or .so. It depends on the operating system only, and reading it back recovers the operating system. |
| Platform.BinaryPathLayout | casadi/core/fmu_function.cpp:114 | The library path is the FMU path, then `/binaries/`, the platform directory, `/`, the model name and the suffix, each at the stated position. |
| Platform.BinaryPathInjective | casadi/core/fmu_function.cpp:114 | Under one FMU path, two different (model name, host) pairs never map to the same library file. |
| Platform.ResourceLocationInjective | casadi/core/fmu_function.cpp:117 | The resource URI `file:<path>/resources/` determines the FMU path. |
| Sparsity.DenseColumn | casadi/core/fmu_function.cpp:223-229 | The dense n×1 pattern is valid, has every entry (r, 0) with r < n structurally present, and has n non-zeros. |
| FmuFunctions.FmuFunction.SparsityIn | casadi/core/fmu_function.cpp:223-225 | Input i has a valid dense column shape whose length is the size of partition i. An index outside the partitions is an error, as with `at`. |
| FmuFunctions.FmuFunction.SparsityOut | casadi/core/fmu_function.cpp:227-229 | Output i has a valid dense column shape whose length is the size of partition i. An index outside the partitions is an error. |
| FmuSpec.InitChecksPartitionsFirst | casadi/core/fmu_function.cpp:85-88 | A wrong number of input partitions, or else of output partitions, is the error raised, with the count. It is raised before any library load or native call: no call is made, no handle is kept, and the result is the same whatever library files exist. |
| FmuSpec.MissingSymbolIsFirstMissing | casadi/core/fmu_function.cpp:122-139 | The failing symbol lookup is the first required symbol, in lookup order, that the binary does not export. fmi2GetDirectionalDerivative is required only with the option. No lookup fails exactly when every required symbol is exported. |
| FmuSpec.FailedCallIsFirstFailure | casadi/core/fmu_function.cpp:156-176 | Construction stops at the first lifecycle call that fails: a NULL handle, then the first non-OK status. |
| FmuSpec.InitSucceedsIff | casadi/core/fmu_function.cpp:83-177 | Construction succeeds if and only if there are two input and two output partitions, a binary exists at the computed path, it exports every required symbol, instantiation returns a non-NULL handle, and all four lifecycle calls return fmi2OK. |
| FmuSpec.LifecycleFollowsCallingSequence | casadi/core/fmu_function.cpp:156-176 | The lifecycle calls made are a non-empty prefix of instantiate, setup experiment, enter initialization, exit initialization, enter continuous time. Every call but the last succeeded. An error is raised exactly when the last call failed, so no call follows a failure. Each call after instantiation is on the returned handle, and the FMI 2.0 calling sequence allows every one. On success all five were made and the instance is in continuous-time mode. |
| FmuSpec.InitFollowsCallingSequence | casadi/core/fmu_function.cpp:83-177 | The same holds for construction as a whole. A failure before the lifecycle chain makes no call: any call made implies the partition counts were right, the binary was found and every required symbol was resolved. |
| Fmi2.ToValueReferences | casadi/core/fmu_function.cpp:101-111 | Each integer id is converted to a 32-bit unsigned fmi2ValueReference: the result has one reference per id, in range [0, 2^32), congruent to the id modulo 2^32. |
| Fmi2.ValueReferencesInRange | casadi/core/fmu_function.cpp:101-111 | Ids already in [0, 2^32) pass through the conversion unchanged. |
| Fmi2.ValueReferencesWrap | casadi/core/fmu_function.cpp:101-111 | The conversion wraps: id -1 becomes 2^32 - 1, and ids 2^32 and 0 name the same reference. |
| Fmi2.RunAppend | casadi/core/fmu_function.cpp:156-176 | Replaying two call sequences one after the other through the calling-sequence state machine equals replaying their concatenation. |
| Fmi2.EvaluationStaysInContinuousTime | casadi/core/fmu_function.cpp:231-351 | fmi2SetReal, fmi2GetReal and fmi2GetDirectionalDerivative are all allowed in continuous-time mode and leave the instance there. |
| Fmi2.FreeInstanceEndsInstance | casadi/core/fmu_function.cpp:67-73 | fmi2FreeInstance is allowed in every state where an instance exists, and ends it. |
| FmuFunctions.FmuFunction.constructor | casadi/core/fmu_function.cpp:43-65 | A new node keeps its name, path, partitions and GUID. The directional-derivative option starts false, no library is loaded, no function pointer is set, the handle is NULL and no call has been made. |
| FmuFunctions.FmuFunction.GetFunction | casadi/core/fmu_function.cpp:214-221 | A symbol lookup succeeds exactly when the binary exports the symbol, and then records it as resolved. A missing symbol is the error "cannot retrieve". |
| FmuFunctions.FmuFunction.Init | casadi/core/fmu_function.cpp:83-177 | The outcome, the native calls and the handle are those of the construction specification InitSpec. Once the partition counts are right, the four partitions are copied as fmi2ValueReference lists. On success the node is ready: partitions copied, every required symbol resolved, instance in continuous-time mode. The option, the resource URI and the library loaded from the computed path are kept. A library is loaded exactly when the partition counts are right and a binary exists at the computed path, and it is that binary; with no library loaded no symbol is resolved. Whenever a handle exists, fmi2FreeInstance has been resolved. |
| FmuFunctions.FmuFunction.LoadBinary | casadi/core/fmu_function.cpp:113-120 | The library path and resource URI are computed. A missing library is an error. Otherwise the rest of construction follows InitSpec. |
| FmuFunctions.FmuFunction.Connect | casadi/core/fmu_function.cpp:122-177 | Once the binary is loaded, construction is symbol lookup followed by the lifecycle chain, and success leaves the node ready. |
| FmuFunctions.FmuFunction.LoadFunctions | casadi/core/fmu_function.cpp:122-139 | The lookups run in source order. The first missing symbol is the error, and on success exactly the required symbols are resolved, in that order. |
| FmuFunctions.FmuFunction.EnterContinuousTime | casadi/core/fmu_function.cpp:149-177 | Instantiation and the four lifecycle calls, each recorded when it is made. The first NULL handle or non-OK status raises its own error, carrying the status where the source reports it, and no later call is made. |
| FmuFunctions.FmuFunction.ReadyAfterLifecycle | casadi/core/fmu_function.cpp:156-177 | Resolved symbols plus a successful lifecycle chain give a ready node that can free its instance. |
| FmuFunctions.FmuFunction.Destroy | casadi/core/fmu_function.cpp:67-73 | fmi2FreeInstance is called on the handle exactly when the handle is non-NULL and the free function was resolved. Otherwise nothing is called. For a ready node, the calling sequence then ends the instance. |
| FmuFunctions.FmuFunction.Eval | casadi/core/fmu_function.cpp:231-257 | Pushes the inputs; a non-OK fmi2SetReal is an error and leaves the output buffer untouched. With an output buffer, reads the outputs, and a non-OK fmi2GetReal is an error. Without a buffer, no read is made. On success the buffer holds the binary's outputs at the inputs. The node stays ready. |
| FmuFunctions.FmuFunction.SetInputs | casadi/core/fmu_function.cpp:244-246 | One fmi2SetReal call with the differentiable value references and the input values. Its status is the binary's, and the instance stays in continuous-time mode. |
| FmuFunctions.FmuFunction.ReadOutputs | casadi/core/fmu_function.cpp:248-252 | Output j of the buffer is the binary's value for value reference yd[j] at the inputs. |
| FmuFunctions.FmuFunction.DirectionalDerivative | casadi/core/fmu_function.cpp:287-288 | One fmi2GetDirectionalDerivative call with the seed in the work buffer. On success the sensitivities land right after the seed. The seed and the rest of the buffer are untouched, and on failure nothing changes. |
| FmuFunctions.FmuFunction.EvalJac | casadi/core/fmu_function.cpp:259-301 | JacobianSwept: a failing input push raises an error and leaves the buffers unchanged. Otherwise let k be the first failing column (n if none). The flag is 0 exactly when k = n. The calls are the push and the derivative calls for e_0 … e_k, so nothing is freed. jac holds columns 0..k-1 in column-major order and its old contents after them. The seed is all zeros unless column k failed. |
| FmuFunctions.FmuFunction.JacobianSweep | casadi/core/fmu_function.cpp:280-300 | After clearing the seed, the sweep stops at the first failing column and makes exactly the calls for e_0 … e_k. The buffer equals the JacobianBuffer specification and the seed equals SeedAfter. |
| FmuFunctions.FmuFunction.JacobianColumns | casadi/core/fmu_function.cpp:283-298 | The column loop: every column before k succeeded and column k failed (or k = n). jac holds the column-by-column storage of columns 0..k-1 followed by its old tail. |
| FmuFunctions.FmuFunction.JacobianColumn | casadi/core/fmu_function.cpp:284-297 | One column: the seed passed is exactly e_i. On success the sensitivities are copied into positions i·m … (i+1)·m of jac and the seed is cleared again. On failure jac is unchanged and the seed stays e_i. |
| FmuFunctions.FmuFunction.SweepCompleted | casadi/core/fmu_function.cpp:283-298 | The derivative calls of a sweep are on the instance and keep it in continuous-time mode. |
| FmuFunctions.FmuFunction.EvalAdj | casadi/core/fmu_function.cpp:303-351 | AdjointSwept: a failing input push raises an error and leaves the buffers unchanged. Otherwise, with k the first failing column, the flag is 0 exactly when k = n and the calls are those for e_0 … e_k. adj_xd[i] is (J·e_i)·adj_yd for i < k and 0 from k on. The seed is all zeros unless column k failed. |
| FmuFunctions.FmuFunction.AdjointSweep | casadi/core/fmu_function.cpp:329-350 | After clearing adj_xd and the seed, adj_xd equals the AdjointBuffer specification, with the calls and seed as for the Jacobian sweep. |
| FmuFunctions.FmuFunction.AdjointColumns | casadi/core/fmu_function.cpp:334-348 | The column loop: it stops at the first failing column k. adj_xd holds the dot products for columns 0..k-1 and zeros after them. |
| FmuFunctions.FmuFunction.AdjointColumn | casadi/core/fmu_function.cpp:335-347 | One column: the seed passed is exactly e_i. On success (J·e_i)·adj_yd is added to adj_xd[i], onto its cleared value, and the seed is cleared again. On failure adj_xd is unchanged. |
| FmuFunctions.Clear | casadi/core/fmu_function.cpp:330-332 | The first n entries become zero and the rest of the array is unchanged. |
| FmuFunctions.Copy | casadi/core/fmu_function.cpp:294-295 | The m entries are copied to the destination offset, and the rest of the destination is unchanged. |
| FmuSpec.StoredIsFlatten | casadi/core/fmu_function.cpp:294-295 | Writing the columns one after another at advancing offsets yields the column-major storage of the first k columns. |
| FmuSpec.FailedColumnIs | casadi/core/fmu_function.cpp:289-292 | The column where the loop stops is the first column whose directional derivative fails. |
| FmuSpec.SweepSeedsAreUnit | casadi/core/fmu_function.cpp:285-297 | Every seed a sweep passes to the binary has exactly one non-zero entry, the entry of its own column, and that entry is 1. |
| FmuSpec.JacobianBufferEntries | casadi/core/fmu_function.cpp:283-298 | Entry (j, i), stored at i·n_yd + j, is component j of the directional derivative for e_i when column i was computed. Otherwise it is what the buffer held before. |
| FmuSpec.JacobianOfLinearModel | casadi/core/fmu_function.cpp:283-300 | For a binary whose sensitivities are linear in the seed with matrix M, a complete sweep stores M: entry (j, i) is M[j][i]. |
| FmuSpec.AdjointIsTransposedJacobian | casadi/core/fmu_function.cpp:334-350 | A complete adjoint sweep returns Jᵀ·v: entry i is column i of the buffer a complete Jacobian sweep stores, dotted with adj_yd. |
| FmuSpec.AdjointOfLinearModel | casadi/core/fmu_function.cpp:334-350 | For a binary linear in the seed with matrix M, a complete adjoint sweep returns Mᵀ·v. |
| FmuSpec.EmptySweep | casadi/core/fmu_function.cpp:281-300 | With no differentiable inputs the sweeps make no derivative call and both buffers are empty. |
| FmuFunctions.FmuFunction.GetJacobian | casadi/core/fmu_function.cpp:353-359 | A fresh Jacobian node derived from this node. |
| FmuFunctions.FmuFunction.GetReverse | casadi/core/fmu_function.cpp:361-373 | The reverse node is created exactly when one adjoint direction is requested. Any other count is the error "not supported". |
| FmuFunctions.FmuFunctionJac.Eval | casadi/core/fmu_function.cpp:387-392 | The Jacobian node's evaluation is the Jacobian sweep of the node it derives from, with the same result and effects. |
| FmuFunctions.FmuFunctionAdj.Eval | casadi/core/fmu_function.cpp:406-411 | The reverse node's evaluation is the adjoint sweep of the node it derives from, with the same result and effects. |

## Left out

- Loading the shared library (`Importer`) and resolving symbols in it are foreign calls. The model uses a map from library paths to `Library` values, and a symbol is resolved exactly when the binary exports it.
- The numbers the binary computes are oracles in `Library`. Each status depends only on the call and its point or seed, not on the history of earlier calls.
- The Error and Fatal states of the FMI 2.0 state machine are not modelled. A non-OK status ends the current operation only: a failed construction raises, and after a failed evaluation call the node keeps evaluating, as the source does. The calling-sequence state recorded for a call is the one its fmi2OK path leaves, so `Ready()` (instance in continuous-time mode) survives failed evaluation calls, whereas FMI 2.0 would move the instance to its Error state after fmi2Error.
- FmuFunctions.FmuFunction.DirectionalDerivative: on a failing fmi2GetDirectionalDerivative the model leaves the sensitivity buffer untouched; what the binary writes into it before failing is not modelled. The sweep contracts say nothing about that part of the work buffer.
- FmuFunctions.FmuFunction.Eval: on a failing fmi2GetReal the model leaves the output buffer untouched; what the binary writes into it before failing is not modelled.
- The `fmi2CallbackFunctions` struct, the `visible` and `loggingOn` flags, and the arguments of `fmi2SetupExperiment` are native ABI plumbing and are not modelled.
- The option dictionary is a boolean parameter of `Init`. The base-class initialisation, `alloc_w`, `clear_mem`, `Function::create`/`construct` and the `enable_fd` option that `get_reverse` sets are framework calls and are left out.
- The `WITH_FMU` compile switch is left out: the model is the build with FMU support. `casadi_error` and `casadi_assert` become `Fail`/`Raised` results. Message texts are reduced to the error kind and the status, count or index they carry. `casadi_warning` leaves no trace beyond the returned flag.
- The non-differentiable partitions (`xn`, `yn`, the `adj_xn` output and `arg[1]`, `arg[2]`, `arg[3]`, `arg[5]`) are copied but never passed to the binary, so they play no further part.
- The host platform is a parameter (`Host`) in place of the compile-time `#if` switch, and pointer width is 4 or 8 bytes.
- FmuFunctions.FmuFunction.EvalJac and FmuFunctions.FmuFunction.EvalAdj require fmi2GetDirectionalDerivative to be resolved. The source calls the function pointer whether or not the option enabled it, which is a call through a null pointer when it did not.
- Buffers are assumed not to alias each other, and `w` is assumed to hold at least n_xd + n_yd entries, as the derived nodes allocate it.
- FmuFunctions.FmuFunction.Destroy models one teardown of a node. The destruction of the derived nodes releases only framework memory and is left out.
- GetJacobian and GetReverse record only the link from the derived node to this node. The names, option dictionaries and constructed framework function are left out.
