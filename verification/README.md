# Verified model of the Cqlib circuit IR

Cqlib represents a quantum circuit as a tree of operations with structured classical control, typed
measurement values that are defined once, interned parameters and handles owned by one circuit. This
project models five parts of that representation and proves what they promise.

- **Control-flow graphs** (`Ir`, `CfgGraph`, `CfgCode`, `CfgMeaning`, `CfgParse`, `CfgRoundTrip`, `Placement`,
  `CircuitCfg`, `GraphRebuild`, `Rechecking`, `Lowering`, `Rebuilding`, `RebuildExact`): expansion of the tree to basic blocks, the walk that
  rebuilds the tree, and the circuit made from it. Expansion preserves meaning in both directions and rebuilding
  undoes it.
- **The classical verifier** (`Verifier`, `ClassicalVerifier`, `Soundness`, `Measurements`, `Dominance`): what it
  accepts, that no accepted circuit reads an unmeasured value on any run, and that availability is dominance by
  one defining operation in the graph.
- **The callback builder** (`Builder`, `BuilderSafety`, `AppendMeaning`, `BuilderMeaning`, `BuilderReach`, `BuilderBuilt`,
  `CircuitBuilder`, `ExternalBuilder`): bodies under construction share the operation vector of their circuit. Scripts of commands
  stand for what callbacks do, including their own errors and errors they swallow. Reachable circuits are valid,
  failures leave no trace, and the transaction protocol used by foreign callbacks reaches the same circuits.
- **Passes that rename handles** (`Renaming`, `RenamingInvariance`, `Composition`, `Deletion`, `DeletionBatch`,
  `CircuitEditing`): one invariance theorem for the verifier, and clone, compose and delete on top of it.
- **Dense matrices** (`Bits`, `Linear`, `Embedding`, `Kernel`, `Parallel`, `CircuitMatrix`,
  `MatrixMeaning`, `Flatten`, `FlattenLeaves`, `FlattenLimits`, `Inverse`, `InverseLimits`): the in-place kernels, their index arithmetic and their parallel
  form, the matrix of a circuit, decomposition of nested gates and inversion.

Code that changes state is modelled as classes and methods with loops, each proved to compute a specification
function; the theorems are stated about those functions. Entries of matrices and parameters are exact numbers.
Opaque inputs of the model are parameters of the theorems: the machine that runs operations (`Machine`), operand
counts of gates (`Arities`), gate matrices, parameter operators and the phase function (`Library`), sums of symbolic
parameters (`Adder`), and the inverses of single gates (`Inverter`, assumed correct by `GatesInvert` and
`PhasesInvert`).

Four places where the code differs from what its documentation suggests are stated as theorems, each with a
concrete input and the exact condition.

- `decompose` drops the global phases of nested bodies, so flattening changes the matrix of a gate that is only a
  phase (`NestedPhaseMatters`); with ascending bodies the matrix stays the same if and only if the dropped phases
  multiply to one or the matrix is zero (`FlatteningIsExactWhen`). It also maps body qubits by declaration while the
  matrix sorts them, which is the same if and only if they are declared in ascending order (`DeclaredOrderMatters`).
- `validate` fails inside the second callback of an if/else whose first callback measured a qubit
  (`InvalidInsideElse`), although every call succeeded; it passes there if and only if the first callback measured
  nothing (`ValidInsideElse`).
- `inverse` fails on a circuit that has a matrix when it contains a delay, because the inverse delay is appended
  without its duration (`DelayHasNoInverse`); which circuits have an inverse is stated exactly
  (`InverseExactlyWhen`, `WellFormedInverse`).
- A graph whose region says that a branch has no else body passes every check although that side holds operations,
  and they are lost when the circuit is rebuilt (`HiddenElseIsLost`); exactly which graphs lose nothing is stated by
  `RebuildConserves`. From an expanded graph the whole tree comes back
  (`DecompilingUndoesCompiling`).

`dafny verify dfyconfig.toml` checks the whole project.

## Model
| member | source | states |
|---|---|---|
| CfgGraph.Process | crates/cqlib-core/src/circuit/cfg.rs:1125-1312 | the expansion as a function on graphs; blocks are only added, and the number added is a function of the tree alone |
| CfgCode.ProcessCode | crates/cqlib-core/src/circuit/cfg.rs:1125-1336 | the graph grown by the expansion contains the code of the whole tree: every block, edge, terminator and region at a position fixed by the tree, and it keeps that code in every later graph |
| CfgCode.FromOperationsCode | crates/cqlib-core/src/circuit/cfg.rs:403-430 | a whole circuit expands to a graph whose entry block starts the code of the circuit and nothing else |
| CfgMeaning.ExpansionFollowsRun | crates/cqlib-core/src/circuit/cfg.rs:40-91 | for every machine (store, oracle, branch choices) and every fuel, the walk of the graph reaches the outcome of the structured run: finished in the same state, or still going |
| CfgMeaning.ExpansionPreservesMeaning | crates/cqlib-core/src/circuit/cfg.rs:1125-1324 | for every machine and states, the tree can run from one to the other if and only if the graph can; a for header initialises when entered from outside its body and advances on back edges |
| Placement.ExpansionChecksPlacement | crates/cqlib-core/src/circuit/cfg.rs:1290-1336 | for every tree and context, expansion fails if and only if some break or continue is misplaced or not last, by the rules the verifier states |
| CfgParse.Parse | crates/cqlib-core/src/circuit/cfg.rs:715-885 | the rebuild walk terminates on every finite graph whose referenced blocks exist, cyclic or malformed, and only adds blocks of the graph to the visited set; a terminator without a fitting region is an error |
| CfgParse.ParseOps | crates/cqlib-core/src/circuit/cfg.rs:715-885 | on an expanded graph the walk over one block and its continuation returns the operations of the tree and visits exactly the blocks that the expansion added |
| CfgParse.ParseSwitchCases | crates/cqlib-core/src/circuit/cfg.rs:833-870 | the arms of a switch are rebuilt one after the other, each visiting exactly its own blocks |
| CfgRoundTrip.CodeValid | crates/cqlib-core/src/circuit/cfg.rs:439-470 | every block of an expanded graph passes the checks on terminators, edges, regions and operation fields |
| CfgRoundTrip.DecompilingUndoesCompiling | crates/cqlib-core/src/circuit/cfg.rs:403-510 | for every well-built tree, expansion succeeds if and only if the transfers are well placed, and then the graph validates, every block is visited, and the rebuilt operations are the tree up to the fields of break and continue |
| CfgRoundTrip.NormalizeTwice | crates/cqlib-core/src/circuit/cfg.rs:1338-1345 | rebuilding drops only the outer fields of break and continue, so a second round trip is the identity |
| GraphRebuild.RebuildsExactlyWhen | crates/cqlib-core/src/circuit/cfg.rs:439-510 | any graph rebuilds if and only if it passes the checks: an entry, the phase in the table, every block valid, and every block visited by the walk from the entry |
| GraphRebuild.RebuiltIsBuilt | crates/cqlib-core/src/circuit/cfg.rs:439-510 | whatever graph rebuilds, at every depth of the tree the fields, handles and types are in the tables and every control operation passes its constructor |
| GraphRebuild.RebuildConserves | crates/cqlib-core/src/circuit/cfg.rs:715-885 | for any graph that rebuilds, every plain operation stands in the tree at most as often as in the blocks, and exactly as often if and only if no branch that its region marks as absent holds it |
| GraphRebuild.ParseFramed | crates/cqlib-core/src/circuit/cfg.rs:715-885 | a walk returns the same operations and visits the same blocks however few other blocks were visited before |
| GraphRebuild.HiddenElseIsLost | crates/cqlib-core/src/circuit/cfg.rs:756-779 | a graph of four blocks passes every check, although the false side of its branch holds a gate and the region says that there is no else body; it rebuilds without the gate |
| Lowering.OpsRelocated | crates/cqlib-core/src/circuit/circuit_impl.rs:2979-3082 | lowering operations into a fresh parameter table succeeds when their indices exist and their control operations are constructible; it relocates every parameter index, and nothing else, and the result is structurally equal under the two tables |
| Rebuilding.VerifyNormalized | crates/cqlib-core/src/circuit/cfg.rs:1338-1345 | the verifier gives the same result for a tree and for what the round trip returns |
| Rechecking.PreCheckPasses | crates/cqlib-core/src/circuit/circuit_impl.rs:1306-1360 | the checks an append makes on an operation pass again when the tables have grown, and under another identity when the operation mentions no handle |
| Rechecking.StepRechecks | crates/cqlib-core/src/circuit/circuit_impl.rs:1306-1360 | every builder command, failing or not, keeps all operations of the circuit appendable: each would pass the checks of an append again |
| Rebuilding.RebuildSucceeds | crates/cqlib-core/src/circuit/circuit_impl.rs:619-639 | rebuilding a circuit from the operations of its graph, with every check of the code made again, fails no check for any valid circuit with its own fields: the result has the same qubits, tables and phase, structurally equal operations, the same identity if any handle is mentioned, and is valid |
| RebuildExact.RebuildsExactly | crates/cqlib-core/src/circuit/circuit_impl.rs:619-679 | for any operations, tables and phase, a circuit is made from them if and only if the qubits are distinct, the handles have one identity, qubits and parameters are in the tables and control operations are constructible at every depth, the operand counts match, and the tree is valid; the result has those tables, that identity and phase, structurally equal operations, and is valid |
| Rebuilding.ReachableRebuilds | crates/cqlib-core/src/circuit/cfg.rs:492-510 | every circuit made by callbacks comes back from its graph: it expands, the graph gives its operations back up to transfer fields, and no check of the rebuild fails |
| CircuitCfgModule.CircuitCfg.AddBlock | crates/cqlib-core/src/circuit/cfg.rs:303-308 | a new empty block at the end, nothing else changed |
| CircuitCfgModule.CircuitCfg.AddEdge | crates/cqlib-core/src/circuit/cfg.rs:310-321 | one outgoing edge more on one block |
| CircuitCfgModule.CircuitCfg.ConnectToMerge | crates/cqlib-core/src/circuit/cfg.rs:1314-1324 | a reachable exit without terminator jumps to the merge block; other exits change nothing |
| CircuitCfgModule.CircuitCfg.ProcessOperations | crates/cqlib-core/src/circuit/cfg.rs:1125-1312 | the in-place expansion builds exactly the graph of the specification, with the same exit or the same error |
| CircuitCfgModule.CircuitCfg.ProcessIf | crates/cqlib-core/src/circuit/cfg.rs:1133-1166 | the branch, both bodies, the merge block and the region, in the order the code creates them |
| CircuitCfgModule.CircuitCfg.ProcessLoop | crates/cqlib-core/src/circuit/cfg.rs:1168-1239 | header, body and exit blocks, the back edge and the loop region |
| CircuitCfgModule.CircuitCfg.ProcessSwitch | crates/cqlib-core/src/circuit/cfg.rs:1241-1288 | one entry block per case, the default block even without a default body, and the region |
| CircuitCfgModule.CircuitCfg.FromCircuit | crates/cqlib-core/src/circuit/cfg.rs:403-430 | the whole in-place expansion equals the specified graph |
| CircuitCfgModule.CircuitCfg.ParseSubgraph | crates/cqlib-core/src/circuit/cfg.rs:715-885 | the loop over blocks with its growing visited set computes the specified rebuild, for any graph whose referenced blocks exist |
| CircuitCfgModule.CircuitCfg.ToCircuit | crates/cqlib-core/src/circuit/cfg.rs:474-510 | validation, rebuild and the every-block-visited check, with the same result or error |
| Verifier.VerifyCharacterised | crates/cqlib-core/src/circuit/circuit_verify.rs:116-338 | the analysis accepts a tree if and only if every handle is owned and typed, every transfer is well placed and last, no value is measured twice, and every read is in scope; it returns exactly the measured and the straight-line available values |
| Verifier.OpCharacterised | crates/cqlib-core/src/circuit/circuit_verify.rs:123-164 | the same, operation by operation |
| Verifier.BodiesCharacterised | crates/cqlib-core/src/circuit/circuit_verify.rs:258-338 | bodies see a copy of the available set and only their definitions come back |
| ClassicalVerifierModule.ClassicalVerifier.DefineValue | crates/cqlib-core/src/circuit/circuit_verify.rs:214-229 | a second definition is an error; a first one is recorded globally and made available |
| ClassicalVerifierModule.ClassicalVerifier.VerifyOperations | crates/cqlib-core/src/circuit/circuit_verify.rs:116-167 | the loop that mutates the definitions and the local available set computes the specified analysis |
| ClassicalVerifierModule.ClassicalVerifier.VerifyControlOp | crates/cqlib-core/src/circuit/circuit_verify.rs:269-338 | expressions first, then each body with its placement context |
| ClassicalVerifierModule.Validate | crates/cqlib-core/src/circuit/circuit_verify.rs:66-112 | true if and only if the analysis succeeds at the top level and every table entry is defined |
| Soundness.MonitorOnlyWatches | crates/cqlib-core/src/circuit/circuit_verify.rs:116-338 | the monitor that defines safety does not change any run |
| Soundness.AcceptedRunsAreSafe | crates/cqlib-core/src/circuit/circuit_verify.rs:116-338 | no run of an accepted circuit, on any machine and for any number of iterations, reads a value that was not measured earlier on that run |
| Soundness.AcceptedWalksAreSafe | crates/cqlib-core/src/circuit/circuit_verify.rs:116-338 | an accepted circuit expands, and the same holds for every number of steps of the graph walk, which never gets stuck |
| Measurements.ExpansionConservesMeasurements | crates/cqlib-core/src/circuit/cfg.rs:1125-1312 | the blocks of the expanded graph measure every value exactly as often as the tree does, at any depth |
| Measurements.DefinitionsAreUnique | crates/cqlib-core/src/circuit/circuit_verify.rs:214-229 | in the graph of an accepted circuit a value is defined by at most one operation of one block |
| Dominance.PathMeasuresItsReads | crates/cqlib-core/src/circuit/circuit_verify.rs:214-267 | on every path from the entry, whatever the last block reads was measured earlier on the path |
| Dominance.ReadIsDefined | crates/cqlib-core/src/circuit/circuit_verify.rs:116-267 | whatever any block of the code of a scoped tree reads, reachable or not, is available on entry or defined in the graph, and before the read if in the same block |
| Dominance.AvailabilityIsDominance | crates/cqlib-core/src/circuit/circuit_verify.rs:214-267 | in the graph of an accepted circuit every value read by a block has exactly one defining operation; every path from the entry to that block contains the block of the definition, and if both are in one block the definition comes first |
| Bits.InsertZeroBit | crates/cqlib-core/src/circuit/circuit_to_matrix.rs:576-581 | one step of the index expansion: bits below q stay, bit q is zero, the rest move up |
| Bits.OffsetBit | crates/cqlib-core/src/circuit/circuit_to_matrix.rs:549-560 | the offset of gate index g has exactly the target bits that g selects |
| Bits.RowsAreDisjoint | crates/cqlib-core/src/circuit/circuit_to_matrix.rs:569-614 | two iterations or gate indices with the same row are the same: different iterations touch disjoint rows |
| Bits.RowsCover | crates/cqlib-core/src/circuit/circuit_to_matrix.rs:569-614 | every row below 2^n is the row of its own iteration and gate index, so (i, g) -> row is a bijection |
| Bits.RowIndex | crates/cqlib-core/src/circuit/circuit_to_matrix.rs:549-587 | the gate index is read back from a row, and changing the target bits moves within the iteration |
| Bits.PairRows | crates/cqlib-core/src/circuit/circuit_to_matrix.rs:470-492 | the four row indices of the two-qubit kernel are the general ones, for either order of the bits |
| Bits.BlockRows | crates/cqlib-core/src/circuit/circuit_to_matrix.rs:415-421 | the rows of the one-qubit block are the general ones |
| Embedding.UnitaryEntry | crates/cqlib-core/src/circuit/circuit_to_matrix.rs:324-344 | the embedded gate is the gate entry of the two target indices where all other bits agree, and zero elsewhere |
| Embedding.EmbeddedIsProduct | crates/cqlib-core/src/circuit/circuit_to_matrix.rs:324-344 | applying a gate is multiplying by the embedded gate on the left |
| Embedding.EmbeddedProduct | crates/cqlib-core/src/circuit/circuit_to_matrix.rs:324-344 | a product of gates on the same bits acts one factor after the other |
| Embedding.EmbeddedIdentity | crates/cqlib-core/src/circuit/circuit_to_matrix.rs:324-344 | the identity gate changes nothing, on any bits |
| Embedding.EmbeddedNested | crates/cqlib-core/src/circuit/circuit_to_matrix.rs:200-218 | a matrix built by embedding and then embedded is the inner gate embedded directly on the selected bits: embedding is a homomorphism |
| Linear.CombineAssoc | crates/cqlib-core/src/circuit/circuit_to_matrix.rs:589-601 | combining combinations of rows is combining with the product of the coefficients |
| Linear.CombineAt | crates/cqlib-core/src/circuit/circuit_to_matrix.rs:594-599 | the entry of a row combination is what the inner loop accumulates |
| Kernel.ProcessColumn | crates/cqlib-core/src/circuit/circuit_to_matrix.rs:589-601 | one column: the rows are read before they are overwritten, each gets the gate row times the gathered column, and no other cell changes |
| Kernel.SweepStep | crates/cqlib-core/src/circuit/circuit_to_matrix.rs:573-603 | a sweep that has finished any set of iterations stays correct when one more column of a new iteration is processed |
| Kernel.ProcessIndex | crates/cqlib-core/src/circuit/circuit_to_matrix.rs:573-603 | one iteration, whatever set of other iterations came first |
| Kernel.ApplyGeneralGate | crates/cqlib-core/src/circuit/circuit_to_matrix.rs:536-623 | the final matrix is the embedded gate applied to the old one, in place |
| Kernel.ApplySingleQubitGate | crates/cqlib-core/src/circuit/circuit_to_matrix.rs:391-442 | the block form gives the same matrix as the general form on that bit |
| Kernel.ApplyTwoQubitGate | crates/cqlib-core/src/circuit/circuit_to_matrix.rs:444-534 | the mask form gives the same matrix as the general form on those bits, in either order |
| Kernel.ValidateTargetBits | crates/cqlib-core/src/circuit/circuit_to_matrix.rs:346-367 | accepts exactly distinct bits below n for a dimension 2^n, and otherwise names the first offending bit |
| Kernel.ApplyGateToMatrix | crates/cqlib-core/src/circuit/circuit_to_matrix.rs:325-344 | succeeds exactly for valid bits and a square gate of the right dimension, then leaves the embedded result; a rejected gate leaves the matrix alone |
| Parallel.NoSharedCell | crates/cqlib-core/src/circuit/circuit_to_matrix.rs:369-389 | two workers never address the same cell, whether a worker has one iteration or a block of them |
| Parallel.AnyScheduleIsSequential | crates/cqlib-core/src/circuit/circuit_to_matrix.rs:605-614 | whatever the interleaving of single reads and writes, when all workers are done the matrix is the sequential result |
| Parallel.StepProgresses | crates/cqlib-core/src/circuit/circuit_to_matrix.rs:573-614 | every access of an unfinished worker is progress towards its fixed number of accesses |
| Parallel.ScheduleIsBounded | crates/cqlib-core/src/circuit/circuit_to_matrix.rs:573-614 | no schedule makes more than 2 * dim * cols accesses, however long it is, and all workers are done exactly when it has made that many |
| Parallel.BlocksAreJobs | crates/cqlib-core/src/circuit/circuit_to_matrix.rs:391-442 | the one-qubit kernel is such a job: its workers take blocks of 2^bit iterations, and the row pairs of a block are those of its iterations |
| CircuitMatrix.BuildMatrix | crates/cqlib-core/src/circuit/circuit_to_matrix.rs:133-247 | the in-place fold over the operations, recursing into gate bodies, computes the specified matrix or the specified error |
| MatrixMeaning.GateEntries | crates/cqlib-core/src/circuit/circuit_to_matrix.rs:137-198 | one gate on n distinct qubits: the entry at row r and column c is the gate's where r and c agree off those qubits and zero elsewhere; bit n-1-k of the gate's row index is the bit of r at the place of qs[k] for a big-endian gate, bit k for a little-endian one |
| MatrixMeaning.MatrixMeans | crates/cqlib-core/src/circuit/circuit_to_matrix.rs:120-247 | a circuit has a matrix if and only if every operation has one, and every entry is the phase times the sum over all paths of the products of the operations' entries, nested bodies by their own entries |
| MatrixMeaning.CircuitMeans | crates/cqlib-core/src/circuit/circuit_to_matrix.rs:120-247 | the same for the order the caller does not give: the k-th smallest qubit is bit k |
| CircuitMatrix.ApplyOp | crates/cqlib-core/src/circuit/circuit_to_matrix.rs:137-235 | one operation in place: bit lookup, parameter values, gate matrix or nested body, in the code's order of errors |
| Flatten.SubstituteEvaluates | crates/cqlib-core/src/circuit/circuit_impl.rs:2343-2368 | substituting closed parameters and evaluating is evaluating under the bindings, for every parameter that has a value |
| Flatten.FlattenOps | crates/cqlib-core/src/circuit/circuit_impl.rs:2331-2442 | the flattened operations of a body act on the target matrix as the body's matrix does at its place, up to the product of the nested phases |
| Flatten.FlatteningByDeclaration | crates/cqlib-core/src/circuit/circuit_impl.rs:2268-2442 | for every well-formed circuit that has a matrix, decomposing succeeds, leaves no nested gate, and preserves the matrix up to the nested phases, when bodies take their qubits in declared order |
| Flatten.FlatteningPreservesMatrix | crates/cqlib-core/src/circuit/circuit_impl.rs:2268-2442 | the same for the matrix the code computes when every body declares its qubits in ascending order; with phases multiplying to one the two matrices are equal |
| FlattenLeaves.DecomposeReadsLeaves | crates/cqlib-core/src/circuit/circuit_impl.rs:2268-2442 | a well-formed circuit decomposes if and only if all its parameters resolve and it has no control flow, and then the operations are the leaves of the tree read depth first, measurements, barriers and delays included, each with its instruction, its qubits sent through the enclosing argument lists and its parameters substituted |
| FlattenLeaves.DecomposeKeepsInstructions | crates/cqlib-core/src/circuit/circuit_impl.rs:2397-2440 | no instruction other than a nested gate is lost, added or moved |
| FlattenLimits.FlatteningIsExactWhen | crates/cqlib-core/src/circuit/circuit_impl.rs:2275-2288 | for ascending bodies the flattened matrix equals the original if and only if the dropped phases multiply to one (or the matrix is zero) |
| FlattenLimits.NestedPhaseMatters | crates/cqlib-core/src/circuit/circuit_impl.rs:2275-2288 | a gate whose body is only a phase, unless the phase is one: well formed and ascending, and flattening changes its matrix |
| FlattenLimits.DeclaredOrderMatters | crates/cqlib-core/src/circuit/circuit_to_matrix.rs:116-120 | for every list of distinct qubits, bodies declared with it keep their matrix when flattened if and only if the list is ascending: otherwise a body with one gate gets a different matrix, for every gate with distinct diagonal entries |
| Inverse.OpsUndone | crates/cqlib-core/src/circuit/circuit_impl.rs:2168-2216 | the inverted operations undo the operations on every matrix, and the operations undo them |
| Inverse.InverseMatrices | crates/cqlib-core/src/circuit/circuit_impl.rs:2145-2219 | for any bit order and bindings, a circuit and its inverse have matrices whose products both ways are the identity, phases and nested bodies included |
| Inverse.InverseIsInverse | crates/cqlib-core/src/circuit/circuit_impl.rs:2145-2219 | a successful inverse of a circuit with a matrix has the two-sided inverse matrix, given that single gates invert |
| InverseLimits.InverseExactlyWhen | crates/cqlib-core/src/circuit/circuit_impl.rs:2145-2219 | a circuit has an inverse if and only if every operation at every depth is a barrier, a gate with an inverse or a body that has one, with operands that can be appended and the symbols of each inverted body declared |
| InverseLimits.WellFormedInverse | crates/cqlib-core/src/circuit/circuit_impl.rs:2145-2219 | a well-formed circuit whose gates invert on as many operands has an inverse if and only if no operation at any depth is a delay, a measurement or other non-unitary operation, control flow, or a gate without inverse |
| InverseLimits.InverseInverts | crates/cqlib-core/src/circuit/circuit_impl.rs:2145-2219 | the operations of an inverse are those of the circuit in reverse order, one for one: a barrier stays, a gate becomes its inverse on the same qubits, a body is inverted the same way |
| InverseLimits.DelayHasNoInverse | crates/cqlib-core/src/circuit/circuit_impl.rs:2188-2211 | one qubit with one delay of any duration is well formed and has the identity matrix, but its inverse fails with a parameter count mismatch |
| Renaming.RemapIsRename | crates/cqlib-core/src/circuit/circuit_impl.rs:2564-2757 | remapping fails if and only if some handle has no entry (or a control operation was never acceptable), and otherwise renames every field at every depth |
| RenamingInvariance.ControlShape | crates/cqlib-core/src/circuit/circuit_impl.rs:2679-2757 | renaming keeps the kind of a control operation and renames its expressions and bodies one by one |
| RenamingInvariance.VerificationIsInvariant | crates/cqlib-core/src/circuit/circuit_impl.rs:2591-2757 | under an injective, type-preserving renaming the verifier accepts the renamed tree if and only if it accepts the tree, and its defined and available sets are the renamed ones |
| Composition.CloneIsValid | crates/cqlib-core/src/circuit/circuit_impl.rs:136-201 | every clone of a valid circuit exists and is valid under its new identity |
| Composition.CloneIsEqual | crates/cqlib-core/src/circuit/circuit_impl.rs:203-534 | a clone is structurally equal to its original, global phase included |
| Composition.MergedResolve | crates/cqlib-core/src/circuit/circuit_impl.rs:2860-2865 | every parameter merged from the other circuit is found where its new index says |
| Composition.VerifyConcat | crates/cqlib-core/src/circuit/circuit_impl.rs:2931-2939 | two circuits valid on their own that measure different values are valid one after the other |
| Composition.ComposeIsValid | crates/cqlib-core/src/circuit/circuit_impl.rs:2805-2940 | composing two valid circuits succeeds: the first one's operations and then the second's renamed, each of its distinct qubits sent to the mapping's entry at its own position, or to itself without a mapping, unknown qubits added in order, the k-th variable and value moved k places past the first one's, the first one's parameters in place and the second's resolving to what they were, the phases added, and the result valid and composable again |
| Composition.ComposeExactlyWhen | crates/cqlib-core/src/circuit/circuit_impl.rs:2805-2840 | composing two valid circuits succeeds if and only if there is no mapping or it has one existing target per qubit; otherwise nothing changes |
| Deletion.RankIsUnique | crates/cqlib-core/src/circuit/circuit_impl.rs:1166-1192 | the compaction is the only order-preserving renumbering without gaps |
| Deletion.KeptVerified | crates/cqlib-core/src/circuit/circuit_impl.rs:1044-1056 | operations that read no removed value are accepted without the removed ones |
| Deletion.DeletionIsExact | crates/cqlib-core/src/circuit/circuit_impl.rs:1009-1128 | deletion succeeds if and only if every index exists and no kept operation reads a removed value; success keeps the others in order under the renumbering and stays valid; failure changes nothing |
| DeletionBatch.SuccessiveIsBatch | crates/cqlib-core/src/circuit/circuit_impl.rs:1009-1128 | two deletions that both succeed are one deletion of the union of their original positions, with the same circuit |
| CircuitEditing.RemoveOperations | crates/cqlib-core/src/circuit/circuit_impl.rs:1009-1128 | the method with its loops computes the specified deletion on the circuit object |
| CircuitEditing.BuildCompactionMap | crates/cqlib-core/src/circuit/circuit_impl.rs:1166-1192 | the surviving types in order and the map from old to new values |
| CircuitEditing.ComposeInto | crates/cqlib-core/src/circuit/circuit_impl.rs:2805-2940 | the method computes the specified composition on the circuit object |
| CircuitEditing.AddPhase | crates/cqlib-core/src/circuit/circuit_impl.rs:2881-2930 | two numeric phases are added in place; otherwise their sum is one more interned parameter |
| CircuitEditing.FromOperations | crates/cqlib-core/src/circuit/circuit_impl.rs:619-639 | the loop that lowers and appends operations to a new circuit object computes the specified rebuild, with the same result or error |
| CircuitEditing.ReachableIsEditable | crates/cqlib-core/src/circuit/circuit_impl.rs:1009-1128 | every circuit made by callbacks meets the conditions of clone, compose and delete |
| BuilderSafety.AppendGrows | crates/cqlib-core/src/circuit/circuit_impl.rs:1296-1399 | an append adds its operation at the end or fails; a failure leaves operations and classical tables alone, and everything when there are no parameters |
| AppendMeaning.AppendExactly | crates/cqlib-core/src/circuit/circuit_impl.rs:1296-1399 | an append succeeds if and only if operand counts match, qubits are distinct and known, arguments are finite and, for classical operations, operands fit at every depth and the whole circuit verifies; it then adds exactly one operation with the instruction, qubits and label given, a number recorded as itself and an expression by the index where the table holds it; nothing else is interned, and nothing twice |
| AppendMeaning.LowerRecords | crates/cqlib-core/src/circuit/circuit_impl.rs:1365-1384 | arguments are lowered if and only if all are finite; otherwise the first bad position is named and what came before it stays interned |
| AppendMeaning.GateErrors | crates/cqlib-core/src/circuit/circuit_impl.rs:1306-1384 | a refused gate append names what is wrong: the counts that differ, repeated qubits, the first unknown qubit or the first bad number |
| BuilderMeaning.BodyMeans | crates/cqlib-core/src/circuit/circuit_classical.rs:759-785 | a body is what its callback adds when it runs in its scope, and an error gives back the circuit and the callback's error |
| BuilderMeaning.ControlAdded | crates/cqlib-core/src/circuit/circuit_classical.rs:1101-1112 | a control operation is added if and only if its constructor accepts it and the circuit verifies with it; it is one operation on exactly the qubits of the operations directly in its bodies, ascending |
| BuilderMeaning.CollectMeans | crates/cqlib-core/src/circuit/circuit_classical.rs:441-467 | the cases of a switch are the successful case calls in order, each with its value and what its callback adds on what the calls before it left; the default is that of the one successful default call |
| BuilderMeaning.CommandMeans | crates/cqlib-core/src/circuit/circuit_classical.rs:835-1119 | every command succeeds exactly when it is possible and then adds exactly its operation: kind, expressions, loop variable, start, stop and step, then and else body, case values and default, each body being what its callback adds; a measurement into a variable adds the measurement and then the store of its value |
| BuilderMeaning.CallbackErrorReturned | crates/cqlib-core/src/circuit/circuit_classical.rs:835-1098 | the error of the first failing callback is the error of the control command, which leaves the circuit as it was |
| BuilderMeaning.ExecConcat | crates/cqlib-core/src/circuit/circuit_classical.rs:521-537 | a callback runs its commands in order and stops at the first error |
| BuilderSafety.BodyHeld | crates/cqlib-core/src/circuit/circuit_classical.rs:759-785 | a body's operations are split off and contain the measurement of every value it allocated; a failed body leaves the state exactly as it was |
| BuilderSafety.CommandChecked | crates/cqlib-core/src/circuit/circuit_classical.rs:835-1119 | every measurement, store and control command, at any depth, either fails without a trace or extends the circuit, measures every value it allocated, and was verified as a whole |
| BuilderSafety.StepGrows | crates/cqlib-core/src/circuit/circuit_classical.rs:521-1119 | no command, failing or not, touches what was there before it, whatever its callbacks do |
| BuilderReach.FailureIsExact | crates/cqlib-core/src/circuit/circuit_classical.rs:539-559 | a failing all-or-nothing command leaves operations, parameters, symbols, both classical tables and the scope stack equal, with any scopes open |
| BuilderReach.FailedAppend | crates/cqlib-core/src/circuit/circuit_impl.rs:1365-1384 | a failing plain append changes at most the parameter and symbol tables, and only extends them |
| BuilderReach.StepSafe | crates/cqlib-core/src/circuit/circuit_verify.rs:66-112 | every command, succeeding or failing, keeps a circuit without open scopes valid |
| BuilderReach.ReachableIsValid | crates/cqlib-core/src/circuit/circuit_classical.rs:863-1119 | every circuit reachable from a new one by any script passes validation when control is back at the top level |
| BuilderReach.ValidInsideElse | crates/cqlib-core/src/circuit/circuit_classical.rs:1008-1013 | inside the second callback of an if/else validation passes if and only if the first body allocated no value, because that body is held outside the circuit |
| BuilderReach.InvalidInsideElse | crates/cqlib-core/src/circuit/circuit_classical.rs:1008-1013 | on any new circuit, when the first callback measures one qubit, validation fails at the start of the second callback |
| BuilderBuilt.ExecBuilt | crates/cqlib-core/src/circuit/circuit_classical.rs:521-1119 | circuits built by callbacks refer only to their own tables, at every moment and depth |
| BuilderBuilt.ReachableRoundTrips | crates/cqlib-core/src/circuit/cfg.rs:403-510 | every circuit built by callbacks expands, and its graph rebuilds to its own operations |
| BuilderBuilt.ReachableRunsAreSafe | crates/cqlib-core/src/circuit/circuit_verify.rs:66-112 | no run of a reachable circuit reads a value it has not measured |
| CircuitBuilder.Circuit.Rollback | crates/cqlib-core/src/circuit/circuit_classical.rs:550-559 | truncates every table to the checkpoint |
| CircuitBuilder.Circuit.Intern | crates/cqlib-core/src/circuit/circuit_impl.rs:710-718 | an existing parameter keeps its index, a new one is added with its symbols |
| CircuitBuilder.Circuit.AppendOwned | crates/cqlib-core/src/circuit/circuit_impl.rs:1296-1399 | the method takes the specified step, with the code's order of checks |
| CircuitBuilder.Circuit.MeasureQubit | crates/cqlib-core/src/circuit/circuit_classical.rs:863-876 | allocate, append, and undo both on failure |
| CircuitBuilder.Circuit.MeasureQubitInto | crates/cqlib-core/src/circuit/circuit_classical.rs:927-940 | measurement and store together or not at all |
| CircuitBuilder.Circuit.BuildControlBody | crates/cqlib-core/src/circuit/circuit_classical.rs:759-785 | scope pushed and popped, the body split off the operation vector, rollback on error |
| CircuitBuilder.Circuit.BuildBranches | crates/cqlib-core/src/circuit/circuit_classical.rs:995-1019 | both bodies of an if/else, the second built while the first is held aside |
| CircuitBuilder.Circuit.BuildSwitch | crates/cqlib-core/src/circuit/circuit_classical.rs:1074-1098 | cases collected by a builder object, then one operation, or full rollback |
| CircuitBuilder.Circuit.Perform | crates/cqlib-core/src/circuit/circuit_classical.rs:835-1119 | each builder method takes the step of the transition function |
| CircuitBuilder.SwitchBuilder.Perform | crates/cqlib-core/src/circuit/circuit_classical.rs:441-467 | a case or default is collected, or fails without changing circuit or cases |
| CircuitBuilder.Circuit.EnterBody | crates/cqlib-core/src/circuit/circuit_classical.rs:797-809 | scopes beyond the transaction are closed, then the new one opened |
| CircuitBuilder.Circuit.FinishBody | crates/cqlib-core/src/circuit/circuit_classical.rs:813-820 | the operations since the transaction are captured and removed |
| ExternalBuilder.PyCircuit.Single | crates/binding-python/src/circuit/circuit_impl.rs:222-260 | an if, while or for body driven by one transaction reaches the state of the closure builder, on success and on every failure |
| ExternalBuilder.PyCircuit.Branches | crates/binding-python/src/circuit/circuit_impl.rs:263-318 | both bodies under one transaction reach the state of the closure builder, which uses two checkpoints |
| ExternalBuilder.PyCircuit.SwitchOn | crates/binding-python/src/circuit/circuit_impl.rs:410-462 | a switch with its case builder reaches the state of the closure builder |
| ExternalBuilder.PyCircuit.Perform | crates/binding-python/src/circuit/circuit_impl.rs:222-476 | every control method of the client takes the step of the closure builder, at any nesting |
| ExternalBuilder.PySwitchBuilder.CaseBody | crates/binding-python/src/circuit/control_flow.rs:184-216 | a nested transaction inside the switch transaction, begun and committed or rolled back on its own |
| ExternalBuilder.PySwitchBuilder.Perform | crates/binding-python/src/circuit/control_flow.rs:169-249 | cases and default as the closure builder collects them; a closed builder refuses and changes nothing |

## Left out
- Verifier.VerifyExpr: which handle of an expression an error names, because it depends on the iteration order of a hash set; the model reports the most basic failure.
- CircuitBuilder.Circuit.AppendOwned: error texts; a circuit-level check of an expression reports one error for any foreign, unknown or mistyped handle in it.
- CircuitEditing.ComposeInto: how two symbolic parameters are added; a mapping with repeated targets is allowed as in the code, which does not check it.
- CircuitEditing.FromOperations: parameters are looked up while they are interned instead of in a pass before, so with several faults another one can be reported.
- CircuitEditing.RemoveOperations: which index or value a rejection names.
- CircuitMatrix.BuildMatrix: the kernel error that rejected a gate is reported as one error; finiteness of numbers, as numbers are exact.
- Inverse.InverseIsInverse: gates whose own inverse is wrong; that single gates invert correctly is an assumption.
- Kernel.ApplyGateToMatrix: machine-word overflow inside the kernels, which the limit of 31 qubits on the circuit excludes, and the contiguous-layout error of the array type.
- BuilderBuilt.ExecBuilt: control operations constructed by hand and appended as values, whose parameter indices the code does not check.
- Graphs: regions are stored in the branch block instead of a side table, block labels are dropped, and a for header recognises its back edge by block position.
- Meaning preservation for graphs built by hand, for which validation accepts shapes that no tree produces.
- Operators, literals and casts inside classical expressions are symbols with a result type and arguments.
- Building circuits from value operations (other than the rebuild from a graph), assigning parameters other than through nested gates, and `control`.
- Standard gate matrices, symbolic matrices, parameter simplification and floating-point rounding.
- Adding qubits, changing the global phase, removing operations or replacing the circuit inside a callback.
- One-line gate methods, getters, labels, depth and DAG views, visualisation, devices, noise, results and the other language bindings.
