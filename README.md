# Code-unit bounds mutator of the Move bytecode verifier's invalid-mutation generator

This project covers the part of Libra's `invalid_mutations` crate that makes the code of a
compiled module point out of bounds. The input is a mutable compiled module and a list of
mutation descriptors. Each descriptor has a function selector, an instruction selector and
an offset in `0..16`.

The descriptors are grouped by the function their selector resolves to. Groups are handled
in ascending function index. For each function:
- the mutator collects the positions of its *interesting* instructions (the 19 variants
  that carry a table, code or locals index);
- it picks distinct positions among them (`pick_slice_idxs`);
- it rewrites each picked instruction in place, so that its index is the length of the
  addressed table plus the descriptor's offset;
- it emits one `VerificationError` per rewrite. Each record is tagged
  `FunctionDefinition` with the function's index. Its violation is
  `CodeUnitIndexOutOfBounds(kind, position, bound, actual)`.

The model has four modules:
- `FileFormat` (`file_format.dfy`) holds:
  - the instruction set;
  - the index kinds;
  - the violation and error records;
  - the widths of `TableIndex` (u16), `CodeOffset` (u16) and `LocalIndex` (u8);
  - the class `CompiledModule`. Pools are kept as lengths. Each function's instructions
    are an `array<Bytecode>` owned by that function.
- `PropHelpers` (`proptest_helpers.dfy`) holds the two selection helpers the mutator calls,
  `PropIndex::index` and `pick_slice_idxs`. Each has a stand-in body. The rest of the
  model uses only their contracts: `index(len) < len`, and there are exactly
  `min(#selectors, max)` picks, each below `max`, no two alike.
- `CodeUnit` (`code_unit.dfy`) holds:
  - the classifier `IsInteresting`;
  - the per-variant oracle. It gives the table kind and the length that is read from
    the module before any rewrite;
  - the four index-construction macros as one rule, `NewBytecode`. It is parameterised by
    the index family, and that family decides which casts apply;
  - a value-level specification of a whole run (`EngineCodes`, `EngineRecords`);
  - the in-place engine. This is the class `ApplyCodeUnitBoundsContext`, whose `Apply`
    and `ApplyOne` methods are proved against that specification, and the rewriting
    loop `Rewrite`.
- `CodeUnitProperties` (`code_unit_properties.dfy`) proves what the mutator promises about
  those definitions.

Two modelling choices affect what is proved:
- The casts are modelled explicitly.
  - The pool, field, handle and struct rules cast `len + offset` to `TableIndex`
    before building both the instruction and the record.
  - The branch and locals rules cast only the instruction's operand; the record keeps
    the uncast value.
  - The out-of-bounds facts therefore carry the premise `NoWrap` (no length plus 16
    reaches its index width).
  - `LocalsWrapIntoBounds` shows a concrete rewrite that lands back in bounds when that
    premise fails.
- Every bound is the length read before the first rewrite. The methods' contracts
  express this by stating the results in terms of `old(compiled.Codes())` and a
  `Snapshot` of the lengths.

## Model

| member | source | states |
|---|---|---|
| FileFormat.CompiledModule.OneCodeChanged | language/bytecode_verifier/invalid_mutations/src/bounds/code_unit.rs:162 | when a function's rewrites touch only its own instruction array, the module's codes differ from before in that function's entry alone |
| PropHelpers.PropIndex.Index | language/bytecode_verifier/invalid_mutations/src/bounds/code_unit.rs:133 | resolving a function selector against a non-zero number of functions yields an existing function index |
| PropHelpers.PickSliceIdxs | language/bytecode_verifier/invalid_mutations/src/bounds/code_unit.rs:166 | the picks are `min(#selectors, max)` positions, each below `max`, pairwise distinct |
| CodeUnit.Selectors | language/bytecode_verifier/invalid_mutations/src/bounds/code_unit.rs:38-43 | the selector list handed to the picker is each descriptor's instruction selector, in descriptor order |
| CodeUnit.InterestingOffsets | language/bytecode_verifier/invalid_mutations/src/bounds/code_unit.rs:163-165 | exactly the positions of the interesting instructions, strictly increasing |
| CodeUnit.Plan | language/bytecode_verifier/invalid_mutations/src/bounds/code_unit.rs:163-181 | the zip of descriptors with picks has `min(#descriptors, #interesting)` pairs; each targets an interesting position and carries its descriptor's offset; no position is targeted twice |
| CodeUnit.ApplySteps | language/bytecode_verifier/invalid_mutations/src/bounds/code_unit.rs:176-289 | rewriting keeps the code's length |
| CodeUnit.ApplyStepsUntargeted | language/bytecode_verifier/invalid_mutations/src/bounds/code_unit.rs:289 | an instruction no step targets is left as it was |
| CodeUnit.ApplyStepsTargeted | language/bytecode_verifier/invalid_mutations/src/bounds/code_unit.rs:184-289 | a targeted position ends up holding the rewrite of its original instruction |
| CodeUnit.StepRecords | language/bytecode_verifier/invalid_mutations/src/bounds/code_unit.rs:176-297 | one record per rewrite, in step order |
| CodeUnit.RewriteStep | language/bytecode_verifier/invalid_mutations/src/bounds/code_unit.rs:180-295 | each iteration finds the original instruction at its target, replaces it with its rewrite and appends its record |
| CodeUnit.Group | language/bytecode_verifier/invalid_mutations/src/bounds/code_unit.rs:128-138 | a function's group is no longer than the descriptor list |
| CodeUnit.GroupMembers | language/bytecode_verifier/invalid_mutations/src/bounds/code_unit.rs:128-138 | a descriptor is in function f's group exactly when its function selector resolves to f |
| CodeUnit.FunctionPlan | language/bytecode_verifier/invalid_mutations/src/bounds/code_unit.rs:162-181 | a function's steps are applicable to its original code (interesting targets, all distinct) |
| CodeUnit.EngineCodes | language/bytecode_verifier/invalid_mutations/src/bounds/code_unit.rs:124-146 | a run yields exactly one code per function |
| CodeUnit.CodesBelow | language/bytecode_verifier/invalid_mutations/src/bounds/code_unit.rs:140-145 | after the first k functions have been processed there are k result codes |
| CodeUnit.CodesBelowStep | language/bytecode_verifier/invalid_mutations/src/bounds/code_unit.rs:142-143 | processing function k appends that function's resulting code to the codes of the functions before it |
| CodeUnit.RecordsBelowStep | language/bytecode_verifier/invalid_mutations/src/bounds/code_unit.rs:142-143 | processing function k appends that function's records to the records of the functions before it |
| CodeUnit.CodesBelowEngine | language/bytecode_verifier/invalid_mutations/src/bounds/code_unit.rs:140-145 | the codes after the first k functions are the first k codes of the whole run |
| CodeUnit.RecordsBelowEngine | language/bytecode_verifier/invalid_mutations/src/bounds/code_unit.rs:140-145 | the records after the first k functions are the first k functions' record lists, concatenated in function order |
| CodeUnit.Unchosen | language/bytecode_verifier/invalid_mutations/src/bounds/code_unit.rs:142 | a function absent from the map keeps its code and contributes no record |
| CodeUnit.FlattenStep | language/bytecode_verifier/invalid_mutations/src/bounds/code_unit.rs:143 | extending the results by function `k`'s records appends them at the end |
| CodeUnit.GroupByFunction | language/bytecode_verifier/invalid_mutations/src/bounds/code_unit.rs:127-138 | the map's entry for each function is its non-empty group in descriptor order; functions without descriptors have no entry |
| CodeUnit.ApplyCodeUnitBoundsContext.constructor | language/bytecode_verifier/invalid_mutations/src/bounds/code_unit.rs:117-122 | the context holds the module and the descriptor list |
| CodeUnit.ApplyCodeUnitBoundsContext.Apply | language/bytecode_verifier/invalid_mutations/src/bounds/code_unit.rs:124-146 | the module's codes become `EngineCodes` and the result is `EngineRecords` of the pre-run codes and lengths |
| CodeUnit.ApplyCodeUnitBoundsContext.ApplyGroups | language/bytecode_verifier/invalid_mutations/src/bounds/code_unit.rs:140-145 | the loop over the functions in ascending order leaves every function holding its resulting code and returns all records in function order |
| CodeUnit.ApplyCodeUnitBoundsContext.ApplyEntry | language/bytecode_verifier/invalid_mutations/src/bounds/code_unit.rs:142-144 | one loop iteration: function idx's code becomes its result (unchanged when it has no group), the later functions still hold their original code, and its records are appended |
| CodeUnit.ApplyCodeUnitBoundsContext.ApplyOne | language/bytecode_verifier/invalid_mutations/src/bounds/code_unit.rs:148-298 | only function `idx`'s code changes; it becomes its plan applied with lengths read before the first rewrite, and the records are that plan's records |
| CodeUnit.Rewrite | language/bytecode_verifier/invalid_mutations/src/bounds/code_unit.rs:176-297 | the array becomes the steps applied to its original contents, and the records are the steps' records; the panic arm is unreachable |
| CodeUnitProperties.InterestingIffIndexed | language/bytecode_verifier/invalid_mutations/src/bounds/code_unit.rs:301-331 | an instruction is interesting exactly when it carries an index operand |
| CodeUnitProperties.MutateKeepsVariant | language/bytecode_verifier/invalid_mutations/src/bounds/code_unit.rs:67-82 | a rewrite keeps the variant, stays interesting, and gives the struct and handle forms `NO_TYPE_ACTUALS` |
| CodeUnitProperties.MutateKind | language/bytecode_verifier/invalid_mutations/src/bounds/code_unit.rs:184-275 | the record's table kind for each variant: both directions for every kind, never `FunctionDefinition` |
| CodeUnitProperties.MutateRecord | language/bytecode_verifier/invalid_mutations/src/bounds/code_unit.rs:51-114 | the record has the position, the pre-rewrite table length as bound, and `bound + offset` as actual (cast to `TableIndex` for module tables, uncast for code and locals); the new operand is the actual value cast to its index width |
| CodeUnitProperties.MutateOutOfBounds | language/bytecode_verifier/invalid_mutations/src/bounds/code_unit.rs:28-35 | when nothing wraps, `bound <= actual < bound + 16` and the new operand equals the actual value, so it is out of bounds |
| CodeUnitProperties.LocalsWrapIntoBounds | language/bytecode_verifier/invalid_mutations/src/bounds/code_unit.rs:103-111 | with 250 locals and offset 10, the instruction becomes `CopyLoc(4)` while the record reports 260 |
| CodeUnitProperties.StepRecordAt | language/bytecode_verifier/invalid_mutations/src/bounds/code_unit.rs:291-295 | the j-th record is step j's violation, tagged `FunctionDefinition` with the function's index |
| CodeUnitProperties.StepRecordFacts | language/bytecode_verifier/invalid_mutations/src/bounds/code_unit.rs:180-295 | the k-th record names the function, the step's position and the table length as bound; if nothing wraps, the actual value is the bound plus the step's offset |
| CodeUnitProperties.FunctionRecordsFacts | language/bytecode_verifier/invalid_mutations/src/bounds/code_unit.rs:154-297 | a function's records number `min(#group, #interesting)`, name the function, sit at distinct interesting positions and are bounded by the pre-rewrite lengths; if nothing wraps, each is out of bounds by its descriptor's offset |
| CodeUnitProperties.FunctionCodeFacts | language/bytecode_verifier/invalid_mutations/src/bounds/code_unit.rs:163-289 | the code keeps its length; only targeted, interesting positions change; non-interesting ones never change; interesting ones keep their variant |
| CodeUnitProperties.GroupPartition | language/bytecode_verifier/invalid_mutations/src/bounds/code_unit.rs:133-137 | every descriptor lands in the group of the existing function its selector resolves to, and in no other group |
| CodeUnitProperties.UnchosenUnchanged | language/bytecode_verifier/invalid_mutations/src/bounds/code_unit.rs:142-166 | a function with no descriptors, or with no interesting instruction, keeps its code and yields no records |
| CodeUnitProperties.RecordsFor | language/bytecode_verifier/invalid_mutations/src/bounds/code_unit.rs:291-295 | selecting the records attributed to a function yields only that function's records |
| CodeUnitProperties.RecordsForConcat | language/bytecode_verifier/invalid_mutations/src/bounds/code_unit.rs:143 | selecting a function's records distributes over extending the results |
| CodeUnitProperties.RecordsForUniform | language/bytecode_verifier/invalid_mutations/src/bounds/code_unit.rs:291-295 | from one function's record list, selecting function f gives the whole list if f is that function, and nothing otherwise |
| CodeUnitProperties.FlattenOrdered | language/bytecode_verifier/invalid_mutations/src/bounds/code_unit.rs:142-145 | concatenating per-function lists in function order gives records with ascending, existing function indices |
| CodeUnitProperties.FlattenRecordsFor | language/bytecode_verifier/invalid_mutations/src/bounds/code_unit.rs:142-145 | after the first k functions, the records of function f are that function's list if f < k, otherwise none |
| CodeUnitProperties.EngineRecordListsIndexed | language/bytecode_verifier/invalid_mutations/src/bounds/code_unit.rs:291-295 | every record in function f's list is tagged `FunctionDefinition` with index f |
| CodeUnitProperties.EngineRecordsOrdered | language/bytecode_verifier/invalid_mutations/src/bounds/code_unit.rs:124-146 | all records of a run are tagged `FunctionDefinition`, name existing functions, and come in ascending function order |
| CodeUnitProperties.EngineRecordsOfFunction | language/bytecode_verifier/invalid_mutations/src/bounds/code_unit.rs:124-146 | the run's records for function f are exactly f's records, in order (none for an index outside the module) |
| CodeUnitProperties.CountBelowStep | language/bytecode_verifier/invalid_mutations/src/bounds/code_unit.rs:127-138 | the descriptors resolving below k + 1 are those resolving below k plus function k's group |
| CodeUnitProperties.CountBelowZero | language/bytecode_verifier/invalid_mutations/src/bounds/code_unit.rs:133 | no descriptor resolves below function 0 |
| CodeUnitProperties.CountBelowAll | language/bytecode_verifier/invalid_mutations/src/bounds/code_unit.rs:133 | every descriptor resolves below the number of functions |
| CodeUnitProperties.RecordsWithinGroups | language/bytecode_verifier/invalid_mutations/src/bounds/code_unit.rs:140-145 | the records of the first k functions are no more than the descriptors resolving below k |
| CodeUnitProperties.EngineRecordsAtMostDescriptors | language/bytecode_verifier/invalid_mutations/src/bounds/code_unit.rs:124-146 | a run emits at most one record per descriptor |

## Left out

- `storage/storage_client/src/lib.rs` is not part of this model. It is a network client facade (channels, protobuf conversion, metrics, futures, random connection choice) with no bearing on the mutator.
- The proptest `Strategy` for descriptors (lines 27-35) is left out. Only its range is kept, as the type `Offset` (`0 <= offset < 16`).
- The `AsRef<PropIndex>` impl (lines 38-43) appears only as `Selectors`, the view the picker receives.
- PropHelpers.PickSliceIdxs: the body is a deterministic stand-in, because the real selection policy is defined outside this crate. Nothing else relies on more than its contract.
- PropHelpers.PropIndex.Index: the body is a stand-in (`raw % len`). The model relies only on the result being below `len`.
- The `Option` take/expect guard on the descriptor list (lines 48, 128-131) is left out. The list is a plain sequence, read once by `Apply`. The `expect` cannot fail in the source either.
- Table contents are left out. Pools, handles and definitions appear only as their lengths, and each locals signature only as its length.
- The widths of `TableIndex`, `CodeOffset` and `LocalIndex` come from the VM's file format, which is not part of this model. They are the constants in `FileFormat`.
- Iterating the `BTreeMap` in key order is modelled as a loop over `0..function_defs.len()` that skips absent keys. This visits the same keys in the same ascending order.
- The panic message of the non-interesting arm (line 285) is left out. The arm is proved unreachable (`assert false` in `Rewrite`).
- CodeUnitProperties.MutateOutOfBounds: the out-of-bounds guarantee is proved only under `NoWrap`. Without it the casts can wrap the index back into bounds; `LocalsWrapIntoBounds` shows such a case.
- The model relies on `pick_slice_idxs` returning distinct picks. Only under that contract does every step see its target's original instruction.
- Case where the module has no functions but some descriptors: the source's `index(0)` is undefined there. `Apply` requires at least one function whenever there are descriptors.
