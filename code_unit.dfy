/**
 The code-unit out-of-bounds mutator. Given a compiled module and a list of mutation
 descriptors, it rewrites selected index-carrying instructions so that their index points
 just past the end of the table it addresses, and returns, for each rewrite, the error a
 bounds checker must report.
 */
module CodeUnit {
  import opened FileFormat
  import opened PropHelpers

  /** The offsets the descriptor strategy draws: `0..16`. */
  type Offset = o: nat | o < 16

  /** One requested mutation: which function, which instruction, and how far past the end. */
  datatype CodeUnitBoundsMutation = CodeUnitBoundsMutation(functionDef: PropIndex, bytecode: PropIndex, offset: Offset)

  /** The instruction selectors of a group (the `AsRef<PropIndex>` view of a descriptor). */
  function Selectors(group: seq<CodeUnitBoundsMutation>): (r: seq<PropIndex>)
    ensures |r| == |group|
    ensures forall j :: 0 <= j < |group| ==> r[j] == group[j].bytecode
  {
    seq(|group|, j requires 0 <= j < |group| => group[j].bytecode)
  }

  // ---------------------------------------------------------------------------------------
  // Instruction classifier

  /** Does `b` carry a bounds-checked index? An exhaustive match with no default arm. */
  predicate IsInteresting(b: Bytecode)
  {
    match b
    case LdAddr(_) | LdStr(_) | LdByteArray(_) | ImmBorrowField(_) | MutBorrowField(_)
      | Call(_, _) | Pack(_, _) | Unpack(_, _) | Exists(_, _) | BorrowGlobal(_, _)
      | MoveFrom(_, _) | MoveToSender(_, _) | BrTrue(_) | BrFalse(_) | Branch(_)
      | CopyLoc(_) | MoveLoc(_) | StLoc(_) | BorrowLoc(_) => true
    case FreezeRef | ReleaseRef | Pop | Ret | LdConst(_) | LdTrue | LdFalse | ReadRef | WriteRef
      | Add | Sub | Mul | Mod | Div | BitOr | BitAnd | Xor | Or | And | Not | Eq | Neq | Lt
      | Gt | Le | Ge | Abort | GetTxnGasUnitPrice | GetTxnMaxGasUnits | GetGasRemaining
      | GetTxnSenderAddress | CreateAccount | GetTxnSequenceNumber | GetTxnPublicKey => false
  }

  /** The variants whose rewrite keeps a second operand, reset to `NoTypeActuals`. */
  predicate HasTypeActuals(b: Bytecode)
  {
    b.Call? || b.Pack? || b.Unpack? || b.Exists? || b.BorrowGlobal? || b.MoveFrom? || b.MoveToSender?
  }

  // ---------------------------------------------------------------------------------------
  // Table-size oracle

  /** The lengths a function's rewrites are measured against, read before any rewrite. */
  datatype Snapshot = Snapshot(tables: Tables, codeLen: nat, localsLen: nat)

  /**
   How the new index is built and narrowed: a `TableIndex` into a module table (the
   `new_bytecode!` and `struct_bytecode!` rules), a `CodeOffset` (`code_bytecode!`) or a
   `LocalIndex` (`locals_bytecode!`).
   */
  datatype IndexFamily = TableIndexed | CodeIndexed | LocalsIndexed

  /** One oracle rule: the index family, the table kind reported, and that table's length. */
  datatype Rule = Rule(family: IndexFamily, kind: IndexKind, dstLen: nat)

  /** The length of the table of kind `kind` in the snapshot. */
  function TableLen(kind: IndexKind, snap: Snapshot): nat
    requires kind != IndexKind.FunctionDefinition
  {
    match kind
    case AddressPool => snap.tables.addressPool
    case StringPool => snap.tables.stringPool
    case ByteArrayPool => snap.tables.byteArrayPool
    case FieldDefinition => snap.tables.fieldDefs
    case FunctionHandle => snap.tables.functionHandles
    case StructDefinition => snap.tables.structDefs
    case CodeDefinition => snap.codeLen
    case LocalPool => snap.localsLen
  }

  /** The rule for each interesting variant, as the applier's match lists them. */
  function Oracle(b: Bytecode, snap: Snapshot): (rule: Rule)
    requires IsInteresting(b)
  {
    var t := snap.tables;
    match b
    case LdAddr(_) => Rule(TableIndexed, AddressPool, t.addressPool)
    case LdStr(_) => Rule(TableIndexed, StringPool, t.stringPool)
    case LdByteArray(_) => Rule(TableIndexed, ByteArrayPool, t.byteArrayPool)
    case ImmBorrowField(_) => Rule(TableIndexed, FieldDefinition, t.fieldDefs)
    case MutBorrowField(_) => Rule(TableIndexed, FieldDefinition, t.fieldDefs)
    case Call(_, _) => Rule(TableIndexed, FunctionHandle, t.functionHandles)
    case Pack(_, _) => Rule(TableIndexed, StructDefinition, t.structDefs)
    case Unpack(_, _) => Rule(TableIndexed, StructDefinition, t.structDefs)
    case Exists(_, _) => Rule(TableIndexed, StructDefinition, t.structDefs)
    case BorrowGlobal(_, _) => Rule(TableIndexed, StructDefinition, t.structDefs)
    case MoveFrom(_, _) => Rule(TableIndexed, StructDefinition, t.structDefs)
    case MoveToSender(_, _) => Rule(TableIndexed, StructDefinition, t.structDefs)
    case BrTrue(_) => Rule(CodeIndexed, CodeDefinition, snap.codeLen)
    case BrFalse(_) => Rule(CodeIndexed, CodeDefinition, snap.codeLen)
    case Branch(_) => Rule(CodeIndexed, CodeDefinition, snap.codeLen)
    case CopyLoc(_) => Rule(LocalsIndexed, LocalPool, snap.localsLen)
    case MoveLoc(_) => Rule(LocalsIndexed, LocalPool, snap.localsLen)
    case StLoc(_) => Rule(LocalsIndexed, LocalPool, snap.localsLen)
    case BorrowLoc(_) => Rule(LocalsIndexed, LocalPool, snap.localsLen)
    case FreezeRef | ReleaseRef | Pop | Ret | LdConst(_) | LdTrue | LdFalse | ReadRef | WriteRef
      | Add | Sub | Mul | Mod | Div | BitOr | BitAnd | Xor | Or | And | Not | Eq | Neq | Lt
      | Gt | Le | Ge | Abort | GetTxnGasUnitPrice | GetTxnMaxGasUnits | GetGasRemaining
      | GetTxnSenderAddress | CreateAccount | GetTxnSequenceNumber | GetTxnPublicKey =>
      assert false; Rule(TableIndexed, AddressPool, t.addressPool)
  }

  /** `b`'s variant with index `i`; the struct and handle forms get `NoTypeActuals`. */
  function WithIndex(b: Bytecode, i: nat): (r: Bytecode)
    requires IsInteresting(b)
  {
    var r := b.(idx := i);
    if HasTypeActuals(r) then r.(typeActuals := NoTypeActuals) else r
  }

  /** The cast applied to the new index before it is stored in the instruction. */
  function Narrow(family: IndexFamily, n: nat): nat
  {
    match family
    case TableIndexed => n % TableIndexLimit
    case CodeIndexed => n % CodeOffsetLimit
    case LocalsIndexed => n % LocalIndexLimit
  }

  /** The value the record reports: table indices are cast first, code and local ones are not. */
  function Recorded(family: IndexFamily, n: nat): nat
  {
    match family
    case TableIndexed => n % TableIndexLimit
    case CodeIndexed | LocalsIndexed => n
  }

  /**
   The one parameterised rule behind the four index-construction macros: the new index is
   the table length plus the offset; the instruction keeps its variant and gets the
   narrowed index, and the record reports the table kind, the position, the length as the
   bound, and the new index as the actual value.
   */
  function NewBytecode(b: Bytecode, rule: Rule, bytecodeIdx: nat, offset: Offset): (r: (Bytecode, Violation))
    requires IsInteresting(b)
  {
    var newIdx := rule.dstLen + offset;
    (WithIndex(b, Narrow(rule.family, newIdx)),
     CodeUnitIndexOutOfBounds(rule.kind, bytecodeIdx, rule.dstLen, Recorded(rule.family, newIdx)))
  }

  /** No table is so long that its length plus an offset wraps the width of its index type. */
  predicate NoWrap(snap: Snapshot)
  {
    var t := snap.tables;
    t.addressPool + 16 <= TableIndexLimit && t.stringPool + 16 <= TableIndexLimit &&
    t.byteArrayPool + 16 <= TableIndexLimit && t.functionHandles + 16 <= TableIndexLimit &&
    t.fieldDefs + 16 <= TableIndexLimit && t.structDefs + 16 <= TableIndexLimit &&
    snap.codeLen + 16 <= CodeOffsetLimit && snap.localsLen + 16 <= LocalIndexLimit
  }

  /**
   Rewrites the interesting instruction `b` found at `bytecodeIdx`: the applier's match
   dispatching to the oracle rule of `b`'s variant.
   */
  function Mutate(b: Bytecode, snap: Snapshot, bytecodeIdx: nat, offset: Offset): (r: (Bytecode, Violation))
    requires IsInteresting(b)
  {
    NewBytecode(b, Oracle(b, snap), bytecodeIdx, offset)
  }

  // ---------------------------------------------------------------------------------------
  // Mutation selector

  /** The positions of the interesting instructions of `code`, in increasing order. */
  function InterestingOffsets(code: seq<Bytecode>): (r: seq<nat>)
    ensures forall k :: 0 <= k < |r| ==> r[k] < |code| && IsInteresting(code[r[k]])
    ensures forall p :: 0 <= p < |code| && IsInteresting(code[p]) ==> p in r
    ensures forall i, j :: 0 <= i < j < |r| ==> r[i] < r[j]
  {
    if code == [] then []
    else
      var prefix := InterestingOffsets(code[..|code| - 1]);
      prefix + if IsInteresting(code[|code| - 1]) then [|code| - 1] else []
  }

  /** One rewrite: the instruction position and the offset past the end of its table. */
  datatype Step = Step(pos: nat, offset: Offset)

  function Min(a: nat, b: nat): nat
  {
    if a < b then a else b
  }

  /**
   The pairing of a function's descriptors with the picked interesting positions (the
   `zip` of the descriptors with `pick_slice_idxs`'s result): the j-th descriptor's offset
   goes to the j-th picked position.
   */
  function Plan(code: seq<Bytecode>, group: seq<CodeUnitBoundsMutation>): (steps: seq<Step>)
    ensures |steps| == Min(|group|, |InterestingOffsets(code)|)
    ensures forall j :: 0 <= j < |steps| ==>
      steps[j].pos < |code| && IsInteresting(code[steps[j].pos]) && steps[j].offset == group[j].offset
    ensures forall i, j :: 0 <= i < j < |steps| ==> steps[i].pos != steps[j].pos
  {
    var interesting := InterestingOffsets(code);
    var picks := PickSliceIdxs(|interesting|, Selectors(group));
    seq(Min(|group|, |picks|), j requires 0 <= j < Min(|group|, |picks|) =>
      Step(interesting[picks[j]], group[j].offset))
  }

  /** Steps that may be applied to `code`: interesting targets, none of them twice. */
  predicate ValidSteps(code: seq<Bytecode>, steps: seq<Step>)
  {
    (forall j :: 0 <= j < |steps| ==> steps[j].pos < |code| && IsInteresting(code[steps[j].pos])) &&
    (forall i, j :: 0 <= i < j < |steps| ==> steps[i].pos != steps[j].pos)
  }

  /** Some step targets position `p`. */
  predicate Targets(steps: seq<Step>, p: nat)
  {
    exists j :: 0 <= j < |steps| && steps[j].pos == p
  }

  /** `code` after the steps, applied one after the other. */
  function ApplySteps(code: seq<Bytecode>, steps: seq<Step>, snap: Snapshot): (r: seq<Bytecode>)
    requires ValidSteps(code, steps)
    ensures |r| == |code|
    decreases |steps|, 1
  {
    if steps == [] then code else ApplyLastStep(code, steps, snap)
  }

  /** The last step applied after all the others. */
  function ApplyLastStep(code: seq<Bytecode>, steps: seq<Step>, snap: Snapshot): (r: seq<Bytecode>)
    requires ValidSteps(code, steps) && steps != []
    ensures |r| == |code|
    decreases |steps|, 0
  {
    var s := steps[|steps| - 1];
    ApplySteps(code, steps[..|steps| - 1], snap)[s.pos := Mutate(code[s.pos], snap, s.pos, s.offset).0]
  }

  /** An instruction no step targets is left alone. */
  lemma {:induction false} ApplyStepsUntargeted(code: seq<Bytecode>, steps: seq<Step>, snap: Snapshot, p: nat)
    requires ValidSteps(code, steps) && p < |code| && !Targets(steps, p)
    ensures ApplySteps(code, steps, snap)[p] == code[p]
    decreases |steps|
  {
    if steps != [] {
      var prefix := steps[..|steps| - 1];
      ApplyStepsUntargeted(code, prefix, snap, p);
    }
  }

  /** A targeted instruction is the rewrite of its original, whatever the other steps do. */
  lemma {:induction false} ApplyStepsTargeted(code: seq<Bytecode>, steps: seq<Step>, snap: Snapshot, j: nat)
    requires ValidSteps(code, steps) && j < |steps|
    ensures ApplySteps(code, steps, snap)[steps[j].pos] ==
      Mutate(code[steps[j].pos], snap, steps[j].pos, steps[j].offset).0
    decreases |steps|
  {
    if j < |steps| - 1 {
      var prefix := steps[..|steps| - 1];
      assert prefix[j] == steps[j];
      ApplyStepsTargeted(code, prefix, snap, j);
    }
  }

  /** The records the steps produce, in step order, attributed to function `idx`. */
  function StepRecords(code: seq<Bytecode>, steps: seq<Step>, snap: Snapshot, idx: nat): (r: seq<VerificationError>)
    requires ValidSteps(code, steps)
    ensures |r| == |steps|
    decreases |steps|, 1
  {
    if steps == [] then [] else LastStepRecords(code, steps, snap, idx)
  }

  /** The records of all the steps, the last one's record coming last. */
  function LastStepRecords(code: seq<Bytecode>, steps: seq<Step>, snap: Snapshot, idx: nat): (r: seq<VerificationError>)
    requires ValidSteps(code, steps) && steps != []
    ensures |r| == |steps|
    decreases |steps|, 0
  {
    var s := steps[|steps| - 1];
    StepRecords(code, steps[..|steps| - 1], snap, idx) +
      [VerificationError(IndexKind.FunctionDefinition, idx, Mutate(code[s.pos], snap, s.pos, s.offset).1)]
  }

  /**
   Step `j` applied after steps `0..j`: its target still holds the original instruction,
   the code gains that instruction's rewrite and the records gain its record.
   */
  lemma RewriteStep(code: seq<Bytecode>, steps: seq<Step>, snap: Snapshot, idx: nat, j: nat)
    requires ValidSteps(code, steps) && j < |steps|
    ensures ValidSteps(code, steps[..j]) && ValidSteps(code, steps[..j + 1])
    ensures ApplySteps(code, steps[..j], snap)[steps[j].pos] == code[steps[j].pos]
    ensures ApplySteps(code, steps[..j + 1], snap) ==
      ApplySteps(code, steps[..j], snap)[steps[j].pos := Mutate(code[steps[j].pos], snap, steps[j].pos, steps[j].offset).0]
    ensures StepRecords(code, steps[..j + 1], snap, idx) == StepRecords(code, steps[..j], snap, idx) +
      [VerificationError(IndexKind.FunctionDefinition, idx, Mutate(code[steps[j].pos], snap, steps[j].pos, steps[j].offset).1)]
  {
    assert steps[..j + 1][..j] == steps[..j];
    ApplyStepsUntargeted(code, steps[..j], snap, steps[j].pos);
  }

  // ---------------------------------------------------------------------------------------
  // The whole engine, on values

  /** The descriptors whose function selector resolves to `f` among `n` functions, in order. */
  function Group(ms: seq<CodeUnitBoundsMutation>, n: nat, f: nat): (r: seq<CodeUnitBoundsMutation>)
    requires ms == [] || n > 0
    ensures |r| <= |ms|
  {
    if ms == [] then []
    else
      var m := ms[|ms| - 1];
      Group(ms[..|ms| - 1], n, f) + if m.functionDef.Index(n) == f then [m] else []
  }

  /** A group holds exactly the descriptors whose function selector resolves to its function. */
  lemma {:induction false} GroupMembers(ms: seq<CodeUnitBoundsMutation>, n: nat, f: nat)
    requires ms == [] || n > 0
    ensures forall m :: m in Group(ms, n, f) <==> m in ms && m.functionDef.Index(n) == f
    decreases |ms|
  {
    if ms != [] {
      var init := ms[..|ms| - 1];
      GroupMembers(init, n, f);
      assert ms == init + [ms[|ms| - 1]];
    }
  }

  /** What the engine needs of its inputs: one locals length per function, and a function
      to resolve against when there is a descriptor. */
  predicate EngineInput(localsLens: seq<nat>, codes: seq<seq<Bytecode>>, ms: seq<CodeUnitBoundsMutation>)
  {
    |localsLens| == |codes| && (ms == [] || |codes| > 0)
  }

  function FunctionSnapshot(tables: Tables, localsLens: seq<nat>, codes: seq<seq<Bytecode>>, f: nat): Snapshot
    requires |localsLens| == |codes| && f < |codes|
  {
    Snapshot(tables, |codes[f]|, localsLens[f])
  }

  /** Function `f`'s steps. */
  function FunctionPlan(codes: seq<seq<Bytecode>>, ms: seq<CodeUnitBoundsMutation>, f: nat): (steps: seq<Step>)
    requires f < |codes|
    ensures ValidSteps(codes[f], steps)
  {
    Plan(codes[f], Group(ms, |codes|, f))
  }

  /** Function `f`'s code after the engine has run. */
  function FunctionCode(tables: Tables, localsLens: seq<nat>, codes: seq<seq<Bytecode>>,
                        ms: seq<CodeUnitBoundsMutation>, f: nat): seq<Bytecode>
    requires EngineInput(localsLens, codes, ms) && f < |codes|
  {
    ApplySteps(codes[f], FunctionPlan(codes, ms, f), FunctionSnapshot(tables, localsLens, codes, f))
  }

  /** The records function `f` contributes. */
  function FunctionRecords(tables: Tables, localsLens: seq<nat>, codes: seq<seq<Bytecode>>,
                           ms: seq<CodeUnitBoundsMutation>, f: nat): seq<VerificationError>
    requires EngineInput(localsLens, codes, ms) && f < |codes|
  {
    StepRecords(codes[f], FunctionPlan(codes, ms, f), FunctionSnapshot(tables, localsLens, codes, f), f)
  }

  /** Every function's code after the engine has run. */
  function EngineCodes(tables: Tables, localsLens: seq<nat>, codes: seq<seq<Bytecode>>,
                       ms: seq<CodeUnitBoundsMutation>): (r: seq<seq<Bytecode>>)
    requires EngineInput(localsLens, codes, ms)
    ensures |r| == |codes|
  {
    seq(|codes|, f requires 0 <= f < |codes| => FunctionCode(tables, localsLens, codes, ms, f))
  }

  /** A function no descriptor chose keeps its code and adds no record. */
  lemma Unchosen(tables: Tables, localsLens: seq<nat>, codes: seq<seq<Bytecode>>,
                 ms: seq<CodeUnitBoundsMutation>, k: nat)
    requires EngineInput(localsLens, codes, ms) && k < |codes| && Group(ms, |codes|, k) == []
    ensures FunctionCode(tables, localsLens, codes, ms, k) == codes[k]
    ensures FunctionRecords(tables, localsLens, codes, ms, k) == []
  {
  }

  /** The records of every function, one list per function. */
  function EngineRecordLists(tables: Tables, localsLens: seq<nat>, codes: seq<seq<Bytecode>>,
                             ms: seq<CodeUnitBoundsMutation>): seq<seq<VerificationError>>
    requires EngineInput(localsLens, codes, ms)
  {
    seq(|codes|, f requires 0 <= f < |codes| => FunctionRecords(tables, localsLens, codes, ms, f))
  }

  /** The lists, one after the other. */
  function Flatten<T>(ss: seq<seq<T>>): seq<T>
  {
    if ss == [] then [] else Flatten(ss[..|ss| - 1]) + ss[|ss| - 1]
  }

  lemma FlattenStep<T>(ss: seq<seq<T>>, k: nat)
    requires k < |ss|
    ensures Flatten(ss[..k + 1]) == Flatten(ss[..k]) + ss[k]
  {
    assert ss[..k + 1][..k] == ss[..k];
  }

  /** All records, in ascending function order. */
  function EngineRecords(tables: Tables, localsLens: seq<nat>, codes: seq<seq<Bytecode>>,
                         ms: seq<CodeUnitBoundsMutation>): seq<VerificationError>
    requires EngineInput(localsLens, codes, ms)
  {
    Flatten(EngineRecordLists(tables, localsLens, codes, ms))
  }

  /**
   The codes of the first `k` functions after the run: what the loop over the functions
   has produced after `k` entries. The last of them is added two calls further down
   (`CodesBelowNext`, `CodesBelowLast`), so that the verifier's default unfolding of
   `CodesBelow` stops before any function's rewrites; `CodesBelowStep` takes one step.
   */
  function CodesBelow(tables: Tables, localsLens: seq<nat>, codes: seq<seq<Bytecode>>,
                      ms: seq<CodeUnitBoundsMutation>, k: nat): (r: seq<seq<Bytecode>>)
    requires EngineInput(localsLens, codes, ms) && k <= |codes|
    ensures |r| == k
    decreases k, 2
  {
    if k == 0 then [] else CodesBelowNext(tables, localsLens, codes, ms, k)
  }

  function CodesBelowNext(tables: Tables, localsLens: seq<nat>, codes: seq<seq<Bytecode>>,
                          ms: seq<CodeUnitBoundsMutation>, k: nat): (r: seq<seq<Bytecode>>)
    requires EngineInput(localsLens, codes, ms) && 0 < k <= |codes|
    ensures |r| == k
    decreases k, 1
  {
    CodesBelowLast(tables, localsLens, codes, ms, k)
  }

  function CodesBelowLast(tables: Tables, localsLens: seq<nat>, codes: seq<seq<Bytecode>>,
                          ms: seq<CodeUnitBoundsMutation>, k: nat): (r: seq<seq<Bytecode>>)
    requires EngineInput(localsLens, codes, ms) && 0 < k <= |codes|
    ensures |r| == k
    decreases k, 0
  {
    CodesBelow(tables, localsLens, codes, ms, k - 1) + [FunctionCode(tables, localsLens, codes, ms, k - 1)]
  }

  /** One more function's code. */
  lemma CodesBelowStep(tables: Tables, localsLens: seq<nat>, codes: seq<seq<Bytecode>>,
                       ms: seq<CodeUnitBoundsMutation>, k: nat)
    requires EngineInput(localsLens, codes, ms) && k < |codes|
    ensures CodesBelow(tables, localsLens, codes, ms, k + 1) ==
      CodesBelow(tables, localsLens, codes, ms, k) + [FunctionCode(tables, localsLens, codes, ms, k)]
  {
    assert CodesBelow(tables, localsLens, codes, ms, k + 1) == CodesBelowNext(tables, localsLens, codes, ms, k + 1);
    assert CodesBelowNext(tables, localsLens, codes, ms, k + 1) == CodesBelowLast(tables, localsLens, codes, ms, k + 1);
  }

  /** The records of the first `k` functions, in function order (unfolded like `CodesBelow`). */
  function RecordsBelow(tables: Tables, localsLens: seq<nat>, codes: seq<seq<Bytecode>>,
                        ms: seq<CodeUnitBoundsMutation>, k: nat): seq<VerificationError>
    requires EngineInput(localsLens, codes, ms) && k <= |codes|
    decreases k, 2
  {
    if k == 0 then [] else RecordsBelowNext(tables, localsLens, codes, ms, k)
  }

  function RecordsBelowNext(tables: Tables, localsLens: seq<nat>, codes: seq<seq<Bytecode>>,
                            ms: seq<CodeUnitBoundsMutation>, k: nat): seq<VerificationError>
    requires EngineInput(localsLens, codes, ms) && 0 < k <= |codes|
    decreases k, 1
  {
    RecordsBelowLast(tables, localsLens, codes, ms, k)
  }

  function RecordsBelowLast(tables: Tables, localsLens: seq<nat>, codes: seq<seq<Bytecode>>,
                            ms: seq<CodeUnitBoundsMutation>, k: nat): seq<VerificationError>
    requires EngineInput(localsLens, codes, ms) && 0 < k <= |codes|
    decreases k, 0
  {
    RecordsBelow(tables, localsLens, codes, ms, k - 1) + FunctionRecords(tables, localsLens, codes, ms, k - 1)
  }

  /** One more function's records. */
  lemma RecordsBelowStep(tables: Tables, localsLens: seq<nat>, codes: seq<seq<Bytecode>>,
                         ms: seq<CodeUnitBoundsMutation>, k: nat)
    requires EngineInput(localsLens, codes, ms) && k < |codes|
    ensures RecordsBelow(tables, localsLens, codes, ms, k + 1) ==
      RecordsBelow(tables, localsLens, codes, ms, k) + FunctionRecords(tables, localsLens, codes, ms, k)
  {
    assert RecordsBelow(tables, localsLens, codes, ms, k + 1) == RecordsBelowNext(tables, localsLens, codes, ms, k + 1);
    assert RecordsBelowNext(tables, localsLens, codes, ms, k + 1) == RecordsBelowLast(tables, localsLens, codes, ms, k + 1);
  }

  /** The loop's codes after `k` entries are the run's codes of those functions. */
  lemma {:induction false} CodesBelowEngine(tables: Tables, localsLens: seq<nat>, codes: seq<seq<Bytecode>>,
                                            ms: seq<CodeUnitBoundsMutation>, k: nat)
    requires EngineInput(localsLens, codes, ms) && k <= |codes|
    ensures CodesBelow(tables, localsLens, codes, ms, k) == EngineCodes(tables, localsLens, codes, ms)[..k]
  {
    if k > 0 {
      CodesBelowEngine(tables, localsLens, codes, ms, k - 1);
      CodesBelowStep(tables, localsLens, codes, ms, k - 1);
      var e := EngineCodes(tables, localsLens, codes, ms);
      assert e[..k] == e[..k - 1] + [e[k - 1]];
    }
  }

  /** The loop's records after `k` entries are the run's records of those functions. */
  lemma {:induction false} RecordsBelowEngine(tables: Tables, localsLens: seq<nat>, codes: seq<seq<Bytecode>>,
                                              ms: seq<CodeUnitBoundsMutation>, k: nat)
    requires EngineInput(localsLens, codes, ms) && k <= |codes|
    ensures RecordsBelow(tables, localsLens, codes, ms, k) == Flatten(EngineRecordLists(tables, localsLens, codes, ms)[..k])
  {
    if k > 0 {
      RecordsBelowEngine(tables, localsLens, codes, ms, k - 1);
      RecordsBelowStep(tables, localsLens, codes, ms, k - 1);
      FlattenStep(EngineRecordLists(tables, localsLens, codes, ms), k - 1);
    }
  }

  /** Replacing entry `k` extends the replaced prefix by one and leaves the rest after it. */
  lemma ReplaceStep<T>(s: seq<T>, k: nat, x: T)
    requires k < |s|
    ensures s[k := x][..k + 1] == s[..k] + [x]
    ensures s[k := x][k + 1..] == s[k + 1..]
  {
  }

  // ---------------------------------------------------------------------------------------
  // The engine, in place

  /** The grouping loop of `apply`: each function index chosen by a descriptor maps to the
      descriptors that chose it, in their original order. */
  method GroupByFunction(mutations: seq<CodeUnitBoundsMutation>, functionDefLen: nat)
    returns (mutationMap: map<nat, seq<CodeUnitBoundsMutation>>)
    requires mutations == [] || functionDefLen > 0
    ensures forall f :: f in mutationMap ==> mutationMap[f] == Group(mutations, functionDefLen, f) != []
    ensures forall f :: f !in mutationMap ==> Group(mutations, functionDefLen, f) == []
  {
    mutationMap := map[];
    var i := 0;
    while i < |mutations|
      invariant 0 <= i <= |mutations|
      invariant forall f :: f in mutationMap ==> mutationMap[f] == Group(mutations[..i], functionDefLen, f) != []
      invariant forall f :: f !in mutationMap ==> Group(mutations[..i], functionDefLen, f) == []
    {
      var mutation := mutations[i];
      var pickedIdx := mutation.functionDef.Index(functionDefLen);
      var entry := if pickedIdx in mutationMap then mutationMap[pickedIdx] else [];
      mutationMap := mutationMap[pickedIdx := entry + [mutation]];
      assert mutations[..i + 1][..i] == mutations[..i];
      i := i + 1;
    }
    assert mutations[..i] == mutations;
  }

  /** The lengths function `f`'s rewrites are measured against, read from the module. */
  function SnapshotOf(m: CompiledModule, f: nat): Snapshot
    reads m
    requires m.Valid() && f < |m.functionDefs|
  {
    Snapshot(m.TableLengths(), m.functionDefs[f].code.code.Length,
             m.localsSignatures[m.functionDefs[f].code.locals])
  }

  /** One run of the mutator over one module; the descriptors are consumed by `Apply`. */
  class ApplyCodeUnitBoundsContext {
    const compiled: CompiledModule
    const mutations: seq<CodeUnitBoundsMutation>

    constructor (compiled: CompiledModule, mutations: seq<CodeUnitBoundsMutation>)
      ensures this.compiled == compiled && this.mutations == mutations
    {
      this.compiled := compiled;
      this.mutations := mutations;
    }

    /**
     Groups the descriptors by function, rewrites each function's picked instructions in
     place, in ascending function order, and returns all records in that order.
     */
    method Apply() returns (results: seq<VerificationError>)
      requires compiled.Valid()
      requires mutations == [] || |compiled.functionDefs| > 0
      modifies compiled.Arrays()
      ensures compiled.Codes() ==
        EngineCodes(compiled.TableLengths(), compiled.LocalsLens(), old(compiled.Codes()), mutations)
      ensures results ==
        EngineRecords(compiled.TableLengths(), compiled.LocalsLens(), old(compiled.Codes()), mutations)
    {
      ghost var codes := compiled.Codes();
      ghost var tables := compiled.TableLengths();
      ghost var lens := compiled.LocalsLens();

      var mutationMap := GroupByFunction(mutations, |compiled.functionDefs|);
      results := ApplyGroups(mutationMap, tables, lens, codes);

      CodesBelowEngine(tables, lens, codes, mutations, |codes|);
      RecordsBelowEngine(tables, lens, codes, mutations, |codes|);
      assert EngineCodes(tables, lens, codes, mutations)[..|codes|] == EngineCodes(tables, lens, codes, mutations);
      assert EngineRecordLists(tables, lens, codes, mutations)[..|codes|] == EngineRecordLists(tables, lens, codes, mutations);
    }

    /**
     The loop over the grouped descriptors, in ascending function order: each function is
     rewritten by its group, or skipped when no descriptor chose it, and its records are
     appended.
     */
    method ApplyGroups(mutationMap: map<nat, seq<CodeUnitBoundsMutation>>,
                       ghost tables: Tables, ghost lens: seq<nat>, ghost codes: seq<seq<Bytecode>>)
      returns (results: seq<VerificationError>)
      requires compiled.Valid() && EngineInput(lens, codes, mutations) && |codes| == |compiled.functionDefs|
      requires codes == compiled.Codes() && tables == compiled.TableLengths() && lens == compiled.LocalsLens()
      requires forall f :: f in mutationMap ==> mutationMap[f] == Group(mutations, |codes|, f)
      requires forall f :: f !in mutationMap ==> Group(mutations, |codes|, f) == []
      modifies compiled.Arrays()
      ensures compiled.Codes() == CodesBelow(tables, lens, codes, mutations, |codes|)
      ensures results == RecordsBelow(tables, lens, codes, mutations, |codes|)
    {
      var functionDefLen := |compiled.functionDefs|;
      results := [];
      var idx := 0;
      while idx < functionDefLen
        invariant 0 <= idx <= functionDefLen
        invariant |compiled.Codes()| == functionDefLen
        invariant compiled.Codes()[..idx] == CodesBelow(tables, lens, codes, mutations, idx)
        invariant compiled.Codes()[idx..] == codes[idx..]
        invariant results == RecordsBelow(tables, lens, codes, mutations, idx)
      {
        var chosen := idx in mutationMap;
        var group := if chosen then mutationMap[idx] else [];
        assert compiled.functionDefs[idx].code.code in compiled.Arrays();
        var records := ApplyEntry(idx, chosen, group, tables, lens, codes);
        results := results + records;
        idx := idx + 1;
      }
      assert compiled.Codes()[..idx] == compiled.Codes();
    }

    /**
     One entry of the loop over the grouped descriptors: function `idx` is rewritten when
     some descriptor chose it (`chosen`, with its group), and is skipped otherwise.
     */
    method ApplyEntry(idx: nat, chosen: bool, group: seq<CodeUnitBoundsMutation>,
                      ghost tables: Tables, ghost lens: seq<nat>, ghost codes: seq<seq<Bytecode>>)
      returns (records: seq<VerificationError>)
      requires compiled.Valid() && EngineInput(lens, codes, mutations) && idx < |codes| == |compiled.functionDefs|
      requires tables == compiled.TableLengths() && lens == compiled.LocalsLens()
      requires compiled.Codes()[..idx] == CodesBelow(tables, lens, codes, mutations, idx)
      requires compiled.Codes()[idx..] == codes[idx..]
      requires chosen ==> group == Group(mutations, |codes|, idx)
      requires !chosen ==> Group(mutations, |codes|, idx) == []
      modifies compiled.functionDefs[idx].code.code
      ensures compiled.Codes()[..idx + 1] == CodesBelow(tables, lens, codes, mutations, idx + 1)
      ensures compiled.Codes()[idx + 1..] == codes[idx + 1..]
      ensures RecordsBelow(tables, lens, codes, mutations, idx) + records ==
        RecordsBelow(tables, lens, codes, mutations, idx + 1)
    {
      CodesBelowStep(tables, lens, codes, mutations, idx);
      RecordsBelowStep(tables, lens, codes, mutations, idx);
      ReplaceStep(compiled.Codes(), idx, FunctionCode(tables, lens, codes, mutations, idx));
      assert compiled.Codes()[idx..][0] == codes[idx..][0];
      assert compiled.Codes()[idx..][1..] == compiled.Codes()[idx + 1..];
      if chosen {
        assert SnapshotOf(compiled, idx) == FunctionSnapshot(tables, lens, codes, idx);
        records := ApplyOne(idx, group);
      } else {
        Unchosen(tables, lens, codes, mutations, idx);
        records := [];
      }
    }

    /**
     Function `idx`'s part of the run: reads every length the rewrites are measured
     against, pairs the group's descriptors with picked interesting positions, and rewrites
     those positions of its code in place; no other function's code changes.
     */
    method ApplyOne(idx: nat, mutations: seq<CodeUnitBoundsMutation>) returns (results: seq<VerificationError>)
      requires compiled.Valid() && idx < |compiled.functionDefs|
      modifies compiled.functionDefs[idx].code.code
      ensures compiled.Codes() == old(compiled.Codes())[idx :=
        ApplySteps(old(compiled.Codes())[idx], Plan(old(compiled.Codes())[idx], mutations), SnapshotOf(compiled, idx))]
      ensures results ==
        StepRecords(old(compiled.Codes())[idx], Plan(old(compiled.Codes())[idx], mutations), SnapshotOf(compiled, idx), idx)
    {
      var code := compiled.functionDefs[idx].code.code;
      var codeLen := code.Length;
      var localsLen := compiled.localsSignatures[compiled.functionDefs[idx].code.locals];

      // The interesting positions, the picks among them, and their pairing with the descriptors.
      var steps := Plan(code[..], mutations);

      // Every length is read before the first rewrite.
      var tables := Tables(compiled.addressPoolLen, compiled.stringPoolLen, compiled.byteArrayPoolLen,
                           compiled.functionHandlesLen, compiled.fieldDefsLen, compiled.structDefsLen);
      var snap := Snapshot(tables, codeLen, localsLen);

      label before:
      results := Rewrite(code, steps, snap, idx);
      forall f | 0 <= f < |compiled.functionDefs| && f != idx
        ensures unchanged@before(compiled.functionDefs[f].code.code)
      {
        assert compiled.SeparateCode(f, idx);
      }
      compiled.OneCodeChanged@before(idx);
    }
  }

  /**
   The rewriting pass over one function's code: each step's instruction is matched on its
   variant and replaced in place by its out-of-bounds rewrite, and the step's record is
   appended, in step order.
   */
  method Rewrite(code: array<Bytecode>, steps: seq<Step>, snap: Snapshot, idx: nat)
    returns (results: seq<VerificationError>)
    requires ValidSteps(code[..], steps)
    modifies code
    ensures code[..] == ApplySteps(old(code[..]), steps, snap)
    ensures results == StepRecords(old(code[..]), steps, snap, idx)
  {
    ghost var original := code[..];
    results := [];
    var j := 0;
    while j < |steps|
      invariant 0 <= j <= |steps|
      invariant code[..] == ApplySteps(original, steps[..j], snap)
      invariant results == StepRecords(original, steps[..j], snap, idx)
    {
      var bytecodeIdx := steps[j].pos;
      var offset := steps[j].offset;
      RewriteStep(original, steps, snap, idx, j);
      var b := code[bytecodeIdx];
      if !IsInteresting(b) {
        // The panic arm: an interesting position always holds an interesting instruction.
        assert false;
      }
      var mutated := Mutate(b, snap, bytecodeIdx, offset);
      code[bytecodeIdx] := mutated.0;
      results := results + [VerificationError(IndexKind.FunctionDefinition, idx, mutated.1)];
      j := j + 1;
    }
    assert steps[..j] == steps;
  }
}
