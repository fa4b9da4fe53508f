/**
 The parts of the Move VM's file format that the code-unit bounds mutator reads and writes:
 the instruction set, the index kinds used in error records, the error records themselves,
 the widths of the index types, and a mutable compiled module of which only the table
 lengths and the per-function code units matter.
 */
module FileFormat {

  /** Width of `TableIndex` (u16): pool, field, struct and handle indices. */
  const TableIndexLimit: nat := 0x1_0000
  /** Width of `CodeOffset` (u16): branch targets. */
  const CodeOffsetLimit: nat := 0x1_0000
  /** Width of `LocalIndex` (u8): local slots. */
  const LocalIndexLimit: nat := 0x100

  /** The `LocalsSignatureIndex` used as "no type actuals" in Call/Pack/Unpack/... */
  const NoTypeActuals: nat := 0

  /**
   The instruction set. Every variant that carries a table-relative index names that
   operand `idx`; the struct and handle forms carry a second operand, `typeActuals`.
   */
  datatype Bytecode =
    | FreezeRef
    | ReleaseRef
    | Pop
    | Ret
    | BrTrue(idx: nat)
    | BrFalse(idx: nat)
    | Branch(idx: nat)
    | LdConst(value: nat)
    | LdStr(idx: nat)
    | LdByteArray(idx: nat)
    | LdAddr(idx: nat)
    | LdTrue
    | LdFalse
    | CopyLoc(idx: nat)
    | MoveLoc(idx: nat)
    | StLoc(idx: nat)
    | BorrowLoc(idx: nat)
    | ReadRef
    | WriteRef
    | MutBorrowField(idx: nat)
    | ImmBorrowField(idx: nat)
    | Call(idx: nat, typeActuals: nat)
    | Pack(idx: nat, typeActuals: nat)
    | Unpack(idx: nat, typeActuals: nat)
    | Add
    | Sub
    | Mul
    | Mod
    | Div
    | BitOr
    | BitAnd
    | Xor
    | Or
    | And
    | Not
    | Eq
    | Neq
    | Lt
    | Gt
    | Le
    | Ge
    | Abort
    | GetTxnGasUnitPrice
    | GetTxnMaxGasUnits
    | GetGasRemaining
    | GetTxnSenderAddress
    | Exists(idx: nat, typeActuals: nat)
    | BorrowGlobal(idx: nat, typeActuals: nat)
    | MoveFrom(idx: nat, typeActuals: nat)
    | MoveToSender(idx: nat, typeActuals: nat)
    | CreateAccount
    | GetTxnSequenceNumber
    | GetTxnPublicKey

  datatype Option<T> = None | Some(value: T)

  /** The position of `b`'s variant in the declaration of `Bytecode`: two instructions have
      the same discriminant exactly when they are the same variant. */
  function Discriminant(b: Bytecode): nat
  {
    match b
    case FreezeRef => 0
    case ReleaseRef => 1
    case Pop => 2
    case Ret => 3
    case BrTrue(_) => 4
    case BrFalse(_) => 5
    case Branch(_) => 6
    case LdConst(_) => 7
    case LdStr(_) => 8
    case LdByteArray(_) => 9
    case LdAddr(_) => 10
    case LdTrue => 11
    case LdFalse => 12
    case CopyLoc(_) => 13
    case MoveLoc(_) => 14
    case StLoc(_) => 15
    case BorrowLoc(_) => 16
    case ReadRef => 17
    case WriteRef => 18
    case MutBorrowField(_) => 19
    case ImmBorrowField(_) => 20
    case Call(_, _) => 21
    case Pack(_, _) => 22
    case Unpack(_, _) => 23
    case Add => 24
    case Sub => 25
    case Mul => 26
    case Mod => 27
    case Div => 28
    case BitOr => 29
    case BitAnd => 30
    case Xor => 31
    case Or => 32
    case And => 33
    case Not => 34
    case Eq => 35
    case Neq => 36
    case Lt => 37
    case Gt => 38
    case Le => 39
    case Ge => 40
    case Abort => 41
    case GetTxnGasUnitPrice => 42
    case GetTxnMaxGasUnits => 43
    case GetGasRemaining => 44
    case GetTxnSenderAddress => 45
    case Exists(_, _) => 46
    case BorrowGlobal(_, _) => 47
    case MoveFrom(_, _) => 48
    case MoveToSender(_, _) => 49
    case CreateAccount => 50
    case GetTxnSequenceNumber => 51
    case GetTxnPublicKey => 52
  }

  /** The operand of `b` that indexes a table, the code unit or the locals, if it has one. */
  function IndexOperand(b: Bytecode): Option<nat>
  {
    match b
    case BrTrue(i) => Some(i)
    case BrFalse(i) => Some(i)
    case Branch(i) => Some(i)
    case LdStr(i) => Some(i)
    case LdByteArray(i) => Some(i)
    case LdAddr(i) => Some(i)
    case CopyLoc(i) => Some(i)
    case MoveLoc(i) => Some(i)
    case StLoc(i) => Some(i)
    case BorrowLoc(i) => Some(i)
    case MutBorrowField(i) => Some(i)
    case ImmBorrowField(i) => Some(i)
    case Call(i, _) => Some(i)
    case Pack(i, _) => Some(i)
    case Unpack(i, _) => Some(i)
    case Exists(i, _) => Some(i)
    case BorrowGlobal(i, _) => Some(i)
    case MoveFrom(i, _) => Some(i)
    case MoveToSender(i, _) => Some(i)
    case FreezeRef | ReleaseRef | Pop | Ret | LdConst(_) | LdTrue | LdFalse | ReadRef |
      WriteRef | Add | Sub | Mul | Mod | Div | BitOr | BitAnd | Xor | Or | And | Not | Eq | Neq |
      Lt | Gt | Le | Ge | Abort | GetTxnGasUnitPrice | GetTxnMaxGasUnits | GetGasRemaining |
      GetTxnSenderAddress | CreateAccount | GetTxnSequenceNumber | GetTxnPublicKey => None
  }

  /** The width of the index type with which the tables of kind `kind` are indexed. */
  function IndexWidth(kind: IndexKind): nat
  {
    match kind
    case CodeDefinition => CodeOffsetLimit
    case LocalPool => LocalIndexLimit
    case AddressPool | StringPool | ByteArrayPool | FieldDefinition | FunctionHandle
      | StructDefinition | FunctionDefinition => TableIndexLimit
  }

  /** The table kinds that appear in the records this mutator emits. */
  datatype IndexKind =
    | AddressPool
    | StringPool
    | ByteArrayPool
    | FieldDefinition
    | FunctionHandle
    | StructDefinition
    | CodeDefinition
    | LocalPool
    | FunctionDefinition

  /** `VMStaticViolation::CodeUnitIndexOutOfBounds(kind, bytecode offset, bound, actual)`. */
  datatype Violation = CodeUnitIndexOutOfBounds(kind: IndexKind, bytecodeIdx: nat, bound: nat, actual: nat)

  /** A violation located in the table entry `idx` of table `kind`. */
  datatype VerificationError = VerificationError(kind: IndexKind, idx: nat, err: Violation)

  /** A function's code: the index of its locals signature and its instructions. */
  datatype CodeUnit = CodeUnit(locals: nat, code: array<Bytecode>)

  datatype FunctionDefinition = FunctionDefinition(code: CodeUnit)

  /** The lengths of the module-level tables an instruction can index. */
  datatype Tables = Tables(
    addressPool: nat,
    stringPool: nat,
    byteArrayPool: nat,
    functionHandles: nat,
    fieldDefs: nat,
    structDefs: nat)

  /**
   A mutable compiled module. The pools hold only their lengths (their contents never
   matter here); each entry of `localsSignatures` is the length of one locals signature.
   */
  class CompiledModule {
    var addressPoolLen: nat
    var stringPoolLen: nat
    var byteArrayPoolLen: nat
    var functionHandlesLen: nat
    var fieldDefsLen: nat
    var structDefsLen: nat
    var localsSignatures: seq<nat>
    var functionDefs: seq<FunctionDefinition>

    /**
     A well-formed module: every code unit names an existing locals signature and no two
     functions share one instruction array.
     */
    ghost predicate Valid()
      reads this
    {
      (forall f :: 0 <= f < |functionDefs| ==> functionDefs[f].code.locals < |localsSignatures|) &&
      (forall f, g {:trigger SeparateCode(f, g)} :: 0 <= f < |functionDefs| && 0 <= g < |functionDefs| && f != g ==>
        SeparateCode(f, g))
    }

    /** Functions `f` and `g` have different instruction arrays. */
    ghost predicate SeparateCode(f: nat, g: nat)
      reads this
      requires f < |functionDefs| && g < |functionDefs|
    {
      functionDefs[f].code.code != functionDefs[g].code.code
    }

    /** The instruction arrays of all functions: what the mutator may change. */
    ghost function Arrays(): set<array<Bytecode>>
      reads this
    {
      set f | 0 <= f < |functionDefs| :: functionDefs[f].code.code
    }

    /** The instructions of every function, as values. */
    ghost function Codes(): (cs: seq<seq<Bytecode>>)
      reads this, Arrays()
      ensures |cs| == |functionDefs|
      ensures forall f :: 0 <= f < |functionDefs| ==> cs[f] == functionDefs[f].code.code[..]
    {
      seq(|functionDefs|, f requires 0 <= f < |functionDefs| reads this, Arrays() => functionDefs[f].code.code[..])
    }

    /** The table lengths, read field by field. */
    function TableLengths(): (t: Tables)
      reads this
    {
      Tables(addressPoolLen, stringPoolLen, byteArrayPoolLen, functionHandlesLen, fieldDefsLen, structDefsLen)
    }

    /** The local-signature length of every function's code unit. */
    ghost function LocalsLens(): (ls: seq<nat>)
      requires Valid()
      reads this
      ensures |ls| == |functionDefs|
      ensures forall f :: 0 <= f < |functionDefs| ==> ls[f] == localsSignatures[functionDefs[f].code.locals]
    {
      var defs, sigs := functionDefs, localsSignatures;
      seq(|defs|, f requires 0 <= f < |defs| => sigs[defs[f].code.locals])
    }

    /** When only function `idx`'s instructions changed, only its entry of `Codes()` did. */
    twostate lemma OneCodeChanged(idx: nat)
      requires old(Valid()) && idx < old(|functionDefs|) && unchanged(this)
      requires forall f :: 0 <= f < |functionDefs| && f != idx ==> unchanged(functionDefs[f].code.code)
      ensures Codes() == old(Codes())[idx := functionDefs[idx].code.code[..]]
    {
      forall f | 0 <= f < |functionDefs| && f != idx
        ensures Codes()[f] == old(Codes())[f]
      {
        assert functionDefs[f].code.code[..] == old(functionDefs[f].code.code[..]);
      }
    }

    constructor (tables: Tables, localsSignatures: seq<nat>, functionDefs: seq<FunctionDefinition>)
      ensures TableLengths() == tables
      ensures this.localsSignatures == localsSignatures && this.functionDefs == functionDefs
    {
      addressPoolLen := tables.addressPool;
      stringPoolLen := tables.stringPool;
      byteArrayPoolLen := tables.byteArrayPool;
      functionHandlesLen := tables.functionHandles;
      fieldDefsLen := tables.fieldDefs;
      structDefsLen := tables.structDefs;
      this.localsSignatures := localsSignatures;
      this.functionDefs := functionDefs;
    }
  }
}
