/**
 What the code-unit bounds mutator promises, proved about the value-level definitions that
 the in-place methods are specified by: the classifier, the rewrite rule, one function's
 rewrites and records, and the whole run.
 */
module CodeUnitProperties {
  import opened FileFormat
  import opened PropHelpers
  import opened CodeUnit

  // ---------------------------------------------------------------------------------------
  // Classifier

  /** The interesting instructions are exactly those that carry an index operand. */
  lemma InterestingIffIndexed(b: Bytecode)
    ensures IsInteresting(b) <==> IndexOperand(b).Some?
  {
  }

  // ---------------------------------------------------------------------------------------
  // The rewrite rule

  /** A rewrite keeps the variant, and the struct and handle forms lose their type actuals. */
  lemma MutateKeepsVariant(b: Bytecode, snap: Snapshot, pos: nat, offset: Offset)
    requires IsInteresting(b)
    ensures var nb := Mutate(b, snap, pos, offset).0;
      Discriminant(nb) == Discriminant(b) && IsInteresting(nb) &&
      (HasTypeActuals(b) ==> HasTypeActuals(nb) && nb.typeActuals == NoTypeActuals)
  {
  }

  /** The table each variant is checked against, as the kind tag of its record. */
  lemma MutateKind(b: Bytecode, snap: Snapshot, pos: nat, offset: Offset)
    requires IsInteresting(b)
    ensures var err := Mutate(b, snap, pos, offset).1;
      (err.kind == AddressPool <==> b.LdAddr?) &&
      (err.kind == StringPool <==> b.LdStr?) &&
      (err.kind == ByteArrayPool <==> b.LdByteArray?) &&
      (err.kind == FieldDefinition <==> b.ImmBorrowField? || b.MutBorrowField?) &&
      (err.kind == FunctionHandle <==> b.Call?) &&
      (err.kind == StructDefinition <==>
        b.Pack? || b.Unpack? || b.Exists? || b.BorrowGlobal? || b.MoveFrom? || b.MoveToSender?) &&
      (err.kind == CodeDefinition <==> b.BrTrue? || b.BrFalse? || b.Branch?) &&
      (err.kind == LocalPool <==> b.CopyLoc? || b.MoveLoc? || b.StLoc? || b.BorrowLoc?) &&
      err.kind != IndexKind.FunctionDefinition
  {
  }

  /**
   The record of a rewrite: its position, the snapshot length of its table as the bound,
   and as the actual value the length plus the offset, cast to `TableIndex` for the module
   tables and uncast for code offsets and locals; the instruction holds that value cast to
   the width of its index type.
   */
  lemma MutateRecord(b: Bytecode, snap: Snapshot, pos: nat, offset: Offset)
    requires IsInteresting(b)
    ensures var (nb, err) := Mutate(b, snap, pos, offset);
      err.kind != IndexKind.FunctionDefinition &&
      err.bytecodeIdx == pos && err.bound == TableLen(err.kind, snap) &&
      (err.kind == CodeDefinition || err.kind == LocalPool ==> err.actual == err.bound + offset) &&
      (err.kind != CodeDefinition && err.kind != LocalPool ==> err.actual == (err.bound + offset) % TableIndexLimit) &&
      IndexOperand(nb) == Some(err.actual % IndexWidth(err.kind))
  {
    MutateKind(b, snap, pos, offset);
    var rule := Oracle(b, snap);
    var n := rule.dstLen + offset;
    if rule.family == TableIndexed {
      assert (n % TableIndexLimit) % TableIndexLimit == n % TableIndexLimit;
    }
  }

  /**
   When no length wraps its index type, every rewritten index is out of bounds: the actual
   value is the bound plus the offset, below the bound plus 16, and the instruction holds it.
   */
  lemma MutateOutOfBounds(b: Bytecode, snap: Snapshot, pos: nat, offset: Offset)
    requires IsInteresting(b) && NoWrap(snap)
    ensures var (nb, err) := Mutate(b, snap, pos, offset);
      err.actual == err.bound + offset && err.bound <= err.actual < err.bound + 16 &&
      IndexOperand(nb) == Some(err.actual)
  {
    MutateRecord(b, snap, pos, offset);
    var err := Mutate(b, snap, pos, offset).1;
    assert err.bound + offset < IndexWidth(err.kind);
  }

  /**
   Without the no-wrap condition the casts bite: a `CopyLoc` in a function with 250 locals
   and offset 10 is rewritten to local 4, which is in bounds, while its record reports 260.
   */
  lemma LocalsWrapIntoBounds()
    ensures var (nb, err) := Mutate(CopyLoc(0), Snapshot(Tables(0, 0, 0, 0, 0, 0), 1, 250), 0, 10);
      nb == CopyLoc(4) && err == CodeUnitIndexOutOfBounds(LocalPool, 0, 250, 260)
  {
  }

  // ---------------------------------------------------------------------------------------
  // One function

  /** The `j`-th record is step `j`'s, attributed to function `idx`. */
  lemma {:induction false} StepRecordAt(code: seq<Bytecode>, steps: seq<Step>, snap: Snapshot, idx: nat, j: nat)
    requires ValidSteps(code, steps) && j < |steps|
    ensures StepRecords(code, steps, snap, idx)[j] ==
      VerificationError(IndexKind.FunctionDefinition, idx, Mutate(code[steps[j].pos], snap, steps[j].pos, steps[j].offset).1)
    decreases |steps|
  {
    if j < |steps| - 1 {
      var prefix := steps[..|steps| - 1];
      assert prefix[j] == steps[j];
      StepRecordAt(code, prefix, snap, idx, j);
    }
  }

  /** What the `k`-th record of steps says: the function, the step's position, the snapshot
      bound and, when nothing wraps, the bound plus the step's offset. */
  lemma StepRecordFacts(code: seq<Bytecode>, steps: seq<Step>, snap: Snapshot, idx: nat, k: nat)
    requires ValidSteps(code, steps) && k < |steps|
    ensures var r := StepRecords(code, steps, snap, idx)[k];
      r.kind == IndexKind.FunctionDefinition && r.idx == idx && r.err.bytecodeIdx == steps[k].pos &&
      r.err.kind != IndexKind.FunctionDefinition && r.err.bound == TableLen(r.err.kind, snap) &&
      (NoWrap(snap) ==> r.err.actual == r.err.bound + steps[k].offset)
  {
    var b := code[steps[k].pos];
    StepRecordAt(code, steps, snap, idx, k);
    MutateRecord(b, snap, steps[k].pos, steps[k].offset);
    if NoWrap(snap) {
      MutateOutOfBounds(b, snap, steps[k].pos, steps[k].offset);
    }
  }

  /**
   Function `f`'s records: one per descriptor of its group that found a picked position, so
   at most as many as it has interesting positions; each attributed to `f`, located at a
   distinct interesting position, bounded by the length read before any rewrite and, when
   nothing wraps, out of bounds by the descriptor's offset.
   */
  lemma FunctionRecordsFacts(tables: Tables, localsLens: seq<nat>, codes: seq<seq<Bytecode>>,
                             ms: seq<CodeUnitBoundsMutation>, f: nat)
    requires EngineInput(localsLens, codes, ms) && f < |codes|
    ensures var rs := FunctionRecords(tables, localsLens, codes, ms, f);
      var group := Group(ms, |codes|, f);
      var interesting := InterestingOffsets(codes[f]);
      var snap := FunctionSnapshot(tables, localsLens, codes, f);
      |rs| == Min(|group|, |interesting|) && |rs| <= |interesting| &&
      (forall k :: 0 <= k < |rs| ==>
        rs[k].kind == IndexKind.FunctionDefinition && rs[k].idx == f &&
        rs[k].err.bytecodeIdx in interesting &&
        rs[k].err.kind != IndexKind.FunctionDefinition && rs[k].err.bound == TableLen(rs[k].err.kind, snap) &&
        (NoWrap(snap) ==> rs[k].err.actual == rs[k].err.bound + group[k].offset)) &&
      (forall i, j :: 0 <= i < j < |rs| ==> rs[i].err.bytecodeIdx != rs[j].err.bytecodeIdx)
  {
    var code := codes[f];
    var group := Group(ms, |codes|, f);
    var steps := Plan(code, group);
    var snap := FunctionSnapshot(tables, localsLens, codes, f);
    var rs := StepRecords(code, steps, snap, f);
    assert rs == FunctionRecords(tables, localsLens, codes, ms, f);
    forall k | 0 <= k < |rs|
      ensures rs[k].kind == IndexKind.FunctionDefinition && rs[k].idx == f
      ensures rs[k].err.bytecodeIdx == steps[k].pos && rs[k].err.bytecodeIdx in InterestingOffsets(code)
      ensures rs[k].err.kind != IndexKind.FunctionDefinition && rs[k].err.bound == TableLen(rs[k].err.kind, snap)
      ensures NoWrap(snap) ==> rs[k].err.actual == rs[k].err.bound + group[k].offset
    {
      StepRecordFacts(code, steps, snap, f, k);
    }
  }

  /**
   Function `f`'s code after the run: same length; an instruction changes only where a
   step targets it, and only at an interesting position; a non-interesting instruction is
   never touched; an interesting one keeps its variant.
   */
  lemma FunctionCodeFacts(tables: Tables, localsLens: seq<nat>, codes: seq<seq<Bytecode>>,
                          ms: seq<CodeUnitBoundsMutation>, f: nat, p: nat)
    requires EngineInput(localsLens, codes, ms) && f < |codes| && p < |codes[f]|
    ensures var code := FunctionCode(tables, localsLens, codes, ms, f);
      |code| == |codes[f]| &&
      (!Targets(FunctionPlan(codes, ms, f), p) ==> code[p] == codes[f][p]) &&
      (code[p] != codes[f][p] ==> p in InterestingOffsets(codes[f])) &&
      (!IsInteresting(codes[f][p]) ==> code[p] == codes[f][p]) &&
      (IsInteresting(codes[f][p]) ==> IsInteresting(code[p]) && Discriminant(code[p]) == Discriminant(codes[f][p]))
  {
    var steps := FunctionPlan(codes, ms, f);
    var snap := FunctionSnapshot(tables, localsLens, codes, f);
    if Targets(steps, p) {
      var j :| 0 <= j < |steps| && steps[j].pos == p;
      ApplyStepsTargeted(codes[f], steps, snap, j);
      MutateKeepsVariant(codes[f][p], snap, p, steps[j].offset);
    } else {
      ApplyStepsUntargeted(codes[f], steps, snap, p);
    }
  }

  // ---------------------------------------------------------------------------------------
  // The whole run

  /** Every descriptor belongs to the group of the function its selector resolves to, and to no other. */
  lemma GroupPartition(ms: seq<CodeUnitBoundsMutation>, n: nat, m: CodeUnitBoundsMutation)
    requires n > 0 && m in ms
    ensures m.functionDef.Index(n) < n
    ensures m in Group(ms, n, m.functionDef.Index(n))
    ensures forall f :: f != m.functionDef.Index(n) ==> m !in Group(ms, n, f)
  {
    forall f | true
      ensures m in Group(ms, n, f) <==> m.functionDef.Index(n) == f
    {
      GroupMembers(ms, n, f);
    }
  }

  /** A function no descriptor chose, or one without interesting instructions, is left as it was. */
  lemma UnchosenUnchanged(tables: Tables, localsLens: seq<nat>, codes: seq<seq<Bytecode>>,
                          ms: seq<CodeUnitBoundsMutation>, f: nat)
    requires EngineInput(localsLens, codes, ms) && f < |codes|
    requires Group(ms, |codes|, f) == [] || InterestingOffsets(codes[f]) == []
    ensures EngineCodes(tables, localsLens, codes, ms)[f] == codes[f]
    ensures FunctionRecords(tables, localsLens, codes, ms, f) == []
  {
    assert FunctionPlan(codes, ms, f) == [];
  }

  /** The records of function `f` among all records. */
  function RecordsFor(rs: seq<VerificationError>, f: nat): (r: seq<VerificationError>)
    ensures forall k :: 0 <= k < |r| ==> r[k].idx == f
  {
    if rs == [] then []
    else RecordsFor(rs[..|rs| - 1], f) + if rs[|rs| - 1].idx == f then [rs[|rs| - 1]] else []
  }

  lemma {:induction false} RecordsForConcat(a: seq<VerificationError>, b: seq<VerificationError>, f: nat)
    ensures RecordsFor(a + b, f) == RecordsFor(a, f) + RecordsFor(b, f)
    decreases |b|
  {
    if b == [] {
      assert a + b == a;
    } else {
      var init := b[..|b| - 1];
      assert (a + b)[..|a + b| - 1] == a + init;
      assert (a + b)[|a + b| - 1] == b[|b| - 1];
      RecordsForConcat(a, init, f);
    }
  }

  lemma {:induction false} RecordsForUniform(rs: seq<VerificationError>, g: nat, f: nat)
    requires forall k :: 0 <= k < |rs| ==> rs[k].idx == g
    ensures RecordsFor(rs, f) == if f == g then rs else []
    decreases |rs|
  {
    if rs != [] {
      var init := rs[..|rs| - 1];
      RecordsForUniform(init, g, f);
      if f == g {
        assert init + [rs[|rs| - 1]] == rs;
      }
    }
  }

  /** Lists whose `f`-th entry holds only `FunctionDefinition` records of function `f`. */
  predicate Indexed(ss: seq<seq<VerificationError>>)
  {
    forall f, k :: 0 <= f < |ss| && 0 <= k < |ss[f]| ==>
      ss[f][k].idx == f && ss[f][k].kind == IndexKind.FunctionDefinition
  }

  lemma {:induction false} FlattenOrdered(ss: seq<seq<VerificationError>>)
    requires Indexed(ss)
    ensures forall k :: 0 <= k < |Flatten(ss)| ==>
      Flatten(ss)[k].idx < |ss| && Flatten(ss)[k].kind == IndexKind.FunctionDefinition
    ensures forall i, j :: 0 <= i < j < |Flatten(ss)| ==> Flatten(ss)[i].idx <= Flatten(ss)[j].idx
    decreases |ss|
  {
    if ss != [] {
      var init := ss[..|ss| - 1];
      assert Indexed(init);
      FlattenOrdered(init);
      var a, b := Flatten(init), ss[|ss| - 1];
      assert Flatten(ss) == a + b;
      assert forall k :: 0 <= k < |b| ==> b[k].idx == |ss| - 1;
    }
  }

  lemma {:induction false} FlattenRecordsFor(ss: seq<seq<VerificationError>>, f: nat, k: nat)
    requires Indexed(ss) && k <= |ss|
    ensures RecordsFor(Flatten(ss[..k]), f) == if f < k then ss[f] else []
    decreases k
  {
    if k > 0 {
      FlattenStep(ss, k - 1);
      FlattenRecordsFor(ss, f, k - 1);
      RecordsForConcat(Flatten(ss[..k - 1]), ss[k - 1], f);
      RecordsForUniform(ss[k - 1], k - 1, f);
    }
  }

  lemma EngineRecordListsIndexed(tables: Tables, localsLens: seq<nat>, codes: seq<seq<Bytecode>>,
                                 ms: seq<CodeUnitBoundsMutation>)
    requires EngineInput(localsLens, codes, ms)
    ensures Indexed(EngineRecordLists(tables, localsLens, codes, ms))
  {
    var ss: seq<seq<VerificationError>> := EngineRecordLists(tables, localsLens, codes, ms);
    forall f | 0 <= f < |ss|
      ensures forall k :: 0 <= k < |ss[f]| ==> ss[f][k].idx == f && ss[f][k].kind == IndexKind.FunctionDefinition
    {
      FunctionRecordsFacts(tables, localsLens, codes, ms, f);
    }
  }

  /**
   All records come in ascending function order, and each carries the `FunctionDefinition`
   tag and an existing function's index.
   */
  lemma EngineRecordsOrdered(tables: Tables, localsLens: seq<nat>, codes: seq<seq<Bytecode>>,
                             ms: seq<CodeUnitBoundsMutation>)
    requires EngineInput(localsLens, codes, ms)
    ensures var rs := EngineRecords(tables, localsLens, codes, ms);
      (forall k :: 0 <= k < |rs| ==> rs[k].kind == IndexKind.FunctionDefinition && rs[k].idx < |codes|) &&
      (forall i, j :: 0 <= i < j < |rs| ==> rs[i].idx <= rs[j].idx)
  {
    EngineRecordListsIndexed(tables, localsLens, codes, ms);
    FlattenOrdered(EngineRecordLists(tables, localsLens, codes, ms));
  }

  /** The records attributed to function `f` are exactly function `f`'s records, in order. */
  lemma EngineRecordsOfFunction(tables: Tables, localsLens: seq<nat>, codes: seq<seq<Bytecode>>,
                                ms: seq<CodeUnitBoundsMutation>, f: nat)
    requires EngineInput(localsLens, codes, ms)
    ensures RecordsFor(EngineRecords(tables, localsLens, codes, ms), f) ==
      if f < |codes| then FunctionRecords(tables, localsLens, codes, ms, f) else []
  {
    var ss := EngineRecordLists(tables, localsLens, codes, ms);
    EngineRecordListsIndexed(tables, localsLens, codes, ms);
    FlattenRecordsFor(ss, f, |ss|);
    assert ss[..|ss|] == ss;
  }

  /** The number of descriptors whose function selector resolves below `k`. */
  function CountBelow(ms: seq<CodeUnitBoundsMutation>, n: nat, k: nat): nat
    requires ms == [] || n > 0
  {
    if ms == [] then 0
    else CountBelow(ms[..|ms| - 1], n, k) + if ms[|ms| - 1].functionDef.Index(n) < k then 1 else 0
  }

  lemma {:induction false} CountBelowStep(ms: seq<CodeUnitBoundsMutation>, n: nat, k: nat)
    requires ms == [] || n > 0
    ensures CountBelow(ms, n, k + 1) == CountBelow(ms, n, k) + |Group(ms, n, k)|
    decreases |ms|
  {
    if ms != [] {
      CountBelowStep(ms[..|ms| - 1], n, k);
    }
  }

  lemma {:induction false} CountBelowZero(ms: seq<CodeUnitBoundsMutation>, n: nat)
    requires ms == [] || n > 0
    ensures CountBelow(ms, n, 0) == 0
    decreases |ms|
  {
    if ms != [] {
      CountBelowZero(ms[..|ms| - 1], n);
    }
  }

  lemma {:induction false} CountBelowAll(ms: seq<CodeUnitBoundsMutation>, n: nat)
    requires ms == [] || n > 0
    ensures CountBelow(ms, n, n) == |ms|
    decreases |ms|
  {
    if ms != [] {
      CountBelowAll(ms[..|ms| - 1], n);
    }
  }

  lemma {:induction false} RecordsWithinGroups(tables: Tables, localsLens: seq<nat>, codes: seq<seq<Bytecode>>,
                                               ms: seq<CodeUnitBoundsMutation>, k: nat)
    requires EngineInput(localsLens, codes, ms) && k <= |codes|
    ensures |Flatten(EngineRecordLists(tables, localsLens, codes, ms)[..k])| <= CountBelow(ms, |codes|, k)
    decreases k
  {
    var ss := EngineRecordLists(tables, localsLens, codes, ms);
    if k == 0 {
      assert ss[..0] == [];
      CountBelowZero(ms, |codes|);
    } else {
      RecordsWithinGroups(tables, localsLens, codes, ms, k - 1);
      FlattenStep(ss, k - 1);
      FunctionRecordsFacts(tables, localsLens, codes, ms, k - 1);
      CountBelowStep(ms, |codes|, k - 1);
    }
  }

  /** Each descriptor yields at most one record, so there are no more records than descriptors. */
  lemma EngineRecordsAtMostDescriptors(tables: Tables, localsLens: seq<nat>, codes: seq<seq<Bytecode>>,
                                       ms: seq<CodeUnitBoundsMutation>)
    requires EngineInput(localsLens, codes, ms)
    ensures |EngineRecords(tables, localsLens, codes, ms)| <= |ms|
  {
    var ss := EngineRecordLists(tables, localsLens, codes, ms);
    RecordsWithinGroups(tables, localsLens, codes, ms, |codes|);
    assert ss[..|codes|] == ss;
    CountBelowAll(ms, |codes|);
  }
}
