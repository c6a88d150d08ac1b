/** The one-pass validator of an EOF code section, proved to accept exactly the typable sections. */
module EofValidator {
  import opened Prelude
  import opened EofOpcodes
  import opened EofTyping
  import opened EofDecode
  import opened EofScan

  datatype EofError =
    | UnknownOpcode
    | OpcodeDisabled
    | InstructionNotForwardAccessed
    | MissingImmediateBytes
    | MissingRJUMPVImmediateBytes
    | JumpToImmediateBytes
    | BackwardJumpToImmediateBytes
    | EOFCREATEInvalidIndex
    | CodeSectionOutOfBounds
    | CALLFNonReturningFunction
    | StackOverflow
    | JUMPFEnoughOutputs
    | JUMPFStackHigherThanOutputs
    | DataLoadOutOfBounds
    | RETFBiggestStackNumMoreThenOutputs
    | StackUnderflow
    | JumpUnderflow
    | JumpOverflow
    | BackwardJumpBiggestNumMismatch
    | BackwardJumpSmallestNumMismatch
    | LastInstructionNotTerminating
    | MaxStackMismatch
    | CodeSectionNotAccessed
    | InvalidTypesSection
    | NoCodeSections

  /** What the scan works out about one instruction before it looks at heights and jumps. */
  datatype Effect = Effect(need: int, diff: int, extra: nat, targets: seq<int>)

  predicate EffectOf(effect: Effect, info: OpInfo, instr: Instr) {
    && effect.need == instr.need && effect.diff == instr.diff && effect.targets == instr.targets
    && 1 + info.immediate + effect.extra == instr.size && info.terminating == instr.terminating
  }

  /** The checks and values that depend on the opcode. */
  method Inspect(ctx: Ctx, self: nat, code: Code, i: nat, info: OpInfo, biggest: int) returns (r: Result<Effect, EofError>)
    requires self < |ctx.types| && i < |code|
    requires Info(code[i]) == Some(info) && !info.notEof && i + info.immediate < |code|
    ensures r.Ok? <==> Decode(ctx, self, code, i).Some? && WithinCap(Decode(ctx, self, code, i).value, biggest)
    ensures r.Ok? ==> EffectOf(r.value, info, Decode(ctx, self, code, i).value)
  {
    var op := code[i];
    var need: int, diff: int := info.inputs, info.outputs - info.inputs;
    var extra: nat, targets: seq<int> := 0, [];
    if op == RJUMP || op == RJUMPI {
      targets := [I16(code, i + 1) + 3 + i];
    } else if op == RJUMPV {
      r := InspectVtable(code, i);
      return;
    } else if op == CALLF {
      var k := U16(code, i + 1);
      if k >= |ctx.types| { return Err(CodeSectionOutOfBounds); }
      var callee := ctx.types[k];
      if callee.outputs == NON_RETURNING { return Err(CALLFNonReturningFunction); }
      need, diff := callee.inputs, callee.outputs - callee.inputs;
      if biggest - need + callee.maxStack > STACK_LIMIT { return Err(StackOverflow); }
    } else if op == JUMPF {
      var k := U16(code, i + 1);
      if k >= |ctx.types| { return Err(CodeSectionOutOfBounds); }
      var callee, own := ctx.types[k], ctx.types[self];
      if biggest - callee.inputs + callee.maxStack > STACK_LIMIT { return Err(StackOverflow); }
      if callee.outputs == NON_RETURNING {
        need := callee.inputs;
      } else {
        if own.outputs < callee.outputs { return Err(JUMPFEnoughOutputs); }
        need := own.outputs + callee.inputs - callee.outputs;
        if biggest > need { return Err(JUMPFStackHigherThanOutputs); }
        if biggest + need > STACK_LIMIT { return Err(StackOverflow); }
      }
    } else if op == EOFCREATE {
      if code[i + 1] >= ctx.containers { return Err(EOFCREATEInvalidIndex); }
    } else if op == DATALOADN {
      if ctx.dataSize < 32 || U16(code, i + 1) > ctx.dataSize - 32 { return Err(DataLoadOutOfBounds); }
    } else if op == RETF {
      need := ctx.types[self].outputs;
      if biggest > need { return Err(RETFBiggestStackNumMoreThenOutputs); }
    } else if op == DUPN {
      need := code[i + 1] as int + 1;
    } else if op == SWAPN {
      need := code[i + 1] as int + 2;
    } else if op == EXCHANGE {
      var n, m := code[i + 1] / 16 + 1, code[i + 1] % 16 + 1;
      need := n + m + 1;
    }
    return Ok(Effect(need, diff, extra, targets));
  }

  /** RJUMPV: the vtable must be complete, and lists one destination per entry. */
  method InspectVtable(code: Code, i: nat) returns (r: Result<Effect, EofError>)
    requires i + 1 < |code| && code[i] == RJUMPV
    ensures r.Ok? <==> i + 1 + 2 * (code[i + 1] as int + 1) < |code|
    ensures r.Ok? ==> r.value == Effect(1, -1, 2 * (code[i + 1] as int + 1), VtableTargets(code, i, code[i + 1] as int + 1))
  {
    var len := code[i + 1] as int + 1;
    var extra := 2 * len;
    if i + 1 + extra >= |code| { return Err(MissingRJUMPVImmediateBytes); }
    var targets: seq<int> := [];
    for v := 0 to len
      invariant |targets| == v
      invariant forall k :: 0 <= k < v ==> targets[k] == I16(code, i + 2 + 2 * k) + i + 2 + 2 * len
    {
      targets := targets + [I16(code, i + 2 + 2 * v) + i + 2 + extra];
    }
    return Ok(Effect(1, -1, extra, targets));
  }

  /** Marks the bytes from..to as immediates; fails if one of them is a jump destination. */
  method MarkImmediates(marks: seq<Mark>, from: nat, to: nat) returns (ok: bool, marks': seq<Mark>)
    requires from <= to <= |marks|
    ensures ok <==> forall k :: from <= k < to ==> !marks[k].isJumpdest
    ensures ok ==> |marks'| == |marks| && forall k :: 0 <= k < |marks| ==>
                     marks'[k] == if from <= k < to then marks[k].(isImmediate := true) else marks[k]
  {
    marks' := marks;
    for imm := from to to
      invariant |marks'| == |marks|
      invariant forall k :: from <= k < imm ==> !marks[k].isJumpdest
      invariant forall k :: 0 <= k < |marks| ==>
                  marks'[k] == if from <= k < imm then marks[k].(isImmediate := true) else marks[k]
    {
      if marks'[imm].isJumpdest { return false, marks'; }
      marks' := marks'[imm := marks'[imm].(isImmediate := true)];
    }
    ok := true;
  }

  /** A destination accepted when jumping from i with heights `out`. */
  predicate Admissible(marks: seq<Mark>, i: nat, out: Heights, t: int) {
    && 0 <= t < |marks| && !marks[t].isImmediate
    && (t <= i ==> marks[t].heights == Some(out))
  }

  function AfterJump(marks: seq<Mark>, i: nat, out: Heights, t: nat): Mark
    requires t < |marks|
  {
    if t <= i then marks[t].(isJumpdest := true)
    else marks[t].(isJumpdest := true, heights := Some(Joined(marks[t].heights, out)))
  }

  /** Checks and records the destinations of the instruction at i. */
  method RecordJumps(marks: seq<Mark>, i: nat, out: Heights, targets: seq<int>) returns (r: Result<seq<Mark>, EofError>)
    requires i < |marks| && forall k :: 0 <= k <= i ==> marks[k].isImmediate || marks[k].heights.Some?
    ensures r.Ok? <==> forall t :: t in targets ==> Admissible(marks, i, out, t)
    ensures r.Ok? ==> |r.value| == |marks| && forall k :: 0 <= k < |marks| ==>
                        r.value[k] == if k in targets then AfterJump(marks, i, out, k) else marks[k]
  {
    var marks' := marks;
    for n := 0 to |targets|
      invariant |marks'| == |marks|
      invariant forall t :: t in targets[..n] ==> Admissible(marks, i, out, t)
      invariant forall k :: 0 <= k < |marks| ==>
                  marks'[k] == if k in targets[..n] then AfterJump(marks, i, out, k) else marks[k]
    {
      var t := targets[n];
      assert targets[..n + 1] == targets[..n] + [t];
      if !(0 <= t < |marks|) || marks'[t].isImmediate {
        assert !Admissible(marks, i, out, t);
        return Err(if t < 0 then JumpUnderflow else if t >= |marks| then JumpOverflow else BackwardJumpToImmediateBytes);
      }
      if t <= i {
        var found := marks'[t].heights.value;
        if found != out {
          assert !Admissible(marks, i, out, t);
          return Err(if found.biggest != out.biggest then BackwardJumpBiggestNumMismatch
                     else BackwardJumpSmallestNumMismatch);
        }
        marks' := marks'[t := marks'[t].(isJumpdest := true)];
      } else {
        marks' := marks'[t := marks'[t].(isJumpdest := true, heights := Some(Joined(marks'[t].heights, out)))];
      }
    }
    assert targets[..|targets|] == targets;
    r := Ok(marks');
  }

  /** The biggest recorded height, or zero. */
  method MaxRequirement(marks: seq<Mark>) returns (m: int)
    ensures m >= 0
    ensures forall k :: 0 <= k < |marks| && marks[k].heights.Some? ==> marks[k].heights.value.biggest <= m
    ensures m == 0 || exists k :: 0 <= k < |marks| && marks[k].heights.Some? && marks[k].heights.value.biggest == m
  {
    m := 0;
    for n := 0 to |marks|
      invariant m >= 0
      invariant forall k :: 0 <= k < n && marks[k].heights.Some? ==> marks[k].heights.value.biggest <= m
      invariant m == 0 || exists k :: 0 <= k < n && marks[k].heights.Some? && marks[k].heights.value.biggest == m
    {
      if marks[n].heights.Some? {
        m := Max(marks[n].heights.value.biggest, m);
      }
    }
  }

  /** Visited bytes are immediates or have heights. */
  lemma VisitedHas(s: Section, inputs: int, c: Scan, k: nat)
    requires Inv(s, inputs, c) && k < c.i && k < |s|
    ensures c.marks[k].isImmediate || c.marks[k].heights.Some?
  {
    assert Start(s, k) ==> Done(s, c, k);
  }

  /** Passing the scan's own checks is passing the checks of the invariant's step. */
  lemma ChecksPassed(s: Section, inputs: int, c: Scan, marks1: seq<Mark>, marks2: seq<Mark>, marks3: seq<Mark>)
    requires Inv(s, inputs, c) && Reached(c) && s[c.i].Some? && (c.after ==> Has(c.marks, c.i))
    requires s[c.i].value.size > 0 && c.i + s[c.i].value.size <= |s|
    requires s[c.i].value.need <= Here(c).smallest && WithinCap(s[c.i].value, Here(c).biggest)
    requires marks1 == c.marks[c.i := c.marks[c.i].(heights := Some(Here(c)))]
    requires |marks2| == |marks3| == |s|
    requires forall k :: c.i < k < c.i + s[c.i].value.size ==> !marks1[k].isJumpdest
    requires forall k :: 0 <= k < |s| ==>
      marks2[k] == if c.i < k < c.i + s[c.i].value.size then marks1[k].(isImmediate := true) else marks1[k]
    requires forall t :: t in s[c.i].value.targets ==> Admissible(marks2, c.i, Here(c).Shift(s[c.i].value.diff), t)
    requires forall k :: 0 <= k < |s| ==>
      marks3[k] == if k in s[c.i].value.targets then AfterJump(marks2, c.i, Here(c).Shift(s[c.i].value.diff), k) else marks2[k]
    ensures Legal(s, c)
    ensures Stepped(s, c, Scan(marks3, c.i + s[c.i].value.size, Here(c).Shift(s[c.i].value.diff), s[c.i].value.terminating))
  {
    assert forall k :: c.i < k < c.i + s[c.i].value.size ==> c.marks[k] == marks1[k];
    forall t | t in s[c.i].value.targets ensures LegalTarget(s, c, t) {
      assert Admissible(marks2, c.i, Here(c).Shift(s[c.i].value.diff), t);
    }
  }

  lemma JumpRefused(s: Section, inputs: int, c: Scan, marks2: seq<Mark>, t: int)
    requires Inv(s, inputs, c) && c.i < |s| && s[c.i].Some? && (c.after ==> Has(c.marks, c.i)) && |marks2| == |s|
    requires forall k :: 0 <= k < |s| ==>
      marks2[k] == if k == c.i then c.marks[k].(heights := Some(Here(c)))
                   else if c.i < k < c.i + s[c.i].value.size then c.marks[k].(isImmediate := true) else c.marks[k]
    requires t in s[c.i].value.targets && !Admissible(marks2, c.i, Here(c).Shift(s[c.i].value.diff), t)
    ensures !Legal(s, c)
  {
    assert !LegalTarget(s, c, t);
  }

  lemma AccessedStep(s: Section, code: Code, i: nat)
    requires |s| == |code| && IsInstr(s, i)
    ensures AccessedBefore(s, code, i + s[i].value.size) ==
            AccessedBefore(s, code, i) + (if Invokes(code, i) then {U16(code, i + 1)} else {})
  {
    forall p: nat | i < p < i + s[i].value.size ensures !IsInstr(s, p) {
      NoStartInside(s, 0, i, p);
    }
  }

  /** One round of the scan. It succeeds exactly when every check at position i passes, and then
      moves on to the next instruction. */
  method ScanInstruction(ghost s: Section, ctx: Ctx, self: nat, code: Code, c: Scan) returns (r: Result<Scan, EofError>)
    requires self < |ctx.types| && |code| == |s|
    requires Inv(s, ctx.types[self].inputs, c) && c.i < |s| && s[c.i] == Decode(ctx, self, code, c.i)
    ensures r.Ok? <==> Legal(s, c)
    ensures r.Ok? ==> Stepped(s, c, r.value)
  {
    var i, marks := c.i, c.marks;
    ghost var inputs := ctx.types[self].inputs;
    var opInfo := Info(code[i]);
    if opInfo.None? { return Err(UnknownOpcode); }
    var info := opInfo.value;
    if info.notEof { return Err(OpcodeDisabled); }
    if c.after && !marks[i].isJumpdest { return Err(InstructionNotForwardAccessed); }
    ReachedHas(s, inputs, c);
    var here := if c.after then marks[i].heights.value else Joined(marks[i].heights, c.next);
    marks := marks[i := marks[i].(heights := Some(here))];
    ghost var marks1 := marks;
    if i + info.immediate >= |code| { return Err(MissingImmediateBytes); }
    var inspected := Inspect(ctx, self, code, i, info, here.biggest);
    if inspected.Err? { return Err(inspected.error); }
    var effect := inspected.value;
    var size := 1 + info.immediate + effect.extra;
    DecodedFits(ctx, self, code, i);
    var ok, marks2 := MarkImmediates(marks, i + 1, i + size);
    if !ok {
      assert exists k :: i < k < i + size && c.marks[k].isJumpdest by {
        ghost var k :| i < k < i + size && marks1[k].isJumpdest;
        assert marks1[k] == c.marks[k];
      }
      return Err(JumpToImmediateBytes);
    }
    if effect.need > here.smallest { return Err(StackUnderflow); }
    var out := here.Shift(effect.diff);
    forall k | 0 <= k < i ensures marks2[k].isImmediate || marks2[k].heights.Some? {
      VisitedHas(s, inputs, c, k);
    }
    var jumped := RecordJumps(marks2, i, out, effect.targets);
    if jumped.Err? {
      ghost var t :| t in effect.targets && !Admissible(marks2, i, out, t);
      JumpRefused(s, inputs, c, marks2, t);
      return Err(jumped.error);
    }
    ChecksPassed(s, inputs, c, marks1, marks2, jumped.value);
    r := Ok(Scan(jumped.value, i + size, out, info.terminating));
  }

  /** Validates one section. It is accepted exactly when some assignment of stack heights types it
      with the declared inputs and maximum, and the result names the sections it invokes. */
  method ValidateEofCode(code: Code, dataSize: nat, self: nat, containers: nat, types: seq<Types>)
    returns (r: Result<set<nat>, EofError>)
    requires self < |types|
    ensures r.Ok? <==> ValidSection(Ctx(types, dataSize, containers), self, code)
    ensures r.Ok? ==> r.value == Accessed(Decoded(Ctx(types, dataSize, containers), self, code), code)
  {
    var ctx := Ctx(types, dataSize, containers);
    var inputs: int, declared := types[self].inputs, types[self].maxStack;
    ghost var s := Decoded(ctx, self, code);
    var accessed: set<nat> := {};
    var c := Scan(seq(|code|, k => FRESH), 0, Heights(inputs, inputs), false);
    InitialInv(s, inputs, c);
    while c.i < |code|
      invariant c.i <= |code| && Inv(s, inputs, c)
      invariant accessed == AccessedBefore(s, code, c.i)
      decreases |code| - c.i
    {
      var i := c.i;
      var scanned := ScanInstruction(s, ctx, self, code, c);
      if scanned.Err? {
        Rejected(s, inputs, c, declared);
        return Err(scanned.error);
      }
      StepKeepsInv(s, inputs, c, scanned.value);
      AccessedStep(s, code, i);
      if code[i] == CALLF || code[i] == JUMPF {
        accessed := accessed + {U16(code, i + 1)};
      }
      c := scanned.value;
    }
    var m := MaxRequirement(c.marks);
    RecordedMax(s, inputs, c, m);
    Verdict(s, inputs, c, m, declared);
    if !c.after { return Err(LastInstructionNotTerminating); }
    if m != declared { return Err(MaxStackMismatch); }
    return Ok(accessed);
  }

  lemma DecodedFits(ctx: Ctx, self: nat, code: Code, i: nat)
    requires self < |ctx.types| && i < |code| && Decode(ctx, self, code, i).Some?
    ensures i + Decode(ctx, self, code, i).value.size <= |code| && Decode(ctx, self, code, i).value.size > 0
  {
  }

  lemma RecordedMax(s: Section, inputs: int, c: Scan, m: int)
    requires Inv(s, inputs, c) && c.i == |s| && m >= 0
    requires forall k :: 0 <= k < |s| && c.marks[k].heights.Some? ==> c.marks[k].heights.value.biggest <= m
    requires m == 0 || exists k :: 0 <= k < |s| && c.marks[k].heights.Some? && c.marks[k].heights.value.biggest == m
    ensures MaxHeight(s, Recorded(c.marks), m)
  {
    forall p: int | 0 <= p < |s| && Start(s, p) ensures Has(c.marks, p) {
      assert Done(s, c, p);
    }
  }
}
