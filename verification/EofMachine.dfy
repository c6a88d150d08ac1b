/** Running EOF code: the interpreter's steps on its stack, its pointer and its return stack. */
module EofMachine {
  import opened Prelude
  import opened EofOpcodes
  import opened EofTyping
  import opened EofDecode
  import opened EofExecute
  import opened EofSections

  const RETURN_STACK_LIMIT: nat := 1024

  /** Where a called function returns to. */
  datatype Frame = Frame(idx: nat, pc: int)

  /** The running section, the position of its next instruction, the whole stack with its top last, and
      the return stack. */
  datatype Config = Config(section: nat, pc: int, stack: Stack, frames: seq<Frame>)

  const INITIAL: Config := Config(0, 0, [], [])

  /** The ways a run may end. A refused call or jump is a reported error, not a fault. */
  datatype Ending = Halted | ReturnStackFull | StackWouldOverflow

  /** What must never happen: each is undefined behaviour, a panic, or a stack error that the
      validator promises away. */
  datatype Fault =
    | NoSuchSection | PcOutsideCode | UnknownInstruction | ReadOutsideCode
    | Underflow | Overflow | NoReturnFrame | NoSuchContainer | ReadOutsideData

  datatype Outcome = Next(config: Config) | End(ending: Ending) | Fail(fault: Fault)

  /** `ip` is the pointer after the opcode byte, as each instruction finds it. */
  function RjumpIp(code: Code, ip: nat): int {
    ip + I16(code, ip) + 2
  }

  function RjumpiIp(code: Code, ip: nat, condition: nat): int {
    ip + 2 + if condition != 0 then I16(code, ip) else 0
  }

  function RjumpvIp(code: Code, ip: nat, case_: nat): int
    requires ip < |code|
  {
    var maxIndex := code[ip] as int;
    ip + (maxIndex + 1) * 2 + 1 + if case_ <= maxIndex then I16(code, ip + 1 + case_ * 2) else 0
  }

  function Callf(eof: Eof, c: Config, k: nat): Outcome {
    if |c.frames| >= RETURN_STACK_LIMIT then End(ReturnStackFull)
    else if !IsSection(eof, k) then Fail(NoSuchSection)
    else if |c.stack| + (eof.types[k].maxStack - eof.types[k].inputs) > STACK_LIMIT then End(StackWouldOverflow)
    else Next(Config(k, 0, c.stack, c.frames + [Frame(c.section, c.pc + 3)]))
  }

  function Retf(c: Config): Outcome {
    if c.frames == [] then Fail(NoReturnFrame)
    else
      var top := c.frames[|c.frames| - 1];
      Next(Config(top.idx, top.pc, c.stack, c.frames[..|c.frames| - 1]))
  }

  function Jumpf(eof: Eof, c: Config, k: nat): Outcome {
    if !IsSection(eof, k) then Fail(NoSuchSection)
    else if |c.stack| + (eof.types[k].maxStack - eof.types[k].inputs) > STACK_LIMIT then End(StackWouldOverflow)
    else Next(Config(k, 0, c.stack, c.frames))
  }

  /** Every other instruction. `imm` is the byte behind the opcode. */
  function Plain(eof: Eof, c: Config, op: Byte, imm: Byte, answer: Word): Outcome {
    var stack := Execute(op, imm, c.stack, answer);
    if stack.None? then Fail(Underflow)
    else if |stack.value| > STACK_LIMIT then Fail(Overflow)
    else if op == EOFCREATE && imm >= eof.containers then Fail(NoSuchContainer)
    else if Ends(op) then End(Halted)
    else Next(c.(pc := c.pc + 1 + Skipped(op), stack := stack.value))
  }

  function Top(stack: Stack): Word
    requires stack != []
  {
    stack[|stack| - 1]
  }

  function Below(stack: Stack): Stack
    requires stack != []
  {
    stack[..|stack| - 1]
  }

  /** The relative jumps; RJUMPI and RJUMPV take their condition or case from the stack. */
  function Branch(code: Code, c: Config, op: Byte, ip: nat): Outcome
    requires ip < |code|
  {
    if op == RJUMP then Next(c.(pc := RjumpIp(code, ip)))
    else if c.stack == [] then Fail(Underflow)
    else
      var x := Top(c.stack);
      if op == RJUMPI then Next(c.(pc := RjumpiIp(code, ip, x), stack := Below(c.stack)))
      else if x <= code[ip] && ip + 2 + x * 2 >= |code| then Fail(ReadOutsideCode)
      else Next(c.(pc := RjumpvIp(code, ip, x), stack := Below(c.stack)))
  }

  /** One instruction. `answer` is the word it computes or reads, if any. */
  function Step(eof: Eof, c: Config, answer: Word): Outcome {
    if !IsSection(eof, c.section) then Fail(NoSuchSection)
    else
      var code := eof.codes[c.section];
      if !(0 <= c.pc < |code|) then Fail(PcOutsideCode)
      else
        var op, ip := code[c.pc], c.pc + 1;
        if Unassigned(op) || LegacyOnly(op) then Fail(UnknownInstruction)
        else if c.pc + Skipped(op) >= |code| then Fail(ReadOutsideCode)
        else if op == RJUMP || op == RJUMPI || op == RJUMPV then Branch(code, c, op, ip)
        else if op == CALLF then Callf(eof, c, U16(code, ip))
        else if op == RETF then Retf(c)
        else if op == JUMPF then Jumpf(eof, c, U16(code, ip))
        else if op == DATALOADN && U16(code, ip) + 32 > eof.dataSize then Fail(ReadOutsideData)
        else Plain(eof, c, op, if ip < |code| then code[ip] else 0, answer)
  }

  // ---- Inside one section ----

  predicate Local(eof: Eof, c: Config) {
    && IsSection(eof, c.section) && 0 <= c.pc < |eof.codes[c.section]|
    && eof.codes[c.section][c.pc] != CALLF && eof.codes[c.section][c.pc] != RETF && eof.codes[c.section][c.pc] != JUMPF
  }

  /** Where a relative jump goes: RJUMP to its target; RJUMPI to its target exactly if the condition is
      not zero; RJUMPV to the target of its case if the vtable has one; and else to the next
      instruction. The vtable read lies inside the code. */
  lemma BranchFollowsEdge(ctx: Ctx, self: nat, code: Code, pc: nat, x: Word)
    requires self < |ctx.types| && pc < |code| && Decode(ctx, self, code, pc).Some?
    requires code[pc] == RJUMP || code[pc] == RJUMPI || code[pc] == RJUMPV
    ensures var instr, op := Decode(ctx, self, code, pc).value, code[pc];
            && (op == RJUMP ==> |instr.targets| == 1 && RjumpIp(code, pc + 1) == instr.targets[0])
            && (op == RJUMPI ==>
                  && |instr.targets| == 1
                  && RjumpiIp(code, pc + 1, x) == (if x != 0 then instr.targets[0] else pc + instr.size))
            && (op == RJUMPV ==>
                  && |instr.targets| == code[pc + 1] as int + 1
                  && RjumpvIp(code, pc + 1, x) == (if x < |instr.targets| then instr.targets[x] else pc + instr.size))
            && (op == RJUMPV && x <= code[pc + 1] ==> pc + 3 + x * 2 < |code|)
            && (op == RJUMP <==> instr.terminating)
  {
    var instr := Decode(ctx, self, code, pc).value;
    if code[pc] == RJUMPV && x <= code[pc + 1] {
      var n := code[pc + 1] as int + 1;
      assert instr.targets[x] == I16(code, pc + 2 + 2 * x) + pc + 2 + 2 * n;
    } else if code[pc] != RJUMPV {
      assert instr.targets[0] == I16(code, pc + 1) + 3 + pc;
    }
  }

  /** The immediates of a jump are read big-endian and as a signed number. */
  lemma ImmediatesRead(code: Code, p: nat)
    requires p + 1 < |code|
    ensures U16(code, p) / 256 == code[p] && U16(code, p) % 256 == code[p + 1]
    ensures -0x8000 <= I16(code, p) < 0x8000 && (I16(code, p) - U16(code, p)) % 0x1_0000 == 0
  {
  }

  /** An instruction that stays in its section moves along an edge of the decoded section, and leaves
      the items below `base` alone. */
  lemma LocalStep(eof: Eof, c: Config, answer: Word, base: nat)
    requires Local(eof, c)
    requires IsInstr(DecodedSection(eof, c.section), c.pc)
    requires var instr, height := DecodedSection(eof, c.section)[c.pc].value, |c.stack|;
             instr.need <= height - base && (!instr.terminating ==> height + instr.diff <= STACK_LIMIT) && base <= height <= STACK_LIMIT
    ensures var o := Step(eof, c, answer);
            || o == End(Halted)
            || (o.Next? && o.config.section == c.section && o.config.frames == c.frames
                && Hop(DecodedSection(eof, c.section), Point(c.pc, |c.stack| - base), Point(o.config.pc, |o.config.stack| - base))
                && base <= |o.config.stack| && o.config.stack[..base] == c.stack[..base])
  {
    var code, op := eof.codes[c.section], eof.codes[c.section][c.pc];
    var s := DecodedSection(eof, c.section);
    assert s[c.pc] == Decode(Context(eof), c.section, code, c.pc);
    TableAgrees(op);
    if op == RJUMP || op == RJUMPI || op == RJUMPV {
      LocalBranch(eof, c, answer, base);
    } else {
      LocalPlain(eof, c, answer, base);
    }
  }

  lemma LocalBranch(eof: Eof, c: Config, answer: Word, base: nat)
    requires Local(eof, c) && IsInstr(DecodedSection(eof, c.section), c.pc)
    requires var op := eof.codes[c.section][c.pc]; op == RJUMP || op == RJUMPI || op == RJUMPV
    requires DecodedSection(eof, c.section)[c.pc].value.need <= |c.stack| - base
    ensures var o := Step(eof, c, answer);
            && o.Next? && o.config.section == c.section && o.config.frames == c.frames
            && Hop(DecodedSection(eof, c.section), Point(c.pc, |c.stack| - base), Point(o.config.pc, |o.config.stack| - base))
            && base <= |o.config.stack| && o.config.stack[..base] == c.stack[..base]
  {
    var code, op := eof.codes[c.section], eof.codes[c.section][c.pc];
    var s := DecodedSection(eof, c.section);
    assert s[c.pc] == Decode(Context(eof), c.section, code, c.pc);
    TableAgrees(op);
    var x := if c.stack == [] then 0 else Top(c.stack);
    BranchFollowsEdge(Context(eof), c.section, code, c.pc, x);
    assert Step(eof, c, answer) == Branch(code, c, op, c.pc + 1);
  }

  lemma LocalPlain(eof: Eof, c: Config, answer: Word, base: nat)
    requires Local(eof, c) && IsInstr(DecodedSection(eof, c.section), c.pc)
    requires var op := eof.codes[c.section][c.pc]; op != RJUMP && op != RJUMPI && op != RJUMPV
    requires var instr, height := DecodedSection(eof, c.section)[c.pc].value, |c.stack|;
             instr.need <= height - base && (!instr.terminating ==> height + instr.diff <= STACK_LIMIT) && base <= height <= STACK_LIMIT
    ensures var o := Step(eof, c, answer);
            || o == End(Halted)
            || (o.Next? && o.config.section == c.section && o.config.frames == c.frames
                && Hop(DecodedSection(eof, c.section), Point(c.pc, |c.stack| - base), Point(o.config.pc, |o.config.stack| - base))
                && base <= |o.config.stack| && o.config.stack[..base] == c.stack[..base])
  {
    var code, op := eof.codes[c.section], eof.codes[c.section][c.pc];
    var imm := if c.pc + 1 < |code| then code[c.pc + 1] else 0;
    var s := DecodedSection(eof, c.section);
    assert s[c.pc] == Decode(Context(eof), c.section, code, c.pc);
    TableAgrees(op);
    PlainDecoded(Context(eof), c.section, code, c.pc);
    StackAgrees(op, imm, c.stack, answer, base);
    TerminatingShrinks(op);
    assert Step(eof, c, answer) == Plain(eof, c, op, imm, answer);
  }

  /** What decoding says of an instruction that is no jump or function instruction. */
  lemma PlainDecoded(ctx: Ctx, self: nat, code: Code, pc: nat)
    requires self < |ctx.types| && pc < |code| && Decode(ctx, self, code, pc).Some? && !IsControl(code[pc])
    ensures Info(code[pc]).Some?
    ensures var instr, info := Decode(ctx, self, code, pc).value, Info(code[pc]).value;
            var imm := if pc + 1 < |code| then code[pc + 1] else 0;
            && instr.need == Needed(code[pc], imm) && instr.diff == info.outputs - info.inputs
            && instr.size == 1 + info.immediate && instr.terminating == info.terminating
            && (code[pc] == EOFCREATE ==> imm < ctx.containers)
            && (code[pc] == DATALOADN ==> U16(code, pc + 1) + 32 <= ctx.dataSize)
  {
  }

  lemma NeedNotNegative(ctx: Ctx, self: nat, code: Code, pc: nat)
    requires self < |ctx.types| && pc < |code| && Decode(ctx, self, code, pc).Some?
    ensures Decode(ctx, self, code, pc).value.need >= 0
  {
  }

  lemma TerminatingShrinks(op: Byte)
    ensures Info(op).Some? && Info(op).value.terminating ==> Info(op).value.outputs <= Info(op).value.inputs
  {
  }

  // ---- Validation refuses only for cause ----

  /** A plain instruction is refused exactly if running it would fault on a stack that is neither short
      nor full; one that is let through underflows exactly below the height validation asks for and
      overflows exactly where validation's new height passes the limit. */
  lemma RefusedForCause(eof: Eof, c: Config, answer: Word)
    requires IsSection(eof, c.section) && 0 <= c.pc < |eof.codes[c.section]| && !IsControl(eof.codes[c.section][c.pc])
    ensures var d, o := Decode(Context(eof), c.section, eof.codes[c.section], c.pc), Step(eof, c, answer);
            && (257 <= |c.stack| < STACK_LIMIT ==> (d.None? <==> o.Fail?))
            && (d.Some? ==> (o == Fail(Underflow) <==> |c.stack| < d.value.need))
            && (d.Some? ==> (o == Fail(Overflow) <==> d.value.need <= |c.stack| && |c.stack| + d.value.diff > STACK_LIMIT))
  {
    var code, op := eof.codes[c.section], eof.codes[c.section][c.pc];
    var imm := if c.pc + 1 < |code| then code[c.pc + 1] else 0;
    TableAgrees(op);
    if Decode(Context(eof), c.section, code, c.pc).Some? {
      PlainDecoded(Context(eof), c.section, code, c.pc);
      StackAgrees(op, imm, c.stack, answer, 0);
      TerminatingShrinks(op);
      NeedBounded(op, imm);
      assert Step(eof, c, answer) == Plain(eof, c, op, imm, answer);
    } else if 257 <= |c.stack| < STACK_LIMIT {
      RefusedFails(eof, c, answer);
    }
  }

  lemma NeedBounded(op: Byte, imm: Byte)
    requires Info(op).Some?
    ensures Needed(op, imm) <= 257 && Info(op).value.outputs - Info(op).value.inputs <= 1
  {
  }

  lemma RefusedFails(eof: Eof, c: Config, answer: Word)
    requires IsSection(eof, c.section) && 0 <= c.pc < |eof.codes[c.section]| && !IsControl(eof.codes[c.section][c.pc])
    requires Decode(Context(eof), c.section, eof.codes[c.section], c.pc).None? && 257 <= |c.stack| < STACK_LIMIT
    ensures Step(eof, c, answer).Fail?
  {
    TableAgrees(eof.codes[c.section][c.pc]);
  }

  /** A relative jump is refused exactly if it would read outside its code, an RJUMPV in its last case;
      and it underflows exactly below the height validation asks for. */
  lemma BranchRefusedForCause(eof: Eof, c: Config, answer: Word)
    requires IsSection(eof, c.section) && 0 <= c.pc < |eof.codes[c.section]|
    requires var op := eof.codes[c.section][c.pc]; op == RJUMP || op == RJUMPI || op == RJUMPV
    ensures var code, o := eof.codes[c.section], Step(eof, c, answer);
            var d := Decode(Context(eof), c.section, code, c.pc);
            && (d.Some? ==> (o == Fail(Underflow) <==> |c.stack| < d.value.need))
            && (c.stack != [] && (c.pc + 1 < |code| ==> Top(c.stack) == code[c.pc + 1]) ==> (d.None? <==> o.Fail?))
  {
    TableAgrees(eof.codes[c.section][c.pc]);
  }

  /** The heights an instruction may stand at. */
  predicate Admits(instr: Instr, height: nat) {
    instr.need <= height && WithinCap(instr, height)
  }

  /** A CALLF is refused exactly if there is no such section or it does not return; the heights it may
      stand at are those at which the call is made with all its inputs. */
  lemma CallRefusedForCause(eof: Eof, c: Config, answer: Word)
    requires IsSection(eof, c.section) && 0 <= c.pc < |eof.codes[c.section]| - 2
    requires eof.codes[c.section][c.pc] == CALLF && |c.frames| < RETURN_STACK_LIMIT
    ensures var k, o := U16(eof.codes[c.section], c.pc + 1), Step(eof, c, answer);
            var d := Decode(Context(eof), c.section, eof.codes[c.section], c.pc);
            && (d.None? <==> o == Fail(NoSuchSection) || eof.types[k].outputs == NON_RETURNING)
            && (d.Some? ==> (Admits(d.value, |c.stack|) <==> o.Next? && |c.stack| >= eof.types[k].inputs))
  {
    TableAgrees(CALLF);
  }

  /** What decoding the container has checked of every type entry. */
  predicate TypesInRange(eof: Eof) {
    forall k :: 0 <= k < |eof.types| ==>
      eof.types[k].inputs <= 0x7F && eof.types[k].outputs <= 0x80 && eof.types[k].inputs <= eof.types[k].maxStack <= 0x3FF
  }

  /** A JUMPF is refused exactly if there is no such section or it leaves more than the own section
      promises. It may stand at the heights at which the jump is made with all its inputs and, if the
      target returns, what is left then is what the own section promises. That the source also wants
      twice this height within the limit makes no difference. */
  lemma JumpRefusedForCause(eof: Eof, c: Config, answer: Word)
    requires IsSection(eof, c.section) && 0 <= c.pc < |eof.codes[c.section]| - 2
    requires eof.codes[c.section][c.pc] == JUMPF && TypesInRange(eof)
    ensures var k, o := U16(eof.codes[c.section], c.pc + 1), Step(eof, c, answer);
            var d, own := Decode(Context(eof), c.section, eof.codes[c.section], c.pc), eof.types[c.section];
            && (d.None? <==> o == Fail(NoSuchSection) || (eof.types[k].outputs != NON_RETURNING && eof.types[k].outputs > own.outputs))
            && (d.Some? ==>
                  var callee := eof.types[k];
                  Admits(d.value, |c.stack|) <==>
                    && o.Next? && |c.stack| >= callee.inputs
                    && (callee.outputs != NON_RETURNING ==> |c.stack| - callee.inputs + callee.outputs == own.outputs))
  {
    TableAgrees(JUMPF);
  }
}
