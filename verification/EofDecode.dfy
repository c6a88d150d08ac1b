/** What each EOF instruction means to validation: the section seen as decoded instructions. */
module EofDecode {
  import opened Prelude
  import opened EofOpcodes
  import opened EofTyping

  const NON_RETURNING: nat := 0x80

  /** The declared interface of a code section. */
  datatype Types = Types(inputs: nat, outputs: nat, maxStack: nat)

  /** What a section is validated against besides its own bytes. */
  datatype Ctx = Ctx(types: seq<Types>, dataSize: nat, containers: nat)

  /** The bytes p and p + 1 read big-endian. */
  function U16(code: Code, p: nat): nat {
    if p + 1 < |code| then code[p] as int * 256 + code[p + 1] as int else 0
  }

  /** The same bytes read as a two's-complement number. */
  function I16(code: Code, p: nat): int {
    if U16(code, p) < 0x8000 then U16(code, p) else U16(code, p) - 0x1_0000
  }

  /** Absolute destinations of an RJUMPV at i with `n` vtable entries: each offset counts from the
      byte after the vtable. */
  function VtableTargets(code: Code, i: nat, n: nat): seq<int> {
    seq(n, k requires 0 <= k < n => I16(code, i + 2 + 2 * k) + i + 2 + 2 * n)
  }

  /** The instruction at i with every check that does not depend on stack heights passed; None if
      one of them fails. */
  function Decode(ctx: Ctx, self: nat, code: Code, i: nat): Option<Instr>
    requires self < |ctx.types| && i < |code|
  {
    var info := Info(code[i]);
    if info.None? || info.value.notEof || i + info.value.immediate >= |code| then None
    else
      var plain := Instr(1 + info.value.immediate, info.value.inputs, None,
                         info.value.outputs - info.value.inputs, [], info.value.terminating);
      Refine(ctx, self, code, i, plain)
  }

  /** The instructions whose effect is not what the opcode table alone says. */
  function Refine(ctx: Ctx, self: nat, code: Code, i: nat, plain: Instr): Option<Instr>
    requires self < |ctx.types| && i < |code|
  {
    var op := code[i];
    if op == RJUMP || op == RJUMPI then Some(plain.(targets := [I16(code, i + 1) + 3 + i]))
    else if op == RJUMPV then RefineRjumpv(code, i, plain)
    else if op == CALLF then RefineCallf(ctx, U16(code, i + 1), plain)
    else if op == JUMPF then RefineJumpf(ctx, self, U16(code, i + 1), plain)
    else if op == EOFCREATE then
      if i + 1 < |code| && code[i + 1] < ctx.containers then Some(plain) else None
    else if op == DATALOADN then
      if U16(code, i + 1) + 32 <= ctx.dataSize then Some(plain) else None
    else if op == RETF then
      Some(plain.(need := ctx.types[self].outputs, cap := Some(ctx.types[self].outputs)))
    else if op == DUPN || op == SWAPN || op == EXCHANGE then
      if i + 1 < |code| then Some(plain.(need := Operand(op, code[i + 1]))) else None
    else Some(plain)
  }

  /** Stack items reached by DUPN, SWAPN and EXCHANGE with immediate `imm`. */
  function Operand(op: Byte, imm: Byte): nat {
    if op == DUPN then imm + 1
    else if op == SWAPN then imm + 2
    else (imm / 16 + 1) + (imm % 16 + 1) + 1
  }

  function RefineRjumpv(code: Code, i: nat, plain: Instr): Option<Instr> {
    if i + 1 < |code| && i + 1 + 2 * (code[i + 1] as int + 1) < |code| then
      var n := code[i + 1] as int + 1;
      Some(plain.(size := 2 + 2 * n, targets := VtableTargets(code, i, n)))
    else None
  }

  function RefineCallf(ctx: Ctx, k: nat, plain: Instr): Option<Instr> {
    if k < |ctx.types| && ctx.types[k].outputs != NON_RETURNING then
      var callee := ctx.types[k];
      Some(plain.(need := callee.inputs, diff := callee.outputs - callee.inputs,
                  cap := Some(STACK_LIMIT + callee.inputs - callee.maxStack)))
    else None
  }

  function RefineJumpf(ctx: Ctx, self: nat, k: nat, plain: Instr): Option<Instr>
    requires self < |ctx.types|
  {
    if k >= |ctx.types| then None
    else
      var callee, own := ctx.types[k], ctx.types[self];
      var room := STACK_LIMIT + callee.inputs - callee.maxStack;
      if callee.outputs == NON_RETURNING then
        Some(plain.(need := callee.inputs, cap := Some(room)))
      else if own.outputs < callee.outputs then None
      else
        var exact := own.outputs + callee.inputs - callee.outputs;
        Some(plain.(need := exact, cap := Some(Min(room, Min(exact, STACK_LIMIT - exact)))))
  }

  function Decoded(ctx: Ctx, self: nat, code: Code): Section
    requires self < |ctx.types|
  {
    seq(|code|, i requires 0 <= i < |code| => Decode(ctx, self, code, i))
  }

  /** The section that the instruction at p calls or jumps to. */
  predicate Invokes(code: Code, p: nat) {
    p < |code| && (code[p] == CALLF || code[p] == JUMPF)
  }

  /** Sections invoked by the instructions before position i. */
  function AccessedBefore(s: Section, code: Code, i: nat): set<nat>
    requires |s| == |code|
  {
    set p: nat | p < i && IsInstr(s, p) && Invokes(code, p) :: U16(code, p + 1)
  }

  function Accessed(s: Section, code: Code): set<nat>
    requires |s| == |code|
  {
    AccessedBefore(s, code, |code|)
  }

  /** Section `self` of `ctx` is well typed with its declared interface. */
  ghost predicate ValidSection(ctx: Ctx, self: nat, code: Code)
    requires self < |ctx.types|
  {
    Typable(Decoded(ctx, self, code), ctx.types[self].inputs, ctx.types[self].maxStack)
  }
}
