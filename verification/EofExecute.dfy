/** What instructions do to the stack and the pointer, as their bodies pop and push; the opcode table
    that validation reads is proved to agree. */
module EofExecute {
  import opened Prelude
  import opened EofOpcodes
  import opened EofDecode

  type Stack = seq<Word>

  /** Takes n items; None if there are too few. */
  function Popped(s: Stack, n: nat): Option<Stack> {
    if |s| < n then None else Some(s[..|s| - n])
  }

  /** Takes n items and leaves one. */
  function Computed(s: Stack, n: nat, answer: Word): Option<Stack> {
    if |s| < n then None else Some(s[..|s| - n] + [answer])
  }

  /** Copies the n-th item from the top. */
  function Duplicated(s: Stack, n: nat): Option<Stack>
    requires n > 0
  {
    if |s| < n then None else Some(s + [s[|s| - n]])
  }

  /** Swaps the item n below the top with the item m below that. */
  function Exchanged(s: Stack, n: nat, m: nat): Option<Stack> {
    if n + m >= |s| then None
    else
      var i, j := |s| - 1 - n, |s| - 1 - n - m;
      Some(s[i := s[j]][j := s[i]])
  }

  /** Takes the data range and then n topics. */
  function Logged(s: Stack, n: nat): Option<Stack> {
    var rest := Popped(s, 2);
    if rest.None? then None else Popped(rest.value, n)
  }

  /** The stack after instruction `op` with immediate byte `imm`; None is an underflow. `answer` is the
      word that the instruction computes or reads. Calls and creations leave their answer when they
      come back. The jumps and function instructions of EOF are not here. */
  function Execute(op: Byte, imm: Byte, s: Stack, answer: Word): Option<Stack> {
    if op < 0x20 then ExecuteArithmetic(op, s, answer)
    else if op < 0x50 then ExecuteEnvironment(op, s, answer)
    else if op < 0x60 then ExecuteMemory(op, s, answer)
    else if op < 0x80 then Some(s + [answer])
    else if op < 0x90 then Duplicated(s, op - 0x7F)
    else if op < 0xA0 then Exchanged(s, 0, op - 0x8F)
    else if op < 0xA5 then Logged(s, op - 0xA0)
    else ExecuteSystem(op, imm, s, answer)
  }

  /** Arithmetic, comparison, bits. */
  function ExecuteArithmetic(op: Byte, s: Stack, answer: Word): Option<Stack> {
    match op
    case 0x00 => Some(s)
    case 0x08 => Computed(s, 3, answer)
    case 0x09 => Computed(s, 3, answer)
    case 0x15 => Computed(s, 1, answer)
    case 0x19 => Computed(s, 1, answer)
    case _ => Computed(s, 2, answer)
  }

  /** Hashing, and what the transaction, the block and other accounts answer. */
  function ExecuteEnvironment(op: Byte, s: Stack, answer: Word): Option<Stack> {
    match op
    case 0x20 => Computed(s, 2, answer)
    case 0x31 => Computed(s, 1, answer)
    case 0x35 => Computed(s, 1, answer)
    case 0x37 => Popped(s, 3)
    case 0x39 => Popped(s, 3)
    case 0x3B => Computed(s, 1, answer)
    case 0x3C => Popped(s, 4)
    case 0x3E => Popped(s, 3)
    case 0x3F => Computed(s, 1, answer)
    case 0x40 => Computed(s, 1, answer)
    case 0x49 => Computed(s, 1, answer)
    case _ => Some(s + [answer])
  }

  /** Stack, memory, storage and legacy flow. */
  function ExecuteMemory(op: Byte, s: Stack, answer: Word): Option<Stack> {
    match op
    case 0x50 => Popped(s, 1)
    case 0x51 => Computed(s, 1, answer)
    case 0x52 => Popped(s, 2)
    case 0x53 => Popped(s, 2)
    case 0x54 => Computed(s, 1, answer)
    case 0x55 => Popped(s, 2)
    case 0x56 => Popped(s, 1)
    case 0x57 => Popped(s, 2)
    case 0x5B => Some(s)
    case 0x5C => Computed(s, 1, answer)
    case 0x5D => Popped(s, 2)
    case 0x5E => Popped(s, 3)
    case _ => Some(s + [answer])
  }

  /** EOF data and stack instructions, calls, creations and endings. */
  function ExecuteSystem(op: Byte, imm: Byte, s: Stack, answer: Word): Option<Stack> {
    match op
    case 0xD0 => Computed(s, 1, answer)
    case 0xD1 => Some(s + [answer])
    case 0xD2 => Some(s + [answer])
    case 0xD3 => Popped(s, 3)
    case 0xE6 => Duplicated(s, imm + 1)
    case 0xE7 => Exchanged(s, 0, imm + 1)
    case 0xE8 => Exchanged(s, imm / 16 + 1, imm % 16 + 1)
    case 0xEC => Computed(s, 4, answer)
    case 0xEE => Popped(s, 2)
    case 0xF0 => Computed(s, 3, answer)
    case 0xF1 => Computed(s, 7, answer)
    case 0xF2 => Computed(s, 7, answer)
    case 0xF3 => Popped(s, 2)
    case 0xF4 => Computed(s, 6, answer)
    case 0xF5 => Computed(s, 4, answer)
    case 0xF7 => Computed(s, 1, answer)
    case 0xF8 => Computed(s, 4, answer)
    case 0xF9 => Computed(s, 3, answer)
    case 0xFA => Computed(s, 6, answer)
    case 0xFB => Computed(s, 3, answer)
    case 0xFD => Popped(s, 2)
    case 0xFF => Popped(s, 1)
    case _ => Some(s)
  }

  /** The bytes behind the opcode that the instruction reads and steps over. */
  function Skipped(op: Byte): nat {
    if 0x60 <= op < 0x80 then op - 0x5F
    else if op in {DATALOADN, RJUMP, RJUMPI, CALLF, JUMPF} then 2
    else if op in {RJUMPV, DUPN, SWAPN, EXCHANGE, EOFCREATE, RETURNCONTRACT} then 1
    else 0
  }

  /** The instructions that never go on to the one behind them. */
  predicate Ends(op: Byte) {
    op in {STOP, RJUMP, RETF, JUMPF, RETURNCONTRACT, RETURN, REVERT, INVALID, SELFDESTRUCT}
  }

  /** Instructions that legacy code has and EOF code must not: code introspection, dynamic jumps, gas
      introspection, the old calls and creations. */
  predicate LegacyOnly(op: Byte) {
    op in {0x38, 0x39, 0x3B, 0x3C, 0x3F, JUMP, JUMPI, 0x58, 0x5A, 0xF0, 0xF1, 0xF2, 0xF4, 0xF5, 0xFA, SELFDESTRUCT}
  }

  /** The bytes that are no instruction. */
  predicate Unassigned(op: Byte) {
    || 0x0C <= op <= 0x0F || 0x1E <= op <= 0x1F || 0x21 <= op <= 0x2F || 0x4B <= op <= 0x4F
    || 0xA5 <= op <= 0xCF || 0xD4 <= op <= 0xDF || 0xE9 <= op <= 0xEB || op == 0xED || op == 0xEF
    || op == 0xF6 || op == 0xFC
  }

  predicate IsControl(op: Byte) {
    RJUMP <= op <= JUMPF
  }

  /** The table has an entry for exactly the instructions, and says of each what it skips, whether it
      ends its code and whether EOF may use it. */
  lemma TableAgrees(op: Byte)
    ensures Info(op).None? <==> Unassigned(op)
    ensures Info(op).Some? ==>
      && Info(op).value.immediate == Skipped(op)
      && (Info(op).value.terminating <==> Ends(op))
      && (Info(op).value.notEof <==> LegacyOnly(op))
  {
  }

  /** The items an instruction reaches for beyond those it takes. */
  function Reached(op: Byte, imm: Byte): nat {
    if op == DUPN || op == SWAPN || op == EXCHANGE then Operand(op, imm) else 0
  }

  function Needed(op: Byte, imm: Byte): nat
    requires Info(op).Some?
  {
    Max(Info(op).value.inputs, Reached(op, imm))
  }

  /** What `r` makes of s is what the table says of op, and with enough items above `base` the items
      below are left alone. */
  predicate AsTabled(op: Byte, imm: Byte, s: Stack, r: Option<Stack>, base: nat)
    requires Info(op).Some?
  {
    && (r.None? <==> |s| < Needed(op, imm))
    && (r.Some? ==> |r.value| == |s| - Info(op).value.inputs + Info(op).value.outputs)
    && (base <= |s| && Needed(op, imm) <= |s| - base ==> base <= |r.value| && r.value[..base] == s[..base])
  }

  lemma ArithmeticAgrees(op: Byte, imm: Byte, s: Stack, answer: Word, base: nat)
    requires Info(op).Some? && op < 0x20
    ensures AsTabled(op, imm, s, ExecuteArithmetic(op, s, answer), base)
  {
  }

  lemma EnvironmentAgrees(op: Byte, imm: Byte, s: Stack, answer: Word, base: nat)
    requires Info(op).Some? && 0x20 <= op < 0x50
    ensures AsTabled(op, imm, s, ExecuteEnvironment(op, s, answer), base)
  {
  }

  lemma MemoryAgrees(op: Byte, imm: Byte, s: Stack, answer: Word, base: nat)
    requires Info(op).Some? && 0x50 <= op < 0x60
    ensures AsTabled(op, imm, s, ExecuteMemory(op, s, answer), base)
  {
  }

  lemma StackwiseAgrees(op: Byte, imm: Byte, s: Stack, answer: Word, base: nat)
    requires 0x60 <= op < 0xA5
    ensures Info(op).Some? && AsTabled(op, imm, s, Execute(op, imm, s, answer), base)
  {
  }

  lemma DataAgrees(op: Byte, imm: Byte, s: Stack, answer: Word, base: nat)
    requires Info(op).Some? && 0xA5 <= op < 0xF0 && !IsControl(op)
    ensures AsTabled(op, imm, s, ExecuteSystem(op, imm, s, answer), base)
  {
  }

  lemma SystemAgrees(op: Byte, imm: Byte, s: Stack, answer: Word, base: nat)
    requires Info(op).Some? && 0xF0 <= op
    ensures AsTabled(op, imm, s, ExecuteSystem(op, imm, s, answer), base)
  {
  }

  /** The table's inputs and outputs are what every instruction but a jump or a function instruction
      does: it underflows exactly below its inputs, moves the height by outputs less inputs, and leaves
      the items below the ones it needs alone. */
  lemma StackAgrees(op: Byte, imm: Byte, s: Stack, answer: Word, base: nat)
    requires Info(op).Some? && !IsControl(op)
    ensures AsTabled(op, imm, s, Execute(op, imm, s, answer), base)
  {
    if op < 0x20 {
      ArithmeticAgrees(op, imm, s, answer, base);
    } else if op < 0x50 {
      EnvironmentAgrees(op, imm, s, answer, base);
    } else if op < 0x60 {
      MemoryAgrees(op, imm, s, answer, base);
    } else if op < 0xA5 {
      StackwiseAgrees(op, imm, s, answer, base);
    } else if op < 0xF0 {
      DataAgrees(op, imm, s, answer, base);
    } else {
      SystemAgrees(op, imm, s, answer, base);
    }
  }
}
