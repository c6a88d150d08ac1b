/** What each instruction of legacy code charges before the interpreter goes on to the next one. */
module OpcodeGas {
  import opened Prelude
  import opened Arithmetic
  import opened GasConstants
  import opened EofOpcodes
  import opened MemoryGas
  import opened SstoreGas

  /** What the charge depends on besides the opcode: the length given on the stack, how far the
      instruction reaches into memory (zero for an empty range), whether the account or slot is cold, the
      exponent, and the slot's values around a store. */
  datatype Use = Use(len: nat, reach: nat, isCold: bool, exponent: nat, original: nat, present: nat, newValue: nat)

  /** A charge that is there from a fork on. */
  function Since(spec: SpecId, fork: SpecId, cost: nat): Option<nat> {
    if spec >= fork then Some(cost) else None
  }

  function WarmOrCold(isCold: bool): nat {
    if isCold then COLD_ACCOUNT_ACCESS_COST else WARM_STORAGE_READ_COST
  }

  /** Bytes of a number without leading zeros. */
  function ByteLength(n: nat): nat {
    if n == 0 then 0 else 1 + ByteLength(n / 256)
  }

  function ExpCost(spec: SpecId, exponent: nat): nat {
    EXP + (if spec >= SPURIOUS_DRAGON then 50 else 10) * ByteLength(exponent)
  }

  function CopyCost(len: nat): nat {
    VERYLOW + COPY * NumWords(len)
  }

  function BalanceCost(spec: SpecId, isCold: bool): nat {
    if spec >= BERLIN then WarmOrCold(isCold) else if spec >= ISTANBUL then 700 else if spec >= TANGERINE then 400 else 20
  }

  function CodeCost(spec: SpecId, isCold: bool): nat {
    if spec >= BERLIN then WarmOrCold(isCold) else if spec >= TANGERINE then 700 else 20
  }

  function CodeHashCost(spec: SpecId, isCold: bool): nat {
    if spec >= BERLIN then WarmOrCold(isCold) else if spec >= ISTANBUL then 700 else 400
  }

  function SloadCost(spec: SpecId, isCold: bool): nat {
    if spec >= BERLIN && isCold then COLD_SLOAD_COST else WarmSload(spec)
  }

  /** What instruction `op` charges with `gas` left, apart from memory. None if it never goes on: it
      halts, hands over to another frame, is for EOF code only, is not active yet, or is no
      instruction. */
  function Charge(spec: SpecId, op: Byte, use: Use, gas: nat): Option<nat> {
    if op < 0x30 then ArithmeticCharge(spec, op, use)
    else if op < 0x50 then EnvironmentCharge(spec, op, use)
    else if op < 0x60 then MemoryCharge(spec, op, use, gas)
    else if op < 0xA0 then Some(VERYLOW)
    else if op < 0xA5 then Some(LOG + LOGDATA * use.len + LOGTOPIC * (op - 0xA0))
    else None
  }

  function ArithmeticCharge(spec: SpecId, op: Byte, use: Use): Option<nat> {
    if op == 0x00 then None
    else if op == 0x01 || op == 0x03 then Some(VERYLOW)
    else if op == 0x08 || op == 0x09 then Some(MID)
    else if op == 0x0A then Some(ExpCost(spec, use.exponent))
    else if op <= 0x0B then Some(LOW)
    else if 0x10 <= op <= 0x1A then Some(VERYLOW)
    else if 0x1B <= op <= 0x1D then Since(spec, CONSTANTINOPLE, VERYLOW)
    else if op == 0x20 then Some(KECCAK256 + KECCAK256WORD * NumWords(use.len))
    else None
  }

  function EnvironmentCharge(spec: SpecId, op: Byte, use: Use): Option<nat> {
    if op == 0x31 then Some(BalanceCost(spec, use.isCold))
    else if op == 0x35 then Some(VERYLOW)
    else if op == 0x37 || op == 0x39 then Some(CopyCost(use.len))
    else if op == 0x3B then Some(CodeCost(spec, use.isCold))
    else if op == 0x3C then Some(CodeCost(spec, use.isCold) + COPY * NumWords(use.len))
    else if op == 0x3D then Since(spec, BYZANTIUM, BASE)
    else if op == 0x3E then Since(spec, BYZANTIUM, CopyCost(use.len))
    else if op == 0x3F then Since(spec, CONSTANTINOPLE, CodeHashCost(spec, use.isCold))
    else if op == 0x40 then Some(BLOCKHASH)
    else if op == 0x46 then Since(spec, ISTANBUL, BASE)
    else if op == 0x47 then Since(spec, ISTANBUL, LOW)
    else if op == 0x48 then Since(spec, LONDON, BASE)
    else if op == 0x49 then Since(spec, CANCUN, VERYLOW)
    else if op == 0x4A then Since(spec, CANCUN, BASE)
    else if 0x30 <= op <= 0x45 then Some(BASE)
    else None
  }

  function MemoryCharge(spec: SpecId, op: Byte, use: Use, gas: nat): Option<nat> {
    if 0x51 <= op <= 0x53 then Some(VERYLOW)
    else if op == 0x54 then Some(SloadCost(spec, use.isCold))
    else if op == 0x55 then SstoreCost(spec, use.original, use.present, use.newValue, gas, use.isCold)
    else if op == 0x56 then Some(MID)
    else if op == 0x57 then Some(HIGH)
    else if op == 0x5B then Some(JUMPDEST_GAS)
    else if op == 0x5C || op == 0x5D then Since(spec, CANCUN, WARM_STORAGE_READ_COST)
    else if op == 0x5E then Since(spec, CANCUN, CopyCost(use.len))
    else if op == 0x5F then Since(spec, SHANGHAI, BASE)
    else if 0x50 <= op <= 0x5A then Some(BASE)
    else None
  }

  /** The instructions that make the memory reach as far as they read or write. */
  predicate ReachesMemory(op: Byte) {
    op == 0x20 || op == 0x51 || 0xA0 <= op <= 0xA4 || WritesMemory(op)
  }

  predicate WritesMemory(op: Byte) {
    op == 0x37 || op == 0x39 || op == 0x3C || op == 0x3E || op == 0x52 || op == 0x53 || op == 0x5E
  }

  /** The whole charge of an instruction, its memory expansion included. */
  function FullCharge(spec: SpecId, op: Byte, use: Use, gas: nat, memoryLength: nat): Option<nat> {
    var charge := Charge(spec, op, use, gas);
    if charge.None? then None
    else Some(charge.value + if ReachesMemory(op) then ExpansionPrice(memoryLength, use.reach) else 0)
  }

  /** No instruction that can go on is free, in any fork. */
  lemma EveryStepCosts(spec: SpecId, op: Byte, use: Use, gas: nat, memoryLength: nat)
    requires FullCharge(spec, op, use, gas, memoryLength).Some?
    ensures FullCharge(spec, op, use, gas, memoryLength).value >= 1
  {
    if op == 0x55 {
      StoreCosts(spec, use, gas);
    }
  }

  lemma StoreCosts(spec: SpecId, use: Use, gas: nat)
    ensures var cost := SstoreCost(spec, use.original, use.present, use.newValue, gas, use.isCold);
            cost.Some? ==> cost.value >= WARM_STORAGE_READ_COST
  {
  }

  /** What goes on is an instruction of the opcode table that does not end its code. */
  lemma GoingOnIsKnown(spec: SpecId, op: Byte, use: Use, gas: nat)
    requires Charge(spec, op, use, gas).Some?
    ensures Info(op).Some? && !Info(op).value.terminating && op < 0xD0
  {
  }

  /** From Cancun on every instruction of the table that is not for EOF code, does not end its code and
      does not hand over to another frame goes on, unless it is a store with too little gas. */
  lemma KnownGoesOn(spec: SpecId, op: Byte, use: Use, gas: nat)
    requires spec >= CANCUN && Info(op).Some? && !Info(op).value.terminating && op < 0xD0
    ensures Charge(spec, op, use, gas).None? <==> op == 0x55 && gas <= CALL_STIPEND
  {
  }

  /** The fee tiers of the Yellow Paper's appendix G, and what later forks added to them. */
  lemma FeeTiers(spec: SpecId, op: Byte, use: Use, gas: nat)
    requires spec >= CANCUN
    ensures op in {0x30, 0x32, 0x33, 0x34, 0x36, 0x38, 0x3A, 0x3D, 0x41, 0x42, 0x43, 0x44, 0x45, 0x46, 0x48, 0x4A, 0x50, 0x58, 0x59, 0x5A, 0x5F}
            ==> Charge(spec, op, use, gas) == Some(2)
    ensures op in {0x01, 0x03, 0x10, 0x11, 0x12, 0x13, 0x14, 0x15, 0x16, 0x17, 0x18, 0x19, 0x1A, 0x1B, 0x1C, 0x1D, 0x35, 0x49, 0x51, 0x52, 0x53}
            ==> Charge(spec, op, use, gas) == Some(3)
    ensures 0x60 <= op < 0xA0 ==> Charge(spec, op, use, gas) == Some(3)
    ensures op in {0x02, 0x04, 0x05, 0x06, 0x07, 0x0B, 0x47} ==> Charge(spec, op, use, gas) == Some(5)
    ensures op in {0x08, 0x09, 0x56} ==> Charge(spec, op, use, gas) == Some(8)
    ensures op == 0x57 ==> Charge(spec, op, use, gas) == Some(10)
    ensures op == 0x5B ==> Charge(spec, op, use, gas) == Some(1)
    ensures op == 0x40 ==> Charge(spec, op, use, gas) == Some(20)
  {
  }

  /** The charges that depend on lengths, temperatures and exponents. */
  lemma VariableFees(spec: SpecId, op: Byte, use: Use, gas: nat)
    requires spec >= CANCUN && use.len < 0x1_0000_0000
    ensures var words := (use.len + 31) / 32;
            && (op == 0x20 ==> Charge(spec, op, use, gas) == Some(30 + 6 * words))
            && (op in {0x37, 0x39, 0x3E, 0x5E} ==> Charge(spec, op, use, gas) == Some(3 + 3 * words))
            && (op == 0x3C ==> Charge(spec, op, use, gas) == Some((if use.isCold then 2600 else 100) + 3 * words))
    ensures op in {0x31, 0x3B, 0x3F} ==> Charge(spec, op, use, gas) == Some(if use.isCold then 2600 else 100)
    ensures op == 0x54 ==> Charge(spec, op, use, gas) == Some(if use.isCold then 2100 else 100)
    ensures op == 0x5C || op == 0x5D ==> Charge(spec, op, use, gas) == Some(100)
    ensures 0xA0 <= op <= 0xA4 ==> Charge(spec, op, use, gas) == Some(375 * (op as int - 0x9F) + 8 * use.len)
    ensures op == 0x0A ==> Charge(spec, op, use, gas) == Some(10 + 50 * ByteLength(use.exponent))
  {
  }

  /** A number of n bytes lies between 256^(n-1) and 256^n. */
  lemma {:induction false} ByteLengthIs(n: nat)
    ensures n < Pow256(ByteLength(n)) && (n > 0 ==> Pow256(ByteLength(n) - 1) <= n)
  {
    if n > 0 {
      ByteLengthIs(n / 256);
    }
  }

  /** Instructions are there from the fork that brought them. */
  lemma Activation(spec: SpecId, op: Byte, use: Use, gas: nat)
    ensures op in {0x3D, 0x3E} ==> (Charge(spec, op, use, gas).Some? <==> spec >= 6)
    ensures op in {0x1B, 0x1C, 0x1D, 0x3F} ==> (Charge(spec, op, use, gas).Some? <==> spec >= 7)
    ensures op in {0x46, 0x47} ==> (Charge(spec, op, use, gas).Some? <==> spec >= 9)
    ensures op == 0x48 ==> (Charge(spec, op, use, gas).Some? <==> spec >= 12)
    ensures op == 0x5F ==> (Charge(spec, op, use, gas).Some? <==> spec >= 16)
    ensures op in {0x49, 0x4A, 0x5C, 0x5D, 0x5E} ==> (Charge(spec, op, use, gas).Some? <==> spec >= 17)
  {
  }
}
