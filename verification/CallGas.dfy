/** Handing gas to a call or a creation. */
module CallGas {
  import opened Prelude
  import opened GasConstants
  import opened SstoreGas
  import opened MemoryGas

  /** What one call instruction looks like to gas accounting. */
  datatype Call = Call(localLimit: nat, transfersValue: bool, isCold: bool, newAccount: bool)

  /** What one creation looks like: the length of the init code, and whether its address is salted. */
  datatype Create = Create(len: nat, salted: bool)

  /** Metered init code from EIP-3860 on, the creation, and hashing the init code for a salted address. */
  function CreateCost(spec: SpecId, create: Create): nat {
    (if spec >= SHANGHAI then INITCODE_WORD_COST * NumWords(create.len) else 0)
    + CREATE
    + (if create.salted then KECCAK256WORD * NumWords(create.len) else 0)
  }

  method CallCost(spec: SpecId, call: Call) returns (gas: nat)
    ensures gas == CallCostOf(spec, call)
  {
    gas := if spec >= BERLIN then (if call.isCold then COLD_ACCOUNT_ACCESS_COST else WARM_STORAGE_READ_COST)
           else if spec >= TANGERINE then 700
           else 40;
    if call.transfersValue {
      gas := gas + CALLVALUE;
    }
    if call.newAccount {
      if spec >= SPURIOUS_DRAGON {
        if call.transfersValue {
          gas := gas + NEWACCOUNT;
        }
      } else {
        gas := gas + NEWACCOUNT;
      }
    }
  }

  /** Access, plus value transfer, plus the creation of an account where that is paid for. */
  function CallCostOf(spec: SpecId, call: Call): nat {
    (if spec < TANGERINE then 40 else if spec < BERLIN then 700 else if call.isCold then COLD_ACCOUNT_ACCESS_COST else WARM_STORAGE_READ_COST)
    + (if call.transfersValue then CALLVALUE else 0)
    + (if call.newAccount && (call.transfersValue || spec < SPURIOUS_DRAGON) then NEWACCOUNT else 0)
  }

  /** All but one 64th from EIP-150 on; everything before. */
  function AllButOne64th(spec: SpecId, gas: nat): nat {
    if spec >= TANGERINE then gas - gas / 64 else gas
  }

  /** The gas handed to the callee, before the stipend; None if it cannot be paid. */
  function GasLimit(spec: SpecId, remaining: nat, call: Call): Option<nat> {
    if CallCostOf(spec, call) > remaining then None
    else
      var left := remaining - CallCostOf(spec, call);
      var limit := if spec >= TANGERINE then Min(AllButOne64th(spec, left), call.localLimit) else call.localLimit;
      if limit > left then None else Some(limit)
  }

  /** A call that moves value gives the callee a stipend on top. */
  function Stipend(call: Call): nat {
    if call.transfersValue then CALL_STIPEND else 0
  }

  /** The stipend is always paid for by what the value transfer costs: handing over gas strictly
      lowers the total. */
  lemma HandOverLowersTotal(spec: SpecId, remaining: nat, call: Call)
    requires GasLimit(spec, remaining, call).Some?
    ensures var limit := GasLimit(spec, remaining, call).value;
            && CallCostOf(spec, call) + limit <= remaining
            && (remaining - CallCostOf(spec, call) - limit) + (limit + Stipend(call)) < remaining
  {
  }

  /** From EIP-150 on a frame that hands over what it can keeps the 64th part, rounded down. */
  lemma KeepsOne64th(spec: SpecId, gas: nat)
    ensures AllButOne64th(spec, gas) <= gas
    ensures spec >= TANGERINE ==> 64 * (gas - AllButOne64th(spec, gas)) <= gas < 64 * (gas - AllButOne64th(spec, gas) + 1)
    ensures spec < TANGERINE ==> AllButOne64th(spec, gas) == gas
  {
  }

  /** A call gets what it asks for, from EIP-150 on at most all but one 64th of what its cost leaves; it
      is refused exactly if the cost or, before, the gas asked for cannot be paid. */
  lemma LimitIs(spec: SpecId, remaining: nat, call: Call)
    ensures GasLimit(spec, remaining, call).None? <==>
            CallCostOf(spec, call) + (if spec < TANGERINE then call.localLimit else 0) > remaining
    ensures GasLimit(spec, remaining, call).Some? ==>
      var limit, most := GasLimit(spec, remaining, call).value, AllButOne64th(spec, remaining - CallCostOf(spec, call));
      limit <= call.localLimit && limit <= most && (limit == call.localLimit || limit == most)
  {
    if CallCostOf(spec, call) <= remaining {
      KeepsOne64th(spec, remaining - CallCostOf(spec, call));
    }
  }

  /** The fee schedule of calls and creations, in numbers. */
  lemma CallSchedule(spec: SpecId, call: Call, create: Create)
    ensures CallCostOf(spec, call) ==
            (if spec >= 11 then (if call.isCold then 2600 else 100) else if spec >= 4 then 700 else 40)
            + (if call.transfersValue then 9000 else 0)
            + (if call.newAccount && (call.transfersValue || spec < 5) then 25000 else 0)
    ensures Stipend(call) == if call.transfersValue then 2300 else 0
    ensures create.len < 0x1_0000_0000 ==>
      CreateCost(spec, create) ==
      32000 + (create.len + 31) / 32 * ((if spec >= 16 then 2 else 0) + if create.salted then 6 else 0)
  {
    assert create.len < 0x1_0000_0000 ==> NumWords(create.len) == (create.len + 31) / 32;
  }
}
