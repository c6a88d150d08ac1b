/** What an SSTORE costs and what it gives back. */
module SstoreGas {
  import opened Prelude
  import opened GasConstants

  /** The price of reading a warm slot. */
  function WarmSload(spec: SpecId): int {
    if spec >= BERLIN then WARM_STORAGE_READ_COST
    else if spec >= ISTANBUL then INSTANBUL_SLOAD_GAS
    else if spec >= TANGERINE then 200
    else 50
  }

  function ClearsSchedule(spec: SpecId): int {
    if spec >= LONDON then SSTORE_RESET - COLD_SLOAD_COST + ACCESS_LIST_STORAGE_KEY else REFUND_SSTORE_CLEARS
  }

  /** `original` is the slot's value before the transaction, `current` before the instruction. */
  method SstoreRefund(spec: SpecId, original: nat, current: nat, newValue: nat) returns (refund: int)
    ensures refund == Refund(spec, original, current, newValue)
  {
    if spec >= ISTANBUL {
      var clears := ClearsSchedule(spec);
      if current == newValue { return 0; }
      if original == current && newValue == 0 { return clears; }
      refund := 0;
      if original != 0 {
        if current == 0 {
          refund := refund - clears;
        } else if newValue == 0 {
          refund := refund + clears;
        }
      }
      if original == newValue {
        var reset, sload := if spec >= BERLIN then SSTORE_RESET - COLD_SLOAD_COST else SSTORE_RESET, WarmSload(spec);
        refund := refund + if original == 0 then SSTORE_SET - sload else reset - sload;
      }
    } else {
      refund := if current != 0 && newValue == 0 then REFUND_SSTORE_CLEARS else 0;
    }
  }

  /** What has been given back for a slot that was set before the transaction and is now clear. */
  function Clearing(spec: SpecId, original: nat, present: nat): nat {
    if original != 0 && present == 0 then ClearsSchedule(spec) else 0
  }

  /** What is given back for bringing a changed slot back to its original value. */
  function Restoring(spec: SpecId, original: nat, current: nat, newValue: nat): nat {
    if current == newValue || original != newValue then 0
    else if original == 0 then SSTORE_SET - WarmSload(spec)
    else (if spec >= BERLIN then WARM_SSTORE_RESET else SSTORE_RESET) - WarmSload(spec)
  }

  /** The refund as a balance: from Istanbul on, the change of the clearing credit plus a reward for
      restoring; before, a flat reward for clearing. */
  function Refund(spec: SpecId, original: nat, current: nat, newValue: nat): int {
    if spec >= ISTANBUL then
      Clearing(spec, original, newValue) as int - Clearing(spec, original, current) as int
      + Restoring(spec, original, current, newValue)
    else if current != 0 && newValue == 0 then REFUND_SSTORE_CLEARS else 0
  }

  /** None is out of gas: too little is left to be sure the stipend cannot pay for a store. */
  function SstoreCost(spec: SpecId, original: nat, current: nat, newValue: nat, gas: nat, isCold: bool): Option<nat> {
    if spec >= ISTANBUL && gas <= CALL_STIPEND then None
    else if spec >= BERLIN then
      Some(NetMeteredCost(WARM_STORAGE_READ_COST, WARM_SSTORE_RESET, original, current, newValue)
           + if isCold then COLD_SLOAD_COST else 0)
    else if spec >= ISTANBUL then
      Some(NetMeteredCost(INSTANBUL_SLOAD_GAS, SSTORE_RESET, original, current, newValue))
    else Some(if current == 0 && newValue != 0 then SSTORE_SET else SSTORE_RESET)
  }

  function NetMeteredCost(sload: nat, reset: nat, original: nat, current: nat, newValue: nat): nat {
    if newValue == current then sload
    else if original == current && original == 0 then SSTORE_SET
    else if original == current then reset
    else sload
  }

  // ---- Net metering ----

  /** What a slot still owes for standing at `present`: a store that changes it for the first time
      pays in advance, and restoring it takes the payment back. */
  function Owed(spec: SpecId, original: nat, present: nat): int {
    if present == original then 0
    else if original == 0 then SSTORE_SET - WarmSload(spec)
    else (if spec >= BERLIN then WARM_SSTORE_RESET else SSTORE_RESET) - WarmSload(spec) - Clearing(spec, original, present) as int
  }

  /** One warm store: its cost less its refund is the price of a warm load plus the change in what
      is owed. */
  lemma StoreNets(spec: SpecId, original: nat, current: nat, newValue: nat, gas: nat)
    requires spec >= ISTANBUL && gas > CALL_STIPEND
    ensures SstoreCost(spec, original, current, newValue, gas, false).Some?
    ensures SstoreCost(spec, original, current, newValue, gas, false).value - Refund(spec, original, current, newValue) ==
            WarmSload(spec) + Owed(spec, original, newValue) - Owed(spec, original, current)
  {
  }

  /** A store of `value` into a warm slot with `gas` left. */
  datatype WarmStore = WarmStore(value: nat, gas: nat)

  /** Every store has enough gas left to be allowed. */
  predicate Permitted(stores: seq<WarmStore>) {
    forall i :: 0 <= i < |stores| ==> stores[i].gas > CALL_STIPEND
  }

  /** Cost less refund of the stores, one after the other. */
  function NetCost(spec: SpecId, original: nat, current: nat, stores: seq<WarmStore>): int
    requires spec >= ISTANBUL && Permitted(stores)
    decreases stores
  {
    if stores == [] then 0
    else
      SstoreCost(spec, original, current, stores[0].value, stores[0].gas, false).value
      - Refund(spec, original, current, stores[0].value)
      + NetCost(spec, original, stores[0].value, stores[1..])
  }

  /** Any sequence of n warm stores costs n warm loads plus the change in what the slot owes: neither
      the values in between nor the gas left matter. */
  lemma {:induction false} NetCostTelescopes(spec: SpecId, original: nat, current: nat, stores: seq<WarmStore>)
    requires spec >= ISTANBUL && Permitted(stores)
    ensures NetCost(spec, original, current, stores) ==
            |stores| * WarmSload(spec)
            + Owed(spec, original, if stores == [] then current else stores[|stores| - 1].value) - Owed(spec, original, current)
    decreases stores
  {
    if stores != [] {
      StoreNets(spec, original, current, stores[0].value, stores[0].gas);
      NetCostTelescopes(spec, original, stores[0].value, stores[1..]);
      assert |stores| * WarmSload(spec) == (|stores| - 1) * WarmSload(spec) + WarmSload(spec);
    }
  }

  /** A sequence that starts and ends at the original value costs exactly n warm loads: 800 gas each
      at Istanbul, 100 from Berlin on. */
  lemma RoundTripCost(spec: SpecId, original: nat, stores: seq<WarmStore>)
    requires spec >= ISTANBUL && Permitted(stores) && (stores == [] || stores[|stores| - 1].value == original)
    ensures NetCost(spec, original, original, stores) == |stores| * (if spec >= BERLIN then 100 else 800)
  {
    NetCostTelescopes(spec, original, original, stores);
  }

  /** The price of a store, in the numbers of EIP-2200, EIP-2929 and EIP-3529: a cold slot costs 2100 more
      from Berlin on. */
  lemma StoreSchedule(spec: SpecId, original: nat, current: nat, newValue: nat, gas: nat, isCold: bool)
    ensures SstoreCost(spec, original, current, newValue, gas, isCold) ==
            if spec < 9 then Some(if current == 0 && newValue != 0 then 20000 else 5000)
            else if gas <= 2300 then None
            else
              var noop, reset := if spec >= 11 then 100 else 800, if spec >= 11 then 2900 else 5000;
              Some((if current == newValue || original != current then noop else if original == 0 then 20000 else reset)
                   + if spec >= 11 && isCold then 2100 else 0)
  {
  }

  /** What a store gives back, in the same numbers. */
  lemma RefundSchedule(spec: SpecId, original: nat, current: nat, newValue: nat)
    requires spec >= 9
    ensures Refund(spec, original, current, newValue) ==
            var clears := if spec >= 12 then 4800 else 15000;
            if current == newValue then 0
            else if original == current then if newValue == 0 then clears else 0
            else
              (if original == 0 then 0 else if current == 0 then -clears else if newValue == 0 then clears else 0)
              + (if original != newValue then 0
                 else if original == 0 then if spec >= 11 then 19900 else 19200
                 else if spec >= 11 then 2800 else 4200)
  {
  }
}
