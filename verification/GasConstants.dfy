/** What the instructions cost. */
module GasConstants {
  const BASE: nat := 2
  const VERYLOW: nat := 3
  const LOW: nat := 5
  const MID: nat := 8
  const HIGH: nat := 10
  const CONDITION_JUMP_GAS: nat := 4
  const RETF_GAS: nat := 4
  const JUMPDEST_GAS: nat := 1
  const EXP: nat := 10
  const MEMORY: nat := 3
  const COPY: nat := 3
  const KECCAK256: nat := 30
  const KECCAK256WORD: nat := 6
  const LOG: nat := 375
  const LOGDATA: nat := 8
  const LOGTOPIC: nat := 375
  const BLOCKHASH: nat := 20

  const SELFDESTRUCT_REFUND: nat := 24000
  const CREATE: nat := 32000
  const INITCODE_WORD_COST: nat := 2
  const CALLVALUE: nat := 9000
  const NEWACCOUNT: nat := 25000
  const CALL_STIPEND: nat := 2300

  const INSTANBUL_SLOAD_GAS: nat := 800
  const SSTORE_SET: nat := 20000
  const SSTORE_RESET: nat := 5000
  const REFUND_SSTORE_CLEARS: nat := 15000
  const ACCESS_LIST_STORAGE_KEY: nat := 1900
  const COLD_SLOAD_COST: nat := 2100
  const COLD_ACCOUNT_ACCESS_COST: nat := 2600
  const WARM_STORAGE_READ_COST: nat := 100
  const WARM_SSTORE_RESET: nat := SSTORE_RESET - COLD_SLOAD_COST
}
