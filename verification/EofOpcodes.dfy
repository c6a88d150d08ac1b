/** The opcode table: stack items taken and left, immediate bytes, and the two flags that
    EOF validation reads. */
module EofOpcodes {
  import opened Prelude

  const STOP: Byte := 0x00
  const JUMP: Byte := 0x56
  const JUMPI: Byte := 0x57
  const JUMPDEST: Byte := 0x5B
  const PUSH0: Byte := 0x5F
  const PUSH1: Byte := 0x60
  const DATALOADN: Byte := 0xD1
  const RJUMP: Byte := 0xE0
  const RJUMPI: Byte := 0xE1
  const RJUMPV: Byte := 0xE2
  const CALLF: Byte := 0xE3
  const RETF: Byte := 0xE4
  const JUMPF: Byte := 0xE5
  const DUPN: Byte := 0xE6
  const SWAPN: Byte := 0xE7
  const EXCHANGE: Byte := 0xE8
  const EOFCREATE: Byte := 0xEC
  const RETURNCONTRACT: Byte := 0xEE
  const RETURN: Byte := 0xF3
  const REVERT: Byte := 0xFD
  const INVALID: Byte := 0xFE
  const SELFDESTRUCT: Byte := 0xFF

  datatype OpInfo = OpInfo(inputs: nat, outputs: nat, immediate: nat, notEof: bool, terminating: bool)

  function Io(inputs: nat, outputs: nat): OpInfo {
    OpInfo(inputs, outputs, 0, false, false)
  }

  /** None where the table has no entry. */
  function Info(op: Byte): Option<OpInfo> {
    if op < 0x30 then ArithmeticInfo(op)
    else if op < 0x50 then EnvironmentInfo(op)
    else if op < 0x60 then MemoryInfo(op)
    else if op < 0x80 then Some(Io(0, 1).(immediate := op - 0x5F))
    else if op < 0x90 then Some(Io(op - 0x7F, op - 0x7E))
    else if op < 0xA0 then Some(Io(op - 0x8E, op - 0x8E))
    else if op < 0xA5 then Some(Io(op - 0x9E, 0))
    else if 0xD0 <= op < 0xF0 then EofInfo(op)
    else if 0xF0 <= op then SystemInfo(op)
    else None
  }

  function ArithmeticInfo(op: Byte): Option<OpInfo> {
    if op == 0x00 then Some(Io(0, 0).(terminating := true))
    else if op == 0x08 || op == 0x09 then Some(Io(3, 1))
    else if op <= 0x0B then Some(Io(2, 1))
    else if op == 0x15 || op == 0x19 then Some(Io(1, 1))
    else if 0x10 <= op <= 0x1D || op == 0x20 then Some(Io(2, 1))
    else None
  }

  function EnvironmentInfo(op: Byte): Option<OpInfo> {
    if op == 0x31 || op == 0x35 || op == 0x40 || op == 0x49 then Some(Io(1, 1))
    else if op == 0x37 || op == 0x3E then Some(Io(3, 0))
    else if op == 0x38 then Some(Io(0, 1).(notEof := true))
    else if op == 0x39 then Some(Io(3, 0).(notEof := true))
    else if op == 0x3B || op == 0x3F then Some(Io(1, 1).(notEof := true))
    else if op == 0x3C then Some(Io(4, 0).(notEof := true))
    else if 0x30 <= op <= 0x4A then Some(Io(0, 1))
    else None
  }

  function MemoryInfo(op: Byte): Option<OpInfo> {
    if op == 0x50 then Some(Io(1, 0))
    else if op == 0x51 || op == 0x54 || op == 0x5C then Some(Io(1, 1))
    else if op == 0x52 || op == 0x53 || op == 0x55 || op == 0x5D then Some(Io(2, 0))
    else if op == 0x56 then Some(Io(1, 0).(notEof := true))
    else if op == 0x57 then Some(Io(2, 0).(notEof := true))
    else if op == 0x58 || op == 0x5A then Some(Io(0, 1).(notEof := true))
    else if op == 0x5B then Some(Io(0, 0))
    else if op == 0x5E then Some(Io(3, 0))
    else if op == 0x59 || op == 0x5F then Some(Io(0, 1))
    else None
  }

  function EofInfo(op: Byte): Option<OpInfo> {
    if op == 0xD0 then Some(Io(1, 1))
    else if op == 0xD1 then Some(Io(0, 1).(immediate := 2))
    else if op == 0xD2 then Some(Io(0, 1))
    else if op == 0xD3 then Some(Io(3, 0))
    else if op == 0xE0 then Some(Io(0, 0).(immediate := 2, terminating := true))
    else if op == 0xE1 then Some(Io(1, 0).(immediate := 2))
    else if op == 0xE2 then Some(Io(1, 0).(immediate := 1))
    else if op == 0xE3 then Some(Io(0, 0).(immediate := 2))
    else if op == 0xE4 then Some(Io(0, 0).(terminating := true))
    else if op == 0xE5 then Some(Io(0, 0).(immediate := 2, terminating := true))
    else if op == 0xE6 then Some(Io(0, 1).(immediate := 1))
    else if op == 0xE7 || op == 0xE8 then Some(Io(0, 0).(immediate := 1))
    else if op == 0xEC then Some(Io(4, 1).(immediate := 1))
    else if op == 0xEE then Some(Io(2, 0).(immediate := 1, terminating := true))
    else None
  }

  function SystemInfo(op: Byte): Option<OpInfo> {
    if op == 0xF0 then Some(Io(3, 1).(notEof := true))
    else if op == 0xF1 || op == 0xF2 then Some(Io(7, 1).(notEof := true))
    else if op == 0xF3 || op == 0xFD then Some(Io(2, 0).(terminating := true))
    else if op == 0xF4 || op == 0xFA then Some(Io(6, 1).(notEof := true))
    else if op == 0xF5 then Some(Io(4, 1).(notEof := true))
    else if op == 0xF7 then Some(Io(1, 1))
    else if op == 0xF8 then Some(Io(4, 1))
    else if op == 0xF9 || op == 0xFB then Some(Io(3, 1))
    else if op == 0xFE then Some(Io(0, 0).(terminating := true))
    else if op == 0xFF then Some(Io(1, 0).(notEof := true, terminating := true))
    else None
  }
}
