/** The jump and function instructions as they update the interpreter. */
module EofInterpreter {
  import opened Prelude
  import opened GasConstants
  import opened EofOpcodes
  import opened EofTyping
  import opened EofDecode
  import opened EofExecute
  import opened EofSections
  import opened EofMachine
  import opened EofSafety

  /** The largest `isize`. */
  const MAX_ISIZE: nat := 0x7FFF_FFFF_FFFF_FFFF

  datatype InstructionResult = Continue | OutOfGas | StackUnderflow | StackOverflow | EOFFunctionStackOverflow

  class FunctionStack {
    var returnStack: seq<Frame>
    var currentCodeIdx: nat

    constructor ()
      ensures returnStack == [] && currentCodeIdx == 0
    {
      returnStack, currentCodeIdx := [], 0;
    }

    method Push(pc: int, idx: nat)
      modifies this
      ensures returnStack == old(returnStack) + [Frame(old(currentCodeIdx), pc)] && currentCodeIdx == idx
    {
      returnStack := returnStack + [Frame(currentCodeIdx, pc)];
      currentCodeIdx := idx;
    }

    /** Pop undoes Push: the frame comes back and its section runs again. */
    method Pop() returns (frame: Option<Frame>)
      modifies this
      ensures frame.None? <==> old(returnStack) == []
      ensures frame.None? ==> returnStack == [] && currentCodeIdx == old(currentCodeIdx)
      ensures frame.Some? ==> returnStack + [frame.value] == old(returnStack) && currentCodeIdx == frame.value.idx
    {
      if returnStack == [] { return None; }
      frame := Some(returnStack[|returnStack| - 1]);
      returnStack := returnStack[..|returnStack| - 1];
      currentCodeIdx := frame.value.idx;
    }

    method SetCurrentCodeIdx(idx: nat)
      modifies this
      ensures currentCodeIdx == idx && returnStack == old(returnStack)
    {
      currentCodeIdx := idx;
    }
  }

  class Interpreter {
    const eof: Eof
    const functions: FunctionStack
    var bytecode: Code
    var ip: int
    var stack: Stack
    var gas: nat
    var result: InstructionResult

    constructor (eof: Eof, gas: nat)
      requires IsSection(eof, 0)
      ensures Valid() && fresh(functions) && Now() == INITIAL && this.eof == eof && this.gas == gas && result == Continue
    {
      this.eof, this.gas := eof, gas;
      functions := new FunctionStack();
      bytecode, ip, stack, result := eof.codes[0], 0, [], Continue;
    }

    /** The loaded code is the code of the current section, and every frame returns to a section. */
    ghost predicate Valid()
      reads this, functions
    {
      && IsSection(eof, functions.currentCodeIdx) && bytecode == eof.codes[functions.currentCodeIdx]
      && forall k :: 0 <= k < |functions.returnStack| ==> IsSection(eof, functions.returnStack[k].idx)
    }

    /** Where the machine stands before its next instruction. */
    ghost function Now(): Config
      reads this, functions
    {
      Config(functions.currentCodeIdx, ip, stack, functions.returnStack)
    }

    /** The same from inside an instruction, where the pointer has moved past the opcode. */
    ghost function At(op: Byte): (c: Config)
      requires Valid()
      requires 1 <= ip <= |bytecode| && bytecode[ip - 1] == op
      reads this, functions
    {
      Now().(pc := ip - 1)
    }

    ghost predicate Runs(op: Byte)
      reads this, functions
    {
      && Valid() && result == Continue && 1 <= ip <= |bytecode| && bytecode[ip - 1] == op
      && (Step(eof, At(op), 0).Fail? ==> Step(eof, At(op), 0).fault == Underflow)
    }

    /** The state reached agrees with the outcome `o` of the machine; an instruction that cannot be
        paid for changes nothing. */
    twostate predicate Follows(o: Outcome, cost: nat)
      reads this, functions
    {
      if old(gas) < cost then
        result == OutOfGas && gas == old(gas) && Now() == old(Now()) && stack == old(stack) && bytecode == old(bytecode)
      else
        && gas == old(gas) - cost
        && match o
           case Next(c) => result == Continue && Valid() && Now() == c
           case End(ReturnStackFull) => result == EOFFunctionStackOverflow && stack == old(stack)
           case End(StackWouldOverflow) => result == StackOverflow && stack == old(stack)
           case End(Halted) => false
           case Fail(_) => result == StackUnderflow && stack == old(stack)
    }

    method Charge(cost: nat) returns (ok: bool)
      modifies this`gas, this`result
      ensures ok <==> cost <= old(gas)
      ensures if ok then gas == old(gas) - cost && result == old(result) else gas == old(gas) && result == OutOfGas
    {
      if gas < cost {
        result := OutOfGas;
        return false;
      }
      gas := gas - cost;
      return true;
    }

    method Pop() returns (x: Option<Word>)
      modifies this`stack, this`result
      ensures old(stack) == [] ==> x.None? && stack == [] && result == StackUnderflow
      ensures old(stack) != [] ==> x.Some? && stack + [x.value] == old(stack) && result == old(result)
    {
      if stack == [] {
        result := StackUnderflow;
        return None;
      }
      x := Some(stack[|stack| - 1]);
      stack := stack[..|stack| - 1];
    }

    method LoadEofCode(idx: nat, pc: int)
      requires IsSection(eof, idx)
      modifies this`bytecode, this`ip
      ensures bytecode == eof.codes[idx] && ip == pc
    {
      bytecode, ip := eof.codes[idx], pc;
    }

    method Rjump()
      requires Runs(RJUMP)
      modifies this
      ensures Follows(old(Step(eof, At(RJUMP), 0)), BASE)
    {
      var paid := Charge(BASE);
      if !paid { return; }
      ip := ip + I16(bytecode, ip) + 2;
    }

    method Rjumpi()
      requires Runs(RJUMPI)
      modifies this
      ensures Follows(old(Step(eof, At(RJUMPI), 0)), CONDITION_JUMP_GAS)
      ensures result == Continue ==>
        && old(stack) == stack + [old(Top(stack))]
        && ip == old(ip) + 2 + if old(Top(stack)) == 0 then 0 else I16(old(bytecode), old(ip))
    {
      var paid := Charge(CONDITION_JUMP_GAS);
      if !paid { return; }
      var condition := Pop();
      if condition.None? { return; }
      var offset := 2;
      if condition.value != 0 {
        offset := offset + I16(bytecode, ip);
      }
      ip := ip + offset;
    }

    method Rjumpv()
      requires Runs(RJUMPV)
      modifies this
      ensures Follows(old(Step(eof, At(RJUMPV), 0)), CONDITION_JUMP_GAS)
      ensures result == Continue ==>
        && old(stack) == stack + [old(Top(stack))]
        && var case_, last: int := old(Top(stack)), old(bytecode[ip]);
           ip == old(ip) + 1 + 2 * (last + 1) + if case_ > last then 0 else I16(old(bytecode), old(ip) + 1 + 2 * case_)
    {
      var paid := Charge(CONDITION_JUMP_GAS);
      if !paid { return; }
      var popped := Pop();
      if popped.None? { return; }
      var case_ := Min(popped.value, MAX_ISIZE);
      var maxIndex: int := bytecode[ip];
      var offset := (maxIndex + 1) * 2 + 1;
      if case_ <= maxIndex {
        offset := offset + I16(bytecode, ip + 1 + case_ * 2);
      }
      ip := ip + offset;
    }

    method Callf()
      requires Runs(CALLF)
      modifies this, functions
      ensures Follows(old(Step(eof, At(CALLF), 0)), LOW)
    {
      var paid := Charge(LOW);
      if !paid { return; }
      var idx := U16(bytecode, ip);
      if |functions.returnStack| >= 1024 {
        result := EOFFunctionStackOverflow;
        return;
      }
      if |stack| + (eof.types[idx].maxStack - eof.types[idx].inputs) > 1024 {
        result := StackOverflow;
        return;
      }
      functions.Push(ip + 2, idx);
      LoadEofCode(idx, 0);
    }

    method Retf()
      requires Runs(RETF)
      modifies this, functions
      ensures Follows(old(Step(eof, At(RETF), 0)), RETF_GAS)
    {
      var paid := Charge(RETF_GAS);
      if !paid { return; }
      ghost var frames := functions.returnStack;
      var frame := functions.Pop();
      assert functions.returnStack == frames[..|frames| - 1];
      LoadEofCode(frame.value.idx, frame.value.pc);
    }

    method Jumpf()
      requires Runs(JUMPF)
      modifies this, functions
      ensures Follows(old(Step(eof, At(JUMPF), 0)), LOW)
    {
      var paid := Charge(LOW);
      if !paid { return; }
      var idx := U16(bytecode, ip);
      if |stack| + (eof.types[idx].maxStack - eof.types[idx].inputs) > 1024 {
        result := StackOverflow;
        return;
      }
      functions.SetCurrentCodeIdx(idx);
      LoadEofCode(idx, 0);
    }

    /** Runs the jump or function instruction at the pointer. In a validated program, unless it is a
        stray RETF, it never finds the stack too short and never needs what a panic would report
        missing, and the run's invariant holds again behind it. */
    method Control(ghost tys: seq<Typing>, ghost b: Book)
      requires Valid() && result == Continue && 0 <= ip < |bytecode|
      requires bytecode[ip] in {RJUMP, RJUMPI, RJUMPV, CALLF, RETF, JUMPF}
      requires Inv(eof, tys, Now(), b) && !StrayRetf(eof, Now(), b)
      modifies this, functions
      ensures result != StackUnderflow
      ensures result == Continue ==>
        && Valid() && gas < old(gas)
        && Step(eof, old(Now()), 0) == Next(Now())
        && Inv(eof, tys, Now(), NextBook(eof, old(Now()), Now(), b))
    {
      StepSafe(eof, tys, Now(), b, 0);
      var op := bytecode[ip];
      ghost var c := Now();
      ip := ip + 1;
      assert At(op) == c;
      if op == RJUMP {
        Rjump();
      } else if op == RJUMPI {
        Rjumpi();
      } else if op == RJUMPV {
        Rjumpv();
      } else if op == CALLF {
        Callf();
      } else if op == RETF {
        Retf();
      } else {
        Jumpf();
      }
    }
  }
}
