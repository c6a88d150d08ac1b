/** Legacy bytecode: jump destinations, padding, and why the unchecked pointer stays inside. */
module LegacyAnalysis {
  import opened Prelude
  import opened EofOpcodes

  const PADDING: nat := 33

  /** Data bytes following a push opcode. */
  function PushBytes(op: Byte): nat {
    if PUSH1 <= op <= 0x7F then op - PUSH1 + 1 else 0
  }

  /** They are the immediates of the opcode table, up to the last LOG. */
  lemma PushBytesTabled(op: Byte)
    requires op <= 0xA4
    ensures PushBytes(op) == if Info(op).Some? then Info(op).value.immediate else 0
  {
  }

  /** p is reached from `from` by stepping over whole instructions. */
  predicate BoundaryFrom(code: Code, from: nat, p: nat)
    decreases |code| - from
  {
    from == p || (from < p && from < |code| && BoundaryFrom(code, from + 1 + PushBytes(code[from]), p))
  }

  predicate Boundary(code: Code, p: nat) {
    BoundaryFrom(code, 0, p)
  }

  lemma {:induction false} BoundaryStep(code: Code, from: nat, p: nat)
    requires BoundaryFrom(code, from, p) && p < |code|
    ensures BoundaryFrom(code, from, p + 1 + PushBytes(code[p]))
    decreases |code| - from
  {
    if from != p {
      BoundaryStep(code, from + 1 + PushBytes(code[from]), p);
    } else {
      assert BoundaryFrom(code, p + 1 + PushBytes(code[p]), p + 1 + PushBytes(code[p]));
    }
  }

  lemma {:induction false} NoBoundaryInside(code: Code, from: nat, p: nat, q: nat)
    requires BoundaryFrom(code, from, p) && p < |code| && p < q < p + 1 + PushBytes(code[p])
    ensures !BoundaryFrom(code, from, q)
    decreases |code| - from
  {
    if from != p {
      NoBoundaryInside(code, from + 1 + PushBytes(code[from]), p, q);
    }
  }

  /** Marks exactly the JUMPDEST bytes that are instructions and not push data. */
  method Analyze(code: Code) returns (jumps: seq<bool>)
    ensures |jumps| == |code|
    ensures forall p :: 0 <= p < |code| ==> (jumps[p] <==> code[p] == JUMPDEST && Boundary(code, p))
  {
    jumps := seq(|code|, k => false);
    var i := 0;
    while i < |code|
      invariant |jumps| == |code| && Boundary(code, i)
      invariant forall p :: 0 <= p < |code| ==> (jumps[p] <==> p < i && code[p] == JUMPDEST && Boundary(code, p))
      decreases |code| - i
    {
      var op := code[i];
      BoundaryStep(code, 0, i);
      forall p | i < p < i + 1 + PushBytes(op) ensures !Boundary(code, p) {
        NoBoundaryInside(code, 0, i, p);
      }
      if op == JUMPDEST {
        jumps := jumps[i := true];
        i := i + 1;
      } else {
        var pushOffset := (op - PUSH1 + 256) % 256;
        i := i + if pushOffset < 32 then pushOffset + 2 else 1;
      }
    }
  }

  datatype Analysed = Analysed(bytes: Code, len: nat, jumps: seq<bool>)

  predicate IsAnalysed(a: Analysed) {
    && |a.bytes| == a.len + PADDING == |a.jumps|
    && (forall p :: a.len <= p < |a.bytes| ==> a.bytes[p] == 0)
    && (forall p :: 0 <= p < |a.bytes| ==> (a.jumps[p] <==> a.bytes[p] == JUMPDEST && Boundary(a.bytes, p)))
  }

  method ToAnalysed(code: Code) returns (a: Analysed)
    ensures IsAnalysed(a) && a.len == |code| && a.bytes[..a.len] == code
  {
    var padded := code + seq(PADDING, k => 0);
    var jumps := Analyze(padded);
    a := Analysed(padded, |code|, jumps);
  }

  // ---- Running ----

  /** What the stack and the instruction's own checks decide. */
  datatype Choice = Choice(target: nat, taken: bool, fails: bool)

  /** Outside: the pointer read a byte that is not there. */
  datatype Outcome = Next(pc: nat) | Halted | Outside

  function JumpTo(a: Analysed, target: nat): Outcome {
    if target < |a.jumps| && a.jumps[target] then Next(target) else Halted
  }

  /** The pointer's move over one instruction. */
  function Step(a: Analysed, pc: nat, c: Choice): Outcome {
    if pc >= |a.bytes| then Outside
    else
      var op := a.bytes[pc];
      if op == STOP then Halted
      else if op == JUMP then JumpTo(a, c.target)
      else if op == JUMPI then if c.taken then JumpTo(a, c.target) else Next(pc + 1)
      else if pc + 1 + PushBytes(op) > |a.bytes| then Outside
      else if c.fails then Halted
      else Next(pc + 1 + PushBytes(op))
  }

  ghost predicate IsRun(a: Analysed, run: seq<nat>, choices: seq<Choice>) {
    && |run| == |choices| + 1 && run[0] == 0
    && forall k :: 0 <= k < |choices| ==> Step(a, run[k], choices[k]) == Next(run[k + 1])
  }

  /** On every run of analysed code the pointer is always at an instruction boundary at most 32 bytes
      behind the code, never reads outside the padded bytes, and stops at once behind the code. */
  lemma {:induction false} PointerStaysInside(a: Analysed, run: seq<nat>, choices: seq<Choice>, choice: Choice)
    requires IsAnalysed(a) && IsRun(a, run, choices)
    ensures var pc := run[|run| - 1];
            && Boundary(a.bytes, pc) && pc <= a.len + 32
            && Step(a, pc, choice) != Outside
            && (pc >= a.len ==> Step(a, pc, choice) == Halted)
    decreases |run|
  {
    if |run| > 1 {
      var before, last := run[..|run| - 1], choices[..|choices| - 1];
      PointerStaysInside(a, before, last, choices[|choices| - 1]);
      var pc := run[|run| - 2];
      assert Step(a, pc, choices[|choices| - 1]) == Next(run[|run| - 1]);
      BoundaryStep(a.bytes, 0, pc);
    }
  }
}
