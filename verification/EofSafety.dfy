/** Validated EOF programs run without faults, to any call depth. */
module EofSafety {
  import opened Prelude
  import opened EofOpcodes
  import opened EofTyping
  import opened EofDecode
  import opened EofExecute
  import opened EofSections
  import opened EofMachine

  predicate Returning(eof: Eof, k: nat)
    requires IsSection(eof, k)
  {
    eof.types[k].outputs != NON_RETURNING
  }

  /** An instruction that leaves a non-returning section as if it returned. */
  predicate Stray(eof: Eof, k: nat, p: nat)
    requires IsSection(eof, k)
  {
    var code := eof.codes[k];
    && p < |code| && !Returning(eof, k)
    && (code[p] == RETF
        || (code[p] == JUMPF && IsSection(eof, U16(code, p + 1)) && Returning(eof, U16(code, p + 1))))
  }

  /** No non-returning section holds a RETF or a JUMPF into a returning section. */
  ghost predicate NoStrayReturn(eof: Eof) {
    forall k, p {:trigger Stray(eof, k, p)} ::
      IsSection(eof, k) && 0 <= p && IsInstr(DecodedSection(eof, k), p) ==> !Stray(eof, k, p)
  }

  ghost predicate Typings(eof: Eof, tys: seq<Typing>) {
    && |eof.codes| == |eof.types| == |tys|
    && forall k {:trigger SectionTyping(eof, tys, k)} :: 0 <= k < |tys| ==> SectionTyping(eof, tys, k)
  }

  ghost predicate SectionTyping(eof: Eof, tys: seq<Typing>, k: nat)
    requires IsSection(eof, k) && k < |tys|
  {
    IsTyping(DecodedSection(eof, k), eof.types[k].inputs, eof.types[k].maxStack, tys[k])
  }

  lemma TypingsExist(eof: Eof, n: nat) returns (tys: seq<Typing>)
    requires ValidEof(eof) && n <= |eof.codes|
    ensures |tys| == n
    ensures forall k {:trigger SectionTyping(eof, tys, k)} :: 0 <= k < n ==> SectionTyping(eof, tys, k)
  {
    if n == 0 {
      tys := [];
    } else {
      var before := TypingsExist(eof, n - 1);
      var ty := TypingExists(eof, n - 1);
      tys := before + [ty];
      forall k | 0 <= k < n ensures SectionTyping(eof, tys, k) {
        assert k < n - 1 ==> SectionTyping(eof, before, k);
      }
    }
  }

  lemma TypingExists(eof: Eof, k: nat) returns (ty: Typing)
    requires ValidEof(eof) && k < |eof.codes|
    ensures IsTyping(DecodedSection(eof, k), eof.types[k].inputs, eof.types[k].maxStack, ty)
  {
    assert SectionOk(eof, k);
    ty :| IsTyping(DecodedSection(eof, k), eof.types[k].inputs, eof.types[k].maxStack, ty);
  }

  /** What runs need of a validated program. */
  ghost predicate Checked(eof: Eof, tys: seq<Typing>) {
    && Typings(eof, tys) && TypesInRange(eof)
    && IsSection(eof, 0) && eof.types[0].inputs == 0 && eof.types[0].outputs == NON_RETURNING
  }

  // ---- Bookkeeping ----

  /** One activation suspended on the return stack: the stack items below it, the height at which it
      was promised to resume, and whether it has strayed. */
  datatype Activation = Activation(base: int, resume: int, strayed: bool)

  /** The same for the running activation and those it will return to. An activation strays when it
      jumps from a non-returning section into a returning one. */
  datatype Book = Book(base: int, strayed: bool, callers: seq<Activation>)

  predicate Inside(eof: Eof, c: Config) {
    IsSection(eof, c.section) && 0 <= c.pc < |eof.codes[c.section]|
  }

  predicate StandsOn(eof: Eof, c: Config, op: Byte) {
    Inside(eof, c) && eof.codes[c.section][c.pc] == op
  }

  /** The bookkeeping once the step from c to c' is done. */
  function NextBook(eof: Eof, c: Config, c': Config, b: Book): Book {
    if StandsOn(eof, c, CALLF) && IsSection(eof, c'.section) then
      var types := eof.types[c'.section];
      Book(|c.stack| - types.inputs, false,
           b.callers + [Activation(b.base, |c.stack| + types.outputs - types.inputs, b.strayed)])
    else if StandsOn(eof, c, JUMPF) && IsSection(eof, c'.section) then
      Book(|c.stack| - eof.types[c'.section].inputs, b.strayed || Stray(eof, c.section, c.pc), b.callers)
    else if StandsOn(eof, c, RETF) && b.callers != [] then
      var top := b.callers[|b.callers| - 1];
      Book(top.base, top.strayed, b.callers[..|b.callers| - 1])
    else b
  }

  /** A RETF in a non-returning section, or of an activation that has strayed. */
  predicate StrayRetf(eof: Eof, c: Config, b: Book) {
    StandsOn(eof, c, RETF) && (b.strayed || !Returning(eof, c.section))
  }

  /** A RETF finds a return frame and leaves the height its caller was promised. */
  predicate Punctual(eof: Eof, c: Config, b: Book) {
    StandsOn(eof, c, RETF) ==> c.frames != [] && b.callers != [] && |c.stack| == b.callers[|b.callers| - 1].resume
  }

  // ---- The invariant of a run ----

  /** Section k may stand at pc with the whole stack at `height`, `base` of it below the section. */
  predicate At(eof: Eof, tys: seq<Typing>, k: nat, pc: int, height: int, base: int)
    requires |eof.codes| == |eof.types| == |tys|
  {
    && IsSection(eof, k) && |tys[k]| == |eof.codes[k]|
    && 0 <= base && base + eof.types[k].maxStack <= STACK_LIMIT
    && 0 <= pc < |eof.codes[k]| && Start(DecodedSection(eof, k), pc)
    && tys[k][pc].Contains(height - base)
  }

  /** A returning section with `base` items below it leaves exactly the height its caller was promised,
      or more than that if it has strayed; a non-returning one keeps too many items to return. */
  predicate Owes(eof: Eof, k: nat, base: int, strayed: bool, callers: seq<Activation>)
    requires IsSection(eof, k)
  {
    if !Returning(eof, k) then callers != [] ==> callers[|callers| - 1].resume < base + NON_RETURNING
    else if strayed then callers != [] ==> callers[|callers| - 1].resume < base + eof.types[k].outputs
    else callers != [] && callers[|callers| - 1].resume == base + eof.types[k].outputs
  }

  predicate FrameOk(eof: Eof, tys: seq<Typing>, frames: seq<Frame>, callers: seq<Activation>, j: int)
    requires |eof.codes| == |eof.types| == |tys| && 0 <= j < |frames| == |callers|
  {
    && At(eof, tys, frames[j].idx, frames[j].pc, callers[j].resume, callers[j].base)
    && Owes(eof, frames[j].idx, callers[j].base, callers[j].strayed, callers[..j])
  }

  ghost predicate Inv(eof: Eof, tys: seq<Typing>, c: Config, b: Book) {
    && Typings(eof, tys) && TypesInRange(eof)
    && At(eof, tys, c.section, c.pc, |c.stack|, b.base)
    && |b.callers| == |c.frames|
    && Owes(eof, c.section, b.base, b.strayed, b.callers)
    && forall j {:trigger FrameOk(eof, tys, c.frames, b.callers, j)} ::
         0 <= j < |b.callers| ==> FrameOk(eof, tys, c.frames, b.callers, j)
  }

  lemma InitialInv(eof: Eof, tys: seq<Typing>)
    requires Checked(eof, tys)
    ensures Inv(eof, tys, INITIAL, Book(0, false, []))
  {
    assert SectionTyping(eof, tys, 0);
  }

  /** Where every well-typed configuration stands: on an instruction with the items it needs. */
  lemma AtInstruction(eof: Eof, tys: seq<Typing>, c: Config, b: Book)
    requires Inv(eof, tys, c, b)
    ensures var s := DecodedSection(eof, c.section);
            && IsInstr(s, c.pc) && NodeOk(s, tys[c.section], c.pc)
            && s[c.pc].value.need <= |c.stack| - b.base && WithinCap(s[c.pc].value, |c.stack| - b.base)
            && b.base <= |c.stack| <= STACK_LIMIT
            && s[c.pc] == Decode(Context(eof), c.section, eof.codes[c.section], c.pc)
  {
    assert SectionTyping(eof, tys, c.section);
    assert NodeOk(DecodedSection(eof, c.section), tys[c.section], c.pc);
    NeedNotNegative(Context(eof), c.section, eof.codes[c.section], c.pc);
  }

  /** Following an edge of the running section keeps it well typed. */
  lemma Moved(eof: Eof, tys: seq<Typing>, k: nat, pc: int, height: int, base: int, pc': int, height': int)
    requires Typings(eof, tys) && At(eof, tys, k, pc, height, base)
    requires Hop(DecodedSection(eof, k), Point(pc, height - base), Point(pc', height' - base))
    ensures At(eof, tys, k, pc', height', base)
  {
    assert SectionTyping(eof, tys, k);
    HopIsTyped(DecodedSection(eof, k), eof.types[k].inputs, eof.types[k].maxStack, tys[k],
               Point(pc, height - base), Point(pc', height' - base));
  }

  /** A section entered with its inputs on top of `base` items, and room for its maximum. */
  lemma Entered(eof: Eof, tys: seq<Typing>, k: nat, height: int, base: int)
    requires Typings(eof, tys) && IsSection(eof, k) && base >= 0 && height == base + eof.types[k].inputs
    requires height + (eof.types[k].maxStack - eof.types[k].inputs) <= STACK_LIMIT
    ensures At(eof, tys, k, 0, height, base)
  {
    assert SectionTyping(eof, tys, k);
  }

  // ---- Steps ----

  lemma CallfStep(eof: Eof, tys: seq<Typing>, c: Config, b: Book, answer: Word)
    requires Inv(eof, tys, c, b) && StandsOn(eof, c, CALLF)
    ensures !Step(eof, c, answer).Fail?
    ensures Step(eof, c, answer).Next? ==>
      var c' := Step(eof, c, answer).config;
      Inv(eof, tys, c', NextBook(eof, c, c', b))
  {
    AtInstruction(eof, tys, c, b);
    TableAgrees(eof.codes[c.section][c.pc]);
    var k := U16(eof.codes[c.section], c.pc + 1);
    var o := Step(eof, c, answer);
    assert o == Callf(eof, c, k);
    if o.Next? {
      var callee := eof.types[k];
      var c', b' := o.config, NextBook(eof, c, o.config, b);
      Entered(eof, tys, k, |c.stack|, b'.base);
      Moved(eof, tys, c.section, c.pc, |c.stack|, b.base, c.pc + 3, |c.stack| + callee.outputs - callee.inputs);
      forall j | 0 <= j < |b'.callers| ensures FrameOk(eof, tys, c'.frames, b'.callers, j) {
        if j < |b.callers| {
          assert FrameOk(eof, tys, c.frames, b.callers, j);
          assert b'.callers[..j] == b.callers[..j];
        } else {
          assert b'.callers[..j] == b.callers;
        }
      }
    }
  }

  lemma RetfStep(eof: Eof, tys: seq<Typing>, c: Config, b: Book, answer: Word)
    requires Inv(eof, tys, c, b) && StandsOn(eof, c, RETF) && !StrayRetf(eof, c, b)
    ensures Step(eof, c, answer).Next? && Punctual(eof, c, b)
    ensures var c' := Step(eof, c, answer).config;
            Inv(eof, tys, c', NextBook(eof, c, c', b))
  {
    AtInstruction(eof, tys, c, b);
    TableAgrees(eof.codes[c.section][c.pc]);
    assert Step(eof, c, answer) == Retf(c);
    var c', b' := Step(eof, c, answer).config, NextBook(eof, c, Step(eof, c, answer).config, b);
    assert FrameOk(eof, tys, c.frames, b.callers, |b.callers| - 1);
    forall j | 0 <= j < |b'.callers| ensures FrameOk(eof, tys, c'.frames, b'.callers, j) {
      assert FrameOk(eof, tys, c.frames, b.callers, j);
      assert b'.callers[..j] == b.callers[..j];
    }
  }

  /** A stray RETF finds no return frame, or resumes its caller above the promised height. */
  lemma StrayRetfBreaks(eof: Eof, tys: seq<Typing>, c: Config, b: Book, answer: Word)
    requires Inv(eof, tys, c, b) && StrayRetf(eof, c, b)
    ensures Step(eof, c, answer) == Fail(NoReturnFrame) || (b.callers != [] && |c.stack| > b.callers[|b.callers| - 1].resume)
    ensures !Punctual(eof, c, b)
  {
    AtInstruction(eof, tys, c, b);
    TableAgrees(eof.codes[c.section][c.pc]);
    assert Step(eof, c, answer) == Retf(c);
  }

  lemma OwesBelow(eof: Eof, k: nat, base: int, strayed: bool, callers: seq<Activation>)
    requires IsSection(eof, k) && TypesInRange(eof) && Owes(eof, k, base, strayed, callers) && callers != []
    ensures callers[|callers| - 1].resume < base + NON_RETURNING
  {
  }

  /** A jump hands on what is owed. */
  lemma JumpfOwes(eof: Eof, tys: seq<Typing>, c: Config, b: Book)
    requires Inv(eof, tys, c, b) && StandsOn(eof, c, JUMPF)
    ensures var k := U16(eof.codes[c.section], c.pc + 1);
            && IsSection(eof, k) && b.base <= |c.stack| - eof.types[k].inputs
            && Owes(eof, k, |c.stack| - eof.types[k].inputs, b.strayed || Stray(eof, c.section, c.pc), b.callers)
  {
    AtInstruction(eof, tys, c, b);
    if b.callers != [] {
      OwesBelow(eof, c.section, b.base, b.strayed, b.callers);
    }
  }

  lemma JumpfStep(eof: Eof, tys: seq<Typing>, c: Config, b: Book, answer: Word)
    requires Inv(eof, tys, c, b) && StandsOn(eof, c, JUMPF)
    ensures !Step(eof, c, answer).Fail?
    ensures Step(eof, c, answer).Next? ==>
      var c' := Step(eof, c, answer).config;
      Inv(eof, tys, c', NextBook(eof, c, c', b))
  {
    AtInstruction(eof, tys, c, b);
    JumpfOwes(eof, tys, c, b);
    TableAgrees(eof.codes[c.section][c.pc]);
    var k := U16(eof.codes[c.section], c.pc + 1);
    var o := Step(eof, c, answer);
    assert o == Jumpf(eof, c, k);
    if o.Next? {
      Entered(eof, tys, k, |c.stack|, |c.stack| - eof.types[k].inputs);
      forall j | 0 <= j < |b.callers| ensures FrameOk(eof, tys, o.config.frames, b.callers, j) {
        assert FrameOk(eof, tys, c.frames, b.callers, j);
      }
    }
  }

  lemma LocalKeepsInv(eof: Eof, tys: seq<Typing>, c: Config, b: Book, answer: Word)
    requires Inv(eof, tys, c, b) && Local(eof, c)
    ensures !Step(eof, c, answer).Fail?
    ensures Step(eof, c, answer).Next? ==>
      var c' := Step(eof, c, answer).config;
      Inv(eof, tys, c', NextBook(eof, c, c', b))
  {
    AtInstruction(eof, tys, c, b);
    RoomToFall(eof, tys, c, b);
    LocalStep(eof, c, answer, b.base);
    var o := Step(eof, c, answer);
    if o.Next? {
      Moved(eof, tys, c.section, c.pc, |c.stack|, b.base, o.config.pc, |o.config.stack|);
      forall j | 0 <= j < |b.callers| ensures FrameOk(eof, tys, o.config.frames, b.callers, j) {
        assert FrameOk(eof, tys, c.frames, b.callers, j);
      }
    }
  }

  lemma RoomToFall(eof: Eof, tys: seq<Typing>, c: Config, b: Book)
    requires Inv(eof, tys, c, b)
    requires IsInstr(DecodedSection(eof, c.section), c.pc)
    ensures var instr := DecodedSection(eof, c.section)[c.pc].value;
            !instr.terminating ==> |c.stack| + instr.diff <= STACK_LIMIT
  {
    var s := DecodedSection(eof, c.section);
    assert SectionTyping(eof, tys, c.section);
    assert NodeOk(s, tys[c.section], c.pc);
    if !s[c.pc].value.terminating {
      StartStep(s, 0, c.pc);
    }
  }

  /** Every step of a validated program but a stray RETF avoids every fault and keeps the invariant. */
  lemma StepSafe(eof: Eof, tys: seq<Typing>, c: Config, b: Book, answer: Word)
    requires Inv(eof, tys, c, b) && !StrayRetf(eof, c, b)
    ensures !Step(eof, c, answer).Fail?
    ensures Step(eof, c, answer).Next? ==>
      var c' := Step(eof, c, answer).config;
      Inv(eof, tys, c', NextBook(eof, c, c', b))
  {
    if StandsOn(eof, c, CALLF) {
      CallfStep(eof, tys, c, b, answer);
    } else if StandsOn(eof, c, RETF) {
      RetfStep(eof, tys, c, b, answer);
    } else if StandsOn(eof, c, JUMPF) {
      JumpfStep(eof, tys, c, b, answer);
    } else {
      LocalKeepsInv(eof, tys, c, b, answer);
    }
  }

  // ---- Whole runs ----

  ghost predicate IsRun(eof: Eof, run: seq<Config>, answers: seq<Word>) {
    && |run| == |answers| + 1 && run[0] == INITIAL
    && forall k {:trigger StepAt(eof, run, answers, k)} :: 0 <= k < |answers| ==> StepAt(eof, run, answers, k)
  }

  predicate StepAt(eof: Eof, run: seq<Config>, answers: seq<Word>, k: int)
    requires 0 <= k < |answers| < |run|
  {
    Step(eof, run[k], answers[k]) == Next(run[k + 1])
  }

  /** The bookkeeping at step k of a run. */
  function BookAt(eof: Eof, run: seq<Config>, k: nat): Book
    requires k < |run|
  {
    if k == 0 then Book(0, false, []) else NextBook(eof, run[k - 1], run[k], BookAt(eof, run, k - 1))
  }

  /** The run stands on a stray RETF at step k. */
  predicate StraysAt(eof: Eof, run: seq<Config>, k: int)
    requires 0 <= k < |run|
  {
    StrayRetf(eof, run[k], BookAt(eof, run, k))
  }

  /** No RETF among the first n configurations is stray. */
  predicate StraightBefore(eof: Eof, run: seq<Config>, n: nat)
    requires n <= |run|
  {
    forall k {:trigger StraysAt(eof, run, k)} :: 0 <= k < n ==> !StraysAt(eof, run, k)
  }

  predicate PunctualAt(eof: Eof, run: seq<Config>, k: int)
    requires 0 <= k < |run|
  {
    Punctual(eof, run[k], BookAt(eof, run, k))
  }

  lemma {:induction false} RunInv(eof: Eof, tys: seq<Typing>, run: seq<Config>, answers: seq<Word>, k: nat)
    requires Checked(eof, tys) && IsRun(eof, run, answers) && k < |run| && StraightBefore(eof, run, k)
    ensures Inv(eof, tys, run[k], BookAt(eof, run, k))
  {
    if k == 0 {
      InitialInv(eof, tys);
    } else {
      RunInv(eof, tys, run, answers, k - 1);
      assert !StraysAt(eof, run, k - 1) && StepAt(eof, run, answers, k - 1);
      StepSafe(eof, tys, run[k - 1], BookAt(eof, run, k - 1), answers[k - 1]);
    }
  }

  lemma AllTypings(eof: Eof) returns (tys: seq<Typing>)
    requires ValidEof(eof) && TypesInRange(eof)
    ensures Checked(eof, tys)
  {
    tys := TypingsExist(eof, |eof.codes|);
  }

  /** On every run of a validated program up to and without a stray RETF, whatever the words
      computed: the next instruction exists and starts inside the code, it finds the stack items it
      needs, the stack never passes its limit, and no step faults. */
  lemma {:induction false} RunsAreSafe(eof: Eof, run: seq<Config>, answers: seq<Word>, answer: Word)
    requires ValidEof(eof) && TypesInRange(eof) && IsRun(eof, run, answers) && StraightBefore(eof, run, |run|)
    ensures var c := run[|run| - 1];
            && !Step(eof, c, answer).Fail?
            && IsSection(eof, c.section) && IsInstr(DecodedSection(eof, c.section), c.pc)
            && DecodedSection(eof, c.section)[c.pc].value.need <= |c.stack| <= STACK_LIMIT
  {
    var tys := AllTypings(eof);
    RunIsSafe(eof, tys, run, answers, answer);
  }

  lemma RunIsSafe(eof: Eof, tys: seq<Typing>, run: seq<Config>, answers: seq<Word>, answer: Word)
    requires Checked(eof, tys) && IsRun(eof, run, answers) && StraightBefore(eof, run, |run|)
    ensures var c := run[|run| - 1];
            && !Step(eof, c, answer).Fail?
            && IsSection(eof, c.section) && IsInstr(DecodedSection(eof, c.section), c.pc)
            && DecodedSection(eof, c.section)[c.pc].value.need <= |c.stack| <= STACK_LIMIT
  {
    var n := |run| - 1;
    RunInv(eof, tys, run, answers, n);
    assert !StraysAt(eof, run, n);
    AtInstruction(eof, tys, run[n], BookAt(eof, run, n));
    StepSafe(eof, tys, run[n], BookAt(eof, run, n), answer);
  }

  /** A run of a validated program keeps the call discipline, every RETF it comes to having a frame to
      return to and the height promised to its caller, if and only if it comes to no stray RETF. */
  lemma DisciplineIff(eof: Eof, run: seq<Config>, answers: seq<Word>)
    requires ValidEof(eof) && TypesInRange(eof) && IsRun(eof, run, answers)
    ensures (forall k {:trigger PunctualAt(eof, run, k)} :: 0 <= k < |run| ==> PunctualAt(eof, run, k)) <==>
            StraightBefore(eof, run, |run|)
  {
    var tys := AllTypings(eof);
    if StraightBefore(eof, run, |run|) {
      forall k | 0 <= k < |run| ensures PunctualAt(eof, run, k) {
        StraightIsPunctual(eof, tys, run, answers, k);
      }
    } else {
      var k := FirstStray(eof, run, |run|);
      RunInv(eof, tys, run, answers, k);
      StrayRetfBreaks(eof, tys, run[k], BookAt(eof, run, k), 0);
      assert !PunctualAt(eof, run, k);
    }
  }

  lemma StraightIsPunctual(eof: Eof, tys: seq<Typing>, run: seq<Config>, answers: seq<Word>, k: nat)
    requires Checked(eof, tys) && IsRun(eof, run, answers) && k < |run| && StraightBefore(eof, run, |run|)
    ensures PunctualAt(eof, run, k)
  {
    RunInv(eof, tys, run, answers, k);
    assert !StraysAt(eof, run, k);
    if StandsOn(eof, run[k], RETF) {
      RetfStep(eof, tys, run[k], BookAt(eof, run, k), 0);
    }
  }

  lemma {:induction false} FirstStray(eof: Eof, run: seq<Config>, n: nat) returns (k: nat)
    requires n <= |run| && !StraightBefore(eof, run, n)
    ensures k < n && StraysAt(eof, run, k) && StraightBefore(eof, run, k)
  {
    if StraightBefore(eof, run, n - 1) {
      k := n - 1;
    } else {
      k := FirstStray(eof, run, n - 1);
    }
  }

  /** No activation has strayed. */
  predicate Unstrayed(b: Book) {
    !b.strayed && forall j :: 0 <= j < |b.callers| ==> !b.callers[j].strayed
  }

  lemma UnstrayedStep(eof: Eof, c: Config, c': Config, b: Book)
    requires Unstrayed(b) && (Inside(eof, c) ==> !Stray(eof, c.section, c.pc))
    ensures Unstrayed(NextBook(eof, c, c', b))
  {
  }

  /** No instruction of a program without stray instructions is stray where a run stands. */
  lemma NoStrayHere(eof: Eof, tys: seq<Typing>, run: seq<Config>, answers: seq<Word>, n: nat)
    requires Checked(eof, tys) && NoStrayReturn(eof) && IsRun(eof, run, answers) && n < |run| && StraightBefore(eof, run, n)
    ensures Inside(eof, run[n]) && !Stray(eof, run[n].section, run[n].pc)
  {
    RunInv(eof, tys, run, answers, n);
    AtInstruction(eof, tys, run[n], BookAt(eof, run, n));
  }

  /** Programs without stray instructions have no stray runs. */
  lemma {:induction false} NeverStrays(eof: Eof, run: seq<Config>, answers: seq<Word>, n: nat)
    requires ValidEof(eof) && TypesInRange(eof) && NoStrayReturn(eof) && IsRun(eof, run, answers) && n < |run|
    ensures StraightBefore(eof, run, n + 1) && Unstrayed(BookAt(eof, run, n))
  {
    var tys := AllTypings(eof);
    if n > 0 {
      NeverStrays(eof, run, answers, n - 1);
      assert StraightBefore(eof, run, n - 1);
      NoStrayHere(eof, tys, run, answers, n - 1);
      UnstrayedStep(eof, run[n - 1], run[n], BookAt(eof, run, n - 1));
    }
    NoStrayHere(eof, tys, run, answers, n);
    assert !StraysAt(eof, run, n);
  }

  // ---- Calls return ----

  /** The running activation and the suspended ones from the n-th on stand on at least `floor` items. */
  predicate Floored(b: Book, n: nat, floor: int) {
    b.base >= floor && forall m :: n <= m < |b.callers| ==> b.callers[m].base >= floor
  }

  /** At c, with bookkeeping b, the given callers and their return frames are still suspended, and the
      items in `below` still lie at the bottom of the stack, out of reach. */
  predicate Waiting(c: Config, b: Book, callers: seq<Activation>, frames: seq<Frame>, below: Stack) {
    && |callers| == |frames| && |callers| <= |b.callers| == |c.frames|
    && b.callers[..|callers|] == callers && c.frames[..|callers|] == frames
    && Floored(b, |callers|, |below|) && below <= c.stack
  }

  /** A step leaves the items below its activation alone, and stays on the floor unless it returns below
      it. */
  lemma StepKeepsBelow(eof: Eof, tys: seq<Typing>, c: Config, b: Book, answer: Word)
    requires Inv(eof, tys, c, b) && Step(eof, c, answer).Next?
    ensures var c' := Step(eof, c, answer).config;
            0 <= b.base <= |c.stack| && b.base <= |c'.stack| && c'.stack[..b.base] == c.stack[..b.base]
  {
    AtInstruction(eof, tys, c, b);
    TableAgrees(eof.codes[c.section][c.pc]);
    if Local(eof, c) {
      RoomToFall(eof, tys, c, b);
      LocalStep(eof, c, answer, b.base);
    }
  }

  lemma StaysOnFloor(eof: Eof, tys: seq<Typing>, c: Config, b: Book, answer: Word, n: nat, floor: int)
    requires Inv(eof, tys, c, b) && Step(eof, c, answer).Next? && Floored(b, n, floor)
    requires |Step(eof, c, answer).config.frames| >= n
    ensures Floored(NextBook(eof, c, Step(eof, c, answer).config, b), n, floor)
  {
    FramesFollow(eof, tys, c, answer, b);
    AtInstruction(eof, tys, c, b);
    if StandsOn(eof, c, JUMPF) {
      JumpfOwes(eof, tys, c, b);
      TableAgrees(JUMPF);
      assert Step(eof, c, answer) == Jumpf(eof, c, U16(eof.codes[c.section], c.pc + 1));
    } else if StandsOn(eof, c, CALLF) {
      TableAgrees(CALLF);
      assert Step(eof, c, answer) == Callf(eof, c, U16(eof.codes[c.section], c.pc + 1));
    }
  }

  /** While a called function runs, through any calls and jumps of its own, its caller's return frame,
      what it was promised and the items it did not pass stay put. */
  lemma {:induction false} CallerWaits(eof: Eof, tys: seq<Typing>, run: seq<Config>, answers: seq<Word>, i: nat, k: nat, below: Stack)
    requires Checked(eof, tys) && IsRun(eof, run, answers) && i < k < |run| && StraightBefore(eof, run, k)
    requires var n := |BookAt(eof, run, i + 1).callers|; 0 < n && forall m :: i < m <= k ==> |run[m].frames| >= n
    requires below <= run[i + 1].stack && BookAt(eof, run, i + 1).base == |below|
    ensures Waiting(run[k], BookAt(eof, run, k), BookAt(eof, run, i + 1).callers, run[i + 1].frames, below)
    decreases k
  {
    if k == i + 1 {
      RunInv(eof, tys, run, answers, k);
    } else {
      CallerWaits(eof, tys, run, answers, i, k - 1, below);
      RunInv(eof, tys, run, answers, k - 1);
      assert StepAt(eof, run, answers, k - 1);
      StillWaits(eof, tys, run[k - 1], answers[k - 1], BookAt(eof, run, k - 1), BookAt(eof, run, i + 1).callers, run[i + 1].frames, below);
    }
  }

  lemma StillWaits(eof: Eof, tys: seq<Typing>, c: Config, answer: Word, b: Book, callers: seq<Activation>, frames: seq<Frame>, below: Stack)
    requires Inv(eof, tys, c, b) && Step(eof, c, answer).Next? && callers != [] && Waiting(c, b, callers, frames, below)
    requires |Step(eof, c, answer).config.frames| >= |callers|
    ensures var c' := Step(eof, c, answer).config;
            Waiting(c', NextBook(eof, c, c', b), callers, frames, below)
  {
    var c', n, m := Step(eof, c, answer).config, |callers|, |b.callers|;
    var callers' := NextBook(eof, c, c', b).callers;
    FramesFollow(eof, tys, c, answer, b);
    StaysOnFloor(eof, tys, c, b, answer, n, |below|);
    StepKeepsBelow(eof, tys, c, b, answer);
    assert below == c.stack[..b.base][..|below|] == c'.stack[..b.base][..|below|];
    if eof.codes[c.section][c.pc] == CALLF {
      assert callers'[..n] == callers'[..m][..n] && c'.frames[..n] == c'.frames[..m][..n];
    } else if eof.codes[c.section][c.pc] == RETF {
      assert b.callers[..m - 1][..n] == b.callers[..n] && c.frames[..m - 1][..n] == c.frames[..n];
    }
  }

  /** A step pushes one frame, pops one, or leaves the return stack alone; the bookkeeping follows. */
  lemma FramesFollow(eof: Eof, tys: seq<Typing>, c: Config, answer: Word, b: Book)
    requires Inv(eof, tys, c, b) && Step(eof, c, answer).Next?
    ensures var c' := Step(eof, c, answer).config;
            var callers, callers', n := b.callers, NextBook(eof, c, c', b).callers, |b.callers|;
            var op := eof.codes[c.section][c.pc];
            && (op == CALLF ==> |callers'| == n + 1 == |c'.frames| && callers'[..n] == callers && c'.frames[..n] == c.frames)
            && (op == RETF ==> n > 0 && callers' == callers[..n - 1] && c'.frames == c.frames[..n - 1])
            && (op != CALLF && op != RETF ==> callers' == callers && c'.frames == c.frames)
  {
    AtInstruction(eof, tys, c, b);
    TableAgrees(eof.codes[c.section][c.pc]);
  }

  /** What a call leaves to c: it stands behind its CALLF with its own return stack, the items it did not
      pass are untouched, and the called section's outputs lie on them in place of its inputs. */
  predicate Back(eof: Eof, c: Config, c': Config, callee: nat)
    requires IsSection(eof, callee) && eof.types[callee].inputs <= |c.stack|
  {
    var kept := |c.stack| - eof.types[callee].inputs;
    && c'.section == c.section && c'.pc == c.pc + 3 && c'.frames == c.frames
    && |c'.stack| == kept + eof.types[callee].outputs && c.stack[..kept] <= c'.stack
  }

  /** Call discipline to any depth. If step i calls a function and j is the first later step at which
      the return stack is back to its size, then at j the caller stands behind its CALLF, the return
      stack is the caller's own, and the stack has the outputs of the called section in place of its
      inputs and is otherwise untouched, whatever chain of JUMPFs ended the call. */
  lemma {:induction false} CallsReturn(eof: Eof, run: seq<Config>, answers: seq<Word>, i: nat, j: nat)
    requires ValidEof(eof) && TypesInRange(eof) && IsRun(eof, run, answers)
    requires i + 1 < j < |run| && StraightBefore(eof, run, j)
    requires StandsOn(eof, run[i], CALLF)
    requires forall n :: i < n < j ==> |run[n].frames| > |run[i].frames|
    requires |run[j].frames| == |run[i].frames|
    ensures var callee := U16(eof.codes[run[i].section], run[i].pc + 1);
            IsSection(eof, callee) && eof.types[callee].inputs <= |run[i].stack| && Back(eof, run[i], run[j], callee)
  {
    var tys := AllTypings(eof);
    CallReturnsTyped(eof, tys, run, answers, i, j);
  }

  lemma {:induction false} CallReturnsTyped(eof: Eof, tys: seq<Typing>, run: seq<Config>, answers: seq<Word>, i: nat, j: nat)
    requires Checked(eof, tys) && IsRun(eof, run, answers)
    requires i + 1 < j < |run| && StraightBefore(eof, run, j)
    requires StandsOn(eof, run[i], CALLF)
    requires forall n :: i < n < j ==> |run[n].frames| > |run[i].frames|
    requires |run[j].frames| == |run[i].frames|
    ensures var callee := U16(eof.codes[run[i].section], run[i].pc + 1);
            IsSection(eof, callee) && eof.types[callee].inputs <= |run[i].stack| && Back(eof, run[i], run[j], callee)
  {
    var called, callee := BookAt(eof, run, i + 1).callers, U16(eof.codes[run[i].section], run[i].pc + 1);
    CalledAt(eof, tys, run, answers, i);
    var below := run[i].stack[..|run[i].stack| - eof.types[callee].inputs];
    CallerWaits(eof, tys, run, answers, i, j - 1, below);
    ReturnsAt(eof, tys, run, answers, run[i], run[i + 1].frames, called, below, j);
  }

  /** The last step of a call, at the end of which the return stack is c's again. */
  lemma ReturnsAt(eof: Eof, tys: seq<Typing>, run: seq<Config>, answers: seq<Word>, c: Config, frames: seq<Frame>,
                  called: seq<Activation>, below: Stack, j: nat)
    requires Checked(eof, tys) && IsRun(eof, run, answers) && 0 < j < |run| && StraightBefore(eof, run, j)
    requires frames == c.frames + [Frame(c.section, c.pc + 3)] && |called| == |frames|
    requires Waiting(run[j - 1], BookAt(eof, run, j - 1), called, frames, below) && |run[j].frames| == |c.frames|
    ensures run[j].section == c.section && run[j].pc == c.pc + 3 && run[j].frames == c.frames
    ensures |run[j].stack| == called[|c.frames|].resume && below <= run[j].stack
  {
    RunInv(eof, tys, run, answers, j - 1);
    assert !StraysAt(eof, run, j - 1) && StepAt(eof, run, answers, j - 1);
    Closes(eof, tys, c, frames, called, below, run[j - 1], BookAt(eof, run, j - 1), answers[j - 1]);
  }

  lemma CalledAt(eof: Eof, tys: seq<Typing>, run: seq<Config>, answers: seq<Word>, i: nat)
    requires Checked(eof, tys) && IsRun(eof, run, answers) && i + 1 < |run| && StraightBefore(eof, run, i)
    requires StandsOn(eof, run[i], CALLF)
    ensures var callee, b := U16(eof.codes[run[i].section], run[i].pc + 1), BookAt(eof, run, i + 1);
            && IsSection(eof, callee) && b.base == |run[i].stack| - eof.types[callee].inputs >= 0
            && |b.callers| == |run[i + 1].frames| && run[i + 1].frames == run[i].frames + [Frame(run[i].section, run[i].pc + 3)]
            && run[i + 1].stack == run[i].stack
            && b.callers[|run[i].frames|].resume == b.base + eof.types[callee].outputs
  {
    RunInv(eof, tys, run, answers, i);
    assert StepAt(eof, run, answers, i);
    CallMade(eof, tys, run[i], BookAt(eof, run, i), answers[i]);
  }

  /** What a CALLF leaves behind: its return frame on top and the height promised to the caller. */
  lemma CallMade(eof: Eof, tys: seq<Typing>, c: Config, b: Book, answer: Word)
    requires Inv(eof, tys, c, b) && Step(eof, c, answer).Next? && StandsOn(eof, c, CALLF)
    ensures var callee := U16(eof.codes[c.section], c.pc + 1);
            var c' := Step(eof, c, answer).config;
            var b' := NextBook(eof, c, c', b);
            && IsSection(eof, callee) && b'.base == |c.stack| - eof.types[callee].inputs >= 0
            && |b'.callers| == |c'.frames| && c'.frames == c.frames + [Frame(c.section, c.pc + 3)] && c'.stack == c.stack
            && b'.callers[|c.frames|].resume == b'.base + eof.types[callee].outputs
  {
    AtInstruction(eof, tys, c, b);
    TableAgrees(CALLF);
    assert Step(eof, c, answer) == Callf(eof, c, U16(eof.codes[c.section], c.pc + 1));
  }

  /** From `before` the call that c made comes back: c's frame is still on top and is the one that is
      popped. */
  lemma Closes(eof: Eof, tys: seq<Typing>, c: Config, frames: seq<Frame>, called: seq<Activation>, below: Stack, before: Config,
               b: Book, answer: Word)
    requires frames == c.frames + [Frame(c.section, c.pc + 3)] && |called| == |frames|
    requires Waiting(before, b, called, frames, below) && Inv(eof, tys, before, b) && !StrayRetf(eof, before, b)
    requires Step(eof, before, answer).Next? && |Step(eof, before, answer).config.frames| == |c.frames|
    ensures Step(eof, before, answer).config == Config(c.section, c.pc + 3, before.stack, c.frames)
    ensures |before.stack| == called[|c.frames|].resume && below <= before.stack
  {
    Resumed(eof, tys, before, answer, b, called);
    assert before.frames == frames && frames[..|c.frames|] == c.frames;
  }

  /** The step that brings the return stack below the caller's frame is its callee's RETF. */
  lemma Resumed(eof: Eof, tys: seq<Typing>, c: Config, answer: Word, b: Book, called: seq<Activation>)
    requires Inv(eof, tys, c, b) && !StrayRetf(eof, c, b) && Step(eof, c, answer).Next?
    requires 0 < |called| <= |b.callers| && b.callers[..|called|] == called
    requires |Step(eof, c, answer).config.frames| == |called| - 1
    ensures |b.callers| == |called| && |c.stack| == called[|called| - 1].resume
    ensures var top := c.frames[|called| - 1];
            Step(eof, c, answer) == Next(Config(top.idx, top.pc, c.stack, c.frames[..|called| - 1]))
  {
    FramesFollow(eof, tys, c, answer, b);
    AtInstruction(eof, tys, c, b);
    assert StandsOn(eof, c, RETF);
    TableAgrees(RETF);
    RetfStep(eof, tys, c, b, answer);
    assert Step(eof, c, answer) == Retf(c);
  }

  /** What validation promises of calls beyond their not faulting: with nothing below the running section,
      no call and no jump is refused for want of stack. */
  lemma BottomHasRoom(eof: Eof, tys: seq<Typing>, c: Config, b: Book, answer: Word)
    requires Inv(eof, tys, c, b) && b.base == 0
    ensures Step(eof, c, answer) != End(StackWouldOverflow)
  {
    AtInstruction(eof, tys, c, b);
    TableAgrees(eof.codes[c.section][c.pc]);
  }

  // ---- Sections entered ----

  /** Whatever section a step enters is one that the section left invokes. */
  lemma EntersInvoked(eof: Eof, tys: seq<Typing>, c: Config, b: Book, answer: Word)
    requires Inv(eof, tys, c, b) && Step(eof, c, answer).Next? && (StandsOn(eof, c, CALLF) || StandsOn(eof, c, JUMPF))
    ensures Step(eof, c, answer).config.section in Invoked(eof, c.section)
  {
    AtInstruction(eof, tys, c, b);
    TableAgrees(eof.codes[c.section][c.pc]);
    var code, k := eof.codes[c.section], U16(eof.codes[c.section], c.pc + 1);
    assert Step(eof, c, answer) == if code[c.pc] == CALLF then Callf(eof, c, k) else Jumpf(eof, c, k);
    assert Invokes(code, c.pc);
  }

  ghost predicate Reaches(eof: Eof, k: nat) {
    IsSection(eof, k) && Reachable(eof, k)
  }

  /** Every section that a run enters, or will return to, is reachable from section 0 through CALLF and
      JUMPF. */
  lemma {:induction false} RunsReach(eof: Eof, tys: seq<Typing>, run: seq<Config>, answers: seq<Word>, k: nat)
    requires Checked(eof, tys) && IsRun(eof, run, answers) && k < |run| && StraightBefore(eof, run, k)
    ensures Reaches(eof, run[k].section)
    ensures forall m {:trigger run[k].frames[m]} :: 0 <= m < |run[k].frames| ==> Reaches(eof, run[k].frames[m].idx)
  {
    if k == 0 {
      assert Chain(eof, [0]) && [0][|[0]| - 1] == 0;
    } else {
      RunsReach(eof, tys, run, answers, k - 1);
      RunInv(eof, tys, run, answers, k - 1);
      assert StepAt(eof, run, answers, k - 1);
      StepReaches(eof, tys, run[k - 1], BookAt(eof, run, k - 1), answers[k - 1]);
    }
  }

  lemma StepReaches(eof: Eof, tys: seq<Typing>, c: Config, b: Book, answer: Word)
    requires Inv(eof, tys, c, b) && Step(eof, c, answer).Next? && Reaches(eof, c.section)
    requires forall m {:trigger c.frames[m]} :: 0 <= m < |c.frames| ==> Reaches(eof, c.frames[m].idx)
    ensures var c' := Step(eof, c, answer).config;
            Reaches(eof, c'.section) && forall m {:trigger c'.frames[m]} :: 0 <= m < |c'.frames| ==> Reaches(eof, c'.frames[m].idx)
  {
    AtInstruction(eof, tys, c, b);
    TableAgrees(eof.codes[c.section][c.pc]);
    if StandsOn(eof, c, CALLF) || StandsOn(eof, c, JUMPF) {
      var k := U16(eof.codes[c.section], c.pc + 1);
      EntersInvoked(eof, tys, c, b, answer);
      ReachableStep(eof, c.section, k);
      assert Step(eof, c, answer) == if StandsOn(eof, c, CALLF) then Callf(eof, c, k) else Jumpf(eof, c, k);
    } else if StandsOn(eof, c, RETF) {
      assert Step(eof, c, answer) == Retf(c);
    }
  }

  // ---- Stray returns ----

  /** In a valid section an instruction is stray exactly when some path through the section gets to
      it: the condition on runs is neither stronger nor weaker than the code allows. */
  lemma StrayIsReached(eof: Eof)
    requires ValidEof(eof)
    ensures NoStrayReturn(eof) <==>
      forall k, path: seq<Point> {:trigger EndsStray(eof, k, path)} :: IsSection(eof, k) ==> !EndsStray(eof, k, path)
  {
    forall k, path: seq<Point> | IsSection(eof, k) && NoStrayReturn(eof) ensures !EndsStray(eof, k, path) {
      if EndsStray(eof, k, path) {
        assert SectionOk(eof, k);
        var s, types := DecodedSection(eof, k), eof.types[k];
        var ty :| IsTyping(s, types.inputs, types.maxStack, ty);
        PathsAreTyped(s, types.inputs, types.maxStack, ty, path);
      }
    }
    if !NoStrayReturn(eof) {
      var k: nat, p: nat :| IsSection(eof, k) && IsInstr(DecodedSection(eof, k), p) && Stray(eof, k, p);
      assert SectionOk(eof, k);
      var s, types := DecodedSection(eof, k), eof.types[k];
      var ty :| IsTyping(s, types.inputs, types.maxStack, ty);
      var path := BoundsAreReached(s, types.inputs, types.maxStack, ty, p, false);
      assert EndsStray(eof, k, path);
    }
  }

  /** A path through section k that arrives at a stray instruction. */
  ghost predicate EndsStray(eof: Eof, k: nat, path: seq<Point>)
    requires IsSection(eof, k)
  {
    && IsPath(DecodedSection(eof, k), eof.types[k].inputs, path)
    && path[|path| - 1].pc >= 0 && Stray(eof, k, path[|path| - 1].pc)
  }

  /** A non-returning section that pushes 128 items and returns. */
  const STRAY_CODE: Code := seq(129, k => if k < 128 then PUSH0 else RETF)
  const STRAY_EOF: Eof := Eof([Types(0, NON_RETURNING, 128)], [STRAY_CODE], 0, 0)

  lemma {:induction false} StrayStarts(s: Section, k: nat, p: nat)
    requires |s| == 129 && (forall i :: 0 <= i < 129 ==> s[i].Some? && s[i].value.size == 1) && k <= p <= 129
    ensures StartFrom(s, k, p)
    decreases p - k
  {
    if k < p {
      StrayStarts(s, k + 1, p);
    }
  }

  lemma StrayDecoded(i: nat)
    requires i < 129
    ensures Decode(Context(STRAY_EOF), 0, STRAY_CODE, i) ==
            Some(if i < 128 then Instr(1, 0, None, 1, [], false) else Instr(1, 128, Some(128), 0, [], true))
  {
  }

  lemma StrayIsTyped()
    ensures IsTyping(DecodedSection(STRAY_EOF, 0), 0, 128, seq(129, k => Heights(k, k)))
  {
    var s := DecodedSection(STRAY_EOF, 0);
    var ty: Typing := seq(129, k => Heights(k, k));
    forall i: int | 0 <= i < 129
      ensures s[i] == Some(if i < 128 then Instr(1, 0, None, 1, [], false) else Instr(1, 128, Some(128), 0, [], true))
    {
      StrayDecoded(i);
    }
    forall p: int | 0 <= p <= 129 ensures Start(s, p) {
      StrayStarts(s, 0, p);
    }
    forall p: int | 0 <= p < 129 ensures NodeOk(s, ty, p) {
      assert IsInstr(s, p);
    }
    forall q: int | 0 < q < 129 ensures Attained(s, ty, q) {
      assert IsInstr(s, q - 1) && ForwardEdge(s, q - 1, q) && Out(s, ty, q - 1) == ty[q];
    }
    assert ty[128].biggest == 128;
  }

  function Zeros(n: nat): Stack {
    seq(n, k => 0)
  }

  lemma StrayRuns(run: seq<Config>, answers: seq<Word>)
    requires run == seq(129, k requires k >= 0 => Config(0, k, Zeros(k), [])) && answers == seq(128, k => 0)
    ensures IsRun(STRAY_EOF, run, answers) && Step(STRAY_EOF, run[|run| - 1], 0) == Fail(NoReturnFrame)
  {
    forall k | 0 <= k < |answers| ensures StepAt(STRAY_EOF, run, answers, k) {
      assert run[k] == Config(0, k, Zeros(k), []) && run[k + 1] == Config(0, k + 1, Zeros(k + 1), []);
      assert Zeros(k) + [0] == Zeros(k + 1);
    }
  }

  /** It validates, although its only run ends by popping an empty return stack. */
  lemma StrayReturnAccepted()
    ensures ValidEof(STRAY_EOF) && TypesInRange(STRAY_EOF)
    ensures exists run, answers :: IsRun(STRAY_EOF, run, answers) && Step(STRAY_EOF, run[|run| - 1], 0) == Fail(NoReturnFrame)
  {
    StrayIsTyped();
    assert SectionOk(STRAY_EOF, 0);
    assert Chain(STRAY_EOF, [0]) && [0][|[0]| - 1] == 0;
    StrayRuns(seq(129, k requires k >= 0 => Config(0, k, Zeros(k), [])), seq(128, k => 0));
  }
}
