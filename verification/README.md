# A verified model of SabVM

SabVM is an Ethereum virtual machine in which native tokens other than the base token live in the
machine itself. This project models the parts of it whose correctness cannot be read off one
function, and proves what they are for. Every statement below is for all inputs, all runs or all
reachable states.

**EOF code validation** (`EofOpcodes`, `EofTyping`, `EofDecode`, `EofScan`, `EofValidator`,
`EofSections`). A typing of stack heights is defined without reference to how it is computed. The
one-pass validator accepts a section if and only if such a typing exists, and the worklist accepts a
container if and only if every section is valid and reachable from section 0. Typings are unique,
sound for every path and tight.

**Running validated code** (`EofExecute`, `EofMachine`, `EofSafety`, `EofInterpreter`). A small-step
machine on the stack itself. What each instruction pops and pushes is written from the instruction,
and the opcode table that validation reads is proved to agree with it; validation refuses an
instruction only for cause. A RETF is stray if it stands in a non-returning section
or ends an activation that jumped from a non-returning section into a returning one; the validator
lets both through, and a program is given that validates and then pops an empty return stack. A run of
a validated program keeps the call discipline if and only if it comes to no stray RETF; up to there it
never faults and every call returns to its caller with the promised height and the caller's own items
as they were, to any depth and through any chain of JUMPFs. The instructions as they update the interpreter are proved against the machine.

**The journaled state** (`JournalState`, `JournalEquiv`, `JournalOps`, `JournalKeeps`,
`JournalFunds`, `JournalRuns`, `JournalOverflow`, `JournalExact`, `JournalEmpty`, `JournalSupply`,
`JournalBudget`, `JournalReads`, `JournaledState`). Runs are trees of operations and frames, each frame committed or reverted. Undoing
is always defined, and reverting is an exact undo of every clean run. Where the code does not restore
what it found, the exact condition is proved: a previous code hash, emptied slots of a created
account, the debit of an overflowing payment, a list of token ids that was loaded before, the touched
flag of address 3, and, over whole runs, an account's counting as empty. Token totals are conserved over every run. What a
reader finds for a balance, nonce, code hash, slot or transient slot, loaded or not, is stated after
every operation, and for code and slots over runs. The mutable object is a class whose methods are proved against the functions the theorems speak of.

**Gas** (`GasConstants`, `OpcodeGas`, `SstoreGas`, `Refunds`, `ScriptRefunds`, `Gas`, `MemoryGas`,
`CallGas`). What every
legacy instruction charges in every fork, and that none that goes on is free. Net SSTORE metering telescopes; the
refund counter a transaction ends with is never negative, which is the question left open at
`crates/interpreter/src/gas.rs:118`; memory charges depend on the final size only.

**The frame loop** (`FrameLoop`, `SharedMemory`). One buffer with checkpoints refines a stack of
separate memories, in step with the call stack; a call changes nothing of its caller's memory but its
return window, and gives back exactly the gas it left; the loop terminates because every instruction that goes on charges gas and twice the
gas plus the number of frames falls.

**Transactions** (`TxPay`). Every validated sender can pay for the token list of a transaction if and
only if the charge for gas and blobs stays within what validation set aside or no base token moves.
From Cancun on, a transaction that carries blob hashes without a maximum
blob fee passes validation and is then charged a fee that nothing was set aside for.

**Legacy code and arithmetic** (`LegacyAnalysis`, `StackPush`, `SignedWords`, `FakeExponential`).
Jump destinations and the padded pointer, limb-wise pushes, signed division, comparison and shift,
and the blob gas price. `Prelude` and `Arithmetic` hold shared types and facts.

Numbers are unbounded; 256-bit words are a subset type and every wrap-around is written out. The
database is a fixed map. Accounts are observed through `get_balance`, so an explicit zero entry and a
missing one are the same.

Where code and comments disagree the model follows the code: `to_analysed` pads with 33 zero bytes,
and the undoing of a mint does not take the minted id off the list of token ids.

## Model

| member | source | states |
|---|---|---|
| `EofTyping.TypingUnique` | crates/interpreter/src/interpreter/analysis.rs:243-557 | two typings of a section agree at every instruction start, so the recorded heights are a property of the section and not of the scan |
| `EofTyping.MaxUnique` | crates/interpreter/src/interpreter/analysis.rs:540-556 | the maximum height is determined by the section, so at most one declared `max_stack_size` passes |
| `EofTyping.PathsAreTyped` | crates/interpreter/src/interpreter/analysis.rs:243-557 | soundness: on every path from the entry the pc is an instruction start inside the code, the height lies within the recorded bounds, each opcode has its operands and the maximum is never passed |
| `EofTyping.BoundsAreReached` | crates/interpreter/src/interpreter/analysis.rs:492-538 | tightness: some path enters every start with its smallest and some with its biggest recorded height |
| `EofScan.Agreement` | crates/interpreter/src/interpreter/analysis.rs:298-538 | the heights the scan has recorded so far agree with any typing of the section |
| `EofScan.StepKeepsInv` | crates/interpreter/src/interpreter/analysis.rs:298-538 | one instruction of the scan, with its joins, keeps the scan's invariant |
| `EofScan.Rejected` | crates/interpreter/src/interpreter/analysis.rs:298-538 | a section whose scan meets an illegal instruction has no typing |
| `EofScan.Accepted` | crates/interpreter/src/interpreter/analysis.rs:540-556 | a scan that gets to the end leaves a typing |
| `EofValidator.Inspect` | crates/interpreter/src/interpreter/analysis.rs:347-486 | the checks by opcode succeed exactly when the instruction decodes and its cap on the height holds, and give its effect |
| `EofValidator.RecordJumps` | crates/interpreter/src/interpreter/analysis.rs:497-534 | all jumps are taken exactly when each target is admissible; forward targets widen, backward ones must be equal |
| `EofValidator.ScanInstruction` | crates/interpreter/src/interpreter/analysis.rs:298-538 | one round of the loop succeeds exactly when the instruction is legal at its heights, and then makes the step of the invariant |
| `EofValidator.ValidateEofCode` | crates/interpreter/src/interpreter/analysis.rs:243-557 | Ok if and only if the section has a typing within its declared interface; the sections it returns are the ones that CALLF and JUMPF instructions name |
| `EofSections.Enqueue` | crates/interpreter/src/interpreter/analysis.rs:126-132 | queues each new section once; what was queued stays queued |
| `EofSections.ValidateEofCodes` | crates/interpreter/src/interpreter/analysis.rs:94-140 | terminates; Ok if and only if every section is valid and reachable from section 0 through CALLF and JUMPF; no section is validated twice |
| `EofExecute.TableAgrees` | crates/interpreter/src/opcode.rs:541-802 | the opcode table has an entry for exactly the instructions, and says of each how many bytes it skips, whether it ends its code and whether EOF may use it |
| `EofExecute.StackAgrees` | crates/interpreter/src/opcode.rs:541-802 | every instruction but the jumps and function instructions, by what it pops and pushes, underflows exactly below the inputs of its table entry (DUPN, SWAPN and EXCHANGE below what their immediate reaches), moves the height by outputs less inputs, and leaves the items below alone |
| `EofMachine.ImmediatesRead` | crates/interpreter/src/interpreter/analysis.rs:347-384 | immediates are read big-endian, and offsets as signed numbers |
| `EofMachine.RefusedForCause` | crates/interpreter/src/interpreter/analysis.rs:308-486 | a plain instruction is refused if and only if running it would fault on a stack neither short nor full; one that is let through underflows exactly below the height asked for and overflows exactly where the new height passes 1024 |
| `EofMachine.BranchRefusedForCause` | crates/interpreter/src/interpreter/analysis.rs:347-384 | a relative jump is refused if and only if it would read outside its code, an RJUMPV in its last case |
| `EofMachine.CallRefusedForCause` | crates/interpreter/src/interpreter/analysis.rs:385-411 | a CALLF is refused if and only if there is no such section or it does not return; it may stand exactly at the heights at which the interpreter makes the call and its inputs are there |
| `EofMachine.JumpRefusedForCause` | crates/interpreter/src/interpreter/analysis.rs:412-451 | a JUMPF is refused if and only if there is no such section or it leaves more than the own section promises; it may stand exactly at the heights at which the interpreter makes the jump, the inputs are there and what a returning target leaves is what the own section promises, so the last overflow check never decides |
| `EofMachine.BranchFollowsEdge` | crates/interpreter/src/instructions/control.rs:8-54 | RJUMP goes to its target; RJUMPI to its target exactly if the condition is not zero; RJUMPV to the target of its case exactly if the vtable has one; else to the next instruction. These are the targets the validator looked at, and the vtable read lies inside the code |
| `EofMachine.LocalStep` | crates/interpreter/src/instructions/control.rs:8-54 | an instruction that stays in its section moves along an edge of the decoded section and leaves the items below those it needs alone |
| `EofSafety.StepSafe` | crates/interpreter/src/instructions/control.rs:8-148 | in a validated program every step but a stray RETF avoids every fault and keeps the run's invariant |
| `EofSafety.StrayRetfBreaks` | crates/interpreter/src/instructions/control.rs:117-126 | a stray RETF pops an empty return stack or resumes its caller above the promised height |
| `EofSafety.RunsAreSafe` | crates/interpreter/src/interpreter/analysis.rs:243-557 | on every run that has come to no stray RETF, to any call depth and whatever the instructions answer, the pc is an instruction start, the operands are there, the stack stays within 1024 and the next step does not fault |
| `EofSafety.RunsReach` | crates/interpreter/src/interpreter/analysis.rs:94-140 | the section a run is in and every section on its return stack is one the worklist reaches |
| `EofSafety.BottomHasRoom` | crates/interpreter/src/instructions/control.rs:85-148 | an activation with no items of a caller below it is never refused a call or a jump for want of stack |
| `EofSafety.DisciplineIff` | crates/interpreter/src/instructions/control.rs:85-148 | on a run of a valid container every RETF finds a frame and the height promised to its caller if and only if no RETF the run comes to is stray |
| `EofSafety.NeverStrays` | crates/interpreter/src/interpreter/analysis.rs:411-472 | no run of a program without stray instructions comes to a stray RETF |
| `EofSafety.CallsReturn` | crates/interpreter/src/instructions/control.rs:85-148 | a call that ends before any stray RETF comes back behind its CALLF with the caller's return stack, the height changed by exactly outputs minus inputs, and every item below the inputs as it was |
| `EofSafety.StrayIsReached` | crates/interpreter/src/interpreter/analysis.rs:411-472 | in a valid container no instruction is stray if and only if no path through a section arrives at a stray one |
| `EofSafety.StrayReturnAccepted` | crates/interpreter/src/interpreter/analysis.rs:411-472 | a non-returning section of 128 pushes and a RETF validates, and its run pops an empty return stack |
| `EofInterpreter.FunctionStack.Push` | crates/interpreter/src/function_stack.rs:39-45 | pushes the current section and the given pc, and enters the new section |
| `EofInterpreter.FunctionStack.Pop` | crates/interpreter/src/function_stack.rs:53-57 | takes back what the last push added and re-enters its section; nothing changes on an empty stack |
| `EofInterpreter.Interpreter.Rjump` | crates/interpreter/src/instructions/control.rs:8-15 | charges its gas and does the machine's step |
| `EofInterpreter.Interpreter.Rjumpi` | crates/interpreter/src/instructions/control.rs:17-29 | charges its gas, pops the condition and jumps exactly if it is not zero, as the machine does; underflow is reported |
| `EofInterpreter.Interpreter.Rjumpv` | crates/interpreter/src/instructions/control.rs:31-54 | charges its gas, pops the case and goes to its vtable entry exactly if there is one, as the machine does; underflow is reported |
| `EofInterpreter.Interpreter.Callf` | crates/interpreter/src/instructions/control.rs:85-115 | charges its gas and does the machine's step, or reports the full return stack or the overflow to come |
| `EofInterpreter.Interpreter.Retf` | crates/interpreter/src/instructions/control.rs:117-126 | charges its gas and resumes the frame on top of the return stack |
| `EofInterpreter.Interpreter.Jumpf` | crates/interpreter/src/instructions/control.rs:128-148 | charges its gas and does the machine's step, or reports the overflow to come |
| `EofInterpreter.Interpreter.Control` | crates/interpreter/src/interpreter.rs:351-366 | dispatching a control instruction of a validated program, unless it is a stray RETF, never underflows or panics, costs gas, makes the machine's step and restores the run's invariant |
| `JournalEquiv.UndoRespects` | crates/revm/src/journaled_state.rs:328-441 | undoing an entry in two indistinguishable worlds leaves indistinguishable worlds |
| `JournalEquiv.UndoesCompose` | crates/revm/src/journaled_state.rs:328-441 | entries that undo two consecutive changes undo them together |
| `JournalKeeps.KeepsTouch` | crates/revm/src/journaled_state.rs:80-93 | touching records what undoes it, except for address 3 |
| `JournalKeeps.KeepsLoad` | crates/revm/src/journaled_state.rs:597-624 | loading an account records what undoes it |
| `JournalKeeps.KeepsLoadIds` | crates/revm/src/journaled_state.rs:874-893 | loading the token ids records what undoes it |
| `JournalKeeps.KeepsSetCode` | crates/revm/src/journaled_state.rs:150-161 | setting code records what undoes it, exactly if there was no code |
| `JournalKeeps.KeepsIncNonce` | crates/revm/src/journaled_state.rs:164-180 | incrementing a nonce records what undoes it |
| `JournalKeeps.KeepsSload` | crates/revm/src/journaled_state.rs:678-716 | loading a slot records what undoes it |
| `JournalKeeps.KeepsSstore` | crates/revm/src/journaled_state.rs:722-762 | storing a slot records what undoes it |
| `JournalKeeps.KeepsTstore` | crates/revm/src/journaled_state.rs:782-816 | a transient store records what undoes it |
| `JournalFunds.KeepsTransfer` | crates/revm/src/journaled_state.rs:183-233 | a transfer of a list records what undoes it, whether it succeeds or runs out of funds |
| `JournalFunds.KeepsBurn` | crates/revm/src/journaled_state.rs:823-872 | a burn records what undoes it |
| `JournalFunds.KeepsMint` | crates/revm/src/journaled_state.rs:895-937 | a mint records what undoes it, except for the id list, which keeps the old ids as a prefix |
| `JournalFunds.KeepsSelfdestruct` | crates/revm/src/journaled_state.rs:500-557 | a selfdestruct records what undoes it, in all its cases |
| `JournalFunds.KeepsCreated` | crates/revm/src/journaled_state.rs:251-321 | marking an account created records what undoes it, exactly if it had no set slot and was not marked |
| `JournalFunds.KeepsFunded` | crates/revm/src/journaled_state.rs:298-321 | funding a created account and setting its nonce records what undoes it |
| `JournalRuns.RunAllKeeps` | crates/revm/src/journaled_state.rs:328-486 | whatever operations and nested frames run, no undo panics and what is recorded undoes the run |
| `JournalRuns.RevertRestores` | crates/revm/src/journaled_state.rs:464-486 | reverting to a checkpoint restores the world, logs, depth and journal of the checkpoint; a list of token ids loaded before is the one reverted from, and so is the touched flag of address 3 under EIP-161 |
| `JournalRuns.UndoAlwaysDefined` | crates/revm/src/journaled_state.rs:334-441 | in every reachable state reverting looks up nothing absent and decrements no zero nonce |
| `JournalRuns.RevertIsExactUndo` | crates/revm/src/journaled_state.rs:328-486 | after a checkpoint and any clean run, a revert restores loaded accounts, nonces, code hashes, balances, flags, storage, transient storage, logs and depth; the list of token ids is empty if it was empty and else exactly as the run left it, and under EIP-161 so is the touched flag of address 3 |
| `JournalExact.SetCodeExactIff` | crates/revm/src/journaled_state.rs:150-161 | reverting set_code is exact if and only if the account had no code |
| `JournalExact.CreateExactIff` | crates/revm/src/journaled_state.rs:251-321 | reverting a creation, whether it went through or was refused, is exact if and only if it collided or the account had no set slot and was not marked created |
| `JournalExact.TouchExactIff` | crates/revm/src/journaled_state.rs:339-345 | reverting a touch is exact to the last flag if and only if it did not newly touch address 3 under EIP-161 |
| `JournalExact.MintIdsExactIff` | crates/revm/src/journaled_state.rs:428-439 | reverting a mint restores the list of token ids if and only if it was empty, held the id already, or the mint was refused |
| `JournalEmpty.RevertEmptyIff` | crates/primitives/src/state.rs:265-281 | after every clean run, whatever its nesting, an account loaded before counts as empty again after the revert if and only if it did at the checkpoint and the run left it no entry but for the base token |
| `JournalEmpty.TransferEmptyIff` | crates/revm/src/journaled_state.rs:196-230 | reverting a list of payments to an empty account leaves it empty if and only if every payment that was made was of the base token |
| `JournalEmpty.MintEmptyIff` | crates/revm/src/journaled_state.rs:428-439 | reverting a mint to an empty account leaves it empty if and only if the token was the base token, whatever the amount |
| `JournalOverflow.OverflowForeseen` | crates/revm/src/journaled_state.rs:196-230 | a list of payments overflows if and only if, by the balances before it, some payment is the first that the payee has no room for and the payer can make |
| `JournalOverflow.TransferMoves` | crates/revm/src/journaled_state.rs:196-230 | a list that goes through takes from the payer and gives to the payee exactly the sum of its amounts, token by token; a payment to oneself changes nothing |
| `JournalExact.TransferExactIff` | crates/revm/src/journaled_state.rs:183-233 | reverting a transfer is exact unless the payer was loaded before the checkpoint and a payment will overflow, and only then |
| `JournalSupply.TransferTotal` | crates/revm/src/journaled_state.rs:183-233 | while totals stay below 2^256 a transfer never overflows and no token's total changes |
| `JournalSupply.SelfdestructTotal` | crates/revm/src/journaled_state.rs:500-557 | totals change by a selfdestruct only when an account is destroyed into itself, by its base balance |
| `JournalSupply.BurnTotal` | crates/revm/src/journaled_state.rs:823-872 | a successful burn lowers the total of its token by the amount and touches no other; a refused one changes nothing |
| `JournalSupply.MintTotal` | crates/revm/src/journaled_state.rs:895-937 | a successful mint raises the total of its token by the amount and touches no other; a refused one changes nothing |
| `JournalSupply.CreateTotal` | crates/revm/src/journaled_state.rs:251-321 | a funded creation changes no total |
| `JournalSupply.RunAllTotal` | crates/revm/src/journaled_state.rs:183-937 | over every run, with any nesting of commits and reverts, each token's total changes by exactly what was minted, burned or destroyed in frames that were kept |
| `JournalBudget.RunConserves` | crates/revm/src/journaled_state.rs:183-937 | the same from a bound on the first state alone: each token's total and all that the run may mint of it stay below 2^256 together |
| `JournalReads.LoadAnswers` | crates/revm/src/journaled_state.rs:597-624 | loading an account changes no answer to any question about balances, nonces, code, slots or transient slots: what is loaded is what the database has |
| `JournalReads.SetCodeAnswers` | crates/revm/src/journaled_state.rs:150-161 | the code hash of the account becomes the given one; no other answer changes |
| `JournalReads.IncNonceAnswers` | crates/revm/src/journaled_state.rs:164-180 | the nonce grows by one unless it is the largest; no other answer changes |
| `JournalReads.SloadAnswers` | crates/revm/src/journaled_state.rs:678-716 | loading a slot changes no answer, and what is then in the slot is the present value if it was loaded, zero in a created account and else the database's value |
| `JournalReads.SstoreAnswers` | crates/revm/src/journaled_state.rs:722-762 | the slot holds the new value, no other answer changes, and the result names what it held before |
| `JournalReads.TstoreAnswers` | crates/revm/src/journaled_state.rs:782-816 | the transient slot holds the new value; no other answer changes |
| `JournalReads.BurnAnswers` | crates/revm/src/journaled_state.rs:823-872 | a burn goes through exactly for a positive amount of a valid id that the holder has, and then takes it; no other answer changes |
| `JournalReads.MintAnswers` | crates/revm/src/journaled_state.rs:895-937 | a mint goes through exactly if the balance fits a word, and then adds to it; no other answer changes |
| `JournalReads.MintAddsId` | crates/revm/src/journaled_state.rs:895-937 | a mint that goes through adds its id to the list of token ids, loaded first if empty, exactly if it was not there; a refused one adds nothing |
| `JournalReads.PaymentAnswers` | crates/revm/src/journaled_state.rs:196-230 | one payment runs out of funds exactly if the payer has too little, and then changes no answer; one that goes through moves its amount; one that overflows leaves the payer debited |
| `JournalReads.TransferAnswers` | crates/revm/src/journaled_state.rs:183-233 | a list that goes through moves each balance by what was paid and received; no other answer changes |
| `JournalReads.SelfdestructAnswers` | crates/revm/src/journaled_state.rs:500-557 | the target receives the base balance on 256 bits, the account loses it unless it names itself and lives on, and is destroyed exactly if created in this transaction or before Cancun; no other answer changes |
| `JournalReads.CreationOutcome` | crates/revm/src/journaled_state.rs:251-297 | a creation collides exactly if the address has code, a nonce or is preloaded, and overflows exactly if the endowment does not fit; undoing it does not panic |
| `JournalReads.CreationAnswers` | crates/revm/src/journaled_state.rs:251-321 | a creation that goes through, for a caller who has the endowment, moves it, marks the account, sets the first nonce from EIP-161 on and empties the slots of the account; no other answer changes |
| `JournalReads.RevertAnswers` | crates/revm/src/journaled_state.rs:464-486 | after any clean run a revert answers every question as before the checkpoint |
| `JournalReads.RunAllAssigns` | crates/revm/src/journaled_state.rs:150-816 | over every clean run a code hash, slot or transient slot holds the last value given to it in a frame that was kept, and the first one if there is none |
| `JournalReads.RunAllLogs` | crates/revm/src/journaled_state.rs:458-486 | over every run the logs grow by those of the frames that were kept, in order |
| `JournaledState.JournaledState.Touch` | crates/revm/src/journaled_state.rs:80-93 | the object does what the touch of the theorems does |
| `JournaledState.JournaledState.LoadAccount` | crates/revm/src/journaled_state.rs:597-624 | the same for loading; cold exactly if neither loaded nor preloaded |
| `JournaledState.JournaledState.LoadAccountExist` | crates/revm/src/journaled_state.rs:630-648 | the same, and whether the account found is empty, or before EIP-161 missing and untouched |
| `JournaledState.JournaledState.LoadNativeTokenIds` | crates/revm/src/journaled_state.rs:874-893 | the same for the token ids; cold exactly if the list was empty |
| `JournaledState.JournaledState.SetCode` | crates/revm/src/journaled_state.rs:150-161 | the same for code |
| `JournaledState.JournaledState.IncNonce` | crates/revm/src/journaled_state.rs:164-180 | the same for nonces; the largest nonce is refused unchanged |
| `JournaledState.JournaledState.Transfer` | crates/revm/src/journaled_state.rs:183-233 | the loop over the list does what the transfer of the theorems does, with its failure |
| `JournaledState.JournaledState.Selfdestruct` | crates/revm/src/journaled_state.rs:500-563 | the same for selfdestruct; reports whether there was a balance, whether the target was cold and existed, and an earlier destruction |
| `JournaledState.JournaledState.Sload` | crates/revm/src/journaled_state.rs:678-716 | the same for loading a slot; returns what the slot held before, be it loaded, the database's or zero in a created account, and whether it was cold |
| `JournaledState.JournaledState.Sstore` | crates/revm/src/journaled_state.rs:722-762 | the same for storing a slot; returns original, present and new value, and the slot then holds the new one |
| `JournaledState.JournaledState.Tstore` | crates/revm/src/journaled_state.rs:782-816 | the same for transient storage |
| `JournaledState.JournaledState.Burn` | crates/revm/src/journaled_state.rs:823-872 | the same for burning |
| `JournaledState.JournaledState.Mint` | crates/revm/src/journaled_state.rs:895-937 | the same for minting |
| `JournaledState.JournaledState.TakeCheckpoint` | crates/revm/src/journaled_state.rs:446-455 | opens a journal and remembers the lengths of logs and journals |
| `JournaledState.JournaledState.JournalRevert` | crates/revm/src/journaled_state.rs:328-441 | the loop over the entries of one journal undoes them newest first |
| `JournaledState.JournaledState.CheckpointRevert` | crates/revm/src/journaled_state.rs:464-486 | the loop over the journals undoes all entries since the checkpoint and cuts logs and journals |
| `JournaledState.JournaledState.CreateAccountCheckpoint` | crates/revm/src/journaled_state.rs:251-321 | opens the checkpoint and creates the account, or reports collision or overflow with the journal undone; undoing never panics |
| `SstoreGas.SstoreRefund` | crates/interpreter/src/gas/calc.rs:24-71 | the branches amount to the change of the clearing credit plus a reward for restoring the original value |
| `SstoreGas.RefundSchedule` | crates/interpreter/src/gas/calc.rs:24-71 | the refund of every case from Istanbul on, in numbers |
| `SstoreGas.StoreSchedule` | crates/interpreter/src/gas/calc.rs:193-255 | the cost of every case in every fork in numbers, cold surcharge and stipend check included |
| `SstoreGas.StoreNets` | crates/interpreter/src/gas/calc.rs:193-243 | cost less refund of a warm store is a warm load plus the change in what the slot owes |
| `SstoreGas.NetCostTelescopes` | crates/interpreter/src/gas/calc.rs:193-243 | n warm stores cost n warm loads plus the change in what the slot owes, whatever the values in between and the gas left at each store |
| `SstoreGas.RoundTripCost` | crates/interpreter/src/gas/calc.rs:193-243 | n warm stores that end at the original value cost exactly n loads, at 800 gas in Istanbul and 100 from Berlin on |
| `Refunds.StepKeepsInv` | crates/interpreter/src/interpreter.rs:291-312 | every load, store, creation, call and return keeps the refunds of the frames up to any depth above the credit of the storage they left |
| `Refunds.RefundsCoverCredit` | crates/interpreter/src/gas/calc.rs:24-71 | at every point of every run the refunds over live frames are at least the clearing credit of all cleared slots, which is not negative |
| `Refunds.FinalRefundNeverNegative` | crates/interpreter/src/gas.rs:99-118 | the counter a transaction ends with is not negative, and the final refund is at most it and at most a fifth (before London half) of the gas spent |
| `ScriptRefunds.SstoreCredit` | crates/revm/src/journaled_state.rs:722-762 | a store to the journaled state moves the clearing credit of its slots by at most the refund it earns |
| `ScriptRefunds.RunAllCredit` | crates/revm/src/journaled_state.rs:464-486 | over every clean run of the journaled state, frames merged or reverted, the refund counter covers the change in the clearing credit of all loaded slots |
| `ScriptRefunds.ScriptRefundNeverNegative` | crates/interpreter/src/gas.rs:99-118 | a run of the journaled state that starts with unchanged slots ends with a counter that is not negative, and the final refund is within it and the cap |
| `Gas.FinalRefundCapped` | crates/interpreter/src/gas.rs:109-112 | the final refund is the counter or the cap, whichever is smaller; a negative counter would have become the whole cap |
| `Gas.Gas.RecordCost` | crates/interpreter/src/gas.rs:126-133 | pays or refuses and changes nothing |
| `Gas.Gas.EraseCost` | crates/interpreter/src/gas.rs:84-86 | gives gas back on 64 bits; remaining stays within the limit if no more comes back than was spent |
| `Gas.Gas.SetFinalRefund` | crates/interpreter/src/gas.rs:109-112 | sets the counter to the final refund, unsigned cast included |
| `MemoryGas.GrownCovers` | crates/interpreter/src/interpreter.rs:436-446 | the new length is whole words, no word more than the request needs, and covers the request if and only if the size is at most 2^64 - 32 |
| `MemoryGas.ChargesTelescope` | crates/interpreter/src/gas/calc.rs:344-354 | any sequence of expansions charges exactly the price of the final words less that of the first |
| `MemoryGas.MemoryCostGrows` | crates/interpreter/src/gas/calc.rs:350-354 | more words never cost less, so no charge wraps below zero |
| `MemoryGas.MemoryCostIs` | crates/interpreter/src/gas/calc.rs:350-354 | three gas a word and the square over 512 rounded down, while nothing saturates |
| `MemoryGas.ResizeMemory` | crates/interpreter/src/instructions/macros.rs:91-110 | expands and pays when the memory is too short, refuses unchanged when the gas does not suffice; other memories stay |
| `OpcodeGas.EveryStepCosts` | crates/interpreter/src/interpreter.rs:373-387 | every legacy instruction that can go on charges at least one gas, in every fork |
| `OpcodeGas.GoingOnIsKnown` | crates/interpreter/src/opcode.rs:541-802 | what goes on is an instruction of the opcode table that does not end its code |
| `OpcodeGas.KnownGoesOn` | crates/interpreter/src/opcode.rs:541-802 | from Cancun on every other instruction of the table goes on, except a store with no more gas than the stipend |
| `OpcodeGas.FeeTiers` | crates/interpreter/src/gas/constants.rs:1-27 | the fixed fees in numbers |
| `OpcodeGas.VariableFees` | crates/interpreter/src/gas/calc.rs:104-190 | the fees that depend on lengths, exponents and access, in numbers |
| `OpcodeGas.ByteLengthIs` | crates/interpreter/src/gas/calc.rs:80-122 | the exponent is charged by its number of bytes |
| `OpcodeGas.Activation` | crates/interpreter/src/instructions/macros.rs:36-46 | the fork from which each later instruction exists |
| `CallGas.CallCost` | crates/interpreter/src/gas/calc.rs:295-331 | the accumulated cost is access, plus value transfer, plus new account where that is paid for |
| `CallGas.CallSchedule` | crates/interpreter/src/gas/calc.rs:295-342 | the cost of a call in every fork and of a creation, and the stipend, in numbers |
| `CallGas.KeepsOne64th` | crates/interpreter/src/instructions/contract/call_helpers.rs:45-66 | from Tangerine on a 64th part stays behind, rounded down |
| `CallGas.LimitIs` | crates/interpreter/src/instructions/contract/call_helpers.rs:45-66 | a call is refused exactly if its cost, before Tangerine with the gas it names, exceeds what remains; else it gets the smaller of what it names and what may be handed over |
| `CallGas.HandOverLowersTotal` | crates/interpreter/src/instructions/contract.rs:398-413 | handing gas to a call strictly lowers the total even with the stipend |
| `FrameLoop.StepDescends` | crates/revm/src/evm.rs:91-167 | every instruction that goes on and every turn of the loop lowers twice the total gas plus the number of frames |
| `FrameLoop.RunIsBounded` | crates/revm/src/evm.rs:91-167 | after k turns the measure has fallen by k at least |
| `FrameLoop.StepKeepsInv` | crates/interpreter/src/interpreter.rs:207-224 | remaining gas stays within the limit in every frame, there is one memory per frame and every return window fits |
| `FrameLoop.RangeFits` | crates/interpreter/src/instructions/contract/call_helpers.rs:9-43 | a return window inside the range a call has paid for fits the expanded memory |
| `FrameLoop.ChildIsIsolated` | crates/interpreter/src/interpreter.rs:279-313 | when a call or creation is over its parent's memory is the one it paid for but for the first min(window, output) bytes of a call's return window, and those only on ok or revert; other memories are as before; the parent has what it kept at the start plus, on ok or revert, exactly what the child had left less its last charge |
| `FrameLoop.CreationIsIsolated` | crates/interpreter/src/interpreter.rs:195-225 | when a creation is over all memories are as they were, the creator's with the expansion it paid for |
| `FrameLoop.CallHandsOver` | crates/interpreter/src/instructions/contract.rs:377-436 | a call starts with its limit and stipend, and its caller keeps exactly what is left of expansion price, cost and limit |
| `FrameLoop.CreateHandsOver` | crates/interpreter/src/instructions/contract.rs:307-375 | the same for a creation |
| `FrameLoop.ContinueTotal` | crates/interpreter/src/interpreter.rs:351-366 | an instruction that goes on takes exactly its charge, from the running frame alone |
| `FrameLoop.ReturnTotal` | crates/interpreter/src/interpreter.rs:195-313 | a return into a caller takes exactly its last charge from the total, an error exactly what the frame had |
| `FrameLoop.AnswerTotal` | crates/interpreter/src/interpreter.rs:195-313 | a call or creation answered without a frame takes exactly the expansion price, the cost and what the answer did not leave |
| `FrameLoop.WrittenAt` | crates/interpreter/src/interpreter.rs:279-313 | byte by byte what the output leaves in the return window and that the rest of the memory stays |
| `FrameLoop.InsertOutput` | crates/interpreter/src/interpreter.rs:279-313 | the write to the shared buffer changes the running memory only, by the output cut to the window |
| `FrameLoop.Advance` | crates/revm/src/evm.rs:91-167 | contexts are opened and freed in step with the frames |
| `FrameLoop.RunTheLoop` | crates/revm/src/evm.rs:86-167 | the loop terminates for every handler within 2 * limit + 1 turns and the buffer's contexts are the frames' memories throughout |
| `FrameLoop.Expand` | crates/interpreter/src/instructions/contract/call_helpers.rs:26-43 | expanding for a call changes the running memory only, by zeros up to whole words |
| `SharedMemory.SharedMemory.NewContext` | crates/interpreter/src/interpreter/shared_memory.rs:98-102 | adds an empty memory; the others stay |
| `SharedMemory.SharedMemory.FreeContext` | crates/interpreter/src/interpreter/shared_memory.rs:106-112 | removes the last memory; the others stay |
| `SharedMemory.ResizedAt` | crates/interpreter/src/interpreter/shared_memory.rs:134-136 | byte by byte, a resized memory is the old one continued with zeros |
| `SharedMemory.OverwrittenAt` | crates/interpreter/src/interpreter/shared_memory.rs:248-252 | byte by byte, the value from its offset on and the old memory elsewhere |
| `SharedMemory.SharedMemory.Resize` | crates/interpreter/src/interpreter/shared_memory.rs:134-136 | cuts the last memory or extends it with zeros; the others stay |
| `SharedMemory.SharedMemory.Slice` | crates/interpreter/src/interpreter/shared_memory.rs:145-165 | reads the last memory only |
| `SharedMemory.SharedMemory.Set` | crates/interpreter/src/interpreter/shared_memory.rs:248-252 | writes into the last memory; the others stay |
| `SharedMemory.SharedMemory.SetData` | crates/interpreter/src/interpreter/shared_memory.rs:262-281 | writes data continued with zeros into the last memory; the others stay |
| `SharedMemory.SharedMemory.Copy` | crates/interpreter/src/interpreter/shared_memory.rs:288-290 | copies inside the last memory as if through a second buffer, overlaps included |
| `TxPay.CheckBlobs` | crates/primitives/src/env.rs:144-191 | the blob checks pass exactly when the blob fields are admissible for the fork |
| `TxPay.CountsUniqueIds` | crates/primitives/src/env.rs:193-202 | the set of ids is as big as the list if and only if the ids are pairwise different |
| `TxPay.ValidateTx` | crates/primitives/src/env.rs:95-205 | Ok if and only if all fields are admissible and the token ids pairwise different; from London on, with the base fee check, the price offered must reach the base fee |
| `TxPay.EffectivePriceIs` | crates/primitives/src/env.rs:41-49 | the effective price reaches the base fee if and only if the offered price does and base fee and tip fit a word; it then is the base fee plus the tip or what the offer leaves for one, whichever is smaller, and without a tip the offer |
| `TxPay.CheckTokens` | crates/primitives/src/env.rs:261-281 | refuses exactly when some token other than the base token is not covered |
| `TxPay.ValidateTxAgainstState` | crates/primitives/src/env.rs:209-285 | Ok if and only if sender, required base balance and every other token's balance are in order; the sender is topped up exactly when the balance check is off and it is short |
| `TxPay.ChargeWithinReserve` | crates/revm/src/handler/mainnet/pre_execution.rs:78-102 | a valid transaction that names a maximum blob fee or has no blobs is charged no more than was set aside |
| `TxPay.FeesAre` | crates/revm/src/handler/mainnet/pre_execution.rs:78-88 | while it fits a word the charge is the limit at the effective price, from Cancun on plus the blob gas at its price |
| `TxPay.DeductedIs` | crates/revm/src/handler/mainnet/pre_execution.rs:76-102 | the charge leaves the base balance, down to zero, and no other; a call bumps the nonce |
| `TxPay.RunsOutOnlyIfUncovered` | crates/revm/src/journaled_state.rs:196-230 | payments of different tokens run out of funds only if some balance is too small, and go through only if none is |
| `TxPay.ValidatedCanPay` | crates/primitives/src/env.rs:209-285 | a validated transaction charged within its reserve, or moving no base token, never runs out of funds when its whole list is transferred |
| `TxPay.OverchargedCannotPay` | crates/revm/src/handler/mainnet/pre_execution.rs:78-102 | otherwise the sender who holds just what validation requires passes and runs out of funds paying a fresh account |
| `TxPay.PaysIff` | crates/primitives/src/env.rs:209-285 | for a valid transaction whose required balance fits a word, every validated sender can pay if and only if the charge stays within the reserve or no base token moves |
| `TxPay.UnpricedBlobsCannotPay` | crates/primitives/src/env.rs:144-191 | a transaction with a blob hash and no maximum blob fee that validates and then runs out of funds |
| `TxPay.TwiceTheSameToken` | crates/primitives/src/env.rs:193-202 | without different ids a covered list can run out of funds |
| `LegacyAnalysis.Analyze` | crates/interpreter/src/interpreter/analysis.rs:41-67 | marks exactly the JUMPDEST bytes that start an instruction |
| `LegacyAnalysis.ToAnalysed` | crates/interpreter/src/interpreter/analysis.rs:24-38 | the code, 33 zero bytes and the marks of the padded code |
| `LegacyAnalysis.PushBytesTabled` | crates/interpreter/src/opcode.rs:541-802 | the bytes the analysis skips are the immediates of the opcode table |
| `LegacyAnalysis.PointerStaysInside` | crates/interpreter/src/interpreter.rs:351-365 | on every run the pc is an instruction boundary at most 32 behind the code, reads nothing outside the padded code, and halts at any boundary behind the code |
| `StackPush.LimbsMakeWord` | crates/interpreter/src/interpreter/stack.rs:291-351 | the four limbs of a chunk make up its big-endian value |
| `StackPush.BigEndianDigit` | crates/interpreter/src/interpreter/stack.rs:291-351 | each byte is the digit of its place in the word |
| `StackPush.ChunkAt` | crates/interpreter/src/interpreter/stack.rs:291-351 | the k-th word is made of the k-th 32 bytes, or of what is left of them |
| `StackPush.Stack.PushSlice` | crates/interpreter/src/interpreter/stack.rs:291-351 | appends the big-endian words of the slice's chunks, the last one short, and leaves earlier words; refuses exactly when they do not fit |
| `SignedWords.TruncLaw` | crates/interpreter/src/instructions/i256.rs:80-130 | truncated quotient and remainder make up the dividend; the remainder is smaller than the divisor and has the dividend's sign |
| `SignedWords.SignedIs` | crates/interpreter/src/instructions/i256.rs:31-66 | the signed reading of a word, its range and its way back |
| `SignedWords.I256Div` | crates/interpreter/src/instructions/i256.rs:80-107 | truncated signed division wrapped to 256 bits; zero for a zero divisor |
| `SignedWords.I256Mod` | crates/interpreter/src/instructions/i256.rs:109-130 | signed remainder with the dividend's sign; zero for a zero divisor |
| `SignedWords.DivModLaw` | crates/interpreter/src/instructions/i256.rs:80-130 | what the two return satisfies a = div * b + mod modulo 2^256 |
| `SignedWords.I256Cmp` | crates/interpreter/src/instructions/i256.rs:68-78 | signed order |
| `SignedWords.Sar` | crates/interpreter/src/instructions/bitwise.rs:109-135 | floor division by two to the shift, for every shift |
| `FakeExponential.TermsFall` | crates/primitives/src/utilities.rs:52-69 | until denominator * i passes the numerator there are fewer rounds to go, and then every term is smaller than the last |
| `FakeExponential.FakeExponential` | crates/primitives/src/utilities.rs:52-69 | terminates for every non-zero denominator and computes the sum of the series |
| `FakeExponential.NextTermIs` | crates/primitives/src/utilities.rs:61-67 | each term is the last times the numerator over denominator * i, rounded down |
| `FakeExponential.SumOfSeries` | crates/primitives/src/utilities.rs:52-69 | the sum is that of any list of terms that follow one another down to zero |
| `FakeExponential.TermBelowSeries` | crates/primitives/src/utilities.rs:41-69 | the k-th term is at most factor * denominator * (numerator / denominator)^k / k!, the term of the exponential series |
| `FakeExponential.ExponentialAtZero` | crates/primitives/src/utilities.rs:52-69 | the factor itself for numerator zero |
| `FakeExponential.ExponentialGrows` | crates/primitives/src/utilities.rs:52-69 | at least the factor, and monotone in the numerator |
| `FakeExponential.BlobGaspriceGrows` | crates/primitives/src/utilities.rs:26-33 | the blob gas price is at least one and never falls as excess gas grows |
| `FakeExponential.PriceDoubles` | crates/primitives/src/utilities.rs:26-32 | the price is one without excess gas and becomes two at an excess of 2314058 |

## Left out

- Which error the EOF validator reports when several apply: accepted and refused are exact, the error is the first the model's order of checks meets.
- The height sentinels of the scan (`i32::MAX` and `i32::MIN`) are a missing value, and heights are unbounded: code of at most 65535 bytes cannot make an `i32` overflow.
- EofSafety.RunsAreSafe: takes the ranges of the types section (`crates/primitives/src/bytecode/eof/types_section.rs:61-69`), which decoding checks and `validate_eof_code` does not; the word an instruction computes or reads is arbitrary, and gas is not spent in the machine.
- Decoding of EOF headers and bodies, nested containers, and EOFCREATE, RETURNCONTRACT and EXT*CALL beyond what they do to the stack: their execution paths in `crates/interpreter/src/instructions/contract.rs` are unfinished. The container that RETURNCONTRACT names, which validation does not look at and the instruction reads from two bytes behind a table entry of one, is not modelled.
- Database errors, `initial_account_load`, `finalize`, the cached code bytes and the hash that derives a token id, which is a parameter.
- JournalRuns.RevertIsExactUndo: is for clean runs (no overflowing payment, code set only where there was none, created accounts without set slots); what each of the three does otherwise is stated for one operation and not for whole runs.
- JournalReads.RunAllAssigns: is for clean runs, because reverting a creation that emptied set slots, or a second setting of code, does not bring the old answer back.
- JournalSupply.RunAllTotal: totals are over a given list of different addresses that contains every party, and a creation is funded by a caller who has the value (`crates/revm/src/context/inner_evm_context.rs:257-260`).
- Refunds.RefundsCoverCredit: the counter is unbounded; that an `i64` suffices is not shown.
- ScriptRefunds.RunAllCredit: is for clean runs; that emptied slots do no harm is proved in `Refunds`.
- FrameLoop.RunTheLoop: that precompiles and refused calls and creations answer with no more gas than they were given is the contract of the handler. Instructions that fail end their frame with an error, whatever they charged.
- The `memory_limit` feature, the byte and word writers of the shared memory, which are `set` with a given length.
- MemoryGas.ChargesTelescope: for sizes up to 2^64 - 32, beyond which the expanded memory does not cover the request.
- FakeExponential.FakeExponential: exact integers; a `u128` overflow is not modelled.
- TxPay.ValidateTx: Optimism fields, and the order in which a transaction with several faults reports them beyond the order of the checks.
- The unused refund and gas record of a whole transaction after execution (reimbursing the caller, rewarding the beneficiary).
- Precompiles, hashing and signature code, inspectors, handler registration, builders and serialisation.
