/** The journaled state as the mutable object it is, each method proved against its function. */
module JournaledState {
  import opened Prelude
  import opened JournalState
  import opened JournalOps
  import opened JournalEquiv
  import opened JournalKeeps
  import opened JournalRuns
  import opened JournalReads

  /** The payments from the i-th on, one payment later. */
  lemma TransferRest(j: Journaled, from: Address, to: Address, ts: seq<TokenTransfer>, i: nat)
    requires Open(j) && Loaded(j, from) && Loaded(j, to) && i < |ts|
    ensures var (j1, failure) := TransferOne(j, from, to, ts[i]);
            && Open(j1) && Loaded(j1, from) && Loaded(j1, to)
            && TransferAll(j, from, to, ts[i..]) == if failure.Some? then (j1, failure) else TransferAll(j1, from, to, ts[i + 1..])
  {
    assert ts[i..][1..] == ts[i + 1..];
  }

  /** Undoing journals is undoing the last of them and then the others. */
  lemma LastJournal(sd: bool, w: World, journal: seq<seq<Entry>>, from: nat, k: nat)
    requires from < k <= |journal|
    ensures var first := UndoAll(sd, w, journal[k - 1]);
            UndoAll(sd, w, Flat(journal[from..k])) == if first.Some? then UndoAll(sd, first.value, Flat(journal[from..k - 1])) else None
  {
    var entries := journal[k - 1];
    assert journal[from..k] == journal[from..k - 1] + [entries];
    FlatConcat(journal[from..k - 1], [entries]);
    FlatOne(entries);
    UndoAllConcat(sd, w, Flat(journal[from..k - 1]), entries);
  }

  class JournaledState {
    var accounts: map<Address, Account>
    var tokenIds: seq<Word>
    var transient: map<(Address, Word), Word>
    var logs: seq<Log>
    var depth: nat
    var journal: seq<seq<Entry>>
    const spec: Spec
    const warm: set<Address>

    ghost function TheWorld(): World
      reads this
    {
      World(accounts, transient, tokenIds)
    }

    ghost function Core(): Journaled
      reads this
    {
      Journaled(TheWorld(), logs, depth, journal, spec, warm)
    }

    constructor (spec: Spec, warm: set<Address>)
      ensures Core() == Journaled(World(map[], map[], []), [], 0, [[]], spec, warm)
    {
      accounts, tokenIds, transient, logs, depth, journal := map[], [], map[], [], 0, [[]];
      this.spec, this.warm := spec, warm;
    }

    method Push(e: Entry)
      requires Open(Core())
      modifies this`journal
      ensures Core() == Note(old(Core()), TheWorld(), e)
    {
      var n := |journal| - 1;
      journal := journal[n := journal[n] + [e]];
    }

    method Touch(a: Address)
      requires Open(Core())
      modifies this`accounts, this`journal
      ensures Core() == JournalOps.Touch(old(Core()), a)
    {
      if a in accounts && !accounts[a].touched {
        Push(AccountTouched(a));
        accounts := accounts[a := accounts[a].(touched := true)];
      }
    }

    method LoadAccount(db: Db, a: Address) returns (isCold: bool)
      requires Open(Core())
      modifies this`accounts, this`journal
      ensures Core() == JournalOps.LoadAccount(old(Core()), db, a)
      ensures isCold <==> a !in old(accounts) && a !in warm
    {
      if a in accounts { return false; }
      var account := FromDb(db, a);
      Push(AccountLoaded(a));
      isCold := a !in warm;
      accounts := accounts[a := account];
    }

    /** Loads an account and tells whether it is empty, or before EIP-161 whether it is missing. */
    method LoadAccountExist(db: Db, a: Address) returns (isEmpty: bool, isCold: bool)
      requires Open(Core())
      modifies this`accounts, this`journal
      ensures Core() == JournalOps.LoadAccount(old(Core()), db, a)
      ensures isCold <==> a !in old(accounts) && a !in warm
      ensures isEmpty == FoundEmpty(old(Core()), db, a)
    {
      isCold := LoadAccount(db, a);
      var acc := accounts[a];
      isEmpty := if spec.spuriousDragon then IsEmpty(acc) else acc.notExisting && !acc.touched;
    }

    method LoadNativeTokenIds(db: Db) returns (isCold: bool)
      requires Open(Core())
      modifies this`tokenIds, this`journal
      ensures Core() == JournalOps.LoadTokenIds(old(Core()), db)
      ensures isCold <==> old(tokenIds) == []
    {
      if tokenIds != [] { return false; }
      tokenIds := db.tokenIds;
      Push(TokenIdsLoaded);
      isCold := true;
    }

    method SetCode(a: Address, codeHash: Word)
      requires Open(Core()) && a in accounts
      modifies this`accounts, this`journal
      ensures Core() == JournalOps.SetCode(old(Core()), a, codeHash)
    {
      Touch(a);
      Push(CodeChange(a));
      accounts := accounts[a := accounts[a].(codeHash := codeHash)];
    }

    method IncNonce(a: Address) returns (nonce: Option<nat>)
      requires Open(Core()) && a in accounts
      modifies this`accounts, this`journal
      ensures Core() == JournalOps.IncNonce(old(Core()), a)
      ensures nonce == if old(accounts)[a].nonce >= MAX_NONCE then None else Some(old(accounts)[a].nonce + 1)
    {
      if accounts[a].nonce >= MAX_NONCE { return None; }
      Touch(a);
      Push(NonceChange(a));
      accounts := accounts[a := accounts[a].(nonce := accounts[a].nonce + 1)];
      nonce := Some(accounts[a].nonce);
    }

    method PayOne(from: Address, to: Address, t: TokenTransfer) returns (failure: Option<Failure>)
      requires Open(Core()) && from in accounts && to in accounts
      modifies this`accounts, this`journal
      ensures (Core(), failure) == TransferOne(old(Core()), from, to, t)
    {
      Touch(from);
      var fromBalance := Balance(accounts[from], t.id);
      if fromBalance < t.amount { return Some(OutOfFunds); }
      accounts := accounts[from := SetBalance(accounts[from], t.id, fromBalance - t.amount)];
      failure := Credit(from, to, t);
    }

    method Credit(from: Address, to: Address, t: TokenTransfer) returns (failure: Option<Failure>)
      requires Open(Core()) && to in accounts
      modifies this`accounts, this`journal
      ensures (Core(), failure) == Credited(old(Core()), from, to, t)
    {
      Touch(to);
      var toBalance := Balance(accounts[to], t.id);
      if toBalance + t.amount >= TWO_256 { return Some(OverflowPayment); }
      accounts := accounts[to := SetBalance(accounts[to], t.id, toBalance + t.amount)];
      Push(BalanceTransfer(from, to, t.id, t.amount));
      failure := None;
    }

    method Transfer(db: Db, from: Address, to: Address, ts: seq<TokenTransfer>) returns (failure: Option<Failure>)
      requires Open(Core())
      modifies this`accounts, this`journal, this`tokenIds
      ensures (Core(), failure) == JournalOps.Transfer(old(Core()), db, from, to, ts)
    {
      var _ := LoadNativeTokenIds(db);
      var _ := LoadAccount(db, from);
      var _ := LoadAccount(db, to);
      ghost var loaded := Core();
      failure := None;
      for i := 0 to |ts|
        invariant Open(Core()) && from in accounts && to in accounts
        invariant failure == None
        invariant TransferAll(loaded, from, to, ts) == TransferAll(Core(), from, to, ts[i..])
      {
        ghost var before := Core();
        failure := PayOne(from, to, ts[i]);
        TransferRest(before, from, to, ts, i);
        if failure.Some? { return; }
      }
    }

    method Gift(a: Address, target: Address)
      requires Open(Core()) && a in accounts && target in accounts
      modifies this`accounts, this`journal
      ensures Core() == Gifted(old(Core()), a, target)
    {
      if a != target {
        var balance := Balance(accounts[a], BASE_TOKEN_ID);
        Touch(target);
        accounts := accounts[target := Increase(accounts[target], BASE_TOKEN_ID, balance)];
      }
    }

    method Selfdestruct(db: Db, a: Address, target: Address)
      returns (hadValue: bool, isCold: bool, targetExists: bool, previouslyDestroyed: bool)
      requires Open(Core()) && a in accounts
      modifies this`accounts, this`journal
      ensures Core() == JournalOps.Selfdestruct(old(Core()), db, a, target)
      ensures hadValue <==> Balance(old(accounts)[a], BASE_TOKEN_ID) != 0
      ensures isCold <==> target !in old(accounts) && target !in warm
      ensures targetExists == !FoundEmpty(old(Core()), db, target)
      ensures previouslyDestroyed <==> old(accounts)[a].selfDestructed
    {
      var isEmpty;
      isEmpty, isCold := LoadAccountExist(db, target);
      targetExists := !isEmpty;
      Gift(a, target);
      hadValue, previouslyDestroyed := Destroy(a, target);
    }

    method Destroy(a: Address, target: Address) returns (hadValue: bool, previouslyDestroyed: bool)
      requires Open(Core()) && a in accounts
      modifies this`accounts, this`journal
      ensures Core() == Destroyed(old(Core()), a, target)
      ensures hadValue <==> Balance(old(accounts)[a], BASE_TOKEN_ID) != 0
      ensures previouslyDestroyed <==> old(accounts)[a].selfDestructed
    {
      var acc := accounts[a];
      var balance := Balance(acc, BASE_TOKEN_ID);
      previouslyDestroyed := acc.selfDestructed;
      if acc.created || !spec.cancun {
        accounts := accounts[a := SetBalance(acc.(selfDestructed := true), BASE_TOKEN_ID, 0)];
        Push(AccountDestroyed(a, target, previouslyDestroyed, balance));
      } else if a != target {
        accounts := accounts[a := SetBalance(acc, BASE_TOKEN_ID, 0)];
        Push(BalanceTransfer(a, target, BASE_TOKEN_ID, balance));
      }
      hadValue := balance != 0;
    }

    method Sload(db: Db, a: Address, key: Word) returns (value: Word, isCold: bool)
      requires Open(Core()) && a in accounts
      modifies this`accounts, this`journal
      ensures Core() == JournalOps.Sload(old(Core()), db, a, key)
      ensures a in accounts && key in accounts[a].storage && value == accounts[a].storage[key].present
      ensures value == Answer(db, old(TheWorld()), SlotOf(a, key)) == Answer(db, TheWorld(), SlotOf(a, key))
      ensures isCold <==> key !in old(accounts)[a].storage
    {
      SloadAnswers(Core(), db, a, key);
      var acc := accounts[a];
      if key in acc.storage { return acc.storage[key].present, false; }
      value := ColdValue(db, acc, a, key);
      Push(StorageChange(a, key, None));
      accounts := accounts[a := acc.(storage := acc.storage[key := Slot(value, value)])];
      isCold := true;
    }

    method Sstore(db: Db, a: Address, key: Word, newValue: Word) returns (r: SStoreResult)
      requires Open(Core()) && a in accounts
      modifies this`accounts, this`journal
      ensures (Core(), r) == JournalOps.Sstore(old(Core()), db, a, key, newValue)
      ensures r.present == Answer(db, old(TheWorld()), SlotOf(a, key)) && Answer(db, TheWorld(), SlotOf(a, key)) == newValue
    {
      SstoreAnswers(Core(), db, a, key, newValue, SlotOf(a, key));
      var present, isCold := Sload(db, a, key);
      var acc := accounts[a];
      var slot := acc.storage[key];
      r := SStoreResult(slot.original, present, newValue, isCold);
      if present == newValue { return; }
      Push(StorageChange(a, key, Some(present)));
      accounts := accounts[a := acc.(storage := acc.storage[key := slot.(present := newValue)])];
    }

    method Tstore(a: Address, key: Word, newValue: Word)
      requires Open(Core())
      modifies this`transient, this`journal
      ensures Core() == JournalOps.Tstore(old(Core()), a, key, newValue)
    {
      var k := (a, key);
      var hadValue: Option<Word>;
      if newValue == 0 {
        hadValue := if k in transient then Some(transient[k]) else None;
        transient := transient - {k};
      } else {
        var previous := if k in transient then transient[k] else 0;
        transient := transient[k := newValue];
        hadValue := if previous != newValue then Some(previous) else None;
      }
      if hadValue.Some? {
        Push(TransientStorageChange(a, key, hadValue.value));
      }
    }

    method AddLog(log: Log)
      modifies this`logs
      ensures Core() == JournalOps.AddLog(old(Core()), log)
    {
      logs := logs + [log];
    }

    method Burn(db: Db, token: Word, holder: Address, amount: Word) returns (ok: bool)
      requires Open(Core())
      modifies this`accounts, this`journal, this`tokenIds
      ensures (Core(), ok) == JournalOps.Burn(old(Core()), db, token, holder, amount)
    {
      if amount == 0 { return false; }
      var _ := LoadNativeTokenIds(db);
      var _ := LoadAccount(db, holder);
      if token !in db.validIds { return false; }
      var balance := Balance(accounts[holder], token);
      if balance < amount { return false; }
      accounts := accounts[holder := SetBalance(accounts[holder], token, balance - amount)];
      Push(TokensBurned(holder, token, amount));
      ok := true;
    }

    method Mint(db: Db, minter: Address, recipient: Address, token: Word, amount: Word) returns (ok: bool)
      requires Open(Core()) && (recipient in accounts || recipient == minter)
      modifies this`accounts, this`journal, this`tokenIds
      ensures (Core(), ok) == JournalOps.Mint(old(Core()), db, minter, recipient, token, amount)
    {
      var _ := LoadNativeTokenIds(db);
      var _ := LoadAccount(db, minter);
      var balance := Balance(accounts[recipient], token);
      if balance + amount >= TWO_256 { return false; }
      accounts := accounts[recipient := SetBalance(accounts[recipient], token, balance + amount)];
      if token !in tokenIds {
        tokenIds := tokenIds + [token];
      }
      Push(TokensMinted(minter, recipient, token, amount));
      ok := true;
    }

    method TakeCheckpoint() returns (c: Checkpoint)
      modifies this`depth, this`journal
      ensures c == Mark(old(Core())) && Core() == Enter(old(Core()))
    {
      c := Checkpoint(|logs|, |journal|);
      depth := depth + 1;
      journal := journal + [[]];
    }

    method CheckpointCommit()
      requires depth > 0
      modifies this`depth
      ensures Core() == Commit(old(Core()))
    {
      depth := depth - 1;
    }

    /** Undoes one entry in place. */
    method RevertEntry(e: Entry)
      requires CanUndo(spec.spuriousDragon, TheWorld(), e)
      modifies this`accounts, this`transient, this`tokenIds
      ensures TheWorld() == Undo(spec.spuriousDragon, old(TheWorld()), e)
    {
      match e
      case AccountLoaded(a) => accounts := accounts - {a};
      case AccountTouched(a) =>
        if !(spec.spuriousDragon && a == PRECOMPILE3) {
          accounts := accounts[a := accounts[a].(touched := false)];
        }
      case AccountDestroyed(a, target, wasDestroyed, hadBalance) =>
        assert a in Touches(e) && target in Touches(e);
        accounts := accounts[a := Increase(accounts[a].(selfDestructed := wasDestroyed), BASE_TOKEN_ID, hadBalance)];
        if a != target {
          accounts := accounts[target := Decrease(accounts[target], BASE_TOKEN_ID, hadBalance)];
        }
      case BalanceTransfer(from, to, token, amount) =>
        assert from in Touches(e) && to in Touches(e);
        accounts := accounts[from := Increase(accounts[from], token, amount)];
        accounts := accounts[to := Decrease(accounts[to], token, amount)];
      case NonceChange(a) => accounts := accounts[a := accounts[a].(nonce := accounts[a].nonce - 1)];
      case AccountCreated(a) => accounts := accounts[a := accounts[a].(created := false, nonce := 0)];
      case StorageChange(a, key, had) =>
        var storage := accounts[a].storage;
        storage := if had.Some? then storage[key := storage[key].(present := had.value)] else storage - {key};
        accounts := accounts[a := accounts[a].(storage := storage)];
      case TransientStorageChange(a, key, had) =>
        transient := if had == 0 then transient - {(a, key)} else transient[(a, key) := had];
      case CodeChange(a) => accounts := accounts[a := accounts[a].(codeHash := KECCAK_EMPTY)];
      case TokensBurned(holder, token, amount) => accounts := accounts[holder := Increase(accounts[holder], token, amount)];
      case TokenIdsLoaded => tokenIds := [];
      case TokensMinted(_, recipient, token, amount) =>
        accounts := accounts[recipient := Decrease(accounts[recipient], token, amount)];
    }

    /** Undoes one journal, newest entry first. */
    method JournalRevert(entries: seq<Entry>)
      requires UndoAll(spec.spuriousDragon, TheWorld(), entries).Some?
      modifies this`accounts, this`transient, this`tokenIds
      ensures Some(TheWorld()) == UndoAll(spec.spuriousDragon, old(TheWorld()), entries)
    {
      var k := |entries|;
      assert entries[..k] == entries;
      while k > 0
        invariant 0 <= k <= |entries|
        invariant UndoAll(spec.spuriousDragon, TheWorld(), entries[..k]) == UndoAll(spec.spuriousDragon, old(TheWorld()), entries)
      {
        assert entries[..k][..k - 1] == entries[..k - 1];
        RevertEntry(entries[k - 1]);
        k := k - 1;
      }
    }

    /** Undoes the journals from index `from` on, newest first. */
    method RevertJournals(from: nat)
      requires from <= |journal| && UndoAll(spec.spuriousDragon, TheWorld(), Flat(journal[from..])).Some?
      modifies this`accounts, this`transient, this`tokenIds
      ensures Some(TheWorld()) == UndoAll(spec.spuriousDragon, old(TheWorld()), Flat(journal[from..]))
    {
      var k := |journal|;
      assert journal[from..k] == journal[from..];
      while k > from
        invariant from <= k <= |journal|
        invariant UndoAll(spec.spuriousDragon, TheWorld(), Flat(journal[from..k])) ==
                  UndoAll(spec.spuriousDragon, old(TheWorld()), Flat(journal[from..]))
      {
        LastJournal(spec.spuriousDragon, TheWorld(), journal, from, k);
        JournalRevert(journal[k - 1]);
        k := k - 1;
      }
    }

    /** Undoes every journal opened since the checkpoint. */
    method CheckpointRevert(c: Checkpoint)
      requires depth > 0 && c.logI <= |logs| && c.journalI <= |journal| && Revert(Core(), c).Some?
      modifies this
      ensures Some(Core()) == Revert(old(Core()), c)
    {
      depth := depth - 1;
      RevertJournals(c.journalI);
      logs := logs[..c.logI];
      journal := journal[..c.journalI];
    }

    /** Marks, empties and touches an account that is being created. */
    method MarkCreated(a: Address)
      requires Open(Core()) && a in accounts
      modifies this`accounts, this`journal
      ensures Core() == Created(old(Core()), a)
    {
      var acc := accounts[a];
      accounts := accounts[a := acc.(created := true)];
      Push(AccountCreated(a));
      accounts := accounts[a := accounts[a].(storage := Emptied(acc.storage))];
      Touch(a);
    }

    /** Moves the funds of a creation and sets the first nonce. */
    method Fund(caller: Address, a: Address, value: Word)
      requires Open(Core()) && caller in accounts && a in accounts && Balance(accounts[a], BASE_TOKEN_ID) + value < TWO_256
      modifies this`accounts, this`journal
      ensures Core() == Funded(old(Core()), caller, a, value)
    {
      var acc := SetBalance(accounts[a], BASE_TOKEN_ID, Balance(accounts[a], BASE_TOKEN_ID) + value);
      if spec.spuriousDragon {
        acc := acc.(nonce := 1);
      }
      accounts := accounts[a := acc];
      accounts := accounts[caller := Decrease(accounts[caller], BASE_TOKEN_ID, value)];
      Push(BalanceTransfer(caller, a, BASE_TOKEN_ID, value));
    }

    method CreateAccountCheckpoint(caller: Address, a: Address, value: Word) returns (r: Result<Checkpoint, Failure>)
      requires Open(Core()) && caller in accounts && a in accounts
      modifies this
      ensures CreateAccount(old(Core()), caller, a, value).Some?
      ensures var (core, failure) := CreateAccount(old(Core()), caller, a, value).value;
              && Core() == core
              && (if failure.Some? then r == Err(failure.value) else r == Ok(Mark(old(Core()))))
    {
      OpeningKeeps(Shape, Core(), caller, a, value);
      var c := TakeCheckpoint();
      var acc := accounts[a];
      if acc.codeHash != KECCAK_EMPTY || acc.nonce != 0 || a in warm {
        CheckpointRevert(c);
        return Err(CreateCollision);
      }
      MarkCreated(a);
      if Balance(accounts[a], BASE_TOKEN_ID) + value >= TWO_256 {
        CheckpointRevert(c);
        return Err(OverflowPayment);
      }
      Fund(caller, a, value);
      r := Ok(c);
    }
  }
}
