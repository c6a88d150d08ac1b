/** What reverting makes of an account's counting as empty. */
module JournalEmpty {
  import opened Prelude
  import opened JournalState
  import opened JournalEquiv
  import opened JournalOps
  import opened JournalKeeps
  import opened JournalFunds
  import opened JournalRuns
  import opened JournalOverflow
  import opened JournalExact

  /** The tokens of account a that undoing e writes. */
  function Tokens(e: Entry, a: Address): set<Word> {
    match e
    case AccountDestroyed(b, target, _, _) => if a == b || a == target then {BASE_TOKEN_ID} else {}
    case BalanceTransfer(from, to, token, _) => if a == from || a == to then {token} else {}
    case TokensBurned(holder, token, _) => if a == holder then {token} else {}
    case TokensMinted(_, recipient, token, _) => if a == recipient then {token} else {}
    case _ => {}
  }

  /** The tokens that a has an entry for, zero or not. */
  function Held(w: World, a: Address): set<Word>
    requires a in w.accounts
  {
    w.accounts[a].balances.Keys
  }

  predicate Keyed(entries: seq<Entry>, a: Address, tokens: set<Word>) {
    forall e {:trigger Tokens(e, a)} :: e in entries ==> Tokens(e, a) <= tokens
  }

  /** From j to j' the account a stayed loaded and its entries only grew, and undoing what was recorded
      writes none that it does not have. */
  predicate Grew(j: Journaled, j': Journaled, a: Address) {
    && Loaded(j, a) && Loaded(j', a) && Held(j.world, a) <= Held(j'.world, a)
    && Flat(j.journal) <= Flat(j'.journal) && Keyed(Added(j, j'), a, Held(j'.world, a))
  }

  // ---- Undoing ----

  lemma FundsHeld(e: Entry, b: Address, x: Account)
    ensures UndoneFunds(e, b, x).balances.Keys == x.balances.Keys + Tokens(e, b)
  {
    match e
    case AccountDestroyed(_, _, _, had) => SetHeld(x, BASE_TOKEN_ID, had);
    case BalanceTransfer(from, to, token, amount) =>
      SetHeld(x, token, amount);
      SetHeld(Increase(x, token, amount), token, amount);
    case TokensBurned(_, token, amount) => SetHeld(x, token, amount);
    case TokensMinted(_, _, token, amount) => SetHeld(x, token, amount);
    case _ =>
  }

  lemma SetHeld(x: Account, token: Word, amount: Word)
    ensures Increase(x, token, amount).balances.Keys == x.balances.Keys + {token}
    ensures Decrease(x, token, amount).balances.Keys == x.balances.Keys + {token}
  {
  }

  lemma RestHeld(sd: bool, e: Entry, b: Address, x: Account)
    ensures UndoneRest(sd, e, b, x).balances == x.balances
  {
  }

  /** Undoing entries whose tokens a has leaves a with the same tokens. */
  lemma {:induction false} UndoAllHeld(sd: bool, w: World, entries: seq<Entry>, a: Address)
    requires a in w.accounts && UndoAll(sd, w, entries).Some? && AccountLoaded(a) !in entries && Keyed(entries, a, Held(w, a))
    ensures a in UndoAll(sd, w, entries).value.accounts && Held(UndoAll(sd, w, entries).value, a) == Held(w, a)
    decreases |entries|
  {
    if entries != [] {
      var last, init := entries[|entries| - 1], entries[..|entries| - 1];
      assert last in entries && Tokens(last, a) <= Held(w, a);
      UndoOneHeld(sd, w, last, a);
      UndoAllHeld(sd, Undo(sd, w, last), init, a);
    }
  }

  lemma UndoOneHeld(sd: bool, w: World, e: Entry, a: Address)
    requires a in w.accounts && CanUndo(sd, w, e) && e != AccountLoaded(a) && Tokens(e, a) <= Held(w, a)
    ensures a in Undo(sd, w, e).accounts && Held(Undo(sd, w, e), a) == Held(w, a)
  {
    UndoShrinks(sd, w, e);
    UndoPointwise(sd, w, e, a);
    RestHeld(sd, e, a, w.accounts[a]);
    FundsHeld(e, a, UndoneRest(sd, e, a, w.accounts[a]));
  }

  // ---- How growth composes ----

  lemma GrewRefl(j: Journaled, a: Address)
    requires Loaded(j, a)
    ensures Grew(j, j, a)
  {
    assert Added(j, j) == [];
  }

  lemma GrewTrans(j: Journaled, j1: Journaled, j2: Journaled, a: Address)
    requires Grew(j, j1, a) && Grew(j1, j2, a)
    ensures Grew(j, j2, a)
  {
    assert Added(j, j2) == Added(j, j1) + Added(j1, j2);
    forall e | e in Added(j, j2) ensures Tokens(e, a) <= Held(j2.world, a) {
      assert e in Added(j, j1) || e in Added(j1, j2);
    }
  }

  lemma GrewNote(j: Journaled, w: World, e: Entry, a: Address)
    requires Open(j) && Loaded(j, a) && a in w.accounts && Held(j.world, a) + Tokens(e, a) <= Held(w, a)
    ensures Grew(j, Note(j, w, e), a)
  {
    NoteFlat(j, w, e);
    assert Added(j, Note(j, w, e)) == [e];
  }

  lemma GrewSilent(j: Journaled, j': Journaled, a: Address)
    requires Loaded(j, a) && Loaded(j', a) && j'.journal == j.journal && Held(j.world, a) <= Held(j'.world, a)
    ensures Grew(j, j', a)
  {
    assert Added(j, j') == [];
  }

  // ---- The operations ----

  lemma GrewTouch(j: Journaled, b: Address, a: Address)
    requires Open(j) && Loaded(j, a)
    ensures Open(Touch(j, b)) && Grew(j, Touch(j, b), a) && Held(Touch(j, b).world, a) == Held(j.world, a)
  {
    if Loaded(j, b) && !j.world.accounts[b].touched {
      GrewNote(j, Touch(j, b).world, AccountTouched(b), a);
    } else {
      GrewRefl(j, a);
    }
  }

  lemma GrewLoad(j: Journaled, db: Db, b: Address, a: Address)
    requires Open(j) && Loaded(j, a)
    ensures Open(LoadAccount(j, db, b)) && Grew(j, LoadAccount(j, db, b), a)
    ensures Held(LoadAccount(j, db, b).world, a) == Held(j.world, a)
  {
    if Loaded(j, b) {
      GrewRefl(j, a);
    } else {
      GrewNote(j, LoadAccount(j, db, b).world, AccountLoaded(b), a);
    }
  }

  lemma GrewLoadIds(j: Journaled, db: Db, a: Address)
    requires Open(j) && Loaded(j, a)
    ensures Open(LoadTokenIds(j, db)) && Grew(j, LoadTokenIds(j, db), a)
    ensures Held(LoadTokenIds(j, db).world, a) == Held(j.world, a)
  {
    if j.world.tokenIds != [] {
      GrewRefl(j, a);
    } else {
      GrewNote(j, LoadTokenIds(j, db).world, TokenIdsLoaded, a);
    }
  }

  /** The loads that start a transfer, a burn or a mint. */
  lemma GrewLoads(j: Journaled, db: Db, b: Address, a: Address)
    requires Open(j) && Loaded(j, a)
    ensures var j2 := LoadAccount(LoadTokenIds(j, db), db, b);
            Open(j2) && Grew(j, j2, a) && Held(j2.world, a) == Held(j.world, a)
  {
    var j1 := LoadTokenIds(j, db);
    GrewLoadIds(j, db, a);
    GrewLoad(j1, db, b, a);
    GrewTrans(j, j1, LoadAccount(j1, db, b), a);
  }

  lemma GrewSetCode(j: Journaled, b: Address, codeHash: Word, a: Address)
    requires Open(j) && Loaded(j, a) && Loaded(j, b)
    ensures Grew(j, SetCode(j, b, codeHash), a)
  {
    var j1 := Touch(j, b);
    GrewTouch(j, b, a);
    GrewNote(j1, SetCode(j, b, codeHash).world, CodeChange(b), a);
    GrewTrans(j, j1, SetCode(j, b, codeHash), a);
  }

  lemma GrewIncNonce(j: Journaled, b: Address, a: Address)
    requires Open(j) && Loaded(j, a) && Loaded(j, b)
    ensures Grew(j, IncNonce(j, b), a)
  {
    if j.world.accounts[b].nonce >= MAX_NONCE {
      GrewRefl(j, a);
    } else {
      var j1 := Touch(j, b);
      GrewTouch(j, b, a);
      GrewNote(j1, IncNonce(j, b).world, NonceChange(b), a);
      GrewTrans(j, j1, IncNonce(j, b), a);
    }
  }

  lemma GrewSload(j: Journaled, db: Db, b: Address, key: Word, a: Address)
    requires Open(j) && Loaded(j, a) && Loaded(j, b)
    ensures Grew(j, Sload(j, db, b, key), a)
  {
    if key in j.world.accounts[b].storage {
      GrewRefl(j, a);
    } else {
      GrewNote(j, Sload(j, db, b, key).world, StorageChange(b, key, None), a);
    }
  }

  lemma GrewSstore(j: Journaled, db: Db, b: Address, key: Word, value: Word, a: Address)
    requires Open(j) && Loaded(j, a) && Loaded(j, b)
    ensures Grew(j, Sstore(j, db, b, key, value).0, a)
  {
    var j1, j2 := Sload(j, db, b, key), Sstore(j, db, b, key, value).0;
    GrewSload(j, db, b, key, a);
    var present := j1.world.accounts[b].storage[key].present;
    if present != value {
      GrewNote(j1, j2.world, StorageChange(b, key, Some(present)), a);
      GrewTrans(j, j1, j2, a);
    }
  }

  lemma GrewTstore(j: Journaled, b: Address, key: Word, value: Word, a: Address)
    requires Open(j) && Loaded(j, a)
    ensures Grew(j, Tstore(j, b, key, value), a)
  {
    var j' := Tstore(j, b, key, value);
    if j'.journal == j.journal {
      GrewSilent(j, j', a);
    } else {
      GrewNote(j, j'.world, TransientStorageChange(b, key, Tload(j.world, (b, key))), a);
    }
  }

  lemma GrewCredited(j: Journaled, from: Address, to: Address, t: TokenTransfer, a: Address)
    requires Open(j) && Loaded(j, a) && Loaded(j, to) && (a == from ==> t.id in Held(j.world, a))
    ensures Grew(j, Credited(j, from, to, t).0, a)
  {
    var j1, j2 := Touch(j, to), Credited(j, from, to, t).0;
    GrewTouch(j, to, a);
    if Credited(j, from, to, t).1.None? {
      GrewNote(j1, j2.world, BalanceTransfer(from, to, t.id, t.amount), a);
      GrewTrans(j, j1, j2, a);
    }
  }

  lemma GrewTransferOne(j: Journaled, from: Address, to: Address, t: TokenTransfer, a: Address)
    requires Open(j) && Loaded(j, a) && Loaded(j, from) && Loaded(j, to)
    ensures Grew(j, TransferOne(j, from, to, t).0, a)
  {
    var j1 := Touch(j, from);
    GrewTouch(j, from, a);
    if Balance(j1.world.accounts[from], t.id) >= t.amount {
      var j2 := j1.(world := Debited(j1.world, from, t.id, t.amount));
      GrewDebited(j1, from, t, a);
      GrewCredited(j2, from, to, t, a);
      GrewTrans(j, j1, j2, a);
      GrewTrans(j, j2, Credited(j2, from, to, t).0, a);
      assert TransferOne(j, from, to, t) == Credited(j2, from, to, t);
    }
  }

  lemma GrewDebited(j: Journaled, from: Address, t: TokenTransfer, a: Address)
    requires Loaded(j, a) && Loaded(j, from) && t.amount <= Balance(j.world.accounts[from], t.id)
    ensures var j' := j.(world := Debited(j.world, from, t.id, t.amount));
            Grew(j, j', a) && (a == from ==> t.id in Held(j'.world, a))
  {
    GrewSilent(j, j.(world := Debited(j.world, from, t.id, t.amount)), a);
  }

  lemma {:induction false} GrewTransferAll(j: Journaled, from: Address, to: Address, ts: seq<TokenTransfer>, a: Address)
    requires Open(j) && Loaded(j, a) && Loaded(j, from) && Loaded(j, to)
    ensures Grew(j, TransferAll(j, from, to, ts).0, a)
    decreases |ts|
  {
    if ts == [] {
      GrewRefl(j, a);
    } else {
      GrewTransferOne(j, from, to, ts[0], a);
      var (j1, failure) := TransferOne(j, from, to, ts[0]);
      if failure.None? {
        GrewTransferAll(j1, from, to, ts[1..], a);
        GrewTrans(j, j1, TransferAll(j1, from, to, ts[1..]).0, a);
      }
    }
  }

  lemma GrewTransfer(j: Journaled, db: Db, from: Address, to: Address, ts: seq<TokenTransfer>, a: Address)
    requires Open(j) && Loaded(j, a)
    ensures Grew(j, Transfer(j, db, from, to, ts).0, a)
  {
    var j2 := LoadAccount(LoadTokenIds(j, db), db, from);
    var j3 := LoadAccount(j2, db, to);
    GrewLoads(j, db, from, a);
    GrewLoad(j2, db, to, a);
    GrewTrans(j, j2, j3, a);
    GrewTransferAll(j3, from, to, ts, a);
    GrewTrans(j, j3, Transfer(j, db, from, to, ts).0, a);
  }

  lemma GrewGifted(j: Journaled, b: Address, target: Address, a: Address)
    requires Open(j) && Loaded(j, a) && Loaded(j, b) && Loaded(j, target)
    ensures Open(Gifted(j, b, target)) && Grew(j, Gifted(j, b, target), a)
    ensures a == target && b != target ==> BASE_TOKEN_ID in Held(Gifted(j, b, target).world, a)
  {
    if b == target {
      GrewRefl(j, a);
    } else {
      var t := Touch(j, target);
      GrewTouch(j, target, a);
      GrewSilent(t, Gifted(j, b, target), a);
      GrewTrans(j, t, Gifted(j, b, target), a);
    }
  }

  lemma GrewDestroyed(j: Journaled, b: Address, target: Address, a: Address)
    requires Open(j) && Loaded(j, a) && Loaded(j, b) && (a == target && b != target ==> BASE_TOKEN_ID in Held(j.world, a))
    ensures Grew(j, Destroyed(j, b, target), a)
  {
    var acc, j' := j.world.accounts[b], Destroyed(j, b, target);
    if acc.created || !j.spec.cancun {
      GrewNote(j, j'.world, AccountDestroyed(b, target, acc.selfDestructed, Balance(acc, BASE_TOKEN_ID)), a);
    } else if b != target {
      GrewNote(j, j'.world, BalanceTransfer(b, target, BASE_TOKEN_ID, Balance(acc, BASE_TOKEN_ID)), a);
    } else {
      GrewRefl(j, a);
    }
  }

  lemma GrewSelfdestruct(j: Journaled, db: Db, b: Address, target: Address, a: Address)
    requires Open(j) && Loaded(j, a) && Loaded(j, b)
    ensures Grew(j, Selfdestruct(j, db, b, target), a)
  {
    var j1 := LoadAccount(j, db, target);
    var j2 := Gifted(j1, b, target);
    GrewLoad(j, db, target, a);
    GrewGifted(j1, b, target, a);
    GrewTrans(j, j1, j2, a);
    GrewDestroyed(j2, b, target, a);
    GrewTrans(j, j2, Destroyed(j2, b, target), a);
  }

  lemma GrewBurn(j: Journaled, db: Db, token: Word, holder: Address, amount: Word, a: Address)
    requires Open(j) && Loaded(j, a)
    ensures Grew(j, Burn(j, db, token, holder, amount).0, a)
  {
    var (j', ok) := Burn(j, db, token, holder, amount);
    if amount == 0 {
      GrewRefl(j, a);
    } else {
      var j1 := LoadAccount(LoadTokenIds(j, db), db, holder);
      GrewLoads(j, db, holder, a);
      if ok {
        GrewNote(j1, j'.world, TokensBurned(holder, token, amount), a);
        GrewTrans(j, j1, j', a);
      }
    }
  }

  lemma GrewMint(j: Journaled, db: Db, minter: Address, recipient: Address, token: Word, amount: Word, a: Address)
    requires Open(j) && Loaded(j, a) && (Loaded(j, recipient) || recipient == minter)
    ensures Grew(j, Mint(j, db, minter, recipient, token, amount).0, a)
  {
    var (j', ok) := Mint(j, db, minter, recipient, token, amount);
    var j1 := LoadAccount(LoadTokenIds(j, db), db, minter);
    GrewLoads(j, db, minter, a);
    if ok {
      GrewNote(j1, j'.world, TokensMinted(minter, recipient, token, amount), a);
      GrewTrans(j, j1, j', a);
    }
  }

  lemma GrewCreated(j: Journaled, b: Address, a: Address)
    requires Open(j) && Loaded(j, a) && Loaded(j, b)
    ensures Open(Created(j, b)) && Grew(j, Created(j, b), a)
  {
    var acc := j.world.accounts[b];
    var j1 := Note(j, Put(j.world, b, Newborn(acc, acc.nonce)), AccountCreated(b));
    CreatedIs(j, b);
    GrewNote(j, j1.world, AccountCreated(b), a);
    GrewTouch(j1, b, a);
    GrewTrans(j, j1, Touch(j1, b), a);
  }

  lemma GrewFunded(j: Journaled, caller: Address, b: Address, value: Word, a: Address)
    requires Open(j) && Loaded(j, a) && Loaded(j, caller) && Loaded(j, b)
    requires Balance(j.world.accounts[b], BASE_TOKEN_ID) + value < TWO_256
    ensures Grew(j, Funded(j, caller, b, value), a)
  {
    GrewNote(j, Funded(j, caller, b, value).world, BalanceTransfer(caller, b, BASE_TOKEN_ID, value), a);
  }

  lemma GrewApply(j: Journaled, db: Db, op: Op, a: Address)
    requires Open(j) && Loaded(j, a) && Callable(j, op)
    ensures Grew(j, Apply(j, db, op), a)
  {
    match op
    case OpTouch(b) => GrewTouch(j, b, a);
    case OpLoad(b) => GrewLoad(j, db, b, a);
    case OpSetCode(b, codeHash) => GrewSetCode(j, b, codeHash, a);
    case OpIncNonce(b) => GrewIncNonce(j, b, a);
    case OpTransfer(from, to, ts) => GrewTransfer(j, db, from, to, ts, a);
    case OpSelfdestruct(b, target) => GrewSelfdestruct(j, db, b, target, a);
    case OpSload(b, key) => GrewSload(j, db, b, key, a);
    case OpSstore(b, key, value) => GrewSstore(j, db, b, key, value, a);
    case OpTstore(b, key, value) => GrewTstore(j, b, key, value, a);
    case OpLog(log) => GrewSilent(j, AddLog(j, log), a);
    case OpBurn(token, holder, amount) => GrewBurn(j, db, token, holder, amount, a);
    case OpMint(minter, recipient, token, amount) => GrewMint(j, db, minter, recipient, token, amount, a);
  }

  // ---- Runs ----

  lemma GrewEnter(j: Journaled, i: Journaled, a: Address)
    requires Grew(Enter(j), i, a) && i.depth > 0
    ensures Grew(j, Commit(i), a)
  {
    EnterFlat(j);
    assert Added(j, Commit(i)) == Added(Enter(j), i);
  }

  /** Reverting leaves a loaded account with the tokens it was reverted with. */
  lemma GrewReverted(j: Journaled, i: Journaled, a: Address)
    requires Open(j) && Keeps(Shape, Enter(j), i) && Grew(Enter(j), i, a)
    ensures i.depth > 0 && |j.logs| <= |i.logs| && |j.journal| <= |i.journal| && Revert(i, Mark(j)).Some?
    ensures var r := Revert(i, Mark(j)).value; Grew(j, r, a) && Held(r.world, a) == Held(i.world, a)
  {
    RevertRestores(Shape, j, i);
    RevertUndoes(Shape, j, i);
    var r, entries, sd := Revert(i, Mark(j)).value, Added(Enter(j), i), j.spec.spuriousDragon;
    UndoAllShrinks(sd, i.world, entries);
    UndoAllHeld(sd, i.world, entries, a);
    GrewSilent(j, r, a);
  }

  lemma {:induction false} GrewRun(j: Journaled, db: Db, s: Script, a: Address)
    requires Open(j) && Loaded(j, a)
    ensures Run(j, db, s).Done? ==> Open(Run(j, db, s).state) && Grew(j, Run(j, db, s).state, a)
    decreases s, 1
  {
    ShapeCleanOne(j, db, s);
    RunKeeps(Shape, j, db, s);
    match s
    case Do(op) =>
      if Callable(j, op) {
        GrewApply(j, db, op, a);
      }
    case Frame(OpenCall, body, ok) =>
      KeepsRefl(Shape, Enter(j));
      GrewRefl(Enter(j), a);
      GrewFrame(j, Enter(j), db, body, ok, a);
    case Frame(OpenCreate(caller, b, value), body, ok) =>
      if Loaded(j, caller) && Loaded(j, b) {
        GrewOpening(j, caller, b, value, a);
        var (i, failure) := CreateAccount(j, caller, b, value).value;
        if failure.None? {
          GrewFrame(j, i, db, body, ok, a);
        }
      }
  }

  lemma GrewOpening(j: Journaled, caller: Address, b: Address, value: Word, a: Address)
    requires Open(j) && Loaded(j, a) && Loaded(j, caller) && Loaded(j, b)
    ensures var started := CreateAccount(j, caller, b, value);
            && started.Some?
            && (started.value.1.Some? ==> Grew(j, started.value.0, a))
            && (started.value.1.None? ==>
                  Open(started.value.0) && Keeps(Shape, Enter(j), started.value.0) && Grew(Enter(j), started.value.0, a))
  {
    var e := Enter(j);
    OpeningKeeps(Shape, j, caller, b, value);
    if Collides(e, b) {
      KeepsRefl(Shape, e);
      GrewRefl(e, a);
      GrewReverted(j, e, a);
    } else {
      BornIs(e, b);
      GrewCreated(e, b, a);
      if Balance(Created(e, b).world.accounts[b], BASE_TOKEN_ID) + value >= TWO_256 {
        KeepsCreated(Shape, e, b);
        GrewReverted(j, Created(e, b), a);
      } else {
        GrewFunded(Created(e, b), caller, b, value, a);
        GrewTrans(e, Created(e, b), Funded(Created(e, b), caller, b, value), a);
      }
    }
  }

  lemma {:induction false} GrewFrame(j: Journaled, i: Journaled, db: Db, body: seq<Script>, ok: bool, a: Address)
    requires Open(j) && Open(i) && Keeps(Shape, Enter(j), i) && Grew(Enter(j), i, a)
    ensures Close(j, RunAll(i, db, body), ok).Done? ==> Grew(j, Close(j, RunAll(i, db, body), ok).state, a)
    decreases body, 1
  {
    var inner := RunAll(i, db, body);
    if inner.Done? {
      ShapeClean(i, db, body);
      RunAllKeeps(Shape, i, db, body);
      KeepsTrans(Shape, Enter(j), i, inner.state);
      GrewRunAll(i, db, body, a);
      GrewTrans(Enter(j), i, inner.state, a);
      GrewReverted(j, inner.state, a);
      GrewEnter(j, inner.state, a);
    }
  }

  lemma {:induction false} GrewRunAll(j: Journaled, db: Db, body: seq<Script>, a: Address)
    requires Open(j) && Loaded(j, a)
    ensures RunAll(j, db, body).Done? ==> Grew(j, RunAll(j, db, body).state, a)
    decreases body, 0
  {
    if body == [] {
      GrewRefl(j, a);
    } else {
      GrewRun(j, db, body[0], a);
      var first := Run(j, db, body[0]);
      if first.Done? {
        GrewRunAll(first.state, db, body[1..], a);
        if RunAll(first.state, db, body[1..]).Done? {
          GrewTrans(j, first.state, RunAll(first.state, db, body[1..]).state, a);
        }
      }
    }
  }

  // ---- Emptiness ----

  /** Two versions of an account that read the same: one is empty if the other is and it has entries for
      the base token at most. */
  lemma EmptyByTokens(sd: bool, a: Address, x: Account, y: Account)
    requires SameAccount(Exact, sd, a, x, y) && x.balances.Keys <= y.balances.Keys
    ensures IsEmpty(y) <==> IsEmpty(x) && y.balances.Keys <= {BASE_TOKEN_ID}
  {
    assert Balance(x, BASE_TOKEN_ID) == Balance(y, BASE_TOKEN_ID);
    assert y.balances.Keys <= {BASE_TOKEN_ID} ==> y.balances == map[] || y.balances.Keys == {BASE_TOKEN_ID};
    assert x.balances.Keys <= {BASE_TOKEN_ID} ==> x.balances == map[] || x.balances.Keys == {BASE_TOKEN_ID};
  }

  /** An account loaded in j counts as empty after reverting i to j if and only if it did in j and has
      entries for the base token at most in i. */
  predicate EmptyKept(j: Journaled, i: Journaled, a: Address)
    requires Loaded(j, a) && Loaded(i, a)
    requires i.depth > 0 && |j.logs| <= |i.logs| && |j.journal| <= |i.journal| && Revert(i, Mark(j)).Some?
  {
    var r := Revert(i, Mark(j)).value;
    && Loaded(r, a)
    && (IsEmpty(r.world.accounts[a]) <==> IsEmpty(j.world.accounts[a]) && Held(i.world, a) <= {BASE_TOKEN_ID})
  }

  lemma EmptyAfter(j: Journaled, i: Journaled, a: Address)
    requires Open(j) && Keeps(Exact, Enter(j), i) && Keeps(Shape, Enter(j), i) && Grew(Enter(j), i, a)
    ensures i.depth > 0 && |j.logs| <= |i.logs| && |j.journal| <= |i.journal| && Revert(i, Mark(j)).Some?
    ensures EmptyKept(j, i, a)
  {
    RevertRestores(Exact, j, i);
    GrewReverted(j, i, a);
    var sd, r := j.spec.spuriousDragon, Revert(i, Mark(j)).value;
    assert SameAccount(Exact, sd, a, j.world.accounts[a], r.world.accounts[a]);
    EmptyByTokens(sd, a, j.world.accounts[a], r.world.accounts[a]);
  }

  /** Reverting restores every balance as it reads, but not what counts as empty: after every clean run,
      with any nesting of commits and reverts, an account loaded before counts as empty again if and only
      if it did at the checkpoint and the run has left it no entry for another token than the base
      token. */
  lemma RevertEmptyIff(j: Journaled, db: Db, body: seq<Script>, a: Address)
    requires Open(j) && Sane(j) && Loaded(j, a)
    requires CleanAll(Exact, Enter(j), db, body) && RunAll(Enter(j), db, body).Done?
    ensures var i := RunAll(Enter(j), db, body).state;
            && Loaded(i, a) && i.depth > 0 && |j.logs| <= |i.logs| && |j.journal| <= |i.journal| && Revert(i, Mark(j)).Some?
            && EmptyKept(j, i, a)
  {
    var e := Enter(j);
    SaneEnter(j);
    RunAllKeeps(Exact, e, db, body);
    ShapeClean(e, db, body);
    RunAllKeeps(Shape, e, db, body);
    GrewRunAll(e, db, body, a);
    EmptyAfter(j, RunAll(e, db, body).state, a);
  }

  /** A mint to an empty account, reverted, leaves it empty only for the base token, whatever the amount. */
  lemma MintEmptyIff(j: Journaled, db: Db, minter: Address, recipient: Address, token: Word, amount: Word)
    requires Open(j) && Loaded(j, recipient) && IsEmpty(j.world.accounts[recipient])
    ensures var i := Mint(Enter(j), db, minter, recipient, token, amount).0;
            && i.depth > 0 && |j.logs| <= |i.logs| && |j.journal| <= |i.journal| && Revert(i, Mark(j)).Some?
            && var r := Revert(i, Mark(j)).value;
               Loaded(r, recipient) && (IsEmpty(r.world.accounts[recipient]) <==> token == BASE_TOKEN_ID)
  {
    var e := Enter(j);
    var (i, ok) := Mint(e, db, minter, recipient, token, amount);
    KeepsMint(Exact, e, db, minter, recipient, token, amount);
    KeepsMint(Shape, e, db, minter, recipient, token, amount);
    GrewMint(e, db, minter, recipient, token, amount, recipient);
    EmptyAfter(j, i, recipient);
    MintHeld(e, db, minter, recipient, token, amount);
  }

  lemma MintHeld(j: Journaled, db: Db, minter: Address, recipient: Address, token: Word, amount: Word)
    requires Open(j) && Loaded(j, recipient) && IsEmpty(j.world.accounts[recipient])
    ensures var i := Mint(j, db, minter, recipient, token, amount).0;
            Loaded(i, recipient) && Held(i.world, recipient) == Held(j.world, recipient) + {token}
  {
    var j1 := LoadAccount(LoadTokenIds(j, db), db, minter);
    assert j1.world.accounts[recipient] == j.world.accounts[recipient];
    assert Balance(j1.world.accounts[recipient], token) == 0;
  }

  // ---- Lists of payments ----

  /** Payment i is made: the payer can make it and all before it. */
  predicate Made(payer: Account, ts: seq<TokenTransfer>, i: int)
    requires 0 <= i < |ts|
  {
    forall k {:trigger Affords(payer, ts, k)} :: 0 <= k <= i ==> Affords(payer, ts, k)
  }

  predicate MadeOf(payer: Account, ts: seq<TokenTransfer>, id: Word) {
    exists i {:trigger Made(payer, ts, i)} :: 0 <= i < |ts| && Made(payer, ts, i) && ts[i].id == id
  }

  lemma MadeShift(payer: Account, payee: Account, payer': Account, payee': Account, ts: seq<TokenTransfer>, i: nat)
    requires i + 1 < |ts| && HeadPaid(payer, payee, payer', payee', ts[0]) && Affords(payer, ts, 0)
    ensures Made(payer, ts, i + 1) <==> Made(payer', ts[1..], i)
  {
    forall k | 0 <= k <= i ensures Affords(payer, ts, k + 1) <==> Affords(payer', ts[1..], k) {
      ShiftOne(payer, payee, payer', payee', ts, k);
    }
    if Made(payer, ts, i + 1) {
      forall k | 0 <= k <= i ensures Affords(payer', ts[1..], k) {
        assert Affords(payer, ts, k + 1);
      }
    }
    if Made(payer', ts[1..], i) {
      forall k | 0 <= k <= i + 1 ensures Affords(payer, ts, k) {
        assert k > 0 ==> Affords(payer', ts[1..], k - 1);
      }
    }
  }

  lemma MadeRest(payer: Account, payee: Account, payer': Account, payee': Account, ts: seq<TokenTransfer>, id: Word)
    requires ts != [] && HeadPaid(payer, payee, payer', payee', ts[0]) && Affords(payer, ts, 0)
    ensures MadeOf(payer, ts, id) <==> ts[0].id == id || MadeOf(payer', ts[1..], id)
  {
    assert Made(payer, ts, 0);
    if MadeOf(payer, ts, id) {
      var i :| 0 <= i < |ts| && Made(payer, ts, i) && ts[i].id == id;
      if i > 0 {
        MadeShift(payer, payee, payer', payee', ts, i - 1);
        assert Made(payer', ts[1..], i - 1) && ts[1..][i - 1].id == id;
      }
    }
    if MadeOf(payer', ts[1..], id) {
      var i :| 0 <= i < |ts[1..]| && Made(payer', ts[1..], i) && ts[1..][i].id == id;
      MadeShift(payer, payee, payer', payee', ts, i);
      assert Made(payer, ts, i + 1) && ts[i + 1].id == id;
    }
  }

  /** The payee of a list that does not overflow gets an entry for the token of each payment made, and no
      other. */
  lemma {:induction false} PaidHeld(j: Journaled, from: Address, to: Address, ts: seq<TokenTransfer>, id: Word)
    requires Open(j) && Loaded(j, from) && Loaded(j, to) && from != to
    requires TransferAll(j, from, to, ts).1 != Some(OverflowPayment)
    ensures var i := TransferAll(j, from, to, ts).0;
            Loaded(i, to) && (id in Held(i.world, to) <==> id in Held(j.world, to) || MadeOf(j.world.accounts[from], ts, id))
    decreases |ts|
  {
    if ts != [] {
      var payer, payee, t := j.world.accounts[from], j.world.accounts[to], ts[0];
      var (j1, failure) := TransferOne(j, from, to, t);
      OnePayment(j, from, to, t);
      assert Sent(ts, 1, t.id) == t.amount by {
        assert Sent(ts, 0, t.id) == 0;
      }
      if failure == Some(OutOfFunds) {
        assert !Affords(payer, ts, 0);
        OneHeld(j, from, to, t);
      } else {
        OneHeld(j, from, to, t);
        PaidHeld(j1, from, to, ts[1..], id);
        MadeRest(payer, payee, j1.world.accounts[from], j1.world.accounts[to], ts, id);
      }
    }
  }

  lemma OneHeld(j: Journaled, from: Address, to: Address, t: TokenTransfer)
    requires Open(j) && Loaded(j, from) && Loaded(j, to) && from != to
    requires TransferOne(j, from, to, t).1 != Some(OverflowPayment)
    ensures var (j1, failure) := TransferOne(j, from, to, t);
            && Loaded(j1, to)
            && Held(j1.world, to) == Held(j.world, to) + if failure.None? then {t.id} else {}
  {
    TransferOneIs(j, from, to, t);
    if TransferOne(j, from, to, t).1.None? {
      PayeeAfter(j, from, to, t);
    }
  }

  /** An empty payee has room for everything a payer can send. */
  lemma EmptyHasRoom(payer: Account, payee: Account, ts: seq<TokenTransfer>)
    requires IsEmpty(payee)
    ensures !Overflows(payer, payee, ts)
  {
    forall k | 0 <= k < |ts| ensures !OverflowsAt(payer, payee, ts, k) {
      assert Balance(payee, ts[k].id) == 0;
      assert Affords(payer, ts, k) ==> HasRoom(payee, ts, k);
    }
  }

  /** A list of payments to an empty account, reverted, leaves it empty if and only if every payment that
      was made was of the base token. */
  lemma TransferEmptyIff(j: Journaled, db: Db, from: Address, to: Address, ts: seq<TokenTransfer>)
    requires Open(j) && Loaded(j, to) && from != to && IsEmpty(j.world.accounts[to])
    ensures var i := Transfer(Enter(j), db, from, to, ts).0;
            && i.depth > 0 && |j.logs| <= |i.logs| && |j.journal| <= |i.journal| && Revert(i, Mark(j)).Some?
            && var r := Revert(i, Mark(j)).value;
               && Loaded(r, to)
               && (IsEmpty(r.world.accounts[to]) <==>
                   forall k {:trigger Made(Seen(j, db, from), ts, k)} ::
                     0 <= k < |ts| && Made(Seen(j, db, from), ts, k) ==> ts[k].id == BASE_TOKEN_ID)
  {
    var e, payer := Enter(j), Seen(j, db, from);
    var i := Transfer(e, db, from, to, ts).0;
    EmptyHasRoom(payer, j.world.accounts[to], ts);
    TransferForeseen(e, db, from, to, ts);
    KeepsTransfer(Exact, e, db, from, to, ts);
    KeepsTransfer(Shape, e, db, from, to, ts);
    GrewTransfer(e, db, from, to, ts, to);
    EmptyAfter(j, i, to);
    forall id ensures id in Held(i.world, to) <==> id in Held(j.world, to) || MadeOf(payer, ts, id) {
      ListHeld(e, db, from, to, ts, id);
    }
    assert Held(j.world, to) <= {BASE_TOKEN_ID};
    forall k | 0 <= k < |ts| && Made(payer, ts, k) ensures MadeOf(payer, ts, ts[k].id) {}
  }

  lemma ListHeld(j: Journaled, db: Db, from: Address, to: Address, ts: seq<TokenTransfer>, id: Word)
    requires Open(j) && Loaded(j, to) && from != to && Transfer(j, db, from, to, ts).1 != Some(OverflowPayment)
    ensures var i := Transfer(j, db, from, to, ts).0;
            Loaded(i, to) && (id in Held(i.world, to) <==> id in Held(j.world, to) || MadeOf(Seen(j, db, from), ts, id))
  {
    var j3 := LoadAccount(LoadAccount(LoadTokenIds(j, db), db, from), db, to);
    assert j3.world.accounts[from] == Seen(j, db, from) && j3.world.accounts[to] == j.world.accounts[to];
    PaidHeld(j3, from, to, ts, id);
  }
}
