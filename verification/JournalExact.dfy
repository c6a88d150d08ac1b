/** Where reverting is not an exact undo, and exactly when. */
module JournalExact {
  import opened Prelude
  import opened JournalState
  import opened JournalEquiv
  import opened JournalOps
  import opened JournalKeeps
  import opened JournalFunds
  import opened JournalRuns
  import opened JournalOverflow

  /** Undoing entries never panics after the operation; this is the world it gives. */
  function Undone(j: Journaled, i: Journaled): Option<World> {
    if |j.journal| <= |i.journal| then UndoAll(j.spec.spuriousDragon, i.world, Flat(i.journal[|j.journal|..])) else None
  }

  lemma EnteredOnly(j: Journaled, i: Journaled, entries: seq<Entry>)
    requires i.journal == j.journal + [entries]
    ensures Flat(i.journal[|j.journal|..]) == entries
  {
    assert i.journal[|j.journal|..] == [entries];
    FlatOne(entries);
  }

  lemma NoteEntered(j: Journaled, before: seq<seq<Entry>>, entries: seq<Entry>, w: World, e: Entry)
    requires j.journal == before + [entries]
    ensures Open(j) && Note(j, w, e).journal == before + [entries + [e]]
  {
  }

  lemma TouchEntered(j: Journaled, before: seq<seq<Entry>>, entries: seq<Entry>, a: Address)
    requires j.journal == before + [entries] && Loaded(j, a)
    ensures Open(j) && Touch(j, a).journal == before + [entries + if j.world.accounts[a].touched then [] else [AccountTouched(a)]]
  {
    if j.world.accounts[a].touched {
      assert entries + [] == entries;
    } else {
      NoteEntered(j, before, entries, Put(j.world, a, j.world.accounts[a].(touched := true)), AccountTouched(a));
    }
  }

  /** Undoing touches and payments leaves storage and code alone. */
  lemma {:induction false} PlainUndo(sd: bool, w: World, entries: seq<Entry>, a: Address)
    requires a in w.accounts && (forall e :: e in entries ==> e.AccountTouched? || e.BalanceTransfer?)
    requires UndoAll(sd, w, entries).Some?
    ensures var v := UndoAll(sd, w, entries).value; 
            a in v.accounts && v.accounts[a].storage == w.accounts[a].storage && v.accounts[a].codeHash == w.accounts[a].codeHash
    decreases |entries|
  {
    if entries != [] {
      PlainUndo(sd, Undo(sd, w, entries[|entries| - 1]), entries[..|entries| - 1], a);
    }
  }

  // ---- set_code ----

  lemma SetCodeLeaves(j: Journaled, a: Address, codeHash: Word)
    requires Open(j) && Loaded(j, a) && Undone(j, SetCode(Enter(j), a, codeHash)).Some?
    ensures var w := Undone(j, SetCode(Enter(j), a, codeHash)).value; a in w.accounts && w.accounts[a].codeHash == KECCAK_EMPTY
  {
    var e, sd := Enter(j), j.spec.spuriousDragon;
    var i := SetCode(e, a, codeHash);
    var touch := if j.world.accounts[a].touched then [] else [AccountTouched(a)];
    TouchEntered(e, j.journal, [], a);
    assert [] + touch == touch;
    NoteEntered(Touch(e, a), j.journal, touch, i.world, CodeChange(a));
    EnteredOnly(j, i, touch + [CodeChange(a)]);
    UndoAllConcat(sd, i.world, touch, [CodeChange(a)]);
    UndoAllConcat(sd, i.world, [], [CodeChange(a)]);
    PlainUndo(sd, Undo(sd, i.world, CodeChange(a)), touch, a);
  }

  /** Reverting set_code is exact if and only if the account had no code: the journal entry does not
      remember a previous code hash. */
  lemma SetCodeExactIff(j: Journaled, a: Address, codeHash: Word)
    requires Open(j) && Loaded(j, a)
    ensures var w := Undone(j, SetCode(Enter(j), a, codeHash));
            w.Some? && (Equiv(Exact, j.spec.spuriousDragon, j.world, w.value) <==> j.world.accounts[a].codeHash == KECCAK_EMPTY)
  {
    var e, sd := Enter(j), j.spec.spuriousDragon;
    var i := SetCode(e, a, codeHash);
    KeepsSetCode(Shape, e, a, codeHash);
    RevertRestores(Shape, j, i);
    if j.world.accounts[a].codeHash == KECCAK_EMPTY {
      KeepsSetCode(Exact, e, a, codeHash);
      RevertRestores(Exact, j, i);
    } else {
      SetCodeLeaves(j, a, codeHash);
      assert !SameAccount(Exact, sd, a, j.world.accounts[a], Undone(j, i).value.accounts[a]);
    }
  }

  // ---- touch ----

  /** Reverting a touch is exact to the last flag unless it touched address 3 under EIP-161, and only
      then: that flag stays set. */
  lemma TouchExactIff(j: Journaled, a: Address)
    requires Open(j) && Loaded(j, a)
    ensures var w := Undone(j, Touch(Enter(j), a));
            w.Some? && (Equiv(Exact, false, j.world, w.value) <==>
                        !(j.spec.spuriousDragon && a == PRECOMPILE3 && !j.world.accounts[a].touched))
  {
    var x := j.world.accounts[a];
    TouchLeaves(j, a);
    EquivRefl(Exact, false, j.world);
    if j.spec.spuriousDragon && a == PRECOMPILE3 && !x.touched {
      assert !SameAccount(Exact, false, a, x, Undone(j, Touch(Enter(j), a)).value.accounts[a]);
    }
  }

  /** The world after a touch and its undoing. */
  lemma TouchLeaves(j: Journaled, a: Address)
    requires Open(j) && Loaded(j, a)
    ensures var x := j.world.accounts[a];
            Undone(j, Touch(Enter(j), a)) ==
            Some(if j.spec.spuriousDragon && a == PRECOMPILE3 then Put(j.world, a, x.(touched := true)) else j.world)
  {
    var e, x, sd := Enter(j), j.world.accounts[a], j.spec.spuriousDragon;
    var i := Touch(e, a);
    var touch := if x.touched then [] else [AccountTouched(a)];
    TouchEntered(e, j.journal, [], a);
    assert [] + touch == touch;
    EnteredOnly(j, i, touch);
    assert Put(j.world, a, x) == j.world;
    if x.touched {
      assert x.(touched := true) == x;
    } else {
      UndoAllConcat(sd, i.world, [], [AccountTouched(a)]);
      assert x.(touched := true).(touched := false) == x;
      assert Put(Put(j.world, a, x.(touched := true)), a, x) == j.world;
    }
  }

  // ---- mint ----

  /** Reverting a mint brings the list of token ids back exactly if it was not loaded yet, or held the
      id already, or the mint was refused: the journal entry does not remember that the id is new. */
  lemma MintIdsExactIff(j: Journaled, db: Db, minter: Address, recipient: Address, token: Word, amount: Word)
    requires Open(j) && (Loaded(j, recipient) || recipient == minter)
    ensures var w := Undone(j, Mint(Enter(j), db, minter, recipient, token, amount).0);
            w.Some? && (w.value.tokenIds == j.world.tokenIds <==>
                        || j.world.tokenIds == [] || token in j.world.tokenIds
                        || Balance(Seen(j, db, recipient), token) + amount >= TWO_256)
  {
    var i := Mint(Enter(j), db, minter, recipient, token, amount).0;
    KeepsMint(Exact, Enter(j), db, minter, recipient, token, amount);
    RevertRestores(Exact, j, i);
    if j.world.tokenIds != [] && !(Balance(Seen(j, db, recipient), token) + amount >= TWO_256) && token !in j.world.tokenIds {
      assert i.world.tokenIds == j.world.tokenIds + [token];
    }
  }

  /** The account that an operation will find at a. */
  function Seen(j: Journaled, db: Db, a: Address): Account {
    if Loaded(j, a) then j.world.accounts[a] else FromDb(db, a)
  }

  // ---- create ----

  /** The world once a creation has been reverted, by itself if it failed or by its caller. */
  function CreationReverted(j: Journaled, caller: Address, a: Address, value: Word): Option<World>
    requires Open(j) && Loaded(j, caller) && Loaded(j, a)
  {
    var started := CreateAccount(j, caller, a, value);
    if started.None? then None
    else if started.value.1.Some? then Some(started.value.0.world)
    else Undone(j, started.value.0)
  }

  /** Reverting a creation, whether it went through or was refused for an overflow, is exact if and
      only if it collided or the account had no non-zero slot and did not count as created: emptied
      slots are not recorded. */
  lemma CreateExactIff(j: Journaled, caller: Address, a: Address, value: Word)
    requires Open(j) && Loaded(j, caller) && Loaded(j, a)
    ensures var w := CreationReverted(j, caller, a, value);
            w.Some? && (Equiv(Exact, j.spec.spuriousDragon, j.world, w.value) <==>
                        Collides(j, a) || CreatesCleanly(j.world.accounts[a]))
  {
    var e, acc := Enter(j), j.world.accounts[a];
    OpeningKeeps(Shape, j, caller, a, value);
    if Collides(j, a) {
      KeepsRefl(Exact, e);
      RevertRestores(Exact, j, e);
    } else {
      BornIs(e, a);
      if Balance(Created(e, a).world.accounts[a], BASE_TOKEN_ID) + value >= TWO_256 {
        CreatedExactIff(j, a);
      } else {
        FundedExactIff(j, caller, a, value);
      }
    }
  }

  lemma CreatedExactIff(j: Journaled, a: Address)
    requires Open(j) && Loaded(j, a) && !Collides(j, a)
    ensures var w := Undone(j, Created(Enter(j), a));
            w.Some? && (Equiv(Exact, j.spec.spuriousDragon, j.world, w.value) <==> CreatesCleanly(j.world.accounts[a]))
  {
    var e, acc := Enter(j), j.world.accounts[a];
    var i := Created(e, a);
    KeepsCreated(Shape, e, a);
    RevertRestores(Shape, j, i);
    if CreatesCleanly(acc) {
      KeepsCreated(Exact, e, a);
      RevertRestores(Exact, j, i);
    } else {
      var touch := CreatedEntries(j, a);
      CreationLeaves(j, i, a, touch);
      assert !SameAccount(Exact, j.spec.spuriousDragon, a, acc, Undone(j, i).value.accounts[a]);
    }
  }

  lemma FundedExactIff(j: Journaled, caller: Address, a: Address, value: Word)
    requires Open(j) && Loaded(j, caller) && Loaded(j, a) && !Collides(j, a)
    requires Balance(Created(Enter(j), a).world.accounts[a], BASE_TOKEN_ID) + value < TWO_256
    ensures var w := Undone(j, Funded(Created(Enter(j), a), caller, a, value));
            w.Some? && (Equiv(Exact, j.spec.spuriousDragon, j.world, w.value) <==> CreatesCleanly(j.world.accounts[a]))
  {
    var e, acc := Enter(j), j.world.accounts[a];
    var i := Funded(Created(e, a), caller, a, value);
    BornIs(e, a);
    KeepsFunded(Shape, e, caller, a, value);
    RevertRestores(Shape, j, i);
    if CreatesCleanly(acc) {
      KeepsFunded(Exact, e, caller, a, value);
      RevertRestores(Exact, j, i);
    } else {
      var rest := FundedEntries(j, caller, a, value);
      CreationLeaves(j, i, a, rest);
      assert !SameAccount(Exact, j.spec.spuriousDragon, a, acc, Undone(j, i).value.accounts[a]);
    }
  }

  /** What creating an account has recorded before funds move. */
  lemma CreatedEntries(j: Journaled, a: Address) returns (touch: seq<Entry>)
    requires Open(j) && Loaded(j, a) && !Collides(j, a)
    ensures var i := Created(Enter(j), a);
            && i.journal == j.journal + [[AccountCreated(a)] + touch]
            && a in i.world.accounts && i.world.accounts[a].storage == Emptied(j.world.accounts[a].storage)
    ensures forall e :: e in touch ==> e.AccountTouched? || e.BalanceTransfer?
  {
    var e, acc := Enter(j), j.world.accounts[a];
    CreatedIs(e, a);
    touch := if acc.touched then [] else [AccountTouched(a)];
    var j1 := Note(e, Put(e.world, a, Newborn(acc, acc.nonce)), AccountCreated(a));
    NoteEntered(e, j.journal, [], j1.world, AccountCreated(a));
    assert [] + [AccountCreated(a)] == [AccountCreated(a)];
    TouchEntered(j1, j.journal, [AccountCreated(a)], a);
  }

  lemma FundedEntries(j: Journaled, caller: Address, a: Address, value: Word) returns (rest: seq<Entry>)
    requires Open(j) && Loaded(j, caller) && Loaded(j, a) && !Collides(j, a)
    requires Loaded(Created(Enter(j), a), caller)
    requires Balance(Created(Enter(j), a).world.accounts[a], BASE_TOKEN_ID) + value < TWO_256
    ensures var i := Funded(Created(Enter(j), a), caller, a, value);
            && i.journal == j.journal + [[AccountCreated(a)] + rest]
            && a in i.world.accounts && i.world.accounts[a].storage == Emptied(j.world.accounts[a].storage)
    ensures forall e :: e in rest ==> e.AccountTouched? || e.BalanceTransfer?
  {
    var i := Funded(Created(Enter(j), a), caller, a, value);
    var touch := CreatedEntries(j, a);
    var move := BalanceTransfer(caller, a, BASE_TOKEN_ID, value);
    NoteEntered(Created(Enter(j), a), j.journal, [AccountCreated(a)] + touch, i.world, move);
    rest := touch + [move];
    assert [AccountCreated(a)] + touch + [move] == [AccountCreated(a)] + rest;
  }

  /** Whatever touches and payments follow, undoing a creation leaves emptied slots and no mark. */
  lemma CreationLeaves(j: Journaled, i: Journaled, a: Address, rest: seq<Entry>)
    requires i.journal == j.journal + [[AccountCreated(a)] + rest] && Loaded(j, a) && a in i.world.accounts
    requires i.world.accounts[a].storage == Emptied(j.world.accounts[a].storage)
    requires forall e :: e in rest ==> e.AccountTouched? || e.BalanceTransfer?
    requires Undone(j, i).Some?
    ensures var w := Undone(j, i).value;
            a in w.accounts && !w.accounts[a].created && w.accounts[a].storage == Emptied(j.world.accounts[a].storage)
  {
    var sd := j.spec.spuriousDragon;
    EnteredOnly(j, i, [AccountCreated(a)] + rest);
    UndoAllConcat(sd, i.world, [AccountCreated(a)], rest);
    PlainUndo(sd, i.world, rest, a);
    var w := UndoAll(sd, i.world, rest).value;
    UndoAllConcat(sd, w, [], [AccountCreated(a)]);
  }

  // ---- transfer ----

  /** The payee of a successful payment, but for its touched flag. */
  lemma PayeeAfter(j: Journaled, from: Address, to: Address, t: TokenTransfer)
    requires Open(j) && Loaded(j, from) && Loaded(j, to) && from != to && TransferOne(j, from, to, t).1.None?
    ensures var x, y := j.world.accounts[to], TransferOne(j, from, to, t).0.world.accounts[to];
            && y.balances == x.balances[t.id := Balance(x, t.id) + t.amount]
            && y.codeHash == x.codeHash && y.nonce == x.nonce
  {
    TransferOneIs(j, from, to, t);
    var z := Touch(Touch(j, from), to).world.accounts[to];
    assert z == j.world.accounts[to].(touched := true);
  }

  /** How far one balance lags behind another. */
  predicate Lags(v: World, w: World, a: Address, token: Word, lag: Word) {
    a in v.accounts && a in w.accounts
    && Balance(w.accounts[a], token) == WrappingSub(Balance(v.accounts[a], token), lag)
  }

  /** What undoing e makes of a balance x of a's. */
  function UndoneBalance(e: Entry, a: Address, token: Word, x: Word): Word {
    match e
    case AccountDestroyed(b, target, _, had) =>
      if token != BASE_TOKEN_ID then x
      else if b == a then WrappingAdd(x, had)
      else if target == a then WrappingSub(x, had)
      else x
    case BalanceTransfer(from, to, t, amount) =>
      var y := if from == a && t == token then WrappingAdd(x, amount) else x;
      if to == a && t == token then WrappingSub(y, amount) else y
    case TokensBurned(holder, t, amount) => if holder == a && t == token then WrappingAdd(x, amount) else x
    case TokensMinted(_, recipient, t, amount) => if recipient == a && t == token then WrappingSub(x, amount) else x
    case _ => x
  }

  lemma UndoBalance(sd: bool, w: World, e: Entry, a: Address, token: Word)
    requires a in w.accounts && CanUndo(sd, w, e) && e != AccountLoaded(a)
    ensures a in Undo(sd, w, e).accounts
    ensures Balance(Undo(sd, w, e).accounts[a], token) == UndoneBalance(e, a, token, Balance(w.accounts[a], token))
  {
    UndoShrinks(sd, w, e);
    UndoPointwise(sd, w, e, a);
    var x := UndoneRest(sd, e, a, w.accounts[a]);
    assert x.balances == w.accounts[a].balances;
    FundsBalance(e, a, x, token);
  }

  lemma FundsBalance(e: Entry, a: Address, x: Account, token: Word)
    ensures Balance(UndoneFunds(e, a, x), token) == UndoneBalance(e, a, token, Balance(x, token))
  {
    match e
    case AccountDestroyed(_, _, _, had) => MovedBalance(x, BASE_TOKEN_ID, had, token);
    case BalanceTransfer(_, _, t, amount) =>
      MovedBalance(x, t, amount, token);
      MovedBalance(Increase(x, t, amount), t, amount, token);
    case TokensBurned(_, t, amount) => MovedBalance(x, t, amount, token);
    case TokensMinted(_, _, t, amount) => MovedBalance(x, t, amount, token);
    case _ =>
  }

  lemma MovedBalance(x: Account, t: Word, amount: Word, token: Word)
    ensures Balance(Increase(x, t, amount), token) == if t == token then WrappingAdd(Balance(x, token), amount) else Balance(x, token)
    ensures Balance(Decrease(x, t, amount), token) == if t == token then WrappingSub(Balance(x, token), amount) else Balance(x, token)
  {
  }

  lemma LagCommutes(e: Entry, a: Address, token: Word, x: Word, lag: Word)
    ensures UndoneBalance(e, a, token, WrappingSub(x, lag)) == WrappingSub(UndoneBalance(e, a, token, x), lag)
  {
    match e
    case AccountDestroyed(_, _, _, had) => WrapsCommute(x, had, lag);
    case BalanceTransfer(_, _, _, amount) =>
      WrapsCommute(x, amount, lag);
      WrapsCommute(WrappingAdd(x, amount), amount, lag);
    case TokensBurned(_, _, amount) => WrapsCommute(x, amount, lag);
    case TokensMinted(_, _, _, amount) => WrapsCommute(x, amount, lag);
    case _ =>
  }

  lemma WrapsCommute(x: Word, y: Word, lag: Word)
    ensures WrappingAdd(WrappingSub(x, lag), y) == WrappingSub(WrappingAdd(x, y), lag)
    ensures WrappingSub(WrappingSub(x, lag), y) == WrappingSub(WrappingSub(x, y), lag)
  {
  }

  lemma LagStep(sd: bool, v: World, w: World, e: Entry, a: Address, token: Word, lag: Word)
    requires Lags(v, w, a, token, lag) && CanUndo(sd, v, e) && CanUndo(sd, w, e) && e != AccountLoaded(a)
    ensures Lags(Undo(sd, v, e), Undo(sd, w, e), a, token, lag)
  {
    UndoBalance(sd, v, e, a, token);
    UndoBalance(sd, w, e, a, token);
    LagCommutes(e, a, token, Balance(v.accounts[a], token), lag);
  }

  /** Undoing moves both balances alike, so a missing amount stays missing. */
  lemma {:induction false} LagStays(sd: bool, v: World, w: World, entries: seq<Entry>, a: Address, token: Word, lag: Word)
    requires Lags(v, w, a, token, lag) && AccountLoaded(a) !in entries
    requires UndoAll(sd, v, entries).Some? && UndoAll(sd, w, entries).Some?
    ensures Lags(UndoAll(sd, v, entries).value, UndoAll(sd, w, entries).value, a, token, lag)
    decreases |entries|
  {
    if entries != [] {
      var last := entries[|entries| - 1];
      LagStep(sd, v, w, last, a, token, lag);
      LagStays(sd, Undo(sd, v, last), Undo(sd, w, last), entries[..|entries| - 1], a, token, lag);
    }
  }

  /** Two versions of an account that differ in their balances at most, or not at all. */
  predicate Versions(x: Account, y: Account, equal: bool) {
    && y.nonce == x.nonce && y.codeHash == x.codeHash && y.storage == x.storage && y.created == x.created
    && y.selfDestructed == x.selfDestructed && y.touched == x.touched && y.notExisting == x.notExisting
    && (equal ==> y.balances == x.balances)
  }

  /** The two worlds differ in balances of a's at most. */
  predicate Apart(v: World, w: World, a: Address) {
    && v.transient == w.transient && v.tokenIds == w.tokenIds && v.accounts.Keys == w.accounts.Keys
    && forall b {:trigger Versions(v.accounts[b], w.accounts[b], b != a)} ::
         b in v.accounts ==> Versions(v.accounts[b], w.accounts[b], b != a)
  }

  /** What undoing e makes of the balances of the account x at b. */
  function UndoneFunds(e: Entry, b: Address, x: Account): Account {
    match e
    case AccountDestroyed(c, target, _, had) =>
      if b == c then Increase(x, BASE_TOKEN_ID, had) else if b == target then Decrease(x, BASE_TOKEN_ID, had) else x
    case BalanceTransfer(from, to, token, amount) =>
      var y := if b == from then Increase(x, token, amount) else x;
      if b == to then Decrease(y, token, amount) else y
    case TokensBurned(holder, token, amount) => if b == holder then Increase(x, token, amount) else x
    case TokensMinted(_, recipient, token, amount) => if b == recipient then Decrease(x, token, amount) else x
    case _ => x
  }

  /** What undoing e makes of the rest of it. */
  function UndoneRest(sd: bool, e: Entry, b: Address, x: Account): Account {
    match e
    case AccountTouched(c) => if b == c && !(sd && c == PRECOMPILE3) then x.(touched := false) else x
    case AccountDestroyed(c, _, was, _) => if b == c then x.(selfDestructed := was) else x
    case NonceChange(c) => if b == c then x.(nonce := Max(x.nonce - 1, 0)) else x
    case AccountCreated(c) => if b == c then x.(created := false, nonce := 0) else x
    case StorageChange(c, key, had) =>
      if b != c then x
      else if had.None? then x.(storage := x.storage - {key})
      else if key in x.storage then x.(storage := x.storage[key := x.storage[key].(present := had.value)])
      else x
    case CodeChange(c) => if b == c then x.(codeHash := KECCAK_EMPTY) else x
    case _ => x
  }

  /** Undoing works account by account. */
  lemma UndoPointwise(sd: bool, w: World, e: Entry, b: Address)
    requires CanUndo(sd, w, e) && b in Undo(sd, w, e).accounts
    ensures b in w.accounts && Undo(sd, w, e).accounts[b] == UndoneFunds(e, b, UndoneRest(sd, e, b, w.accounts[b]))
  {
  }

  lemma VersionsMoved(x: Account, y: Account, token: Word, amount: Word)
    requires Versions(x, y, false)
    ensures Versions(Increase(x, token, amount), Increase(y, token, amount), false)
    ensures Versions(Decrease(x, token, amount), Decrease(y, token, amount), false)
  {
  }

  lemma VersionsPaid(from: Address, to: Address, token: Word, amount: Word, b: Address, x: Account, y: Account)
    requires Versions(x, y, false)
    ensures var e := BalanceTransfer(from, to, token, amount); Versions(UndoneFunds(e, b, x), UndoneFunds(e, b, y), false)
  {
    VersionsMoved(x, y, token, amount);
    VersionsMoved(Increase(x, token, amount), Increase(y, token, amount), token, amount);
  }

  lemma VersionsFunds(e: Entry, b: Address, x: Account, y: Account)
    requires Versions(x, y, false)
    ensures Versions(UndoneFunds(e, b, x), UndoneFunds(e, b, y), false)
  {
    match e
    case AccountDestroyed(_, _, _, had) => VersionsMoved(x, y, BASE_TOKEN_ID, had);
    case BalanceTransfer(from, to, token, amount) => VersionsPaid(from, to, token, amount, b, x, y);
    case TokensBurned(_, token, amount) => VersionsMoved(x, y, token, amount);
    case TokensMinted(_, _, token, amount) => VersionsMoved(x, y, token, amount);
    case _ =>
  }

  lemma VersionsRest(sd: bool, e: Entry, b: Address, x: Account, y: Account)
    requires Versions(x, y, false)
    ensures Versions(UndoneRest(sd, e, b, x), UndoneRest(sd, e, b, y), false)
  {
    if e.StorageChange? {
      VersionsStored(sd, e, b, x, y);
    }
  }

  lemma VersionsStored(sd: bool, e: Entry, b: Address, x: Account, y: Account)
    requires Versions(x, y, false) && e.StorageChange?
    ensures Versions(UndoneRest(sd, e, b, x), UndoneRest(sd, e, b, y), false)
  {
  }

  lemma ApartCanUndo(sd: bool, v: World, w: World, e: Entry, a: Address)
    requires Apart(v, w, a) && CanUndo(sd, v, e)
    ensures CanUndo(sd, w, e)
  {
    if (e.NonceChange? || e.StorageChange?) && e.address in v.accounts {
      assert Versions(v.accounts[e.address], w.accounts[e.address], e.address != a);
    }
  }

  lemma ApartStep(sd: bool, v: World, w: World, e: Entry, a: Address)
    requires Apart(v, w, a) && CanUndo(sd, v, e)
    ensures CanUndo(sd, w, e) && Apart(Undo(sd, v, e), Undo(sd, w, e), a)
    ensures e == AccountLoaded(a) ==> Undo(sd, v, e) == Undo(sd, w, e)
  {
    ApartCanUndo(sd, v, w, e, a);
    var v', w' := Undo(sd, v, e), Undo(sd, w, e);
    UndoShrinks(sd, v, e);
    UndoShrinks(sd, w, e);
    forall b | b in v'.accounts ensures Versions(v'.accounts[b], w'.accounts[b], b != a) {
      UndoPointwise(sd, v, e, b);
      UndoPointwise(sd, w, e, b);
      assert Versions(v.accounts[b], w.accounts[b], b != a);
      VersionsRest(sd, e, b, v.accounts[b], w.accounts[b]);
      VersionsFunds(e, b, UndoneRest(sd, e, b, v.accounts[b]), UndoneRest(sd, e, b, w.accounts[b]));
    }
    UndoneElsewhere(sd, v, w, e);
    if e == AccountLoaded(a) {
      assert forall b :: b in v'.accounts ==> Versions(v'.accounts[b], w'.accounts[b], b != a) && b != a;
      assert v'.accounts == w'.accounts;
    }
  }

  lemma UndoneElsewhere(sd: bool, v: World, w: World, e: Entry)
    requires CanUndo(sd, v, e) && CanUndo(sd, w, e) && v.transient == w.transient && v.tokenIds == w.tokenIds
    ensures Undo(sd, v, e).transient == Undo(sd, w, e).transient && Undo(sd, v, e).tokenIds == Undo(sd, w, e).tokenIds
  {
  }

  /** Once the loading of a is undone, nothing tells the worlds apart. */
  lemma {:induction false} ApartEnds(sd: bool, v: World, w: World, entries: seq<Entry>, a: Address)
    requires Apart(v, w, a) && AccountLoaded(a) in entries && UndoAll(sd, v, entries).Some?
    ensures UndoAll(sd, w, entries) == UndoAll(sd, v, entries)
    decreases |entries|
  {
    var last := entries[|entries| - 1];
    ApartStep(sd, v, w, last, a);
    if last != AccountLoaded(a) {
      assert entries == entries[..|entries| - 1] + [last];
      ApartEnds(sd, Undo(sd, v, last), Undo(sd, w, last), entries[..|entries| - 1], a);
    }
  }

  /** The state an overflowing payment leaves, had it not debited the payer. */
  function Undebited(j: Journaled, from: Address, to: Address): Journaled
    requires Open(j)
  {
    Touch(Touch(j, from), to)
  }

  lemma OverflowLags(j: Journaled, from: Address, to: Address, t: TokenTransfer)
    requires Open(j) && Loaded(j, from) && Loaded(j, to) && TransferOne(j, from, to, t).1 == Some(OverflowPayment)
    ensures var i, clean := TransferOne(j, from, to, t).0, Undebited(j, from, to);
            && i.journal == clean.journal && Apart(clean.world, i.world, from)
            && Lags(clean.world, i.world, from, t.id, t.amount) && t.amount > 0
  {
    var j1 := Touch(j, from);
    var clean := Undebited(j, from, to);
    DebitTouch(j1, from, to, t.id, t.amount);
    assert TransferOne(j, from, to, t).0.world == Debited(clean.world, from, t.id, t.amount);
    DebitedApart(clean.world, from, t.id, t.amount);
  }

  lemma DebitedApart(w: World, from: Address, token: Word, amount: Word)
    requires from in w.accounts && amount <= Balance(w.accounts[from], token)
    ensures Apart(w, Debited(w, from, token, amount), from)
  {
    var v := Debited(w, from, token, amount);
    forall b | b in w.accounts ensures Versions(w.accounts[b], v.accounts[b], b != from) {}
  }

  /** An overflow in a list of payments leaves the state of a clean run with one debit too many. */
  lemma {:induction false} OverflowInList(j: Journaled, from: Address, to: Address, ts: seq<TokenTransfer>)
    returns (clean: Journaled, t: TokenTransfer)
    requires Open(j) && Loaded(j, from) && Loaded(j, to) && TransferAll(j, from, to, ts).1 == Some(OverflowPayment)
    ensures var i := TransferAll(j, from, to, ts).0;
            && Keeps(Exact, j, clean) && i.journal == clean.journal && Apart(clean.world, i.world, from)
            && Lags(clean.world, i.world, from, t.id, t.amount) && t.amount > 0
    decreases |ts|
  {
    var (j1, failure) := TransferOne(j, from, to, ts[0]);
    if failure.Some? {
      clean, t := Undebited(j, from, to), ts[0];
      OverflowLags(j, from, to, t);
      KeepsTouch(Exact, j, from);
      KeepsTouch(Exact, Touch(j, from), to);
      KeepsTrans(Exact, j, Touch(j, from), clean);
    } else {
      KeepsTransferOne(Exact, j, from, to, ts[0]);
      clean, t := OverflowInList(j1, from, to, ts[1..]);
      KeepsTrans(Exact, j, j1, clean);
    }
  }

  lemma {:induction false} UndoAllShrinks(sd: bool, w: World, entries: seq<Entry>)
    requires UndoAll(sd, w, entries).Some?
    ensures UndoAll(sd, w, entries).value.accounts.Keys <= w.accounts.Keys
    ensures forall a :: AccountLoaded(a) in entries ==> a !in UndoAll(sd, w, entries).value.accounts
    ensures forall a :: a in w.accounts && AccountLoaded(a) !in entries ==> a in UndoAll(sd, w, entries).value.accounts
    decreases |entries|
  {
    if entries != [] {
      var last := entries[|entries| - 1];
      assert entries == entries[..|entries| - 1] + [last];
      UndoShrinks(sd, w, last);
      UndoAllShrinks(sd, Undo(sd, w, last), entries[..|entries| - 1]);
    }
  }

  lemma UndoShrinks(sd: bool, w: World, e: Entry)
    requires CanUndo(sd, w, e)
    ensures Undo(sd, w, e).accounts.Keys == if e.AccountLoaded? then w.accounts.Keys - {e.address} else w.accounts.Keys
  {
  }

  /** Some payment to another account will find no room. */
  predicate WillOverflow(j: Journaled, db: Db, from: Address, to: Address, ts: seq<TokenTransfer>) {
    from != to && Overflows(Seen(j, db, from), Seen(j, db, to), ts)
  }

  lemma TransferForeseen(j: Journaled, db: Db, from: Address, to: Address, ts: seq<TokenTransfer>)
    requires Open(j)
    ensures Transfer(j, db, from, to, ts).1 == Some(OverflowPayment) <==> WillOverflow(j, db, from, to, ts)
  {
    var j3 := LoadAccount(LoadAccount(LoadTokenIds(j, db), db, from), db, to);
    assert j3.world.accounts[from] == Seen(j, db, from) && j3.world.accounts[to] == Seen(j, db, to);
    OverflowForeseen(j3, from, to, ts);
  }

  /** Reverting a transfer is exact unless the payer was loaded before the checkpoint and a payment
      overflows, and only then: the debit of the payment that overflowed is not recorded. A payer
      loaded inside the frame is forgotten with its debit. */
  lemma TransferExactIff(j: Journaled, db: Db, from: Address, to: Address, ts: seq<TokenTransfer>)
    requires Open(j)
    ensures var w := Undone(j, Transfer(Enter(j), db, from, to, ts).0);
            w.Some? && (Equiv(Exact, j.spec.spuriousDragon, j.world, w.value) <==>
                        !(Loaded(j, from) && WillOverflow(j, db, from, to, ts)))
  {
    var e := Enter(j);
    var (i, failure) := Transfer(e, db, from, to, ts);
    TransferForeseen(e, db, from, to, ts);
    KeepsTransfer(Shape, e, db, from, to, ts);
    RevertRestores(Shape, j, i);
    if failure != Some(OverflowPayment) {
      KeepsTransfer(Exact, e, db, from, to, ts);
      RevertRestores(Exact, j, i);
    } else {
      var clean, t, entries := OverflowInFrame(j, db, from, to, ts);
      if Loaded(j, from) {
        DebitRemains(j, clean.world, i.world, entries, from, t);
      } else {
        DebitForgotten(j, clean.world, i.world, entries, from);
      }
    }
  }

  /** An overflowing transfer beside a clean run with the same journal, and the entries since j. */
  lemma OverflowInFrame(j: Journaled, db: Db, from: Address, to: Address, ts: seq<TokenTransfer>)
    returns (clean: Journaled, t: TokenTransfer, entries: seq<Entry>)
    requires Open(j) && Transfer(Enter(j), db, from, to, ts).1 == Some(OverflowPayment)
    requires Undone(j, Transfer(Enter(j), db, from, to, ts).0).Some?
    ensures var i := Transfer(Enter(j), db, from, to, ts).0;
            && Apart(clean.world, i.world, from) && Lags(clean.world, i.world, from, t.id, t.amount) && t.amount > 0
            && UndoAll(j.spec.spuriousDragon, i.world, entries) == Undone(j, i)
            && UndoesTo(j, clean.world, entries)
  {
    var e := Enter(j);
    var i := Transfer(e, db, from, to, ts).0;
    var j2 := LoadAccount(LoadTokenIds(e, db), db, from);
    var j3 := LoadAccount(j2, db, to);
    KeepsLoads(Exact, e, db, from);
    KeepsLoad(Exact, j2, db, to);
    KeepsTrans(Exact, e, j2, j3);
    clean, t := OverflowInList(j3, from, to, ts);
    KeepsTrans(Exact, e, j3, clean);
    RevertRestores(Exact, j, clean);
    entries := Flat(i.journal[|j.journal|..]);
  }

  /** Undoing the entries in v gives j's world exactly. */
  ghost predicate UndoesTo(j: Journaled, v: World, entries: seq<Entry>) {
    && UndoAll(j.spec.spuriousDragon, v, entries).Some?
    && Equiv(Exact, j.spec.spuriousDragon, j.world, UndoAll(j.spec.spuriousDragon, v, entries).value)
  }

  lemma DebitRemains(j: Journaled, v: World, w: World, entries: seq<Entry>, from: Address, t: TokenTransfer)
    requires UndoesTo(j, v, entries) && Loaded(j, from) && Lags(v, w, from, t.id, t.amount) && t.amount > 0
    requires UndoAll(j.spec.spuriousDragon, w, entries).Some?
    ensures !UndoesTo(j, w, entries)
  {
    var sd := j.spec.spuriousDragon;
    UndoAllShrinks(sd, v, entries);
    LagStays(sd, v, w, entries, from, t.id, t.amount);
    var v', w' := UndoAll(sd, v, entries).value, UndoAll(sd, w, entries).value;
    assert SameAccount(Exact, sd, from, j.world.accounts[from], v'.accounts[from]);
    assert Balance(j.world.accounts[from], t.id) == Balance(v'.accounts[from], t.id) != Balance(w'.accounts[from], t.id);
    assert !SameAccount(Exact, sd, from, j.world.accounts[from], w'.accounts[from]);
  }

  lemma DebitForgotten(j: Journaled, v: World, w: World, entries: seq<Entry>, from: Address)
    requires UndoesTo(j, v, entries) && !Loaded(j, from) && from in v.accounts && Apart(v, w, from)
    ensures UndoesTo(j, w, entries)
  {
    UndoAllShrinks(j.spec.spuriousDragon, v, entries);
    ApartEnds(j.spec.spuriousDragon, v, w, entries, from);
  }
}
