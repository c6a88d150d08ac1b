/** The operations of the journaled state, as functions from state to state. */
module JournalOps {
  import opened Prelude
  import opened JournalState

  /** The two forks that change journaling. */
  datatype Spec = Spec(spuriousDragon: bool, cancun: bool)

  /** Logs are never inspected. */
  type Log = nat

  datatype Journaled = Journaled(
    world: World, logs: seq<Log>, depth: nat, journal: seq<seq<Entry>>, spec: Spec, warm: set<Address>)

  datatype Checkpoint = Checkpoint(logI: nat, journalI: nat)

  datatype TokenTransfer = TokenTransfer(id: Word, amount: Word)

  datatype Failure = OutOfFunds | OverflowPayment | CreateCollision

  datatype SStoreResult = SStoreResult(original: Word, present: Word, newValue: Word, isCold: bool)

  predicate Open(j: Journaled) {
    |j.journal| > 0
  }

  predicate Loaded(j: Journaled, a: Address) {
    a in j.world.accounts
  }

  /** Moves to world w, recording entry e in the newest journal. */
  function Note(j: Journaled, w: World, e: Entry): (r: Journaled)
    requires Open(j)
  {
    var n := |j.journal| - 1;
    j.(world := w, journal := j.journal[n := j.journal[n] + [e]])
  }

  function Touch(j: Journaled, a: Address): Journaled
    requires Open(j)
  {
    if Loaded(j, a) && !j.world.accounts[a].touched
    then Note(j, Put(j.world, a, j.world.accounts[a].(touched := true)), AccountTouched(a))
    else j
  }

  /** The account as the database has it. */
  function FromDb(db: Db, a: Address): Account {
    if a in db.accounts
    then Account(db.accounts[a].balances, db.accounts[a].nonce, db.accounts[a].codeHash, map[], false, false, false, false)
    else Account(map[], 0, KECCAK_EMPTY, map[], false, false, false, true)
  }

  function LoadAccount(j: Journaled, db: Db, a: Address): Journaled
    requires Open(j)
  {
    if Loaded(j, a) then j else Note(j, Put(j.world, a, FromDb(db, a)), AccountLoaded(a))
  }

  /** How a call or a selfdestruct finds the account at a, loaded or not. */
  function FoundEmpty(j: Journaled, db: Db, a: Address): bool {
    var acc := if Loaded(j, a) then j.world.accounts[a] else FromDb(db, a);
    if j.spec.spuriousDragon then IsEmpty(acc) else acc.notExisting && !acc.touched
  }

  function LoadTokenIds(j: Journaled, db: Db): Journaled
    requires Open(j)
  {
    if j.world.tokenIds != [] then j else Note(j, j.world.(tokenIds := db.tokenIds), TokenIdsLoaded)
  }

  function SetCode(j: Journaled, a: Address, codeHash: Word): Journaled
    requires Open(j) && Loaded(j, a)
  {
    var j1 := Touch(j, a);
    Note(j1, Put(j1.world, a, j1.world.accounts[a].(codeHash := codeHash)), CodeChange(a))
  }

  /** The nonce stays when it cannot grow. */
  function IncNonce(j: Journaled, a: Address): Journaled
    requires Open(j) && Loaded(j, a)
  {
    if j.world.accounts[a].nonce >= MAX_NONCE then j
    else
      var j1 := Touch(j, a);
      Note(j1, Put(j1.world, a, j1.world.accounts[a].(nonce := j1.world.accounts[a].nonce + 1)), NonceChange(a))
  }

  /** Debit, touch, credit, in the order the source does it: an overflow leaves the debit behind. */
  function TransferOne(j: Journaled, from: Address, to: Address, t: TokenTransfer): (Journaled, Option<Failure>)
    requires Open(j) && Loaded(j, from) && Loaded(j, to)
  {
    var j1 := Touch(j, from);
    var payer := j1.world.accounts[from];
    if Balance(payer, t.id) < t.amount then (j1, Some(OutOfFunds))
    else
      var j2 := j1.(world := Put(j1.world, from, SetBalance(payer, t.id, Balance(payer, t.id) - t.amount)));
      Credited(j2, from, to, t)
  }

  /** The second half of a payment. */
  function Credited(j: Journaled, from: Address, to: Address, t: TokenTransfer): (Journaled, Option<Failure>)
    requires Open(j) && Loaded(j, to)
  {
    var j1 := Touch(j, to);
    var payee := j1.world.accounts[to];
    if Balance(payee, t.id) + t.amount >= TWO_256 then (j1, Some(OverflowPayment))
    else (Note(j1, Put(j1.world, to, SetBalance(payee, t.id, Balance(payee, t.id) + t.amount)),
               BalanceTransfer(from, to, t.id, t.amount)), None)
  }

  function TransferAll(j: Journaled, from: Address, to: Address, ts: seq<TokenTransfer>): (Journaled, Option<Failure>)
    requires Open(j) && Loaded(j, from) && Loaded(j, to)
    decreases |ts|
  {
    if ts == [] then (j, None)
    else
      var (j1, failure) := TransferOne(j, from, to, ts[0]);
      if failure.Some? then (j1, failure) else TransferAll(j1, from, to, ts[1..])
  }

  function Transfer(j: Journaled, db: Db, from: Address, to: Address, ts: seq<TokenTransfer>): (Journaled, Option<Failure>)
    requires Open(j)
  {
    TransferAll(LoadAccount(LoadAccount(LoadTokenIds(j, db), db, from), db, to), from, to, ts)
  }

  /** The target gets the balance of `a` before `a` loses it. */
  function Gifted(j: Journaled, a: Address, target: Address): Journaled
    requires Open(j) && Loaded(j, a) && Loaded(j, target)
  {
    if a == target then j
    else
      var t := Touch(j, target);
      t.(world := Put(t.world, target, Increase(t.world.accounts[target], BASE_TOKEN_ID, Balance(j.world.accounts[a], BASE_TOKEN_ID))))
  }

  /** `a` loses its balance, and is destroyed if it was created in this transaction or before Cancun. */
  function Destroyed(j: Journaled, a: Address, target: Address): Journaled
    requires Open(j) && Loaded(j, a)
  {
    var acc := j.world.accounts[a];
    var balance := Balance(acc, BASE_TOKEN_ID);
    if acc.created || !j.spec.cancun then
      Note(j, Put(j.world, a, SetBalance(acc.(selfDestructed := true), BASE_TOKEN_ID, 0)),
           AccountDestroyed(a, target, acc.selfDestructed, balance))
    else if a != target then
      Note(j, Put(j.world, a, SetBalance(acc, BASE_TOKEN_ID, 0)), BalanceTransfer(a, target, BASE_TOKEN_ID, balance))
    else j
  }

  function Selfdestruct(j: Journaled, db: Db, a: Address, target: Address): Journaled
    requires Open(j) && Loaded(j, a)
  {
    Destroyed(Gifted(LoadAccount(j, db, target), a, target), a, target)
  }

  /** The value a slot has in the database; a created account starts empty. */
  function ColdValue(db: Db, acc: Account, a: Address, key: Word): Word {
    if acc.created then 0 else if (a, key) in db.storage then db.storage[(a, key)] else 0
  }

  function Sload(j: Journaled, db: Db, a: Address, key: Word): Journaled
    requires Open(j) && Loaded(j, a)
  {
    var acc := j.world.accounts[a];
    if key in acc.storage then j
    else
      var value := ColdValue(db, acc, a, key);
      Note(j, Put(j.world, a, acc.(storage := acc.storage[key := Slot(value, value)])), StorageChange(a, key, None))
  }

  function Sstore(j: Journaled, db: Db, a: Address, key: Word, value: Word): (Journaled, SStoreResult)
    requires Open(j) && Loaded(j, a)
  {
    var j1 := Sload(j, db, a, key);
    var acc := j1.world.accounts[a];
    var slot := acc.storage[key];
    var r := SStoreResult(slot.original, slot.present, value, key !in j.world.accounts[a].storage);
    if slot.present == value then (j1, r)
    else (Note(j1, Put(j1.world, a, acc.(storage := acc.storage[key := slot.(present := value)])),
               StorageChange(a, key, Some(slot.present))), r)
  }

  function Tstore(j: Journaled, a: Address, key: Word, value: Word): Journaled
    requires Open(j)
  {
    var w, k := j.world, (a, key);
    if value == 0 then
      if k in w.transient
      then Note(j, w.(transient := w.transient - {k}), TransientStorageChange(a, key, w.transient[k]))
      else j
    else
      var w' := w.(transient := w.transient[k := value]);
      if Tload(w, k) != value then Note(j, w', TransientStorageChange(a, key, Tload(w, k))) else j.(world := w')
  }

  function AddLog(j: Journaled, log: Log): Journaled {
    j.(logs := j.logs + [log])
  }

  function Burn(j: Journaled, db: Db, token: Word, holder: Address, amount: Word): (Journaled, bool)
    requires Open(j)
  {
    if amount == 0 then (j, false)
    else
      var j1 := LoadAccount(LoadTokenIds(j, db), db, holder);
      var acc := j1.world.accounts[holder];
      if token !in db.validIds || Balance(acc, token) < amount then (j1, false)
      else (Note(j1, Put(j1.world, holder, SetBalance(acc, token, Balance(acc, token) - amount)),
                 TokensBurned(holder, token, amount)), true)
  }

  /** `token` is the id derived from the minter and the sub id. */
  function Mint(j: Journaled, db: Db, minter: Address, recipient: Address, token: Word, amount: Word): (Journaled, bool)
    requires Open(j) && (Loaded(j, recipient) || recipient == minter)
  {
    var j1 := LoadAccount(LoadTokenIds(j, db), db, minter);
    var acc := j1.world.accounts[recipient];
    if Balance(acc, token) + amount >= TWO_256 then (j1, false)
    else
      var w := Put(j1.world, recipient, SetBalance(acc, token, Balance(acc, token) + amount));
      var ids := if token in w.tokenIds then w.tokenIds else w.tokenIds + [token];
      (Note(j1, w.(tokenIds := ids), TokensMinted(minter, recipient, token, amount)), true)
  }

  // ---- Checkpoints ----

  function Mark(j: Journaled): Checkpoint {
    Checkpoint(|j.logs|, |j.journal|)
  }

  function Enter(j: Journaled): Journaled {
    j.(depth := j.depth + 1, journal := j.journal + [[]])
  }

  function Commit(j: Journaled): Journaled
    requires j.depth > 0
  {
    j.(depth := j.depth - 1)
  }

  /** All entries of a list of journals, oldest first. */
  function Flat(journal: seq<seq<Entry>>): seq<Entry> {
    if journal == [] then [] else journal[0] + Flat(journal[1..])
  }

  /** None if undoing would panic. */
  function Revert(j: Journaled, c: Checkpoint): Option<Journaled>
    requires j.depth > 0 && c.logI <= |j.logs| && c.journalI <= |j.journal|
  {
    var w := UndoAll(j.spec.spuriousDragon, j.world, Flat(j.journal[c.journalI..]));
    if w.None? then None
    else Some(j.(world := w.value, depth := j.depth - 1, logs := j.logs[..c.logI], journal := j.journal[..c.journalI]))
  }

  // ---- Creation ----

  predicate Collides(j: Journaled, a: Address)
    requires Loaded(j, a)
  {
    var acc := j.world.accounts[a];
    acc.codeHash != KECCAK_EMPTY || acc.nonce != 0 || a in j.warm
  }

  function Emptied(storage: map<Word, Slot>): map<Word, Slot> {
    map k | k in storage :: Slot(0, 0)
  }

  /** The created account marked, emptied and touched, before any funds move. */
  function Created(j: Journaled, a: Address): Journaled
    requires Open(j) && Loaded(j, a)
  {
    var acc := j.world.accounts[a];
    var j1 := Note(j, Put(j.world, a, acc.(created := true)), AccountCreated(a));
    var j2 := j1.(world := Put(j1.world, a, j1.world.accounts[a].(storage := Emptied(acc.storage))));
    Touch(j2, a)
  }

  /** Funds move from the caller to the created account, which gets its first nonce. */
  function Funded(j: Journaled, caller: Address, a: Address, value: Word): Journaled
    requires Open(j) && Loaded(j, caller) && Loaded(j, a)
    requires Balance(j.world.accounts[a], BASE_TOKEN_ID) + value < TWO_256
  {
    var acc := j.world.accounts[a];
    var rich := SetBalance(acc, BASE_TOKEN_ID, Balance(acc, BASE_TOKEN_ID) + value);
    var w1 := Put(j.world, a, if j.spec.spuriousDragon then rich.(nonce := 1) else rich);
    var w2 := Put(w1, caller, Decrease(w1.accounts[caller], BASE_TOKEN_ID, value));
    Note(j, w2, BalanceTransfer(caller, a, BASE_TOKEN_ID, value))
  }

  /** Opens a checkpoint and creates the account in it; a failure closes the checkpoint again. The
      outer None is a panic while undoing. */
  function CreateAccount(j: Journaled, caller: Address, a: Address, value: Word): Option<(Journaled, Option<Failure>)>
    requires Open(j) && Loaded(j, caller) && Loaded(j, a)
  {
    var c, j1 := Mark(j), Enter(j);
    if Collides(j1, a) then
      var back := Revert(j1, c);
      if back.None? then None else Some((back.value, Some(CreateCollision)))
    else
      var j2 := Created(j1, a);
      if Balance(j2.world.accounts[a], BASE_TOKEN_ID) + value >= TWO_256 then
        var back := Revert(j2, c);
        if back.None? then None else Some((back.value, Some(OverflowPayment)))
      else Some((Funded(j2, caller, a, value), None))
  }
}
