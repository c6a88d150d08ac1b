/** Accounts, journal entries and the undoing of entries. */
module JournalState {
  import opened Prelude

  type Address = nat

  const PRECOMPILE3: Address := 3
  const BASE_TOKEN_ID: Word := 0
  const MAX_NONCE: nat := 0xFFFF_FFFF_FFFF_FFFF
  /** The hash of empty code. */
  const KECCAK_EMPTY: Word := 0xc5d2460186f7233c927e7db2dcc703c0e500b653ca82273b7bfad8045d85a470

  datatype Slot = Slot(original: Word, present: Word)

  datatype Account = Account(
    balances: map<Word, Word>, nonce: nat, codeHash: Word, storage: map<Word, Slot>,
    created: bool, selfDestructed: bool, touched: bool, notExisting: bool)

  /** The database, fixed during a transaction. */
  datatype Db = Db(accounts: map<Address, DbAccount>, storage: map<(Address, Word), Word>, tokenIds: seq<Word>, validIds: set<Word>)
  datatype DbAccount = DbAccount(balances: map<Word, Word>, nonce: nat, codeHash: Word)

  datatype World = World(accounts: map<Address, Account>, transient: map<(Address, Word), Word>, tokenIds: seq<Word>)

  datatype Entry =
    | AccountLoaded(address: Address)
    | AccountDestroyed(address: Address, target: Address, wasDestroyed: bool, hadBalance: Word)
    | AccountTouched(address: Address)
    | BalanceTransfer(from: Address, to: Address, token: Word, amount: Word)
    | NonceChange(address: Address)
    | AccountCreated(address: Address)
    | StorageChange(address: Address, key: Word, hadValue: Option<Word>)
    | TransientStorageChange(address: Address, key: Word, had: Word)
    | CodeChange(address: Address)
    | TokensBurned(holder: Address, token: Word, amount: Word)
    | TokenIdsLoaded
    | TokensMinted(minter: Address, recipient: Address, token: Word, amount: Word)

  function WrappingAdd(x: Word, y: Word): Word {
    if x + y < TWO_256 then x + y else x + y - TWO_256
  }

  function WrappingSub(x: Word, y: Word): Word {
    if x >= y then x - y else x - y + TWO_256
  }

  /** A token never seen has balance zero. */
  function BalanceIn(balances: map<Word, Word>, token: Word): Word {
    if token in balances then balances[token] else 0
  }

  function Balance(a: Account, token: Word): Word {
    BalanceIn(a.balances, token)
  }

  /** Emptiness looks at the entries of the balance map, and not only at what they read. */
  predicate IsEmpty(a: Account) {
    && (a.codeHash == KECCAK_EMPTY || a.codeHash == 0)
    && (a.balances == map[] || (a.balances.Keys == {BASE_TOKEN_ID} && a.balances[BASE_TOKEN_ID] == 0))
    && a.nonce == 0
  }

  function SetBalance(a: Account, token: Word, amount: Word): Account {
    a.(balances := a.balances[token := amount])
  }

  function Increase(a: Account, token: Word, amount: Word): Account {
    SetBalance(a, token, WrappingAdd(Balance(a, token), amount))
  }

  function Decrease(a: Account, token: Word, amount: Word): Account {
    SetBalance(a, token, WrappingSub(Balance(a, token), amount))
  }

  function Put(w: World, address: Address, a: Account): World {
    w.(accounts := w.accounts[address := a])
  }

  function Tload(w: World, key: (Address, Word)): Word {
    if key in w.transient then w.transient[key] else 0
  }

  /** The accounts whose state an entry's undoing looks up. */
  function Touches(e: Entry): set<Address> {
    match e
    case AccountLoaded(_) => {}
    case AccountDestroyed(a, target, _, _) => {a, target}
    case AccountTouched(a) => {a}
    case BalanceTransfer(from, to, _, _) => {from, to}
    case NonceChange(a) => {a}
    case AccountCreated(a) => {a}
    case StorageChange(a, _, _) => {a}
    case TransientStorageChange(_, _, _) => {}
    case CodeChange(a) => {a}
    case TokensBurned(holder, _, _) => {holder}
    case TokenIdsLoaded => {}
    case TokensMinted(_, recipient, _, _) => {recipient}
  }

  /** Undoing e does not panic: every account and slot it looks up is there, and no nonce underflows. */
  predicate CanUndo(spuriousDragon: bool, w: World, e: Entry) {
    if e.AccountTouched? && spuriousDragon && e.address == PRECOMPILE3 then true
    else
      && Touches(e) <= w.accounts.Keys
      && (e.NonceChange? ==> w.accounts[e.address].nonce > 0)
      && (e.StorageChange? && e.hadValue.Some? ==> e.key in w.accounts[e.address].storage)
  }

  /** The world with entry e undone. */
  function Undo(spuriousDragon: bool, w: World, e: Entry): World
    requires CanUndo(spuriousDragon, w, e)
  {
    match e
    case AccountLoaded(a) => w.(accounts := w.accounts - {a})
    case AccountTouched(a) =>
      if spuriousDragon && a == PRECOMPILE3 then w else Put(w, a, w.accounts[a].(touched := false))
    case AccountDestroyed(a, target, wasDestroyed, hadBalance) =>
      var w1 := Put(w, a, Increase(w.accounts[a].(selfDestructed := wasDestroyed), BASE_TOKEN_ID, hadBalance));
      if a == target then w1 else Put(w1, target, Decrease(w1.accounts[target], BASE_TOKEN_ID, hadBalance))
    case BalanceTransfer(from, to, token, amount) =>
      var w1 := Put(w, from, Increase(w.accounts[from], token, amount));
      Put(w1, to, Decrease(w1.accounts[to], token, amount))
    case NonceChange(a) => Put(w, a, w.accounts[a].(nonce := w.accounts[a].nonce - 1))
    case AccountCreated(a) => Put(w, a, w.accounts[a].(created := false, nonce := 0))
    case StorageChange(a, key, had) =>
      var storage := w.accounts[a].storage;
      var storage' := if had.Some? then storage[key := storage[key].(present := had.value)] else storage - {key};
      Put(w, a, w.accounts[a].(storage := storage'))
    case TransientStorageChange(a, key, had) =>
      w.(transient := if had == 0 then w.transient - {(a, key)} else w.transient[(a, key) := had])
    case CodeChange(a) => Put(w, a, w.accounts[a].(codeHash := KECCAK_EMPTY))
    case TokensBurned(holder, token, amount) => Put(w, holder, Increase(w.accounts[holder], token, amount))
    case TokenIdsLoaded => w.(tokenIds := [])
    case TokensMinted(_, recipient, token, amount) => Put(w, recipient, Decrease(w.accounts[recipient], token, amount))
  }

  /** Undoing a list of entries, newest first; None if some lookup on the way would panic. */
  function UndoAll(spuriousDragon: bool, w: World, entries: seq<Entry>): Option<World>
    decreases |entries|
  {
    if entries == [] then Some(w)
    else
      var last := entries[|entries| - 1];
      if CanUndo(spuriousDragon, w, last)
      then UndoAll(spuriousDragon, Undo(spuriousDragon, w, last), entries[..|entries| - 1])
      else None
  }

  lemma {:induction false} UndoAllConcat(sd: bool, w: World, a: seq<Entry>, b: seq<Entry>)
    ensures UndoAll(sd, w, a + b) ==
            if UndoAll(sd, w, b).Some? then UndoAll(sd, UndoAll(sd, w, b).value, a) else None
    decreases |b|
  {
    if b == [] {
      assert a + b == a;
    } else {
      var last := b[|b| - 1];
      assert (a + b)[|a + b| - 1] == last;
      assert (a + b)[..|a + b| - 1] == a + b[..|b| - 1];
      if CanUndo(sd, w, last) {
        UndoAllConcat(sd, Undo(sd, w, last), a, b[..|b| - 1]);
      }
    }
  }
}
