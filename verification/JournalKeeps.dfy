/** Every operation records enough to undo itself. */
module JournalKeeps {
  import opened Prelude
  import opened JournalState
  import opened JournalEquiv
  import opened JournalOps

  lemma {:induction false} FlatConcat(a: seq<seq<Entry>>, b: seq<seq<Entry>>)
    ensures Flat(a + b) == Flat(a) + Flat(b)
    decreases |a|
  {
    if a == [] {
      assert a + b == b;
    } else {
      assert (a + b)[1..] == a[1..] + b;
      FlatConcat(a[1..], b);
    }
  }

  lemma FlatOne(es: seq<Entry>)
    ensures Flat([es]) == es
  {
    assert [es][1..] == [];
  }

  /** What the token id list may do while `entries` are recorded: it only grows, and it leaves the
      empty list only together with a recorded load. */
  predicate IdsKept(ids: seq<Word>, entries: seq<Entry>, ids': seq<Word>) {
    if TokenIdsLoaded in entries then ids == [] else ids <= ids' && (ids == [] ==> ids' == [])
  }

  function Added(j: Journaled, j': Journaled): seq<Entry>
    requires |Flat(j.journal)| <= |Flat(j'.journal)|
  {
    Flat(j'.journal)[|Flat(j.journal)|..]
  }

  /** From j to j' the journal only grew, by entries that undo exactly what happened. */
  ghost predicate KeepsWorld(view: View, j: Journaled, j': Journaled) {
    && Open(j) && |j.journal| <= |j'.journal|
    && j'.journal[..|j.journal| - 1] == j.journal[..|j.journal| - 1]
    && Flat(j.journal) <= Flat(j'.journal)
    && Undoes(view, j.spec.spuriousDragon, j.world, Added(j, j'), j'.world)
    && j.logs <= j'.logs && j'.depth == j.depth && j'.spec == j.spec && j'.warm == j.warm
  }

  ghost predicate Keeps(view: View, j: Journaled, j': Journaled) {
    KeepsWorld(view, j, j') && IdsKept(j.world.tokenIds, Added(j, j'), j'.world.tokenIds)
  }

  lemma KeepsRefl(view: View, j: Journaled)
    requires Open(j)
    ensures Keeps(view, j, j)
  {
    EquivRefl(view, j.spec.spuriousDragon, j.world);
    assert Added(j, j) == [];
  }

  lemma KeepsTrans(view: View, j: Journaled, j1: Journaled, j2: Journaled)
    requires Keeps(view, j, j1) && Keeps(view, j1, j2)
    ensures Keeps(view, j, j2)
  {
    KeepsWorldTrans(view, j, j1, j2);
  }

  lemma KeepsWorldTrans(view: View, j: Journaled, j1: Journaled, j2: Journaled)
    requires KeepsWorld(view, j, j1) && KeepsWorld(view, j1, j2)
    ensures KeepsWorld(view, j, j2) && Added(j, j2) == Added(j, j1) + Added(j1, j2)
  {
    assert Added(j, j2) == Added(j, j1) + Added(j1, j2);
    UndoesCompose(view, j.spec.spuriousDragon, j.world, Added(j, j1), j1.world, Added(j1, j2), j2.world);
    var n := |j.journal| - 1;
    assert j2.journal[..n] == j2.journal[..|j1.journal| - 1][..n] == j1.journal[..n];
  }

  lemma NoteFlat(j: Journaled, w: World, e: Entry)
    requires Open(j)
    ensures Flat(Note(j, w, e).journal) == Flat(j.journal) + [e]
  {
    var n := |j.journal| - 1;
    var init, last := j.journal[..n], j.journal[n];
    assert j.journal == init + [last] && Note(j, w, e).journal == init + [last + [e]];
    FlatConcat(init, [last]);
    FlatConcat(init, [last + [e]]);
    FlatOne(last);
    FlatOne(last + [e]);
  }

  /** One recorded change. */
  lemma KeepsNote(view: View, j: Journaled, w: World, e: Entry)
    requires Open(j) && CanUndo(j.spec.spuriousDragon, w, e)
    requires Equiv(view, j.spec.spuriousDragon, j.world, Undo(j.spec.spuriousDragon, w, e))
    ensures KeepsWorld(view, j, Note(j, w, e)) && Added(j, Note(j, w, e)) == [e]
    ensures IdsKept(j.world.tokenIds, [e], w.tokenIds) ==> Keeps(view, j, Note(j, w, e))
  {
    NoteFlat(j, w, e);
    assert Added(j, Note(j, w, e)) == [e];
    UndoesOne(view, j.spec.spuriousDragon, j.world, e, w);
  }

  /** A change no observer sees. */
  lemma KeepsSilent(view: View, j: Journaled, w: World)
    requires Open(j) && Equiv(view, j.spec.spuriousDragon, j.world, w)
    requires j.world.tokenIds <= w.tokenIds && (j.world.tokenIds == [] ==> w.tokenIds == [])
    ensures Keeps(view, j, j.(world := w))
  {
    assert Added(j, j.(world := w)) == [];
  }

  // ---- Single accounts ----

  lemma UndoIsPut(sd: bool, w: World, a: Address, x: Account, e: Entry)
    requires Touches(e) == {a} && !e.AccountDestroyed? && !e.BalanceTransfer? && CanUndo(sd, Put(w, a, x), e)
    requires !(e.AccountTouched? && sd && a == PRECOMPILE3)
    ensures Undo(sd, Put(w, a, x), e) == Put(w, a, UndoneAccount(x, e))
  {
    assert a in Touches(e);
  }

  lemma SelfPut(w: World, a: Address)
    requires a in w.accounts
    ensures Put(w, a, w.accounts[a]) == w
  {
  }

  /** A change confined to one account. */
  lemma KeepsAccount(view: View, j: Journaled, a: Address, x: Account, e: Entry)
    requires Open(j) && Loaded(j, a) && a in Touches(e) && Touches(e) == {a} && !e.AccountDestroyed? && !e.BalanceTransfer?
    requires CanUndo(j.spec.spuriousDragon, Put(j.world, a, x), e)
    requires SameAccount(view, j.spec.spuriousDragon, a, j.world.accounts[a], UndoneAccount(x, e))
    requires e.AccountTouched? ==> x == j.world.accounts[a].(touched := true)
    ensures Keeps(view, j, Note(j, Put(j.world, a, x), e))
  {
    var sd, w := j.spec.spuriousDragon, Put(j.world, a, x);
    var kept := e.AccountTouched? && sd && a == PRECOMPILE3;
    EquivRefl(view, sd, j.world);
    SelfPut(j.world, a);
    if kept {
      assert SameAccount(view, sd, a, j.world.accounts[a], x);
      EquivPut(view, sd, j.world, j.world, a, j.world.accounts[a], x);
    } else {
      UndoIsPut(sd, j.world, a, x, e);
      EquivPut(view, sd, j.world, j.world, a, j.world.accounts[a], UndoneAccount(x, e));
    }
    KeepsNote(view, j, w, e);
  }

  lemma KeepsTouch(view: View, j: Journaled, a: Address)
    requires Open(j)
    ensures Keeps(view, j, Touch(j, a)) && Touch(j, a).world.accounts.Keys == j.world.accounts.Keys
  {
    if Loaded(j, a) && !j.world.accounts[a].touched {
      KeepsAccount(view, j, a, j.world.accounts[a].(touched := true), AccountTouched(a));
    } else {
      KeepsRefl(view, j);
    }
  }

  lemma KeepsLoad(view: View, j: Journaled, db: Db, a: Address)
    requires Open(j)
    ensures Keeps(view, j, LoadAccount(j, db, a)) && LoadAccount(j, db, a).world.accounts.Keys == j.world.accounts.Keys + {a}
  {
    if Loaded(j, a) {
      KeepsRefl(view, j);
    } else {
      var w := Put(j.world, a, FromDb(db, a));
      assert Undo(j.spec.spuriousDragon, w, AccountLoaded(a)) == j.world;
      EquivRefl(view, j.spec.spuriousDragon, j.world);
      KeepsNote(view, j, w, AccountLoaded(a));
    }
  }

  lemma KeepsLoadIds(view: View, j: Journaled, db: Db)
    requires Open(j)
    ensures Keeps(view, j, LoadTokenIds(j, db)) && LoadTokenIds(j, db).world.accounts == j.world.accounts
  {
    if j.world.tokenIds != [] {
      KeepsRefl(view, j);
    } else {
      EquivRefl(view, j.spec.spuriousDragon, j.world);
      KeepsNote(view, j, j.world.(tokenIds := db.tokenIds), TokenIdsLoaded);
    }
  }

  lemma KeepsSetCode(view: View, j: Journaled, a: Address, codeHash: Word)
    requires Open(j) && Loaded(j, a) && (view == Exact ==> j.world.accounts[a].codeHash == KECCAK_EMPTY)
    ensures Keeps(view, j, SetCode(j, a, codeHash))
  {
    KeepsTouch(view, j, a);
    var j1 := Touch(j, a);
    KeepsAccount(view, j1, a, j1.world.accounts[a].(codeHash := codeHash), CodeChange(a));
    KeepsTrans(view, j, j1, SetCode(j, a, codeHash));
  }

  lemma KeepsIncNonce(view: View, j: Journaled, a: Address)
    requires Open(j) && Loaded(j, a)
    ensures Keeps(view, j, IncNonce(j, a))
  {
    if j.world.accounts[a].nonce >= MAX_NONCE {
      KeepsRefl(view, j);
    } else {
      KeepsTouch(view, j, a);
      var j1 := Touch(j, a);
      var x := j1.world.accounts[a].(nonce := j1.world.accounts[a].nonce + 1);
      KeepsAccount(view, j1, a, x, NonceChange(a));
      KeepsTrans(view, j, j1, IncNonce(j, a));
    }
  }

  lemma KeepsSload(view: View, j: Journaled, db: Db, a: Address, key: Word)
    requires Open(j) && Loaded(j, a)
    ensures Keeps(view, j, Sload(j, db, a, key)) && Loaded(Sload(j, db, a, key), a)
  {
    var acc := j.world.accounts[a];
    if key in acc.storage {
      KeepsRefl(view, j);
    } else {
      var value := ColdValue(db, acc, a, key);
      var x := acc.(storage := acc.storage[key := Slot(value, value)]);
      assert UndoneAccount(x, StorageChange(a, key, None)) == acc;
      KeepsAccount(view, j, a, x, StorageChange(a, key, None));
    }
  }

  lemma KeepsSstore(view: View, j: Journaled, db: Db, a: Address, key: Word, value: Word)
    requires Open(j) && Loaded(j, a)
    ensures Keeps(view, j, Sstore(j, db, a, key, value).0)
  {
    KeepsSload(view, j, db, a, key);
    var j1 := Sload(j, db, a, key);
    var acc := j1.world.accounts[a];
    var slot := acc.storage[key];
    if slot.present != value {
      var x, e := acc.(storage := acc.storage[key := slot.(present := value)]), StorageChange(a, key, Some(slot.present));
      assert UndoneAccount(x, e) == acc;
      KeepsAccount(view, j1, a, x, e);
      KeepsTrans(view, j, j1, Sstore(j, db, a, key, value).0);
    }
  }

  lemma KeepsTstore(view: View, j: Journaled, a: Address, key: Word, value: Word)
    requires Open(j)
    ensures Keeps(view, j, Tstore(j, a, key, value))
  {
    var w, k := j.world, (a, key);
    var j', had := Tstore(j, a, key, value), Tload(w, k);
    if value == 0 && k !in w.transient {
      KeepsRefl(view, j);
    } else if value != 0 && had == value {
      KeepsSilent(view, j, j'.world);
    } else {
      var e := TransientStorageChange(a, key, had);
      forall x ensures Tload(w, x) == Tload(Undo(j.spec.spuriousDragon, j'.world, e), x) {}
      KeepsNote(view, j, j'.world, e);
    }
  }

  lemma KeepsLog(view: View, j: Journaled, log: Log)
    requires Open(j)
    ensures Keeps(view, j, AddLog(j, log))
  {
    KeepsRefl(view, j);
  }
}
