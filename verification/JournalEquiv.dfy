/** When two worlds are the same for every observer, and that undoing respects it. */
module JournalEquiv {
  import opened Prelude
  import opened JournalState

  /** How much of a world is compared. Shape: what decides whether an undo is defined. Funds: token
      balances too. Exact: everything but representation, where balances are compared through lookup
      and the touched flag except where undoing keeps it. */
  datatype View = Shape | Funds | Exact

  ghost predicate SameReadings(x: Account, y: Account) {
    forall t {:trigger Balance(x, t)} {:trigger Balance(y, t)} :: Balance(x, t) == Balance(y, t)
  }

  /** Two versions of the account at address `a`. */
  ghost predicate SameAccount(view: View, sd: bool, a: Address, x: Account, y: Account) {
    && x.nonce == y.nonce && x.storage.Keys == y.storage.Keys
    && (view != Shape ==> SameReadings(x, y))
    && (view == Exact ==>
          && x.codeHash == y.codeHash && x.storage == y.storage
          && x.created == y.created && x.selfDestructed == y.selfDestructed && x.notExisting == y.notExisting
          && (x.touched == y.touched || (sd && a == PRECOMPILE3)))
  }

  ghost predicate Equiv(view: View, sd: bool, v: World, w: World) {
    && v.accounts.Keys == w.accounts.Keys
    && (forall a {:trigger SameAccount(view, sd, a, v.accounts[a], w.accounts[a])} ::
          a in v.accounts ==> SameAccount(view, sd, a, v.accounts[a], w.accounts[a]))
    && (forall k {:trigger Tload(v, k)} {:trigger Tload(w, k)} :: Tload(v, k) == Tload(w, k))
  }

  lemma EquivTrans(view: View, sd: bool, u: World, v: World, w: World)
    requires Equiv(view, sd, u, v) && Equiv(view, sd, v, w)
    ensures Equiv(view, sd, u, w)
  {
    forall a | a in u.accounts ensures SameAccount(view, sd, a, u.accounts[a], w.accounts[a]) {
      assert SameAccount(view, sd, a, u.accounts[a], v.accounts[a]);
      assert SameAccount(view, sd, a, v.accounts[a], w.accounts[a]);
    }
  }

  lemma EquivPut(view: View, sd: bool, v: World, w: World, a: Address, x: Account, y: Account)
    requires Equiv(view, sd, v, w) && SameAccount(view, sd, a, x, y)
    ensures Equiv(view, sd, Put(v, a, x), Put(w, a, y))
  {
    var v', w' := Put(v, a, x), Put(w, a, y);
    forall k ensures Tload(v', k) == Tload(w', k) {
      assert Tload(v, k) == Tload(w, k);
    }
  }

  lemma SameSet(view: View, sd: bool, a: Address, x: Account, y: Account, token: Word, xAmount: Word, yAmount: Word)
    requires SameAccount(view, sd, a, x, y) && (view != Shape ==> xAmount == yAmount)
    ensures SameAccount(view, sd, a, SetBalance(x, token, xAmount), SetBalance(y, token, yAmount))
  {
    if view != Shape {
      SetReads(x, y, token, xAmount);
    }
  }

  lemma SetReads(x: Account, y: Account, token: Word, amount: Word)
    requires SameReadings(x, y)
    ensures SameReadings(SetBalance(x, token, amount), SetBalance(y, token, amount))
  {
    forall t ensures Balance(SetBalance(x, token, amount), t) == Balance(SetBalance(y, token, amount), t) {
      assert Balance(x, t) == Balance(y, t);
    }
  }

  lemma SameIncrease(view: View, sd: bool, a: Address, x: Account, y: Account, token: Word, amount: Word)
    requires SameAccount(view, sd, a, x, y)
    ensures SameAccount(view, sd, a, Increase(x, token, amount), Increase(y, token, amount))
    ensures SameAccount(view, sd, a, Decrease(x, token, amount), Decrease(y, token, amount))
  {
    var xHas, yHas := Balance(x, token), Balance(y, token);
    SameSet(view, sd, a, x, y, token, WrappingAdd(xHas, amount), WrappingAdd(yHas, amount));
    SameSet(view, sd, a, x, y, token, WrappingSub(xHas, amount), WrappingSub(yHas, amount));
  }

  lemma CanUndoRespects(view: View, sd: bool, v: World, w: World, e: Entry)
    requires Equiv(view, sd, v, w)
    ensures CanUndo(sd, v, e) <==> CanUndo(sd, w, e)
  {
    forall a | a in v.accounts ensures SameAccount(view, sd, a, v.accounts[a], w.accounts[a]) {}
  }

  /** The account a one-account entry leaves behind when undone. */
  function UndoneAccount(x: Account, e: Entry): Account
    requires e.StorageChange? && e.hadValue.Some? ==> e.key in x.storage
    requires e.NonceChange? ==> x.nonce > 0
  {
    match e
    case AccountTouched(_) => x.(touched := false)
    case NonceChange(_) => x.(nonce := x.nonce - 1)
    case AccountCreated(_) => x.(created := false, nonce := 0)
    case CodeChange(_) => x.(codeHash := KECCAK_EMPTY)
    case StorageChange(_, key, had) =>
      x.(storage := if had.Some? then x.storage[key := x.storage[key].(present := had.value)] else x.storage - {key})
    case TokensBurned(_, token, amount) => Increase(x, token, amount)
    case TokensMinted(_, _, token, amount) => Decrease(x, token, amount)
    case _ => x
  }

  lemma SameUndone(view: View, sd: bool, a: Address, x: Account, y: Account, e: Entry)
    requires SameAccount(view, sd, a, x, y)
    requires e.StorageChange? && e.hadValue.Some? ==> e.key in x.storage
    requires e.NonceChange? ==> x.nonce > 0
    ensures SameAccount(view, sd, a, UndoneAccount(x, e), UndoneAccount(y, e))
  {
    if e.TokensBurned? || e.TokensMinted? {
      SameIncrease(view, sd, a, x, y, e.token, e.amount);
    } else if e.StorageChange? {
      SameStored(view, sd, a, x, y, e);
    } else if e.NonceChange? || e.AccountCreated? {
      SameNonce(view, sd, a, x, y, e);
    } else {
      SameMarks(view, sd, a, x, y, e);
    }
  }

  lemma SameNonce(view: View, sd: bool, a: Address, x: Account, y: Account, e: Entry)
    requires SameAccount(view, sd, a, x, y) && (e.NonceChange? || e.AccountCreated?) && (e.NonceChange? ==> x.nonce > 0)
    ensures SameAccount(view, sd, a, UndoneAccount(x, e), UndoneAccount(y, e))
  {
    if view != Shape {
      KeepsReadings(x, y, UndoneAccount(x, e), UndoneAccount(y, e));
    }
  }

  lemma SameMarks(view: View, sd: bool, a: Address, x: Account, y: Account, e: Entry)
    requires SameAccount(view, sd, a, x, y)
    requires !e.TokensBurned? && !e.TokensMinted? && !e.StorageChange? && !e.NonceChange? && !e.AccountCreated?
    ensures SameAccount(view, sd, a, UndoneAccount(x, e), UndoneAccount(y, e))
  {
    if view != Shape {
      KeepsReadings(x, y, UndoneAccount(x, e), UndoneAccount(y, e));
    }
  }

  lemma SameStored(view: View, sd: bool, a: Address, x: Account, y: Account, e: Entry)
    requires SameAccount(view, sd, a, x, y) && e.StorageChange? && (e.hadValue.Some? ==> e.key in x.storage)
    ensures SameAccount(view, sd, a, UndoneAccount(x, e), UndoneAccount(y, e))
  {
    var x', y' := UndoneAccount(x, e), UndoneAccount(y, e);
    assert x'.storage.Keys == if e.hadValue.Some? then x.storage.Keys else x.storage.Keys - {e.key};
    assert y'.storage.Keys == if e.hadValue.Some? then y.storage.Keys else y.storage.Keys - {e.key};
    if view != Shape {
      KeepsReadings(x, y, x', y');
    }
  }

  lemma KeepsReadings(x: Account, y: Account, x': Account, y': Account)
    requires SameReadings(x, y) && x'.balances == x.balances && y'.balances == y.balances
    ensures SameReadings(x', y')
  {
    forall t ensures Balance(x', t) == Balance(y', t) {
      assert Balance(x, t) == Balance(y, t);
    }
  }

  lemma UndoOneAccount(view: View, sd: bool, v: World, w: World, a: Address, e: Entry)
    requires Equiv(view, sd, v, w) && CanUndo(sd, v, e) && CanUndo(sd, w, e) && Touches(e) == {a}
    requires !e.BalanceTransfer? && !e.AccountDestroyed? && !(e.AccountTouched? && sd && a == PRECOMPILE3)
    ensures Equiv(view, sd, Undo(sd, v, e), Undo(sd, w, e))
  {
    assert a in Touches(e);
    var x, y := v.accounts[a], w.accounts[a];
    SameUndone(view, sd, a, x, y, e);
    EquivPut(view, sd, v, w, a, UndoneAccount(x, e), UndoneAccount(y, e));
    assert Undo(sd, v, e) == Put(v, a, UndoneAccount(x, e)) && Undo(sd, w, e) == Put(w, a, UndoneAccount(y, e));
  }

  lemma UndoTwoAccounts(view: View, sd: bool, v: World, w: World, e: Entry)
    requires Equiv(view, sd, v, w) && CanUndo(sd, v, e) && CanUndo(sd, w, e)
    requires e.AccountDestroyed? || e.BalanceTransfer?
    ensures Equiv(view, sd, Undo(sd, v, e), Undo(sd, w, e))
  {
    if e.BalanceTransfer? {
      assert e.from in Touches(e) && e.to in Touches(e);
      UndoMove(view, sd, v, w, e.from, v.accounts[e.from], w.accounts[e.from], e.to, e.token, e.amount);
    } else {
      var a, was := e.address, e.wasDestroyed;
      assert a in Touches(e) && e.target in Touches(e);
      SameMarked(view, sd, a, v.accounts[a], w.accounts[a], was);
      UndoMove(view, sd, v, w, a, v.accounts[a].(selfDestructed := was), w.accounts[a].(selfDestructed := was),
               e.target, BASE_TOKEN_ID, e.hadBalance);
    }
  }

  lemma SameMarked(view: View, sd: bool, a: Address, x: Account, y: Account, was: bool)
    requires SameAccount(view, sd, a, x, y)
    ensures SameAccount(view, sd, a, x.(selfDestructed := was), y.(selfDestructed := was))
  {
    if view != Shape {
      KeepsReadings(x, y, x.(selfDestructed := was), y.(selfDestructed := was));
    }
  }

  lemma UndoNoAccount(view: View, sd: bool, v: World, w: World, e: Entry)
    requires Equiv(view, sd, v, w) && CanUndo(sd, v, e) && CanUndo(sd, w, e)
    requires e.AccountLoaded? || e.TokenIdsLoaded? || e.TransientStorageChange?
    ensures Equiv(view, sd, Undo(sd, v, e), Undo(sd, w, e))
  {
    var v', w' := Undo(sd, v, e), Undo(sd, w, e);
    forall a | a in v'.accounts ensures SameAccount(view, sd, a, v'.accounts[a], w'.accounts[a]) {
      assert SameAccount(view, sd, a, v.accounts[a], w.accounts[a]);
    }
    forall k ensures Tload(v', k) == Tload(w', k) {
      assert Tload(v, k) == Tload(w, k);
    }
  }

  /** Undoing the same entry in equivalent worlds is defined in both or neither, with equivalent
      results. */
  lemma UndoRespects(view: View, sd: bool, v: World, w: World, e: Entry)
    requires Equiv(view, sd, v, w)
    ensures CanUndo(sd, v, e) <==> CanUndo(sd, w, e)
    ensures CanUndo(sd, v, e) ==> Equiv(view, sd, Undo(sd, v, e), Undo(sd, w, e))
  {
    CanUndoRespects(view, sd, v, w, e);
    if CanUndo(sd, v, e) {
      match e
      case AccountLoaded(_) => UndoNoAccount(view, sd, v, w, e);
      case TokenIdsLoaded => UndoNoAccount(view, sd, v, w, e);
      case TransientStorageChange(_, _, _) => UndoNoAccount(view, sd, v, w, e);
      case AccountDestroyed(_, _, _, _) => UndoTwoAccounts(view, sd, v, w, e);
      case BalanceTransfer(_, _, _, _) => UndoTwoAccounts(view, sd, v, w, e);
      case AccountTouched(a) =>
        if !(sd && a == PRECOMPILE3) {
          UndoOneAccount(view, sd, v, w, a, e);
        }
      case NonceChange(a) => UndoOneAccount(view, sd, v, w, a, e);
      case AccountCreated(a) => UndoOneAccount(view, sd, v, w, a, e);
      case StorageChange(a, _, _) => UndoOneAccount(view, sd, v, w, a, e);
      case CodeChange(a) => UndoOneAccount(view, sd, v, w, a, e);
      case TokensBurned(a, _, _) => UndoOneAccount(view, sd, v, w, a, e);
      case TokensMinted(_, a, _, _) => UndoOneAccount(view, sd, v, w, a, e);
    }
  }

  /** Handing `amount` back from `to` to `from`. */
  lemma UndoMove(view: View, sd: bool, v: World, w: World, from: Address, x: Account, y: Account, to: Address, token: Word, amount: Word)
    requires Equiv(view, sd, v, w) && SameAccount(view, sd, from, x, y) && to in v.accounts
    ensures var v1, w1 := Put(v, from, Increase(x, token, amount)), Put(w, from, Increase(y, token, amount));
            && Equiv(view, sd, v1, w1)
            && Equiv(view, sd, Put(v1, to, Decrease(v1.accounts[to], token, amount)),
                                Put(w1, to, Decrease(w1.accounts[to], token, amount)))
  {
    var v1, w1 := Put(v, from, Increase(x, token, amount)), Put(w, from, Increase(y, token, amount));
    SameIncrease(view, sd, from, x, y, token, amount);
    EquivPut(view, sd, v, w, from, Increase(x, token, amount), Increase(y, token, amount));
    SameIncrease(view, sd, to, v1.accounts[to], w1.accounts[to], token, amount);
    EquivPut(view, sd, v1, w1, to, Decrease(v1.accounts[to], token, amount), Decrease(w1.accounts[to], token, amount));
  }

  lemma {:induction false} UndoAllRespects(view: View, sd: bool, v: World, w: World, entries: seq<Entry>)
    requires Equiv(view, sd, v, w)
    ensures UndoAll(sd, v, entries).Some? <==> UndoAll(sd, w, entries).Some?
    ensures UndoAll(sd, v, entries).Some? ==> Equiv(view, sd, UndoAll(sd, v, entries).value, UndoAll(sd, w, entries).value)
    decreases |entries|
  {
    if entries != [] {
      var last := entries[|entries| - 1];
      UndoRespects(view, sd, v, w, last);
      if CanUndo(sd, v, last) {
        UndoAllRespects(view, sd, Undo(sd, v, last), Undo(sd, w, last), entries[..|entries| - 1]);
      }
    }
  }

  /** `entries` lead from a world equivalent to v to w: undoing them from w is defined and gives v back. */
  ghost predicate Undoes(view: View, sd: bool, v: World, entries: seq<Entry>, w: World) {
    UndoAll(sd, w, entries).Some? && Equiv(view, sd, v, UndoAll(sd, w, entries).value)
  }

  lemma UndoesCompose(view: View, sd: bool, u: World, a: seq<Entry>, v: World, b: seq<Entry>, w: World)
    requires Undoes(view, sd, u, a, v) && Undoes(view, sd, v, b, w)
    ensures Undoes(view, sd, u, a + b, w)
  {
    UndoAllConcat(sd, w, a, b);
    var v' := UndoAll(sd, w, b).value;
    UndoAllRespects(view, sd, v, v', a);
    EquivTrans(view, sd, u, UndoAll(sd, v, a).value, UndoAll(sd, v', a).value);
  }

  lemma EquivRefl(view: View, sd: bool, w: World)
    ensures Equiv(view, sd, w, w)
  {
  }

  lemma UndoesOne(view: View, sd: bool, v: World, e: Entry, w: World)
    requires CanUndo(sd, w, e) && Equiv(view, sd, v, Undo(sd, w, e))
    ensures Undoes(view, sd, v, [e], w)
  {
    assert [e][..0] == [];
  }
}
