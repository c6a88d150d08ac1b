/** The operations that move token balances record enough to undo themselves. */
module JournalFunds {
  import opened Prelude
  import opened JournalState
  import opened JournalEquiv
  import opened JournalOps
  import opened JournalKeeps

  /** Rewriting balances so that each token reads as before changes nothing observable. */
  lemma RereadSame(view: View, sd: bool, a: Address, x: Account, y: Account)
    requires y == x.(balances := y.balances) && (view != Shape ==> forall t :: Balance(x, t) == Balance(y, t))
    ensures SameAccount(view, sd, a, x, y)
  {
  }

  /** The world after `amount` went from `from` to `to`. */
  function Paid(w: World, from: Address, to: Address, token: Word, amount: Word): World
    requires from in w.accounts && to in w.accounts && amount <= Balance(w.accounts[from], token)
    requires from != to ==> Balance(w.accounts[to], token) + amount < TWO_256
  {
    var w1 := Put(w, from, SetBalance(w.accounts[from], token, Balance(w.accounts[from], token) - amount));
    Put(w1, to, SetBalance(w1.accounts[to], token, Balance(w1.accounts[to], token) + amount))
  }

  lemma PutPut(view: View, sd: bool, w: World, v: World, a: Address, b: Address)
    requires a in w.accounts && b in w.accounts && v.accounts.Keys == w.accounts.Keys && v.transient == w.transient
    requires forall c :: c in w.accounts && c != a && c != b ==> v.accounts[c] == w.accounts[c]
    requires SameAccount(view, sd, a, w.accounts[a], v.accounts[a]) && SameAccount(view, sd, b, w.accounts[b], v.accounts[b])
    ensures Equiv(view, sd, w, v)
  {
    forall c | c in w.accounts ensures SameAccount(view, sd, c, w.accounts[c], v.accounts[c]) {}
    forall k ensures Tload(w, k) == Tload(v, k) {}
  }

  lemma SetTwice(x: Account, token: Word, first: Word, second: Word)
    ensures SetBalance(SetBalance(x, token, first), token, second) == SetBalance(x, token, second)
    ensures Balance(SetBalance(x, token, first), token) == first
  {
    assert x.balances[token := first][token := second] == x.balances[token := second];
  }

  /** What is taken from a balance and given back is there again, in either order. */
  lemma ThereAndBack(x: Account, token: Word, amount: Word)
    ensures Increase(Decrease(x, token, amount), token, amount) == SetBalance(x, token, Balance(x, token))
    ensures Decrease(Increase(x, token, amount), token, amount) == SetBalance(x, token, Balance(x, token))
  {
    SetTwice(x, token, WrappingSub(Balance(x, token), amount), Balance(x, token));
    SetTwice(x, token, WrappingAdd(Balance(x, token), amount), Balance(x, token));
  }

  /** Writing a balance back as it reads changes nothing observable. */
  lemma SetBack(view: View, sd: bool, a: Address, x: Account, token: Word)
    ensures SameAccount(view, sd, a, x, SetBalance(x, token, Balance(x, token)))
  {
    forall t ensures Balance(x, t) == Balance(SetBalance(x, token, Balance(x, token)), t) {}
    RereadSame(view, sd, a, x, SetBalance(x, token, Balance(x, token)));
  }

  /** A world in which two accounts had a balance written back as it reads. */
  lemma TwoSetBack(view: View, sd: bool, w: World, v: World, a: Address, b: Address, token: Word)
    requires a in w.accounts && b in w.accounts && v.transient == w.transient
    requires var x, y := w.accounts[a], w.accounts[b];
             v.accounts == w.accounts[a := SetBalance(x, token, Balance(x, token))][b := SetBalance(y, token, Balance(y, token))]
    ensures Equiv(view, sd, w, v)
  {
    SetBack(view, sd, a, w.accounts[a], token);
    SetBack(view, sd, b, w.accounts[b], token);
    PutPut(view, sd, w, v, a, b);
  }

  lemma PaymentUndone(view: View, sd: bool, w: World, from: Address, to: Address, token: Word, amount: Word)
    requires from in w.accounts && to in w.accounts && amount <= Balance(w.accounts[from], token)
    requires from != to ==> Balance(w.accounts[to], token) + amount < TWO_256
    ensures Equiv(view, sd, w, Undo(sd, Paid(w, from, to, token, amount), BalanceTransfer(from, to, token, amount)))
  {
    var v := Undo(sd, Paid(w, from, to, token, amount), BalanceTransfer(from, to, token, amount));
    if from == to {
      PaidSelf(sd, w, from, token, amount);
    } else {
      PaidOther(sd, w, from, to, token, amount);
    }
    TwoSetBack(view, sd, w, v, from, to, token);
  }

  lemma PaidSelf(sd: bool, w: World, a: Address, token: Word, amount: Word)
    requires a in w.accounts && amount <= Balance(w.accounts[a], token)
    ensures var v, x := Undo(sd, Paid(w, a, a, token, amount), BalanceTransfer(a, a, token, amount)), w.accounts[a];
            && v.transient == w.transient
            && v.accounts == w.accounts[a := SetBalance(x, token, Balance(x, token))][a := SetBalance(x, token, Balance(x, token))]
  {
    var x := w.accounts[a];
    var y := Increase(Decrease(x, token, amount), token, amount);
    ThereAndBack(x, token, amount);
    ThereAndBack(y, token, amount);
    SetTwice(x, token, Balance(x, token), Balance(x, token));
    assert Paid(w, a, a, token, amount).accounts == w.accounts[a := y];
  }

  lemma PaidOther(sd: bool, w: World, from: Address, to: Address, token: Word, amount: Word)
    requires from in w.accounts && to in w.accounts && amount <= Balance(w.accounts[from], token)
    requires from != to && Balance(w.accounts[to], token) + amount < TWO_256
    ensures var v, x, y := Undo(sd, Paid(w, from, to, token, amount), BalanceTransfer(from, to, token, amount)), w.accounts[from], w.accounts[to];
            && v.transient == w.transient
            && v.accounts == w.accounts[from := SetBalance(x, token, Balance(x, token))][to := SetBalance(y, token, Balance(y, token))]
  {
    var x, y := w.accounts[from], w.accounts[to];
    ThereAndBack(x, token, amount);
    ThereAndBack(y, token, amount);
    assert Paid(w, from, to, token, amount).accounts == w.accounts[from := Decrease(x, token, amount)][to := Increase(y, token, amount)];
  }

  function Debited(w: World, from: Address, token: Word, amount: Word): World
    requires from in w.accounts && amount <= Balance(w.accounts[from], token)
  {
    Put(w, from, SetBalance(w.accounts[from], token, Balance(w.accounts[from], token) - amount))
  }

  /** Debiting and then touching is touching and then debiting. */
  lemma DebitTouch(j: Journaled, from: Address, to: Address, token: Word, amount: Word)
    requires Open(j) && Loaded(j, from) && Loaded(j, to) && j.world.accounts[from].touched
    requires amount <= Balance(j.world.accounts[from], token)
    ensures Loaded(Touch(j, to), from) && Touch(j, to).world.accounts[from] == j.world.accounts[from]
    ensures Touch(j.(world := Debited(j.world, from, token, amount)), to) ==
            Touch(j, to).(world := Debited(Touch(j, to).world, from, token, amount))
  {
    var debited := SetBalance(j.world.accounts[from], token, Balance(j.world.accounts[from], token) - amount);
    if from != to && !j.world.accounts[to].touched {
      var touched := j.world.accounts[to].(touched := true);
      assert Put(Put(j.world, from, debited), to, touched) == Put(Put(j.world, to, touched), from, debited);
    }
  }

  /** A successful payment is two touches and one recorded move. */
  lemma TransferOneIs(j: Journaled, from: Address, to: Address, t: TokenTransfer)
    requires Open(j) && Loaded(j, from) && Loaded(j, to)
    ensures var j1 := Touch(j, from);
            var j2 := Touch(j1, to);
            var (j', failure) := TransferOne(j, from, to, t);
            && failure != Some(CreateCollision)
            && (failure == Some(OutOfFunds) ==> j' == j1)
            && (failure == None ==>
                  && t.amount <= Balance(j2.world.accounts[from], t.id)
                  && (from != to ==> Balance(j2.world.accounts[to], t.id) + t.amount < TWO_256)
                  && j' == Note(j2, Paid(j2.world, from, to, t.id, t.amount), BalanceTransfer(from, to, t.id, t.amount)))
  {
    var j1 := Touch(j, from);
    if t.amount <= Balance(j1.world.accounts[from], t.id) {
      assert TransferOne(j, from, to, t) == Credited(j1.(world := Debited(j1.world, from, t.id, t.amount)), from, to, t);
      CreditedIs(j1, from, to, t);
    }
  }

  /** The second half of a payment by an account that is touched already. */
  lemma CreditedIs(j: Journaled, from: Address, to: Address, t: TokenTransfer)
    requires Open(j) && Loaded(j, from) && Loaded(j, to) && j.world.accounts[from].touched
    requires t.amount <= Balance(j.world.accounts[from], t.id)
    ensures var j1 := Touch(j, to);
            var (j', failure) := Credited(j.(world := Debited(j.world, from, t.id, t.amount)), from, to, t);
            && (failure == None || failure == Some(OverflowPayment))
            && Loaded(j1, from) && Loaded(j1, to) && t.amount <= Balance(j1.world.accounts[from], t.id)
            && (failure == None ==>
                  && (from != to ==> Balance(j1.world.accounts[to], t.id) + t.amount < TWO_256)
                  && j' == Note(j1, Paid(j1.world, from, to, t.id, t.amount), BalanceTransfer(from, to, t.id, t.amount)))
  {
    DebitTouch(j, from, to, t.id, t.amount);
  }

  lemma KeepsPayment(view: View, j: Journaled, from: Address, to: Address, token: Word, amount: Word)
    requires Open(j) && Loaded(j, from) && Loaded(j, to) && amount <= Balance(j.world.accounts[from], token)
    requires from != to ==> Balance(j.world.accounts[to], token) + amount < TWO_256
    ensures Keeps(view, j, Note(j, Paid(j.world, from, to, token, amount), BalanceTransfer(from, to, token, amount)))
  {
    PaymentUndone(view, j.spec.spuriousDragon, j.world, from, to, token, amount);
    KeepsNote(view, j, Paid(j.world, from, to, token, amount), BalanceTransfer(from, to, token, amount));
  }

  lemma KeepsPaid(view: View, j: Journaled, from: Address, to: Address, t: TokenTransfer)
    requires Open(j) && Loaded(j, from) && Loaded(j, to) && TransferOne(j, from, to, t).1 == None
    ensures Keeps(view, j, TransferOne(j, from, to, t).0)
  {
    var j1 := Touch(j, from);
    var j2 := Touch(j1, to);
    KeepsTouch(view, j, from);
    KeepsTouch(view, j1, to);
    KeepsTrans(view, j, j1, j2);
    TransferOneIs(j, from, to, t);
    KeepsPayment(view, j2, from, to, t.id, t.amount);
    KeepsTrans(view, j, j2, TransferOne(j, from, to, t).0);
  }

  lemma KeepsOverflown(j: Journaled, from: Address, to: Address, t: TokenTransfer)
    requires Open(j) && Loaded(j, from) && Loaded(j, to) && TransferOne(j, from, to, t).1 == Some(OverflowPayment)
    ensures Keeps(Shape, j, TransferOne(j, from, to, t).0)
  {
    var j1 := Touch(j, from);
    var payer := j1.world.accounts[from];
    KeepsTouch(Shape, j, from);
    OverflowIs(j, from, to, t);
    OverflowKeepsShape(j1, from, to, payer.balances[t.id := Balance(payer, t.id) - t.amount]);
    KeepsTrans(Shape, j, j1, TransferOne(j, from, to, t).0);
  }

  /** An overflowing payment is two touches and a debit. */
  lemma OverflowIs(j: Journaled, from: Address, to: Address, t: TokenTransfer)
    requires Open(j) && Loaded(j, from) && Loaded(j, to) && TransferOne(j, from, to, t).1 == Some(OverflowPayment)
    ensures var j1 := Touch(j, from);
            && t.amount <= Balance(j1.world.accounts[from], t.id)
            && TransferOne(j, from, to, t).0 == Touch(j1.(world := Debited(j1.world, from, t.id, t.amount)), to)
  {
  }

  lemma KeepsTransferOne(view: View, j: Journaled, from: Address, to: Address, t: TokenTransfer)
    requires Open(j) && Loaded(j, from) && Loaded(j, to)
    requires view != Shape ==> TransferOne(j, from, to, t).1 != Some(OverflowPayment)
    ensures Keeps(view, j, TransferOne(j, from, to, t).0)
  {
    TransferOneIs(j, from, to, t);
    var failure := TransferOne(j, from, to, t).1;
    if failure == None {
      KeepsPaid(view, j, from, to, t);
    } else if failure == Some(OverflowPayment) {
      KeepsOverflown(j, from, to, t);
    } else {
      KeepsTouch(view, j, from);
    }
  }

  /** Whatever happens to its balances, an account keeps its shape. */
  lemma OverflowKeepsShape(j: Journaled, from: Address, to: Address, balances: map<Word, Word>)
    requires Open(j) && Loaded(j, from)
    ensures var j1 := j.(world := Put(j.world, from, j.world.accounts[from].(balances := balances)));
            Keeps(Shape, j, Touch(j1, to))
  {
    var x := j.world.accounts[from];
    var j1 := j.(world := Put(j.world, from, x.(balances := balances)));
    PutPut(Shape, j.spec.spuriousDragon, j.world, j1.world, from, from);
    KeepsSilent(Shape, j, j1.world);
    KeepsTouch(Shape, j1, to);
    KeepsTrans(Shape, j, j1, Touch(j1, to));
  }

  lemma {:induction false} KeepsTransferAll(view: View, j: Journaled, from: Address, to: Address, ts: seq<TokenTransfer>)
    requires Open(j) && Loaded(j, from) && Loaded(j, to)
    requires view != Shape ==> TransferAll(j, from, to, ts).1 != Some(OverflowPayment)
    ensures Keeps(view, j, TransferAll(j, from, to, ts).0)
    decreases |ts|
  {
    if ts == [] {
      KeepsRefl(view, j);
    } else {
      KeepsTransferOne(view, j, from, to, ts[0]);
      var (j1, failure) := TransferOne(j, from, to, ts[0]);
      if failure.None? {
        KeepsTransferAll(view, j1, from, to, ts[1..]);
        KeepsTrans(view, j, j1, TransferAll(j, from, to, ts).0);
      }
    }
  }

  lemma KeepsTransfer(view: View, j: Journaled, db: Db, from: Address, to: Address, ts: seq<TokenTransfer>)
    requires Open(j) && (view != Shape ==> Transfer(j, db, from, to, ts).1 != Some(OverflowPayment))
    ensures Keeps(view, j, Transfer(j, db, from, to, ts).0)
  {
    var j1 := LoadTokenIds(j, db);
    var j2 := LoadAccount(j1, db, from);
    var j3 := LoadAccount(j2, db, to);
    KeepsLoadIds(view, j, db);
    KeepsLoad(view, j1, db, from);
    KeepsLoad(view, j2, db, to);
    KeepsTransferAll(view, j3, from, to, ts);
    KeepsTrans(view, j, j1, j2);
    KeepsTrans(view, j, j2, j3);
    KeepsTrans(view, j, j3, Transfer(j, db, from, to, ts).0);
  }

  // ---- Burning and minting ----

  lemma KeepsLoads(view: View, j: Journaled, db: Db, a: Address)
    requires Open(j)
    ensures Keeps(view, j, LoadAccount(LoadTokenIds(j, db), db, a))
  {
    var j1 := LoadTokenIds(j, db);
    KeepsLoadIds(view, j, db);
    KeepsLoad(view, j1, db, a);
    KeepsTrans(view, j, j1, LoadAccount(j1, db, a));
  }

  lemma KeepsTaking(view: View, j: Journaled, holder: Address, token: Word, amount: Word)
    requires Open(j) && Loaded(j, holder) && amount <= Balance(j.world.accounts[holder], token)
    ensures var acc := j.world.accounts[holder];
            Keeps(view, j, Note(j, Put(j.world, holder, SetBalance(acc, token, Balance(acc, token) - amount)), TokensBurned(holder, token, amount)))
  {
    var acc := j.world.accounts[holder];
    var x, e := SetBalance(acc, token, Balance(acc, token) - amount), TokensBurned(holder, token, amount);
    RereadSame(view, j.spec.spuriousDragon, holder, acc, UndoneAccount(x, e));
    KeepsAccount(view, j, holder, x, e);
  }

  lemma KeepsBurn(view: View, j: Journaled, db: Db, token: Word, holder: Address, amount: Word)
    requires Open(j)
    ensures Keeps(view, j, Burn(j, db, token, holder, amount).0)
  {
    if amount == 0 {
      KeepsRefl(view, j);
    } else {
      KeepsLoads(view, j, db, holder);
      var j1 := LoadAccount(LoadTokenIds(j, db), db, holder);
      if token in db.validIds && Balance(j1.world.accounts[holder], token) >= amount {
        KeepsTaking(view, j1, holder, token, amount);
        KeepsTrans(view, j, j1, Burn(j, db, token, holder, amount).0);
      }
    }
  }

  lemma KeepsGiving(view: View, j: Journaled, minter: Address, recipient: Address, token: Word, amount: Word, ids: seq<Word>)
    requires Open(j) && Loaded(j, recipient) && Balance(j.world.accounts[recipient], token) + amount < TWO_256
    ensures var acc := j.world.accounts[recipient];
            var w := Put(j.world, recipient, SetBalance(acc, token, Balance(acc, token) + amount)).(tokenIds := ids);
            var e := TokensMinted(minter, recipient, token, amount);
            KeepsWorld(view, j, Note(j, w, e)) && Added(j, Note(j, w, e)) == [e]
  {
    var sd, acc, e := j.spec.spuriousDragon, j.world.accounts[recipient], TokensMinted(minter, recipient, token, amount);
    var w := Put(j.world, recipient, SetBalance(acc, token, Balance(acc, token) + amount)).(tokenIds := ids);
    var v := Undo(sd, w, e);
    ThereAndBack(acc, token, amount);
    assert v.accounts[recipient] == SetBalance(acc, token, Balance(acc, token));
    SetBack(view, sd, recipient, acc, token);
    PutPut(view, sd, j.world, v, recipient, recipient);
    KeepsNote(view, j, w, e);
  }

  lemma KeepsMint(view: View, j: Journaled, db: Db, minter: Address, recipient: Address, token: Word, amount: Word)
    requires Open(j) && (Loaded(j, recipient) || recipient == minter)
    ensures Keeps(view, j, Mint(j, db, minter, recipient, token, amount).0)
  {
    KeepsLoads(view, j, db, minter);
    MintIs(j, db, minter, recipient, token, amount);
    if Mint(j, db, minter, recipient, token, amount).1 {
      KeepsMinted(view, j, db, minter, recipient, token, amount);
    }
  }

  lemma KeepsMinted(view: View, j: Journaled, db: Db, minter: Address, recipient: Address, token: Word, amount: Word)
    requires Open(j) && (Loaded(j, recipient) || recipient == minter) && Mint(j, db, minter, recipient, token, amount).1
    ensures Keeps(view, j, Mint(j, db, minter, recipient, token, amount).0)
  {
    var j1 := LoadAccount(LoadTokenIds(j, db), db, minter);
    MintIs(j, db, minter, recipient, token, amount);
    KeepsLoads(view, j, db, minter);
    KeepsGift(view, j, j1, db, minter, recipient, token, amount, MintedIds(j1, token));
  }

  /** The list of ids once `token` has been minted. */
  function MintedIds(j: Journaled, token: Word): seq<Word> {
    if token in j.world.tokenIds then j.world.tokenIds else j.world.tokenIds + [token]
  }

  /** A mint is the loads and, if it succeeds, one recorded gift. */
  lemma MintIs(j: Journaled, db: Db, minter: Address, recipient: Address, token: Word, amount: Word)
    requires Open(j) && (Loaded(j, recipient) || recipient == minter)
    ensures var j1, (j', ok) := LoadAccount(LoadTokenIds(j, db), db, minter), Mint(j, db, minter, recipient, token, amount);
            && Open(j1) && Loaded(j1, recipient)
            && (!ok ==> j' == j1)
            && (ok ==>
                  var acc := j1.world.accounts[recipient];
                  && Balance(acc, token) + amount < TWO_256
                  && j' == Note(j1, Put(j1.world, recipient, SetBalance(acc, token, Balance(acc, token) + amount)).(tokenIds := MintedIds(j1, token)),
                                TokensMinted(minter, recipient, token, amount)))
  {
  }

  /** A gift of newly minted tokens, and of an id for them, after the loads. */
  lemma KeepsGift(view: View, j: Journaled, j1: Journaled, db: Db, minter: Address, recipient: Address, token: Word, amount: Word, ids: seq<Word>)
    requires Open(j) && j1 == LoadAccount(LoadTokenIds(j, db), db, minter) && Keeps(view, j, j1) && Open(j1)
    requires Loaded(j1, recipient) && Balance(j1.world.accounts[recipient], token) + amount < TWO_256 && j1.world.tokenIds <= ids
    ensures var acc := j1.world.accounts[recipient];
            Keeps(view, j, Note(j1, Put(j1.world, recipient, SetBalance(acc, token, Balance(acc, token) + amount)).(tokenIds := ids),
                                TokensMinted(minter, recipient, token, amount)))
  {
    var acc := j1.world.accounts[recipient];
    var j' := Note(j1, Put(j1.world, recipient, SetBalance(acc, token, Balance(acc, token) + amount)).(tokenIds := ids),
                   TokensMinted(minter, recipient, token, amount));
    KeepsGiving(view, j1, minter, recipient, token, amount, ids);
    KeepsWorldTrans(view, j, j1, j');
    MintIds(j, db, minter, j1, j');
  }

  /** Before an id is first added, the list was loaded. */
  lemma MintIds(j: Journaled, db: Db, minter: Address, j1: Journaled, j': Journaled)
    requires Open(j) && j1 == LoadAccount(LoadTokenIds(j, db), db, minter)
    requires |Flat(j.journal)| <= |Flat(j1.journal)| <= |Flat(j'.journal)|
    requires Flat(j.journal) <= Flat(j1.journal) <= Flat(j'.journal) && TokenIdsLoaded !in Added(j1, j')
    requires Added(j, j') == Added(j, j1) + Added(j1, j')
    requires j1.world.tokenIds <= j'.world.tokenIds
    ensures IdsKept(j.world.tokenIds, Added(j, j'), j'.world.tokenIds)
  {
    if j.world.tokenIds == [] {
      var j0 := LoadTokenIds(j, db);
      NoteFlat(j, j.world.(tokenIds := db.tokenIds), TokenIdsLoaded);
      if !Loaded(j0, minter) {
        NoteFlat(j0, Put(j0.world, minter, FromDb(db, minter)), AccountLoaded(minter));
      }
      assert Added(j, j1)[0] == TokenIdsLoaded;
      assert Added(j, j')[0] == TokenIdsLoaded;
    } else {
      LoadsAddNoIds(j, db, minter);
    }
  }

  lemma LoadsAddNoIds(j: Journaled, db: Db, minter: Address)
    requires Open(j) && j.world.tokenIds != []
    ensures var j1 := LoadAccount(LoadTokenIds(j, db), db, minter);
            && j1.world.tokenIds == j.world.tokenIds
            && |Flat(j.journal)| <= |Flat(j1.journal)| && TokenIdsLoaded !in Added(j, j1)
  {
    if !Loaded(j, minter) {
      NoteFlat(j, Put(j.world, minter, FromDb(db, minter)), AccountLoaded(minter));
    }
  }

  // ---- Self-destruction ----

  /** The world after `a` gave its base balance to a different `target`. */
  function GivenAway(w: World, a: Address, target: Address, marked: bool): World
    requires a in w.accounts && target in w.accounts && a != target
  {
    var balance := Balance(w.accounts[a], BASE_TOKEN_ID);
    var w1 := Put(w, target, Increase(w.accounts[target], BASE_TOKEN_ID, balance));
    Put(w1, a, SetBalance(w1.accounts[a].(selfDestructed := marked), BASE_TOKEN_ID, 0))
  }

  lemma DestructionUndone(view: View, sd: bool, w: World, a: Address, target: Address)
    requires a in w.accounts && target in w.accounts && a != target
    ensures var x := w.accounts[a];
            Equiv(view, sd, w, Undo(sd, GivenAway(w, a, target, true),
                                     AccountDestroyed(a, target, x.selfDestructed, Balance(x, BASE_TOKEN_ID))))
  {
    var x, t := w.accounts[a], w.accounts[target];
    var had := Balance(x, BASE_TOKEN_ID);
    GivenBack(x, true);
    ThereAndBack(t, BASE_TOKEN_ID, had);
    var v := Undo(sd, GivenAway(w, a, target, true), AccountDestroyed(a, target, x.selfDestructed, had));
    assert v.accounts == w.accounts[target := SetBalance(t, BASE_TOKEN_ID, Balance(t, BASE_TOKEN_ID))][a := SetBalance(x, BASE_TOKEN_ID, had)];
    TwoSetBack(view, sd, w, v, target, a, BASE_TOKEN_ID);
  }

  /** The base balance that was taken is there again, with the mark set back. */
  lemma GivenBack(x: Account, marked: bool)
    ensures var had := Balance(x, BASE_TOKEN_ID);
            Increase(SetBalance(x.(selfDestructed := marked), BASE_TOKEN_ID, 0).(selfDestructed := x.selfDestructed), BASE_TOKEN_ID, had)
            == SetBalance(x, BASE_TOKEN_ID, had)
  {
    SetTwice(x, BASE_TOKEN_ID, 0, Balance(x, BASE_TOKEN_ID));
  }

  lemma GiftUndone(view: View, sd: bool, w: World, a: Address, target: Address)
    requires a in w.accounts && target in w.accounts && a != target
    ensures var x := w.accounts[a];
            Equiv(view, sd, w, Undo(sd, GivenAway(w, a, target, x.selfDestructed),
                                     BalanceTransfer(a, target, BASE_TOKEN_ID, Balance(x, BASE_TOKEN_ID))))
  {
    var x, t := w.accounts[a], w.accounts[target];
    var had := Balance(x, BASE_TOKEN_ID);
    GivenBack(x, x.selfDestructed);
    ThereAndBack(t, BASE_TOKEN_ID, had);
    var v := Undo(sd, GivenAway(w, a, target, x.selfDestructed), BalanceTransfer(a, target, BASE_TOKEN_ID, had));
    assert v.accounts == w.accounts[target := SetBalance(t, BASE_TOKEN_ID, Balance(t, BASE_TOKEN_ID))][a := SetBalance(x, BASE_TOKEN_ID, had)];
    TwoSetBack(view, sd, w, v, target, a, BASE_TOKEN_ID);
  }

  lemma KeepsGivingAway(view: View, j: Journaled, a: Address, target: Address, destroys: bool)
    requires Open(j) && Loaded(j, a) && Loaded(j, target) && a != target
    ensures var x := j.world.accounts[a];
            var had := Balance(x, BASE_TOKEN_ID);
            Keeps(view, j, Note(j, GivenAway(j.world, a, target, destroys || x.selfDestructed),
                                 if destroys then AccountDestroyed(a, target, x.selfDestructed, had)
                                 else BalanceTransfer(a, target, BASE_TOKEN_ID, had)))
  {
    var x := j.world.accounts[a];
    var had := Balance(x, BASE_TOKEN_ID);
    if destroys {
      DestructionUndone(view, j.spec.spuriousDragon, j.world, a, target);
      KeepsNote(view, j, GivenAway(j.world, a, target, true), AccountDestroyed(a, target, x.selfDestructed, had));
    } else {
      GiftUndone(view, j.spec.spuriousDragon, j.world, a, target);
      KeepsNote(view, j, GivenAway(j.world, a, target, x.selfDestructed), BalanceTransfer(a, target, BASE_TOKEN_ID, had));
    }
  }

  lemma SelfGiftUndone(view: View, sd: bool, w: World, a: Address)
    requires a in w.accounts
    ensures var x := w.accounts[a];
            var w' := Put(w, a, SetBalance(x.(selfDestructed := true), BASE_TOKEN_ID, 0));
            Equiv(view, sd, w, Undo(sd, w', AccountDestroyed(a, a, x.selfDestructed, Balance(x, BASE_TOKEN_ID))))
  {
    var x := w.accounts[a];
    var w' := Put(w, a, SetBalance(x.(selfDestructed := true), BASE_TOKEN_ID, 0));
    var v := Undo(sd, w', AccountDestroyed(a, a, x.selfDestructed, Balance(x, BASE_TOKEN_ID)));
    RereadSame(view, sd, a, x, v.accounts[a]);
    PutPut(view, sd, w, v, a, a);
  }

  lemma KeepsSelfdestruct(view: View, j: Journaled, db: Db, a: Address, target: Address)
    requires Open(j) && Loaded(j, a)
    ensures Keeps(view, j, Selfdestruct(j, db, a, target))
  {
    if a == target {
      KeepsSelfLoss(view, j, db, a);
    } else {
      var j1 := LoadAccount(j, db, target);
      var j2 := Touch(j1, target);
      KeepsLoad(view, j, db, target);
      KeepsTouch(view, j1, target);
      KeepsTrans(view, j, j1, j2);
      KeepsGivingAway(view, j2, a, target, j2.world.accounts[a].created || !j.spec.cancun);
      SelfdestructIs(j, db, a, target);
      KeepsTrans(view, j, j2, Selfdestruct(j, db, a, target));
    }
  }

  lemma KeepsSelfLoss(view: View, j: Journaled, db: Db, a: Address)
    requires Open(j) && Loaded(j, a)
    ensures Keeps(view, j, Selfdestruct(j, db, a, a))
  {
    var acc, j' := j.world.accounts[a], Selfdestruct(j, db, a, a);
    if acc.created || !j.spec.cancun {
      SelfGiftUndone(view, j.spec.spuriousDragon, j.world, a);
      KeepsNote(view, j, j'.world, AccountDestroyed(a, a, acc.selfDestructed, Balance(acc, BASE_TOKEN_ID)));
    } else {
      KeepsRefl(view, j);
    }
  }

  lemma SelfdestructIs(j: Journaled, db: Db, a: Address, target: Address)
    requires Open(j) && Loaded(j, a) && a != target
    ensures var j2 := Touch(LoadAccount(j, db, target), target);
            var x := j2.world.accounts[a];
            var destroys, had := x.created || !j.spec.cancun, Balance(x, BASE_TOKEN_ID);
            Selfdestruct(j, db, a, target) ==
            Note(j2, GivenAway(j2.world, a, target, destroys || x.selfDestructed),
                 if destroys then AccountDestroyed(a, target, x.selfDestructed, had)
                 else BalanceTransfer(a, target, BASE_TOKEN_ID, had))
  {
    var j2 := Touch(LoadAccount(j, db, target), target);
    assert j2.world.accounts[a] == LoadAccount(j, db, target).world.accounts[a];
  }

  // ---- Creation ----

  predicate NoSlotSet(storage: map<Word, Slot>) {
    forall k :: k in storage ==> storage[k] == Slot(0, 0)
  }

  /** Creation leaves something that undoing does not bring back only if the account had a non-zero
      slot or already counted as created. */
  predicate CreatesCleanly(acc: Account) {
    !acc.created && NoSlotSet(acc.storage)
  }

  /** The account as AccountCreated will find it, its first nonce `n` included. */
  function Newborn(acc: Account, n: nat): Account {
    acc.(created := true, storage := Emptied(acc.storage), nonce := n)
  }

  lemma KeepsNewborn(view: View, j: Journaled, a: Address, n: nat)
    requires Open(j) && Loaded(j, a) && j.world.accounts[a].nonce == 0
    requires view == Exact ==> CreatesCleanly(j.world.accounts[a])
    ensures Keeps(view, j, Note(j, Put(j.world, a, Newborn(j.world.accounts[a], n)), AccountCreated(a)))
  {
    var acc := j.world.accounts[a];
    var x := UndoneAccount(Newborn(acc, n), AccountCreated(a));
    assert Emptied(acc.storage).Keys == acc.storage.Keys;
    if view == Exact {
      assert Emptied(acc.storage) == acc.storage;
      RereadSame(view, j.spec.spuriousDragon, a, acc, x);
    }
    KeepsAccount(view, j, a, Newborn(acc, n), AccountCreated(a));
  }

  /** Creating is marking, emptying, and touching. */
  lemma CreatedIs(j: Journaled, a: Address)
    requires Open(j) && Loaded(j, a)
    ensures Created(j, a) == Touch(Note(j, Put(j.world, a, Newborn(j.world.accounts[a], j.world.accounts[a].nonce)), AccountCreated(a)), a)
  {
  }

  /** The move of funds into a created account whose nonce is already set. */
  function Endowed(j: Journaled, caller: Address, a: Address, value: Word): Journaled
    requires Open(j) && Loaded(j, caller) && Loaded(j, a) && Balance(j.world.accounts[a], BASE_TOKEN_ID) + value < TWO_256
  {
    Note(j, EndowedWorld(j.world, caller, a, value), BalanceTransfer(caller, a, BASE_TOKEN_ID, value))
  }

  function EndowedWorld(w: World, caller: Address, a: Address, value: Word): World
    requires caller in w.accounts && a in w.accounts && Balance(w.accounts[a], BASE_TOKEN_ID) + value < TWO_256
  {
    var w1 := Put(w, a, SetBalance(w.accounts[a], BASE_TOKEN_ID, Balance(w.accounts[a], BASE_TOKEN_ID) + value));
    Put(w1, caller, Decrease(w1.accounts[caller], BASE_TOKEN_ID, value))
  }

  lemma EndowmentUndone(view: View, sd: bool, w: World, caller: Address, a: Address, value: Word)
    requires caller in w.accounts && a in w.accounts && Balance(w.accounts[a], BASE_TOKEN_ID) + value < TWO_256
    ensures Equiv(view, sd, w, Undo(sd, EndowedWorld(w, caller, a, value), BalanceTransfer(caller, a, BASE_TOKEN_ID, value)))
  {
    if caller == a {
      EndowedSelf(sd, w, a, value);
    } else {
      EndowedOther(sd, w, caller, a, value);
    }
    TwoSetBack(view, sd, w, Undo(sd, EndowedWorld(w, caller, a, value), BalanceTransfer(caller, a, BASE_TOKEN_ID, value)),
               a, caller, BASE_TOKEN_ID);
  }

  lemma EndowedSelf(sd: bool, w: World, a: Address, value: Word)
    requires a in w.accounts && Balance(w.accounts[a], BASE_TOKEN_ID) + value < TWO_256
    ensures var x := w.accounts[a];
            var v := Undo(sd, EndowedWorld(w, a, a, value), BalanceTransfer(a, a, BASE_TOKEN_ID, value));
            var same := SetBalance(x, BASE_TOKEN_ID, Balance(x, BASE_TOKEN_ID));
            v.transient == w.transient && v.accounts == w.accounts[a := same][a := same]
  {
    var x := w.accounts[a];
    var y := Decrease(Increase(x, BASE_TOKEN_ID, value), BASE_TOKEN_ID, value);
    ThereAndBack(x, BASE_TOKEN_ID, value);
    ThereAndBack(y, BASE_TOKEN_ID, value);
    SetTwice(x, BASE_TOKEN_ID, Balance(x, BASE_TOKEN_ID), Balance(x, BASE_TOKEN_ID));
    assert EndowedWorld(w, a, a, value).accounts == w.accounts[a := y];
  }

  lemma EndowedOther(sd: bool, w: World, caller: Address, a: Address, value: Word)
    requires caller in w.accounts && a in w.accounts && caller != a && Balance(w.accounts[a], BASE_TOKEN_ID) + value < TWO_256
    ensures var x, y := w.accounts[a], w.accounts[caller];
            var v := Undo(sd, EndowedWorld(w, caller, a, value), BalanceTransfer(caller, a, BASE_TOKEN_ID, value));
            && v.transient == w.transient
            && v.accounts == w.accounts[a := SetBalance(x, BASE_TOKEN_ID, Balance(x, BASE_TOKEN_ID))][caller := SetBalance(y, BASE_TOKEN_ID, Balance(y, BASE_TOKEN_ID))]
  {
    ThereAndBack(w.accounts[a], BASE_TOKEN_ID, value);
    ThereAndBack(w.accounts[caller], BASE_TOKEN_ID, value);
  }

  lemma KeepsEndowed(view: View, j: Journaled, caller: Address, a: Address, value: Word)
    requires Open(j) && Loaded(j, caller) && Loaded(j, a) && Balance(j.world.accounts[a], BASE_TOKEN_ID) + value < TWO_256
    ensures Keeps(view, j, Endowed(j, caller, a, value))
  {
    EndowmentUndone(view, j.spec.spuriousDragon, j.world, caller, a, value);
    KeepsNote(view, j, EndowedWorld(j.world, caller, a, value), BalanceTransfer(caller, a, BASE_TOKEN_ID, value));
  }

  /** The created account, its first nonce set at once. */
  function BornWithNonce(j: Journaled, a: Address): Journaled
    requires Open(j) && Loaded(j, a)
  {
    Touch(Note(j, Put(j.world, a, Newborn(j.world.accounts[a], if j.spec.spuriousDragon then 1 else 0)), AccountCreated(a)), a)
  }

  lemma BornIs(j: Journaled, a: Address)
    requires Open(j) && Loaded(j, a) && j.world.accounts[a].nonce == 0
    ensures var n := if j.spec.spuriousDragon then 1 else 0;
            BornWithNonce(j, a) == Created(j, a).(world := Put(Created(j, a).world, a, Created(j, a).world.accounts[a].(nonce := n)))
    ensures Created(j, a).world.accounts.Keys == j.world.accounts.Keys
    ensures Created(j, a).world.accounts[a].nonce == 0 && Created(j, a).spec == j.spec
    ensures Created(j, a).world.accounts[a].balances == j.world.accounts[a].balances
  {
    CreatedIs(j, a);
  }

  /** Setting the nonce with the funds or before them gives the same state. */
  lemma NonceEarlier(j: Journaled, caller: Address, a: Address, value: Word)
    requires Open(j) && Loaded(j, caller) && Loaded(j, a) && j.world.accounts[a].nonce == 0
    requires Balance(j.world.accounts[a], BASE_TOKEN_ID) + value < TWO_256
    ensures var n := if j.spec.spuriousDragon then 1 else 0;
            Funded(j, caller, a, value) == Endowed(j.(world := Put(j.world, a, j.world.accounts[a].(nonce := n))), caller, a, value)
  {
    var acc, n := j.world.accounts[a], if j.spec.spuriousDragon then 1 else 0;
    var rich := SetBalance(acc, BASE_TOKEN_ID, Balance(acc, BASE_TOKEN_ID) + value);
    assert !j.spec.spuriousDragon ==> rich == rich.(nonce := 0);
    WorldWithNonce(j.world, caller, a, value, n);
  }

  lemma WorldWithNonce(w: World, caller: Address, a: Address, value: Word, n: nat)
    requires caller in w.accounts && a in w.accounts && Balance(w.accounts[a], BASE_TOKEN_ID) + value < TWO_256
    ensures var acc := w.accounts[a];
            var w1 := Put(w, a, SetBalance(acc, BASE_TOKEN_ID, Balance(acc, BASE_TOKEN_ID) + value).(nonce := n));
            EndowedWorld(Put(w, a, acc.(nonce := n)), caller, a, value) == Put(w1, caller, Decrease(w1.accounts[caller], BASE_TOKEN_ID, value))
  {
    var acc := w.accounts[a];
    var rich := SetBalance(acc, BASE_TOKEN_ID, Balance(acc, BASE_TOKEN_ID) + value).(nonce := n);
    assert Put(Put(w, a, acc.(nonce := n)), a, rich) == Put(w, a, rich);
  }

  lemma KeepsBorn(view: View, j: Journaled, a: Address)
    requires Open(j) && Loaded(j, a) && j.world.accounts[a].nonce == 0
    requires view == Exact ==> CreatesCleanly(j.world.accounts[a])
    ensures Keeps(view, j, BornWithNonce(j, a))
  {
    var n := if j.spec.spuriousDragon then 1 else 0;
    var j1 := Note(j, Put(j.world, a, Newborn(j.world.accounts[a], n)), AccountCreated(a));
    KeepsNewborn(view, j, a, n);
    KeepsTouch(view, j1, a);
    KeepsTrans(view, j, j1, BornWithNonce(j, a));
  }

  lemma KeepsFunded(view: View, j: Journaled, caller: Address, a: Address, value: Word)
    requires Open(j) && Loaded(j, caller) && Loaded(j, a) && j.world.accounts[a].nonce == 0
    requires Balance(j.world.accounts[a], BASE_TOKEN_ID) + value < TWO_256
    requires view == Exact ==> CreatesCleanly(j.world.accounts[a])
    ensures Open(Created(j, a)) && Loaded(Created(j, a), caller) && Loaded(Created(j, a), a)
    ensures Balance(Created(j, a).world.accounts[a], BASE_TOKEN_ID) + value < TWO_256
    ensures Keeps(view, j, Funded(Created(j, a), caller, a, value))
  {
    BornIs(j, a);
    KeepsBorn(view, j, a);
    NonceEarlier(Created(j, a), caller, a, value);
    KeepsEndowed(view, BornWithNonce(j, a), caller, a, value);
    KeepsTrans(view, j, BornWithNonce(j, a), Endowed(BornWithNonce(j, a), caller, a, value));
  }

  lemma KeepsCreated(view: View, j: Journaled, a: Address)
    requires Open(j) && Loaded(j, a) && j.world.accounts[a].nonce == 0
    requires view == Exact ==> CreatesCleanly(j.world.accounts[a])
    ensures Keeps(view, j, Created(j, a))
  {
    CreatedIs(j, a);
    var j1 := Note(j, Put(j.world, a, Newborn(j.world.accounts[a], 0)), AccountCreated(a));
    KeepsNewborn(view, j, a, 0);
    KeepsTouch(view, j1, a);
    KeepsTrans(view, j, j1, Touch(j1, a));
  }
}
