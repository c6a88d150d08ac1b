/** Refunds over runs of the journaled state: what its stores give back, and what its storage owes. */
module ScriptRefunds {
  import opened Prelude
  import opened GasConstants
  import opened JournalState
  import opened JournalEquiv
  import opened JournalOps
  import opened JournalKeeps
  import opened JournalFunds
  import opened JournalRuns
  import opened SstoreGas
  import opened Gas
  import Refunds

  /** The slots of the account at a; none if it is not loaded. */
  function SlotsAt(w: World, a: Address): map<Word, Slot> {
    if a in w.accounts then w.accounts[a].storage else map[]
  }

  /** All loaded slots. */
  ghost function Stored(w: World): Refunds.Storage {
    map a, k | a in w.accounts && k in w.accounts[a].storage :: (a, k) := w.accounts[a].storage[k]
  }

  ghost predicate SameSlots(v: World, w: World) {
    forall a {:trigger SlotsAt(v, a)} {:trigger SlotsAt(w, a)} :: SlotsAt(v, a) == SlotsAt(w, a)
  }

  /** The clearing credit of all loaded slots. */
  ghost function WorldCredit(spec: SpecId, w: World): nat {
    Refunds.Credit(spec, Stored(w))
  }

  lemma SameCredit(spec: SpecId, v: World, w: World)
    requires SameSlots(v, w)
    ensures WorldCredit(spec, w) == WorldCredit(spec, v)
  {
    forall p: Refunds.Key ensures (p in Stored(v) <==> p in Stored(w)) && (p in Stored(v) ==> Stored(v)[p] == Stored(w)[p]) {
      assert SlotsAt(v, p.0) == SlotsAt(w, p.0);
    }
    assert Stored(v) == Stored(w);
  }

  /** The account at a got one slot, and nothing else changed. */
  lemma StoredUpdate(v: World, w: World, a: Address, key: Word, slot: Slot)
    requires a in v.accounts && a in w.accounts && SlotsAt(w, a) == SlotsAt(v, a)[key := slot]
    requires forall b {:trigger SlotsAt(w, b)} :: b != a ==> SlotsAt(w, b) == SlotsAt(v, b)
    ensures Stored(w) == Stored(v)[(a, key) := slot]
  {
    var expected := Stored(v)[(a, key) := slot];
    forall p: Refunds.Key ensures (p in Stored(w) <==> p in expected) && (p in Stored(w) ==> Stored(w)[p] == expected[p]) {
      assert p.0 != a ==> SlotsAt(w, p.0) == SlotsAt(v, p.0);
    }
  }

  lemma SameSlotsTrans(u: World, v: World, w: World)
    requires SameSlots(u, v) && SameSlots(v, w)
    ensures SameSlots(u, w)
  {
    forall a ensures SlotsAt(u, a) == SlotsAt(w, a) {
      assert SlotsAt(u, a) == SlotsAt(v, a);
    }
  }

  // ---- Operations that leave storage alone ----

  lemma TouchSlots(j: Journaled, a: Address)
    requires Open(j)
    ensures SameSlots(j.world, Touch(j, a).world)
  {
  }

  lemma LoadSlots(j: Journaled, db: Db, a: Address)
    requires Open(j)
    ensures SameSlots(j.world, LoadAccount(j, db, a).world) && SameSlots(j.world, LoadTokenIds(j, db).world)
  {
  }

  lemma LoadsSlots(j: Journaled, db: Db, a: Address)
    requires Open(j)
    ensures SameSlots(j.world, LoadAccount(LoadTokenIds(j, db), db, a).world)
  {
    var j1 := LoadTokenIds(j, db);
    LoadSlots(j, db, a);
    LoadSlots(j1, db, a);
    SameSlotsTrans(j.world, j1.world, LoadAccount(j1, db, a).world);
  }

  /** Rewriting one account with its storage kept. */
  lemma PutSlots(w: World, w': World, a: Address)
    requires a in w.accounts && w'.accounts.Keys == w.accounts.Keys && w'.accounts[a].storage == w.accounts[a].storage
    requires forall b :: b in w.accounts && b != a ==> w'.accounts[b] == w.accounts[b]
    ensures SameSlots(w, w')
  {
  }

  lemma CreditedSlots(j: Journaled, from: Address, to: Address, t: TokenTransfer)
    requires Open(j) && Loaded(j, to)
    ensures SameSlots(j.world, Credited(j, from, to, t).0.world)
  {
    var j1 := Touch(j, to);
    TouchSlots(j, to);
    PutSlots(j1.world, Credited(j, from, to, t).0.world, to);
    SameSlotsTrans(j.world, j1.world, Credited(j, from, to, t).0.world);
  }

  lemma TransferOneSlots(j: Journaled, from: Address, to: Address, t: TokenTransfer)
    requires Open(j) && Loaded(j, from) && Loaded(j, to)
    ensures SameSlots(j.world, TransferOne(j, from, to, t).0.world)
  {
    var j1 := Touch(j, from);
    TouchSlots(j, from);
    if t.amount <= Balance(j1.world.accounts[from], t.id) {
      var j2 := j1.(world := Debited(j1.world, from, t.id, t.amount));
      PutSlots(j1.world, j2.world, from);
      SameSlotsTrans(j.world, j1.world, j2.world);
      CreditedSlots(j2, from, to, t);
      SameSlotsTrans(j.world, j2.world, Credited(j2, from, to, t).0.world);
      assert TransferOne(j, from, to, t) == Credited(j2, from, to, t);
    }
  }

  lemma {:induction false} TransferAllSlots(j: Journaled, from: Address, to: Address, ts: seq<TokenTransfer>)
    requires Open(j) && Loaded(j, from) && Loaded(j, to)
    ensures SameSlots(j.world, TransferAll(j, from, to, ts).0.world)
    decreases |ts|
  {
    if ts != [] {
      TransferOneSlots(j, from, to, ts[0]);
      var (j1, failure) := TransferOne(j, from, to, ts[0]);
      if failure.None? {
        TransferAllSlots(j1, from, to, ts[1..]);
        SameSlotsTrans(j.world, j1.world, TransferAll(j1, from, to, ts[1..]).0.world);
      }
    }
  }

  lemma TransferSlots(j: Journaled, db: Db, from: Address, to: Address, ts: seq<TokenTransfer>)
    requires Open(j)
    ensures SameSlots(j.world, Transfer(j, db, from, to, ts).0.world)
  {
    var j2 := LoadAccount(LoadTokenIds(j, db), db, from);
    var j3 := LoadAccount(j2, db, to);
    LoadsSlots(j, db, from);
    LoadSlots(j2, db, to);
    SameSlotsTrans(j.world, j2.world, j3.world);
    TransferAllSlots(j3, from, to, ts);
    SameSlotsTrans(j.world, j3.world, TransferAll(j3, from, to, ts).0.world);
  }

  lemma GiftedSlots(j: Journaled, a: Address, target: Address)
    requires Open(j) && Loaded(j, a) && Loaded(j, target)
    ensures SameSlots(j.world, Gifted(j, a, target).world)
  {
    if a != target {
      var t := Touch(j, target);
      TouchSlots(j, target);
      PutSlots(t.world, Gifted(j, a, target).world, target);
      SameSlotsTrans(j.world, t.world, Gifted(j, a, target).world);
    }
  }

  lemma SelfdestructSlots(j: Journaled, db: Db, a: Address, target: Address)
    requires Open(j) && Loaded(j, a)
    ensures SameSlots(j.world, Selfdestruct(j, db, a, target).world)
  {
    var j1 := LoadAccount(j, db, target);
    var j2 := Gifted(j1, a, target);
    LoadSlots(j, db, target);
    GiftedSlots(j1, a, target);
    SameSlotsTrans(j.world, j1.world, j2.world);
    DestroyedSlots(j2, a, target);
    SameSlotsTrans(j.world, j2.world, Destroyed(j2, a, target).world);
  }

  lemma DestroyedSlots(j: Journaled, a: Address, target: Address)
    requires Open(j) && Loaded(j, a)
    ensures SameSlots(j.world, Destroyed(j, a, target).world)
  {
    PutSlots(j.world, Destroyed(j, a, target).world, a);
  }

  lemma BurnSlots(j: Journaled, db: Db, holder: Address, token: Word, amount: Word)
    requires Open(j)
    ensures SameSlots(j.world, Burn(j, db, token, holder, amount).0.world)
  {
    if amount > 0 {
      var j1, j' := LoadAccount(LoadTokenIds(j, db), db, holder), Burn(j, db, token, holder, amount).0;
      LoadsSlots(j, db, holder);
      PutSlots(j1.world, j'.world, holder);
      SameSlotsTrans(j.world, j1.world, j'.world);
    }
  }

  lemma MintSlots(j: Journaled, db: Db, minter: Address, holder: Address, token: Word, amount: Word)
    requires Open(j) && (Loaded(j, holder) || holder == minter)
    ensures SameSlots(j.world, Mint(j, db, minter, holder, token, amount).0.world)
  {
    var j1, j' := LoadAccount(LoadTokenIds(j, db), db, minter), Mint(j, db, minter, holder, token, amount).0;
    LoadsSlots(j, db, minter);
    PutSlots(j1.world, j'.world, holder);
    SameSlotsTrans(j.world, j1.world, j'.world);
  }

  lemma AccountSlots(j: Journaled, a: Address, codeHash: Word)
    requires Open(j) && Loaded(j, a)
    ensures SameSlots(j.world, SetCode(j, a, codeHash).world) && SameSlots(j.world, IncNonce(j, a).world)
  {
    PutSlots(j.world, SetCode(j, a, codeHash).world, a);
    PutSlots(j.world, IncNonce(j, a).world, a);
  }

  lemma CreatedSlots(j: Journaled, a: Address)
    requires Open(j) && Loaded(j, a) && NoSlotSet(j.world.accounts[a].storage)
    ensures SameSlots(j.world, Created(j, a).world)
  {
    var acc := j.world.accounts[a];
    assert Emptied(acc.storage) == acc.storage;
    CreatedIs(j, a);
    PutSlots(j.world, Created(j, a).world, a);
  }

  lemma FundedSlots(j: Journaled, caller: Address, a: Address, value: Word)
    requires Open(j) && Loaded(j, caller) && Loaded(j, a) && Balance(j.world.accounts[a], BASE_TOKEN_ID) + value < TWO_256
    ensures SameSlots(j.world, Funded(j, caller, a, value).world)
  {
  }

  // ---- Loading and storing ----

  lemma SloadCredit(spec: SpecId, j: Journaled, db: Db, a: Address, key: Word)
    requires Open(j) && Loaded(j, a)
    ensures WorldCredit(spec, Sload(j, db, a, key).world) == WorldCredit(spec, j.world)
  {
    var acc, j1 := j.world.accounts[a], Sload(j, db, a, key);
    if key !in acc.storage {
      var value := ColdValue(db, acc, a, key);
      StoredUpdate(j.world, j1.world, a, key, Slot(value, value));
      Refunds.CreditUpdate(spec, Stored(j.world), (a, key), Slot(value, value));
    }
  }

  /** A store moves the credit by at most its refund. */
  lemma SstoreCredit(spec: SpecId, j: Journaled, db: Db, a: Address, key: Word, value: Word)
    requires Open(j) && Loaded(j, a)
    ensures var (j', r) := Sstore(j, db, a, key, value);
            WorldCredit(spec, j'.world) <= WorldCredit(spec, j.world) + Refund(spec, r.original, r.present, r.newValue)
  {
    var j1, j' := Sload(j, db, a, key), Sstore(j, db, a, key, value).0;
    var slot := j1.world.accounts[a].storage[key];
    SloadCredit(spec, j, db, a, key);
    if slot.present != value {
      var stored := slot.(present := value);
      StoredUpdate(j1.world, j'.world, a, key, stored);
      Refunds.CreditUpdate(spec, Stored(j1.world), (a, key), stored);
    }
  }

  // ---- Runs ----

  /** What one operation adds to the refund counter. */
  function RefundOf(spec: SpecId, j: Journaled, db: Db, op: Op): int
    requires Open(j) && Callable(j, op)
  {
    match op
    case OpSstore(a, key, value) =>
      var r := Sstore(j, db, a, key, value).1;
      Refund(spec, r.original, r.present, r.newValue)
    case OpSelfdestruct(a, _) => if spec < LONDON && !j.world.accounts[a].selfDestructed then SELFDESTRUCT_REFUND else 0
    case _ => 0
  }

  lemma OtherSlots(j: Journaled, db: Db, op: Op)
    requires Open(j) && Callable(j, op) && !op.OpSload? && !op.OpSstore?
    ensures SameSlots(j.world, Apply(j, db, op).world)
  {
    match op
    case OpTouch(a) => TouchSlots(j, a);
    case OpLoad(a) => LoadSlots(j, db, a);
    case OpSetCode(a, codeHash) => AccountSlots(j, a, codeHash);
    case OpIncNonce(a) => AccountSlots(j, a, 0);
    case OpTransfer(from, to, ts) => TransferSlots(j, db, from, to, ts);
    case OpSelfdestruct(a, target) => SelfdestructSlots(j, db, a, target);
    case OpBurn(token, holder, amount) => BurnSlots(j, db, holder, token, amount);
    case OpMint(minter, recipient, token, amount) => MintSlots(j, db, minter, recipient, token, amount);
    case _ =>
  }

  lemma ApplyCredit(spec: SpecId, j: Journaled, db: Db, op: Op)
    requires Open(j) && Callable(j, op)
    ensures WorldCredit(spec, Apply(j, db, op).world) <= WorldCredit(spec, j.world) + RefundOf(spec, j, db, op)
  {
    match op
    case OpSload(a, key) => SloadCredit(spec, j, db, a, key);
    case OpSstore(a, key, value) => SstoreCredit(spec, j, db, a, key, value);
    case _ =>
      OtherSlots(j, db, op);
      SameCredit(spec, j.world, Apply(j, db, op).world);
  }

  /** The refund counter after a script: a frame that ends ok merges its counter, any other drops it. */
  function Refunded(spec: SpecId, j: Journaled, db: Db, s: Script): int
    requires Open(j)
    decreases s
  {
    match s
    case Do(op) => if Callable(j, op) then RefundOf(spec, j, db, op) else 0
    case Frame(OpenCall, body, ok) => if ok then RefundedAll(spec, Enter(j), db, body) else 0
    case Frame(OpenCreate(caller, a, value), body, ok) =>
      if !ok || !Loaded(j, caller) || !Loaded(j, a) then 0
      else
        var started := CreateAccount(j, caller, a, value);
        if started.Some? && started.value.1.None? && Open(started.value.0) then RefundedAll(spec, started.value.0, db, body) else 0
  }

  function RefundedAll(spec: SpecId, j: Journaled, db: Db, body: seq<Script>): int
    requires Open(j)
    decreases body
  {
    if body == [] then 0
    else
      var first := Run(j, db, body[0]);
      Refunded(spec, j, db, body[0]) + if first.Done? && Open(first.state) then RefundedAll(spec, first.state, db, body[1..]) else 0
  }

  lemma RestoredCredit(spec: SpecId, j: Journaled, i: Journaled, r: Journaled)
    requires Restored(Exact, j, i, r)
    ensures WorldCredit(spec, r.world) == WorldCredit(spec, j.world)
  {
    var sd := j.spec.spuriousDragon;
    forall a ensures SlotsAt(j.world, a) == SlotsAt(r.world, a) {
      assert a in j.world.accounts ==> SameAccount(Exact, sd, a, j.world.accounts[a], r.world.accounts[a]);
    }
    SameCredit(spec, j.world, r.world);
  }

  lemma OpeningCredit(spec: SpecId, j: Journaled, caller: Address, a: Address, value: Word)
    requires Open(j) && Loaded(j, caller) && Loaded(j, a) && CleanOpening(j, a)
    requires CreateAccount(j, caller, a, value).Some? && CreateAccount(j, caller, a, value).value.1.None?
    ensures WorldCredit(spec, CreateAccount(j, caller, a, value).value.0.world) == WorldCredit(spec, j.world)
  {
    var e := Enter(j);
    var j1, j2 := Created(e, a), CreateAccount(j, caller, a, value).value.0;
    CreatedSlots(e, a);
    FundedSlots(j1, caller, a, value);
    SameSlotsTrans(j.world, j1.world, j2.world);
    SameCredit(spec, j.world, j2.world);
  }

  lemma {:induction false} RunCredit(spec: SpecId, j: Journaled, db: Db, s: Script)
    requires Open(j) && Sane(j) && Clean(Exact, j, db, s)
    ensures Run(j, db, s).Done? ==>
      WorldCredit(spec, Run(j, db, s).state.world) <= WorldCredit(spec, j.world) + Refunded(spec, j, db, s)
    decreases s, 1
  {
    match s
    case Do(op) =>
      if Callable(j, op) {
        ApplyCredit(spec, j, db, op);
      }
    case Frame(OpenCall, body, ok) =>
      SaneEnter(j);
      KeepsRefl(Exact, Enter(j));
      FrameCredit(spec, j, Enter(j), db, body, ok);
    case Frame(OpenCreate(caller, a, value), body, ok) =>
      if Loaded(j, caller) && Loaded(j, a) {
        OpeningKeeps(Exact, j, caller, a, value);
        var (i, failure) := CreateAccount(j, caller, a, value).value;
        if failure.Some? {
          RestoredCredit(spec, j, Opened(j, a), i);
        } else {
          OpeningSane(j, caller, a, value);
          OpeningCredit(spec, j, caller, a, value);
          FrameCredit(spec, j, i, db, body, ok);
        }
      }
  }

  lemma {:induction false} FrameCredit(spec: SpecId, j: Journaled, i: Journaled, db: Db, body: seq<Script>, ok: bool)
    requires Open(j) && Open(i) && Sane(i) && Keeps(Exact, Enter(j), i) && CleanAll(Exact, i, db, body)
    requires WorldCredit(spec, i.world) == WorldCredit(spec, j.world)
    ensures Close(j, RunAll(i, db, body), ok).Done? ==>
      WorldCredit(spec, Close(j, RunAll(i, db, body), ok).state.world) <=
      WorldCredit(spec, j.world) + if ok then RefundedAll(spec, i, db, body) else 0
    decreases body, 1
  {
    var inner := RunAll(i, db, body);
    if inner.Done? {
      RunAllCredit(spec, i, db, body);
      RunAllKeeps(Exact, i, db, body);
      KeepsTrans(Exact, Enter(j), i, inner.state);
      CloseCredit(spec, j, inner.state);
    }
  }

  /** A committed frame keeps its storage; a reverted one has the credit it began with. */
  lemma CloseCredit(spec: SpecId, j: Journaled, i: Journaled)
    requires Open(j) && Keeps(Exact, Enter(j), i)
    ensures Close(j, Done(i), true) == Done(Commit(i)) && Commit(i).world == i.world
    ensures Close(j, Done(i), false).Done? && WorldCredit(spec, Close(j, Done(i), false).state.world) == WorldCredit(spec, j.world)
  {
    RevertRestores(Exact, j, i);
    RestoredCredit(spec, j, i, Revert(i, Mark(j)).value);
  }

  /** Over every clean run, whatever the nesting of commits and reverts, the refund counter covers the
      change in the clearing credit of all loaded slots. */
  lemma {:induction false} RunAllCredit(spec: SpecId, j: Journaled, db: Db, body: seq<Script>)
    requires Open(j) && Sane(j) && CleanAll(Exact, j, db, body)
    ensures RunAll(j, db, body).Done? ==>
      WorldCredit(spec, RunAll(j, db, body).state.world) <= WorldCredit(spec, j.world) + RefundedAll(spec, j, db, body)
    decreases body, 0
  {
    if body != [] {
      RunCredit(spec, j, db, body[0]);
      RunKeeps(Exact, j, db, body[0]);
      var first := Run(j, db, body[0]);
      if first.Done? {
        RunAllCredit(spec, first.state, db, body[1..]);
      }
    }
  }

  /** So a transaction that starts with unchanged slots never ends with a negative counter, and its
      final refund is at most the counter and at most a fifth (before London, half) of the gas spent. */
  lemma ScriptRefundNeverNegative(spec: SpecId, j: Journaled, db: Db, body: seq<Script>, spent: nat)
    requires Open(j) && Sane(j) && CleanAll(Exact, j, db, body) && RunAll(j, db, body).Done? && spent < TWO_64
    requires forall p :: p in Stored(j.world) ==> Stored(j.world)[p].present == Stored(j.world)[p].original
    ensures var refund := RefundedAll(spec, j, db, body);
            && refund >= 0
            && (refund < 0x8000_0000_0000_0000 ==>
                  0 <= FinalRefund(refund, spent, spec >= LONDON) <= Min(refund, spent / if spec >= LONDON then 5 else 2))
  {
    RunAllCredit(spec, j, db, body);
    Refunds.CreditOfUnchanged(spec, Stored(j.world));
    var refund := RefundedAll(spec, j, db, body);
    if refund < 0x8000_0000_0000_0000 {
      FinalRefundCapped(refund, spent, spec >= LONDON);
    }
  }
}
