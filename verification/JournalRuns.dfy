/** Whole runs over the journaled state: nested frames, each committed or reverted. */
module JournalRuns {
  import opened Prelude
  import opened JournalState
  import opened JournalEquiv
  import opened JournalOps
  import opened JournalKeeps
  import opened JournalFunds

  datatype Op =
    | OpTouch(a: Address)
    | OpLoad(a: Address)
    | OpSetCode(a: Address, codeHash: Word)
    | OpIncNonce(a: Address)
    | OpTransfer(from: Address, to: Address, transfers: seq<TokenTransfer>)
    | OpSelfdestruct(a: Address, target: Address)
    | OpSload(a: Address, key: Word)
    | OpSstore(a: Address, key: Word, value: Word)
    | OpTstore(a: Address, key: Word, value: Word)
    | OpLog(log: Log)
    | OpBurn(token: Word, holder: Address, amount: Word)
    | OpMint(minter: Address, recipient: Address, token: Word, amount: Word)

  /** A frame starts with a plain checkpoint or with the creation of an account. */
  datatype Opening = OpenCall | OpenCreate(caller: Address, address: Address, value: Word)

  /** What a transaction does to the state: operations, and frames that end in a commit or a revert. */
  datatype Script = Do(op: Op) | Frame(opening: Opening, body: seq<Script>, ok: bool)

  /** Refused: the caller broke a documented precondition. Panicked: undoing hit something absent. */
  datatype Outcome = Done(state: Journaled) | Refused | Panicked

  /** The accounts that the source expects its caller to have loaded. */
  predicate Callable(j: Journaled, op: Op) {
    match op
    case OpSetCode(a, _) => Loaded(j, a)
    case OpIncNonce(a) => Loaded(j, a)
    case OpSelfdestruct(a, _) => Loaded(j, a)
    case OpSload(a, _) => Loaded(j, a)
    case OpSstore(a, _, _) => Loaded(j, a)
    case OpMint(minter, recipient, _, _) => Loaded(j, recipient) || recipient == minter
    case _ => true
  }

  function Apply(j: Journaled, db: Db, op: Op): Journaled
    requires Open(j) && Callable(j, op)
  {
    match op
    case OpTouch(a) => Touch(j, a)
    case OpLoad(a) => LoadAccount(j, db, a)
    case OpSetCode(a, codeHash) => SetCode(j, a, codeHash)
    case OpIncNonce(a) => IncNonce(j, a)
    case OpTransfer(from, to, ts) => Transfer(j, db, from, to, ts).0
    case OpSelfdestruct(a, target) => Selfdestruct(j, db, a, target)
    case OpSload(a, key) => Sload(j, db, a, key)
    case OpSstore(a, key, value) => Sstore(j, db, a, key, value).0
    case OpTstore(a, key, value) => Tstore(j, a, key, value)
    case OpLog(log) => AddLog(j, log)
    case OpBurn(token, holder, amount) => Burn(j, db, token, holder, amount).0
    case OpMint(minter, recipient, token, amount) => Mint(j, db, minter, recipient, token, amount).0
  }

  /** Ends the frame opened in j. */
  function Close(j: Journaled, inner: Outcome, ok: bool): Outcome {
    if !inner.Done? then inner
    else
      var i := inner.state;
      if i.depth == 0 || |i.logs| < |j.logs| || |i.journal| < |j.journal| then Panicked
      else if ok then Done(Commit(i))
      else
        var back := Revert(i, Mark(j));
        if back.None? then Panicked else Done(back.value)
  }

  function Run(j: Journaled, db: Db, s: Script): Outcome
    requires Open(j)
    decreases s
  {
    match s
    case Do(op) => if Callable(j, op) then Done(Apply(j, db, op)) else Refused
    case Frame(OpenCall, body, ok) => Close(j, RunAll(Enter(j), db, body), ok)
    case Frame(OpenCreate(caller, a, value), body, ok) =>
      if !Loaded(j, caller) || !Loaded(j, a) then Refused
      else
        var started := CreateAccount(j, caller, a, value);
        if started.None? then Panicked
        else if started.value.1.Some? then Done(started.value.0)
        else if !Open(started.value.0) then Panicked
        else Close(j, RunAll(started.value.0, db, body), ok)
  }

  function RunAll(j: Journaled, db: Db, body: seq<Script>): Outcome
    requires Open(j)
    decreases body
  {
    if body == [] then Done(j)
    else
      var first := Run(j, db, body[0]);
      if !first.Done? then first
      else if !Open(first.state) then Panicked
      else RunAll(first.state, db, body[1..])
  }

  // ---- Runs that the journal can take back exactly ----

  /** Under EIP-161 a created account has had a nonce. */
  ghost predicate Sane(j: Journaled) {
    j.spec.spuriousDragon ==>
      forall a {:trigger SaneAt(j, a)} :: a in j.world.accounts ==> SaneAt(j, a)
  }

  predicate SaneAt(j: Journaled, a: Address)
    requires a in j.world.accounts
  {
    j.world.accounts[a].created ==> j.world.accounts[a].nonce > 0
  }

  /** What each view needs of an operation: no payment overflows, and, to be exact, code is set only
      where there is none. */
  predicate CleanOp(view: View, j: Journaled, db: Db, op: Op)
    requires Open(j) && Callable(j, op)
  {
    match op
    case OpTransfer(from, to, ts) => view != Shape ==> Transfer(j, db, from, to, ts).1 != Some(OverflowPayment)
    case OpSetCode(a, _) => view == Exact ==> j.world.accounts[a].codeHash == KECCAK_EMPTY
    case _ => true
  }

  predicate CleanOpening(j: Journaled, a: Address)
    requires Loaded(j, a)
  {
    Collides(j, a) || (NoSlotSet(j.world.accounts[a].storage) && (j.spec.spuriousDragon || !j.world.accounts[a].created))
  }

  predicate Clean(view: View, j: Journaled, db: Db, s: Script)
    requires Open(j)
    decreases s
  {
    match s
    case Do(op) => Callable(j, op) ==> CleanOp(view, j, db, op)
    case Frame(OpenCall, body, ok) => CleanAll(view, Enter(j), db, body)
    case Frame(OpenCreate(caller, a, value), body, ok) =>
      Loaded(j, caller) && Loaded(j, a) ==>
        && (view == Exact ==> CleanOpening(j, a))
        && var started := CreateAccount(j, caller, a, value);
           started.Some? && started.value.1.None? && Open(started.value.0) ==> CleanAll(view, started.value.0, db, body)
  }

  predicate CleanAll(view: View, j: Journaled, db: Db, body: seq<Script>)
    requires Open(j)
    decreases body
  {
    body == [] ||
    (Clean(view, j, db, body[0]) &&
     (Run(j, db, body[0]).Done? && Open(Run(j, db, body[0]).state) ==> CleanAll(view, Run(j, db, body[0]).state, db, body[1..])))
  }

  // ---- Created accounts keep a nonce ----

  /** No account becomes created, and created ones do not lose nonces. */
  ghost predicate Calm(v: World, w: World) {
    forall a {:trigger CalmAt(v, w, a)} :: a in w.accounts ==> CalmAt(v, w, a)
  }

  predicate CalmAt(v: World, w: World, a: Address)
    requires a in w.accounts
  {
    w.accounts[a].created ==> a in v.accounts && v.accounts[a].created && v.accounts[a].nonce <= w.accounts[a].nonce
  }

  lemma CalmSane(j: Journaled, j': Journaled)
    requires Sane(j) && Calm(j.world, j'.world) && j'.spec == j.spec
    ensures Sane(j')
  {
    forall a | a in j'.world.accounts && j.spec.spuriousDragon ensures SaneAt(j', a) {
      assert CalmAt(j.world, j'.world, a);
      assert a in j.world.accounts ==> SaneAt(j, a);
    }
  }

  lemma CalmTrans(u: World, v: World, w: World)
    requires Calm(u, v) && Calm(v, w)
    ensures Calm(u, w)
  {
    forall a | a in w.accounts ensures CalmAt(u, w, a) {
      assert CalmAt(v, w, a);
      assert a in v.accounts ==> CalmAt(u, v, a);
    }
  }

  lemma CalmTransferOne(j: Journaled, from: Address, to: Address, t: TokenTransfer)
    requires Open(j) && Loaded(j, from) && Loaded(j, to)
    ensures Calm(j.world, TransferOne(j, from, to, t).0.world)
  {
  }

  lemma {:induction false} CalmTransferAll(j: Journaled, from: Address, to: Address, ts: seq<TokenTransfer>)
    requires Open(j) && Loaded(j, from) && Loaded(j, to)
    ensures Calm(j.world, TransferAll(j, from, to, ts).0.world)
    decreases |ts|
  {
    if ts != [] {
      CalmTransferOne(j, from, to, ts[0]);
      var (j1, failure) := TransferOne(j, from, to, ts[0]);
      if failure.None? {
        CalmTransferAll(j1, from, to, ts[1..]);
        CalmTrans(j.world, j1.world, TransferAll(j, from, to, ts).0.world);
      }
    }
  }

  lemma CalmSelfdestruct(j: Journaled, db: Db, a: Address, target: Address)
    requires Open(j) && Loaded(j, a)
    ensures Calm(j.world, Selfdestruct(j, db, a, target).world)
  {
  }

  lemma CalmBurn(j: Journaled, db: Db, holder: Address, token: Word, amount: Word)
    requires Open(j)
    ensures Calm(j.world, Burn(j, db, token, holder, amount).0.world)
  {
    var j1 := LoadAccount(LoadTokenIds(j, db), db, holder);
    CalmLoads(j, db, holder);
    if amount > 0 {
      CalmBalance(j1.world, holder, Burn(j, db, token, holder, amount).0.world);
      CalmTrans(j.world, j1.world, Burn(j, db, token, holder, amount).0.world);
    }
  }

  lemma CalmLoads(j: Journaled, db: Db, a: Address)
    requires Open(j)
    ensures Calm(j.world, j.world) && Calm(j.world, LoadAccount(LoadTokenIds(j, db), db, a).world)
  {
  }

  /** Changing the balances of one account is calm. */
  lemma CalmBalance(v: World, a: Address, w: World)
    requires a in v.accounts && w.accounts.Keys == v.accounts.Keys
    requires w.accounts[a].created == v.accounts[a].created && w.accounts[a].nonce == v.accounts[a].nonce
    requires forall b :: b in v.accounts && b != a ==> w.accounts[b] == v.accounts[b]
    ensures Calm(v, w)
  {
  }

  lemma CalmMint(j: Journaled, db: Db, minter: Address, holder: Address, token: Word, amount: Word)
    requires Open(j) && (Loaded(j, holder) || holder == minter)
    ensures Calm(j.world, Mint(j, db, minter, holder, token, amount).0.world)
  {
    var j1 := LoadAccount(LoadTokenIds(j, db), db, minter);
    CalmLoads(j, db, minter);
    CalmBalance(j1.world, holder, Mint(j, db, minter, holder, token, amount).0.world);
    CalmTrans(j.world, j1.world, Mint(j, db, minter, holder, token, amount).0.world);
  }

  lemma CalmAccount(j: Journaled, db: Db, a: Address, key: Word, value: Word)
    requires Open(j) && Loaded(j, a)
    ensures Calm(j.world, SetCode(j, a, value).world) && Calm(j.world, IncNonce(j, a).world)
    ensures Calm(j.world, Sload(j, db, a, key).world) && Calm(j.world, Sstore(j, db, a, key, value).0.world)
  {
  }

  lemma CalmApply(j: Journaled, db: Db, op: Op)
    requires Open(j) && Callable(j, op)
    ensures Calm(j.world, Apply(j, db, op).world)
  {
    match op
    case OpTransfer(from, to, ts) => CalmTransfer(j, db, from, to, ts);
    case OpSelfdestruct(a, target) => CalmSelfdestruct(j, db, a, target);
    case OpSetCode(a, codeHash) => CalmAccount(j, db, a, 0, codeHash);
    case OpIncNonce(a) => CalmAccount(j, db, a, 0, 0);
    case OpSload(a, key) => CalmAccount(j, db, a, key, 0);
    case OpSstore(a, key, value) => CalmAccount(j, db, a, key, value);
    case OpBurn(token, holder, amount) => CalmBurn(j, db, holder, token, amount);
    case OpMint(minter, recipient, token, amount) => CalmMint(j, db, minter, recipient, token, amount);
    case _ => CalmOther(j, db, op);
  }

  lemma CalmTransfer(j: Journaled, db: Db, from: Address, to: Address, ts: seq<TokenTransfer>)
    requires Open(j)
    ensures Calm(j.world, Transfer(j, db, from, to, ts).0.world)
  {
    var j2 := LoadAccount(LoadTokenIds(j, db), db, from);
    var j3 := LoadAccount(j2, db, to);
    CalmLoads(j, db, from);
    CalmLoad(j2, db, to);
    CalmTrans(j.world, j2.world, j3.world);
    CalmTransferAll(j3, from, to, ts);
    CalmTrans(j.world, j3.world, Transfer(j, db, from, to, ts).0.world);
  }

  lemma CalmLoad(j: Journaled, db: Db, a: Address)
    requires Open(j)
    ensures Calm(j.world, LoadAccount(j, db, a).world)
  {
  }

  lemma CalmOther(j: Journaled, db: Db, op: Op)
    requires Open(j) && (op.OpTouch? || op.OpLoad? || op.OpTstore? || op.OpLog?)
    ensures Calm(j.world, Apply(j, db, op).world)
  {
  }

  // ---- Every run keeps the journal able to undo it ----

  lemma KeepsApply(view: View, j: Journaled, db: Db, op: Op)
    requires Open(j) && Callable(j, op) && CleanOp(view, j, db, op)
    ensures Keeps(view, j, Apply(j, db, op))
  {
    match op
    case OpTouch(a) => KeepsTouch(view, j, a);
    case OpLoad(a) => KeepsLoad(view, j, db, a);
    case OpSetCode(a, codeHash) => KeepsSetCode(view, j, a, codeHash);
    case OpIncNonce(a) => KeepsIncNonce(view, j, a);
    case OpTransfer(from, to, ts) => KeepsTransfer(view, j, db, from, to, ts);
    case OpSelfdestruct(a, target) => KeepsSelfdestruct(view, j, db, a, target);
    case OpSload(a, key) => KeepsSload(view, j, db, a, key);
    case OpSstore(a, key, value) => KeepsSstore(view, j, db, a, key, value);
    case OpTstore(a, key, value) => KeepsTstore(view, j, a, key, value);
    case OpLog(log) => KeepsLog(view, j, log);
    case OpBurn(token, holder, amount) => KeepsBurn(view, j, db, token, holder, amount);
    case OpMint(minter, recipient, token, amount) => KeepsMint(view, j, db, minter, recipient, token, amount);
  }

  lemma {:induction false} UndoAllIds(sd: bool, w: World, entries: seq<Entry>)
    requires UndoAll(sd, w, entries).Some?
    ensures UndoAll(sd, w, entries).value.tokenIds == if TokenIdsLoaded in entries then [] else w.tokenIds
    decreases |entries|
  {
    if entries != [] {
      var last, init := entries[|entries| - 1], entries[..|entries| - 1];
      assert entries == init + [last];
      UndoAllIds(sd, Undo(sd, w, last), init);
    }
  }

  /** Under EIP-161 no undoing changes the touched flag of address 3. */
  lemma {:induction false} UndoAllPrecompile3(w: World, entries: seq<Entry>)
    requires UndoAll(true, w, entries).Some?
    ensures TouchedAlike(UndoAll(true, w, entries).value, w)
    decreases |entries|
  {
    if entries != [] {
      var last := entries[|entries| - 1];
      UndoPrecompile3(w, last);
      UndoAllPrecompile3(Undo(true, w, last), entries[..|entries| - 1]);
    }
  }

  lemma UndoPrecompile3(w: World, e: Entry)
    requires CanUndo(true, w, e)
    ensures TouchedAlike(Undo(true, w, e), w)
  {
  }

  /** Where v still has address 3, it is touched as in w. */
  predicate TouchedAlike(v: World, w: World) {
    PRECOMPILE3 in v.accounts ==>
      PRECOMPILE3 in w.accounts && v.accounts[PRECOMPILE3].touched == w.accounts[PRECOMPILE3].touched
  }

  /** All that reverting i to j gives: j's world, logs, depth and journal are back. Two things are not
      j's but i's: a list of token ids that was loaded before, and, under EIP-161, the touched flag of
      address 3. */
  ghost predicate Restored(view: View, j: Journaled, i: Journaled, r: Journaled) {
    && Equiv(view, j.spec.spuriousDragon, j.world, r.world)
    && r.world.tokenIds == (if j.world.tokenIds == [] then [] else i.world.tokenIds)
    && j.world.tokenIds <= r.world.tokenIds
    && (j.spec.spuriousDragon ==> TouchedAlike(r.world, i.world))
    && r.logs == j.logs && r.depth == j.depth && r.journal == j.journal && r.spec == j.spec && r.warm == j.warm
  }

  lemma EnterFlat(j: Journaled)
    ensures Flat(Enter(j).journal) == Flat(j.journal)
  {
    FlatConcat(j.journal, [[]]);
    FlatOne([]);
  }

  /** What a revert undoes is what was recorded since the checkpoint. */
  lemma RevertUndoes(view: View, j: Journaled, i: Journaled)
    requires Open(j) && Keeps(view, Enter(j), i)
    ensures |j.journal| <= |i.journal| && i.journal[..|j.journal|] == j.journal
    ensures Flat(i.journal[|j.journal|..]) == Added(Enter(j), i)
  {
    var n, e := |j.journal|, Enter(j);
    assert e.journal[..|e.journal| - 1] == j.journal;
    assert i.journal[..n] == j.journal;
    assert i.journal == i.journal[..n] + i.journal[n..];
    FlatConcat(i.journal[..n], i.journal[n..]);
    EnterFlat(j);
  }

  /** Reverting to a checkpoint undoes everything recorded since. */
  lemma RevertRestores(view: View, j: Journaled, i: Journaled)
    requires Open(j) && Keeps(view, Enter(j), i)
    ensures i.depth > 0 && |j.logs| <= |i.logs| && |j.journal| <= |i.journal|
    ensures Revert(i, Mark(j)).Some? && Restored(view, j, i, Revert(i, Mark(j)).value)
  {
    var e := Enter(j);
    RevertUndoes(view, j, i);
    UndoAllIds(j.spec.spuriousDragon, i.world, Added(e, i));
    if j.spec.spuriousDragon {
      UndoAllPrecompile3(i.world, Added(e, i));
    }
  }

  lemma RestoredKeeps(view: View, j: Journaled, i: Journaled, r: Journaled)
    requires Open(j) && Restored(view, j, i, r)
    ensures Keeps(view, j, r)
  {
    assert Added(j, r) == [];
  }

  lemma CommitKeeps(view: View, j: Journaled, i: Journaled)
    requires Open(j) && Keeps(view, Enter(j), i)
    ensures i.depth > 0 && Keeps(view, j, Commit(i))
  {
    EnterFlat(j);
    var n := |j.journal|;
    assert i.journal[..n - 1] == i.journal[..n][..n - 1];
    assert Enter(j).journal[..n] == j.journal;
    assert Added(j, Commit(i)) == Added(Enter(j), i);
  }

  lemma RestoredSane(j: Journaled, i: Journaled, r: Journaled)
    requires Sane(j) && Restored(Exact, j, i, r)
    ensures Sane(r)
  {
    forall a | a in r.world.accounts && j.spec.spuriousDragon ensures SaneAt(r, a) {
      assert SaneAt(j, a) && SameAccount(Exact, j.spec.spuriousDragon, a, j.world.accounts[a], r.world.accounts[a]);
    }
  }

  lemma CloseKeeps(view: View, j: Journaled, i: Journaled, ok: bool)
    requires Open(j) && Keeps(view, Enter(j), i) && (view == Exact ==> Sane(j) && Sane(i))
    ensures Close(j, Done(i), ok).Done? && Keeps(view, j, Close(j, Done(i), ok).state)
    ensures view == Exact ==> Sane(Close(j, Done(i), ok).state)
  {
    RevertRestores(view, j, i);
    if ok {
      CommitKeeps(view, j, i);
      if view == Exact {
        CalmCommit(i);
        CalmSane(i, Commit(i));
      }
    } else {
      var r := Revert(i, Mark(j)).value;
      RestoredKeeps(view, j, i, r);
      if view == Exact {
        RestoredSane(j, i, r);
      }
    }
  }

  lemma CalmCommit(i: Journaled)
    requires i.depth > 0
    ensures Calm(i.world, Commit(i).world)
  {
  }

  lemma SaneEnter(j: Journaled)
    requires Sane(j)
    ensures Sane(Enter(j))
  {
    forall a | a in j.world.accounts && j.spec.spuriousDragon ensures SaneAt(Enter(j), a) {
      assert SaneAt(j, a);
    }
  }

  /** How far a creation that fails has gone when it is reverted. */
  function Opened(j: Journaled, a: Address): Journaled
    requires Loaded(j, a)
  {
    if Collides(j, a) then Enter(j) else Created(Enter(j), a)
  }

  /** Opening by creation: a failure leaves j restored, a success is a frame like any other. */
  lemma OpeningKeeps(view: View, j: Journaled, caller: Address, a: Address, value: Word)
    requires Open(j) && Loaded(j, caller) && Loaded(j, a) && (view == Exact ==> Sane(j) && CleanOpening(j, a))
    ensures var started := CreateAccount(j, caller, a, value);
            && started.Some?
            && (started.value.1.Some? ==> Restored(view, j, Opened(j, a), started.value.0))
            && (started.value.1.None? ==> Keeps(view, Enter(j), started.value.0) && !Collides(j, a))
  {
    var e := Enter(j);
    if Collides(e, a) {
      KeepsRefl(view, e);
      RevertRestores(view, j, e);
    } else {
      assert view == Exact ==> CreatesCleanly(e.world.accounts[a]) by {
        assert view == Exact && j.spec.spuriousDragon ==> SaneAt(j, a);
      }
      KeepsCreated(view, e, a);
      BornIs(e, a);
      if Balance(e.world.accounts[a], BASE_TOKEN_ID) + value >= TWO_256 {
        RevertRestores(view, j, Created(e, a));
      } else {
        KeepsFunded(view, e, caller, a, value);
      }
    }
  }

  /** The account just created has its nonce. */
  lemma OpeningSane(j: Journaled, caller: Address, a: Address, value: Word)
    requires Open(j) && Loaded(j, caller) && Loaded(j, a) && Sane(j) && !Collides(j, a)
    requires CreateAccount(j, caller, a, value).Some? && CreateAccount(j, caller, a, value).value.1.None?
    ensures Sane(CreateAccount(j, caller, a, value).value.0)
  {
    var e := Enter(j);
    var i := CreateAccount(j, caller, a, value).value.0;
    BornIs(e, a);
    NonceEarlier(Created(e, a), caller, a, value);
    forall b | b in i.world.accounts && j.spec.spuriousDragon ensures SaneAt(i, b) {
      assert b in j.world.accounts ==> SaneAt(j, b);
    }
  }

  /** No run ever panics while undoing, and what it records undoes it. */
  lemma {:induction false} RunKeeps(view: View, j: Journaled, db: Db, s: Script)
    requires Open(j) && (view == Exact ==> Sane(j)) && Clean(view, j, db, s)
    ensures Run(j, db, s) != Panicked
    ensures Run(j, db, s).Done? ==>
      Open(Run(j, db, s).state) && Keeps(view, j, Run(j, db, s).state) && (view == Exact ==> Sane(Run(j, db, s).state))
    decreases s, 1
  {
    match s
    case Do(op) =>
      if Callable(j, op) {
        KeepsApply(view, j, db, op);
        CalmApply(j, db, op);
        if view == Exact {
          CalmSane(j, Apply(j, db, op));
        }
      }
    case Frame(OpenCall, body, ok) =>
      if view == Exact {
        SaneEnter(j);
      }
      KeepsRefl(view, Enter(j));
      FrameKeeps(view, j, Enter(j), db, body, ok);
    case Frame(OpenCreate(caller, a, value), body, ok) =>
      if Loaded(j, caller) && Loaded(j, a) {
        OpeningKeeps(view, j, caller, a, value);
        var (i, failure) := CreateAccount(j, caller, a, value).value;
        if failure.Some? {
          RestoredKeeps(view, j, Opened(j, a), i);
          if view == Exact {
            RestoredSane(j, Opened(j, a), i);
          }
        } else {
          if view == Exact {
            OpeningSane(j, caller, a, value);
          }
          FrameKeeps(view, j, i, db, body, ok);
        }
      }
  }

  lemma {:induction false} FrameKeeps(view: View, j: Journaled, i: Journaled, db: Db, body: seq<Script>, ok: bool)
    requires Open(j) && Keeps(view, Enter(j), i) && (view == Exact ==> Sane(j) && Sane(i)) && Open(i) && CleanAll(view, i, db, body)
    ensures Open(i) && Close(j, RunAll(i, db, body), ok) != Panicked
    ensures Close(j, RunAll(i, db, body), ok).Done? ==>
      var r := Close(j, RunAll(i, db, body), ok).state;
      Open(r) && Keeps(view, j, r) && (view == Exact ==> Sane(r))
    decreases body, 1
  {
    RunAllKeeps(view, i, db, body);
    var inner := RunAll(i, db, body);
    if inner.Done? {
      KeepsTrans(view, Enter(j), i, inner.state);
      CloseKeeps(view, j, inner.state, ok);
    }
  }

  lemma {:induction false} RunAllKeeps(view: View, j: Journaled, db: Db, body: seq<Script>)
    requires Open(j) && (view == Exact ==> Sane(j)) && CleanAll(view, j, db, body)
    ensures RunAll(j, db, body) != Panicked
    ensures RunAll(j, db, body).Done? ==>
      Open(RunAll(j, db, body).state) && Keeps(view, j, RunAll(j, db, body).state) && (view == Exact ==> Sane(RunAll(j, db, body).state))
    decreases body, 0
  {
    if body == [] {
      KeepsRefl(view, j);
    } else {
      RunKeeps(view, j, db, body[0]);
      var first := Run(j, db, body[0]);
      if first.Done? {
        RunAllKeeps(view, first.state, db, body[1..]);
        if RunAll(first.state, db, body[1..]).Done? {
          KeepsTrans(view, j, first.state, RunAll(first.state, db, body[1..]).state);
        }
      }
    }
  }

  /** Shape asks nothing of a run. */
  lemma {:induction false} ShapeClean(j: Journaled, db: Db, body: seq<Script>)
    requires Open(j)
    ensures CleanAll(Shape, j, db, body)
    decreases body, 0
  {
    if body != [] {
      ShapeCleanOne(j, db, body[0]);
      if Run(j, db, body[0]).Done? && Open(Run(j, db, body[0]).state) {
        ShapeClean(Run(j, db, body[0]).state, db, body[1..]);
      }
    }
  }

  lemma {:induction false} ShapeCleanOne(j: Journaled, db: Db, s: Script)
    requires Open(j)
    ensures Clean(Shape, j, db, s)
    decreases s, 1
  {
    match s
    case Do(op) =>
    case Frame(OpenCall, body, ok) => ShapeClean(Enter(j), db, body);
    case Frame(OpenCreate(caller, a, value), body, ok) =>
      if Loaded(j, caller) && Loaded(j, a) {
        var started := CreateAccount(j, caller, a, value);
        if started.Some? && started.value.1.None? && Open(started.value.0) {
          ShapeClean(started.value.0, db, body);
        }
      }
  }

  // ---- The two theorems ----

  /** Undoing is always defined: whatever operations and nested frames run after a checkpoint, no
      inner revert panics, and neither does reverting to the checkpoint. */
  lemma UndoAlwaysDefined(j: Journaled, db: Db, body: seq<Script>)
    requires Open(j)
    ensures RunAll(Enter(j), db, body) != Panicked
    ensures RunAll(Enter(j), db, body).Done? ==>
      var i := RunAll(Enter(j), db, body).state;
      i.depth > 0 && |j.logs| <= |i.logs| && |j.journal| <= |i.journal| && Revert(i, Mark(j)).Some?
  {
    ShapeClean(Enter(j), db, body);
    RunAllKeeps(Shape, Enter(j), db, body);
    if RunAll(Enter(j), db, body).Done? {
      RevertRestores(Shape, j, RunAll(Enter(j), db, body).state);
    }
  }

  /** Revert is an exact undo: after a checkpoint and any clean sequence of operations and nested
      frames, reverting restores the loaded accounts, nonces, code hashes, every token balance, flags,
      storage, transient storage, logs, depth and journal. The list of token ids returns to empty if it
      was empty and otherwise stays as the run left it, and under EIP-161 so does the touched flag of
      address 3. */
  lemma RevertIsExactUndo(j: Journaled, db: Db, body: seq<Script>)
    requires Open(j) && Sane(j) && CleanAll(Exact, Enter(j), db, body) && RunAll(Enter(j), db, body).Done?
    ensures var i := RunAll(Enter(j), db, body).state;
            && i.depth > 0 && |j.logs| <= |i.logs| && |j.journal| <= |i.journal| && Revert(i, Mark(j)).Some?
            && Restored(Exact, j, i, Revert(i, Mark(j)).value)
  {
    SaneEnter(j);
    RunAllKeeps(Exact, Enter(j), db, body);
    RevertRestores(Exact, j, RunAll(Enter(j), db, body).state);
  }
}
