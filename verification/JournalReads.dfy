/** What the journaled state answers when asked, and what each operation makes of the answers. */
module JournalReads {
  import opened Prelude
  import opened JournalState
  import opened JournalEquiv
  import opened JournalOps
  import opened JournalKeeps
  import opened JournalFunds
  import opened JournalRuns
  import opened JournalOverflow

  datatype Query =
    | NonceOf(a: Address)
    | CodeOf(a: Address)
    | FundsOf(a: Address, token: Word)
    | SlotOf(a: Address, key: Word)
    | TransientOf(a: Address, key: Word)
    | CreatedOf(a: Address)
    | DestroyedOf(a: Address)

  /** What the database answers. */
  function DbAnswer(db: Db, q: Query): int {
    match q
    case NonceOf(a) => if a in db.accounts then db.accounts[a].nonce else 0
    case CodeOf(a) => if a in db.accounts then db.accounts[a].codeHash else KECCAK_EMPTY
    case FundsOf(a, token) => if a in db.accounts && token in db.accounts[a].balances then db.accounts[a].balances[token] else 0
    case SlotOf(a, key) => if (a, key) in db.storage then db.storage[(a, key)] else 0
    case _ => 0
  }

  /** What a loaded account answers; a slot it has not loaded is the database's unless the account was
      created in this transaction. */
  function AccountAnswer(db: Db, acc: Account, q: Query): int {
    match q
    case NonceOf(_) => acc.nonce
    case CodeOf(_) => acc.codeHash
    case FundsOf(_, token) => if token in acc.balances then acc.balances[token] else 0
    case SlotOf(a, key) => if key in acc.storage then acc.storage[key].present else if acc.created then 0 else DbAnswer(db, q)
    case TransientOf(_, _) => 0
    case CreatedOf(_) => if acc.created then 1 else 0
    case DestroyedOf(_) => if acc.selfDestructed then 1 else 0
  }

  /** The answer in world w over the database. */
  function Answer(db: Db, w: World, q: Query): int {
    if q.TransientOf? then if (q.a, q.key) in w.transient then w.transient[(q.a, q.key)] else 0
    else if q.a in w.accounts then AccountAnswer(db, w.accounts[q.a], q)
    else DbAnswer(db, q)
  }

  /** All answers in w' are those in w. */
  ghost predicate SameAnswers(db: Db, w: World, w': World) {
    forall q {:trigger Answer(db, w', q)} :: Answer(db, w', q) == Answer(db, w, q)
  }

  // ---- Operations that change no answer ----

  lemma TouchAnswers(j: Journaled, db: Db, a: Address)
    requires Open(j)
    ensures SameAnswers(db, j.world, Touch(j, a).world)
  {
  }

  /** Loading an account brings what the database has. */
  lemma LoadAnswers(j: Journaled, db: Db, a: Address)
    requires Open(j)
    ensures SameAnswers(db, j.world, LoadAccount(j, db, a).world)
  {
  }

  lemma LoadIdsAnswers(j: Journaled, db: Db)
    requires Open(j)
    ensures SameAnswers(db, j.world, LoadTokenIds(j, db).world)
  {
  }

  lemma LoadsAnswers(j: Journaled, db: Db, a: Address)
    requires Open(j)
    ensures SameAnswers(db, j.world, LoadAccount(LoadTokenIds(j, db), db, a).world)
  {
    LoadIdsAnswers(j, db);
    LoadAnswers(LoadTokenIds(j, db), db, a);
  }

  // ---- Code, nonce, storage, transient storage ----

  /** Setting code sets the code hash, and nothing else. */
  lemma SetCodeAnswers(j: Journaled, db: Db, a: Address, codeHash: Word, q: Query)
    requires Open(j) && Loaded(j, a)
    ensures Answer(db, SetCode(j, a, codeHash).world, q) == if q == CodeOf(a) then codeHash else Answer(db, j.world, q)
  {
  }

  lemma IncNonceAnswers(j: Journaled, db: Db, a: Address, q: Query)
    requires Open(j) && Loaded(j, a)
    ensures Answer(db, IncNonce(j, a).world, q) ==
            Answer(db, j.world, q) + if q == NonceOf(a) && Answer(db, j.world, q) < 0xFFFF_FFFF_FFFF_FFFF then 1 else 0
  {
  }

  /** Loading a slot changes no answer, and the slot it leaves holds the answer. */
  lemma SloadAnswers(j: Journaled, db: Db, a: Address, key: Word)
    requires Open(j) && Loaded(j, a)
    ensures SameAnswers(db, j.world, Sload(j, db, a, key).world)
    ensures var acc := Sload(j, db, a, key).world.accounts[a];
            key in acc.storage && acc.storage[key].present == Answer(db, j.world, SlotOf(a, key))
  {
  }

  /** A store sets the slot to the new value, and nothing else; it reports the value before. */
  lemma SstoreAnswers(j: Journaled, db: Db, a: Address, key: Word, value: Word, q: Query)
    requires Open(j) && Loaded(j, a)
    ensures var (j', r) := Sstore(j, db, a, key, value);
            && Answer(db, j'.world, q) == (if q == SlotOf(a, key) then value else Answer(db, j.world, q))
            && r.present == Answer(db, j.world, SlotOf(a, key)) && r.newValue == value
            && r.original == (if key in j.world.accounts[a].storage then j.world.accounts[a].storage[key].original else r.present)
  {
    SloadAnswers(j, db, a, key);
  }

  lemma TstoreAnswers(j: Journaled, db: Db, a: Address, key: Word, value: Word, q: Query)
    requires Open(j)
    ensures Answer(db, Tstore(j, a, key, value).world, q) == if q == TransientOf(a, key) then value else Answer(db, j.world, q)
  {
  }

  // ---- Tokens ----

  /** A burn succeeds exactly for a positive amount of a known token that the holder has, and takes it. */
  lemma BurnAnswers(j: Journaled, db: Db, token: Word, holder: Address, amount: Word, q: Query)
    requires Open(j)
    ensures var (j', ok) := Burn(j, db, token, holder, amount);
            && (ok <==> amount > 0 && token in db.validIds && amount <= Answer(db, j.world, FundsOf(holder, token)))
            && Answer(db, j'.world, q) == Answer(db, j.world, q) - if ok && q == FundsOf(holder, token) then amount else 0
  {
    LoadsAnswers(j, db, holder);
    var j1 := LoadAccount(LoadTokenIds(j, db), db, holder);
    assert Answer(db, j1.world, FundsOf(holder, token)) == Answer(db, j.world, FundsOf(holder, token));
    assert Answer(db, j1.world, q) == Answer(db, j.world, q);
  }

  /** A mint succeeds exactly if the recipient has room, and gives the amount. */
  lemma MintAnswers(j: Journaled, db: Db, minter: Address, recipient: Address, token: Word, amount: Word, q: Query)
    requires Open(j) && (Loaded(j, recipient) || recipient == minter)
    ensures var (j', ok) := Mint(j, db, minter, recipient, token, amount);
            && (ok <==> Answer(db, j.world, FundsOf(recipient, token)) + amount < TWO_256)
            && Answer(db, j'.world, q) == Answer(db, j.world, q) + if ok && q == FundsOf(recipient, token) then amount else 0
  {
    LoadsAnswers(j, db, minter);
    MintIs(j, db, minter, recipient, token, amount);
    var j1 := LoadAccount(LoadTokenIds(j, db), db, minter);
    assert Answer(db, j1.world, FundsOf(recipient, token)) == Answer(db, j.world, FundsOf(recipient, token));
    assert Answer(db, j1.world, q) == Answer(db, j.world, q);
    if Mint(j, db, minter, recipient, token, amount).1 {
      GivenAnswers(j1.world, db, recipient, token, amount, MintedIds(j1, token), q);
    }
  }

  lemma GivenAnswers(w: World, db: Db, recipient: Address, token: Word, amount: Word, ids: seq<Word>, q: Query)
    requires recipient in w.accounts && Balance(w.accounts[recipient], token) + amount < TWO_256
    ensures var acc := w.accounts[recipient];
            var w' := Put(w, recipient, SetBalance(acc, token, Balance(acc, token) + amount)).(tokenIds := ids);
            Answer(db, w', q) == Answer(db, w, q) + if q == FundsOf(recipient, token) then amount else 0
  {
  }

  /** A mint loads the list of ids if it was not loaded, and adds the id at the end if it is new. */
  lemma MintAddsId(j: Journaled, db: Db, minter: Address, recipient: Address, token: Word, amount: Word)
    requires Open(j) && (Loaded(j, recipient) || recipient == minter)
    ensures var (j', ok) := Mint(j, db, minter, recipient, token, amount);
            var ids := if j.world.tokenIds == [] then db.tokenIds else j.world.tokenIds;
            j'.world.tokenIds == if ok && token !in ids then ids + [token] else ids
  {
    MintIs(j, db, minter, recipient, token, amount);
  }

  /** One payment moves its amount between two balances; one that fails for lack of funds moves nothing. */
  lemma PaymentAnswers(j: Journaled, db: Db, from: Address, to: Address, t: TokenTransfer, q: Query)
    requires Open(j) && Loaded(j, from) && Loaded(j, to)
    ensures var (j', failure) := TransferOne(j, from, to, t);
            && (failure == Some(OutOfFunds) <==> Answer(db, j.world, FundsOf(from, t.id)) < t.amount)
            && (failure == None ==>
                  Answer(db, j'.world, q) ==
                  Answer(db, j.world, q) + (if q == FundsOf(to, t.id) then t.amount else 0) - (if q == FundsOf(from, t.id) then t.amount else 0))
            && (failure == Some(OutOfFunds) ==> Answer(db, j'.world, q) == Answer(db, j.world, q))
            && (failure == Some(OverflowPayment) ==>
                  Answer(db, j'.world, q) == Answer(db, j.world, q) - if q == FundsOf(from, t.id) then t.amount else 0)
  {
    var j1 := Touch(j, from);
    TouchAnswers(j, db, from);
    assert Answer(db, j1.world, q) == Answer(db, j.world, q);
    if t.amount <= Balance(j1.world.accounts[from], t.id) {
      var j2 := j1.(world := Debited(j1.world, from, t.id, t.amount));
      DebitAnswers(j1.world, db, from, t, q);
      CreditAnswers(j2, db, from, to, t, q);
      assert TransferOne(j, from, to, t) == Credited(j2, from, to, t);
    }
  }

  lemma DebitAnswers(w: World, db: Db, from: Address, t: TokenTransfer, q: Query)
    requires from in w.accounts && t.amount <= Balance(w.accounts[from], t.id)
    ensures Answer(db, Debited(w, from, t.id, t.amount), q) == Answer(db, w, q) - if q == FundsOf(from, t.id) then t.amount else 0
  {
  }

  lemma CreditAnswers(j: Journaled, db: Db, from: Address, to: Address, t: TokenTransfer, q: Query)
    requires Open(j) && Loaded(j, to)
    ensures var (j', failure) := Credited(j, from, to, t);
            Answer(db, j'.world, q) == Answer(db, j.world, q) + if failure == None && q == FundsOf(to, t.id) then t.amount else 0
  {
    TouchAnswers(j, db, to);
    assert Answer(db, Touch(j, to).world, q) == Answer(db, j.world, q);
  }

  /** What `from` paying `to` the sums of ts makes of q. */
  function Moved(ts: seq<TokenTransfer>, from: Address, to: Address, q: Query): int {
    (if q.FundsOf? && q.a == to then Sent(ts, |ts|, q.token) else 0) - (if q.FundsOf? && q.a == from then Sent(ts, |ts|, q.token) else 0)
  }

  /** A list that goes through moves the sums of its amounts between two accounts, and nothing else. */
  lemma {:induction false} PaymentsAnswers(j: Journaled, db: Db, from: Address, to: Address, ts: seq<TokenTransfer>, q: Query)
    requires Open(j) && Loaded(j, from) && Loaded(j, to) && TransferAll(j, from, to, ts).1.None?
    ensures Answer(db, TransferAll(j, from, to, ts).0.world, q) == Answer(db, j.world, q) + Moved(ts, from, to, q)
    decreases |ts|
  {
    if ts != [] {
      var j1 := TransferOne(j, from, to, ts[0]).0;
      PaymentAnswers(j, db, from, to, ts[0], q);
      PaymentsAnswers(j1, db, from, to, ts[1..], q);
      if q.FundsOf? {
        SentShift(ts, |ts| - 1, q.token);
      }
    }
  }

  lemma TransferAnswers(j: Journaled, db: Db, from: Address, to: Address, ts: seq<TokenTransfer>, q: Query)
    requires Open(j) && Transfer(j, db, from, to, ts).1.None?
    ensures Answer(db, Transfer(j, db, from, to, ts).0.world, q) == Answer(db, j.world, q) + Moved(ts, from, to, q)
  {
    var j2 := LoadAccount(LoadTokenIds(j, db), db, from);
    var j3 := LoadAccount(j2, db, to);
    LoadsAnswers(j, db, from);
    LoadAnswers(j2, db, to);
    assert Answer(db, j3.world, q) == Answer(db, j2.world, q) == Answer(db, j.world, q);
    PaymentsAnswers(j3, db, from, to, ts, q);
  }

  // ---- Self-destruction ----

  /** The account is destroyed for good: before Cancun always, from then on if it was created here. */
  predicate Perishes(j: Journaled, db: Db, a: Address) {
    Answer(db, j.world, CreatedOf(a)) == 1 || !j.spec.cancun
  }

  /** The target gets the base balance and `a` is left without it; an account that does not perish and
      names itself keeps it. */
  lemma SelfdestructAnswers(j: Journaled, db: Db, a: Address, target: Address, q: Query)
    requires Open(j) && Loaded(j, a)
    ensures var had, before := Answer(db, j.world, FundsOf(a, BASE_TOKEN_ID)), Answer(db, j.world, q);
            Answer(db, Selfdestruct(j, db, a, target).world, q) ==
            if q == FundsOf(a, BASE_TOKEN_ID) then if a == target && !Perishes(j, db, a) then had else 0
            else if q == FundsOf(target, BASE_TOKEN_ID) then if before + had < TWO_256 then before + had else before + had - TWO_256
            else if q == DestroyedOf(a) && Perishes(j, db, a) then 1
            else before
  {
    var j1 := LoadAccount(j, db, target);
    LoadAnswers(j, db, target);
    assert Answer(db, j1.world, q) == Answer(db, j.world, q);
    GiftAnswers(j1, db, a, target, q);
    DestroyAnswers(Gifted(j1, a, target), db, a, target, q);
  }

  lemma GiftAnswers(j: Journaled, db: Db, a: Address, target: Address, q: Query)
    requires Open(j) && Loaded(j, a) && Loaded(j, target)
    ensures var had, before := Answer(db, j.world, FundsOf(a, BASE_TOKEN_ID)), Answer(db, j.world, q);
            Answer(db, Gifted(j, a, target).world, q) ==
            if a != target && q == FundsOf(target, BASE_TOKEN_ID) then if before + had < TWO_256 then before + had else before + had - TWO_256
            else before
  {
  }

  lemma DestroyAnswers(j: Journaled, db: Db, a: Address, target: Address, q: Query)
    requires Open(j) && Loaded(j, a)
    ensures var before := Answer(db, j.world, q);
            Answer(db, Destroyed(j, a, target).world, q) ==
            if q == FundsOf(a, BASE_TOKEN_ID) && !(a == target && !Perishes(j, db, a)) then 0
            else if q == DestroyedOf(a) && Perishes(j, db, a) then 1
            else before
  {
  }

  // ---- Creation ----

  /** Why a creation fails: the address has code or a nonce or is a precompile; or the endowment does not
      fit. */
  function CreationFails(j: Journaled, db: Db, a: Address, value: Word): Option<Failure> {
    if Answer(db, j.world, CodeOf(a)) != KECCAK_EMPTY || Answer(db, j.world, NonceOf(a)) != 0 || a in j.warm then Some(CreateCollision)
    else if Answer(db, j.world, FundsOf(a, BASE_TOKEN_ID)) + value >= TWO_256 then Some(OverflowPayment)
    else None
  }

  lemma CreationOutcome(j: Journaled, db: Db, caller: Address, a: Address, value: Word)
    requires Open(j) && Loaded(j, caller) && Loaded(j, a)
    ensures CreateAccount(j, caller, a, value).Some?
    ensures CreateAccount(j, caller, a, value).value.1 == CreationFails(j, db, a, value)
  {
    OpeningKeeps(Shape, j, caller, a, value);
    if !Collides(j, a) {
      BornIs(Enter(j), a);
    }
  }

  /** A created account is marked, all its slots are zero, its nonce is one (before EIP-161 zero), and it
      has the caller's endowment. */
  lemma CreationAnswers(j: Journaled, db: Db, caller: Address, a: Address, value: Word, q: Query)
    requires Open(j) && Loaded(j, caller) && Loaded(j, a) && CreationFails(j, db, a, value).None?
    requires value <= Answer(db, j.world, FundsOf(caller, BASE_TOKEN_ID))
    ensures CreateAccount(j, caller, a, value).Some?
    ensures var before := Answer(db, j.world, q);
            Answer(db, CreateAccount(j, caller, a, value).value.0.world, q) ==
            if q == CreatedOf(a) then 1
            else if q.SlotOf? && q.a == a then 0
            else if q == NonceOf(a) then if j.spec.spuriousDragon then 1 else 0
            else before + (if q == FundsOf(a, BASE_TOKEN_ID) then value else 0) - (if q == FundsOf(caller, BASE_TOKEN_ID) then value else 0)
  {
    CreationOutcome(j, db, caller, a, value);
    BornIs(Enter(j), a);
    MarkAnswers(Enter(j), db, a, q);
    MarkAnswers(Enter(j), db, a, FundsOf(caller, BASE_TOKEN_ID));
    MarkAnswers(Enter(j), db, a, NonceOf(a));
    FundAnswers(Created(Enter(j), a), db, caller, a, value, q);
  }

  lemma MarkAnswers(j: Journaled, db: Db, a: Address, q: Query)
    requires Open(j) && Loaded(j, a)
    ensures Answer(db, Created(j, a).world, q) ==
            if q == CreatedOf(a) then 1 else if q.SlotOf? && q.a == a then 0 else Answer(db, j.world, q)
  {
    CreatedIs(j, a);
    var acc := j.world.accounts[a];
    var j1 := Note(j, Put(j.world, a, Newborn(acc, acc.nonce)), AccountCreated(a));
    TouchAnswers(j1, db, a);
    assert Answer(db, Touch(j1, a).world, q) == Answer(db, j1.world, q);
  }

  lemma FundAnswers(j: Journaled, db: Db, caller: Address, a: Address, value: Word, q: Query)
    requires Open(j) && Loaded(j, caller) && Loaded(j, a) && Balance(j.world.accounts[a], BASE_TOKEN_ID) + value < TWO_256
    requires value <= Answer(db, j.world, FundsOf(caller, BASE_TOKEN_ID))
    ensures Answer(db, Funded(j, caller, a, value).world, q) ==
            if q == NonceOf(a) && j.spec.spuriousDragon then 1
            else
              Answer(db, j.world, q) + (if q == FundsOf(a, BASE_TOKEN_ID) then value else 0)
              - (if q == FundsOf(caller, BASE_TOKEN_ID) then value else 0)
  {
  }

  // ---- Runs ----

  /** Reverting a clean run restores every answer. */
  lemma RestoredAnswers(db: Db, j: Journaled, i: Journaled, r: Journaled, q: Query)
    requires Restored(Exact, j, i, r)
    ensures Answer(db, r.world, q) == Answer(db, j.world, q)
  {
    var sd := j.spec.spuriousDragon;
    if q.TransientOf? {
      assert Tload(j.world, (q.a, q.key)) == Tload(r.world, (q.a, q.key));
    } else if q.a in j.world.accounts {
      assert SameAccount(Exact, sd, q.a, j.world.accounts[q.a], r.world.accounts[q.a]);
      if q.FundsOf? {
        assert Balance(j.world.accounts[q.a], q.token) == Balance(r.world.accounts[q.a], q.token);
      }
    }
  }

  lemma RevertAnswers(j: Journaled, db: Db, body: seq<Script>, q: Query)
    requires Open(j) && Sane(j) && CleanAll(Exact, Enter(j), db, body) && RunAll(Enter(j), db, body).Done?
    ensures var i := RunAll(Enter(j), db, body).state;
            && i.depth > 0 && |j.logs| <= |i.logs| && |j.journal| <= |i.journal| && Revert(i, Mark(j)).Some?
            && Answer(db, Revert(i, Mark(j)).value.world, q) == Answer(db, j.world, q)
  {
    RevertIsExactUndo(j, db, body);
    var i := RunAll(Enter(j), db, body).state;
    RestoredAnswers(db, j, i, Revert(i, Mark(j)).value, q);
  }

  /** The queries that operations assign: code, storage and transient storage. */
  predicate Assignable(q: Query) {
    q.CodeOf? || q.SlotOf? || q.TransientOf?
  }

  /** The value that an operation assigns to q, if it does. */
  function Assigned(op: Op, q: Query): Option<Word> {
    match op
    case OpSetCode(a, codeHash) => if q == CodeOf(a) then Some(codeHash) else None
    case OpSstore(a, key, value) => if q == SlotOf(a, key) then Some(value) else None
    case OpTstore(a, key, value) => if q == TransientOf(a, key) then Some(value) else None
    case _ => None
  }

  /** The last value assigned to q in the frames that are kept, and `v` if there is none. A creation sets
      the slots of its account to zero. */
  function LastValue(j: Journaled, db: Db, s: Script, q: Query, v: int): int
    requires Open(j)
    decreases s
  {
    match s
    case Do(op) => if Callable(j, op) && Assigned(op, q).Some? then Assigned(op, q).value else v
    case Frame(OpenCall, body, ok) => if ok then LastOfAll(Enter(j), db, body, q, v) else v
    case Frame(OpenCreate(caller, a, value), body, ok) =>
      if !ok || !Loaded(j, caller) || !Loaded(j, a) then v
      else
        var started := CreateAccount(j, caller, a, value);
        if started.None? || started.value.1.Some? || !Open(started.value.0) then v
        else LastOfAll(started.value.0, db, body, q, if q.SlotOf? && q.a == a then 0 else v)
  }

  function LastOfAll(j: Journaled, db: Db, body: seq<Script>, q: Query, v: int): int
    requires Open(j)
    decreases body
  {
    if body == [] then v
    else
      var first, v1 := Run(j, db, body[0]), LastValue(j, db, body[0], q, v);
      if first.Done? && Open(first.state) then LastOfAll(first.state, db, body[1..], q, v1) else v1
  }

  lemma ApplyAssigns(j: Journaled, db: Db, op: Op, q: Query)
    requires Open(j) && Callable(j, op) && Assignable(q) && CleanOp(Exact, j, db, op)
    ensures Answer(db, Apply(j, db, op).world, q) == if Assigned(op, q).Some? then Assigned(op, q).value else Answer(db, j.world, q)
  {
    match op
    case OpTouch(a) => TouchAnswers(j, db, a);
    case OpLoad(a) => LoadAnswers(j, db, a);
    case OpSetCode(a, codeHash) => SetCodeAnswers(j, db, a, codeHash, q);
    case OpIncNonce(a) => IncNonceAnswers(j, db, a, q);
    case OpTransfer(from, to, ts) => TransferAssigns(j, db, from, to, ts, q);
    case OpSelfdestruct(a, target) => SelfdestructAnswers(j, db, a, target, q);
    case OpSload(a, key) => SloadAnswers(j, db, a, key);
    case OpSstore(a, key, value) => SstoreAnswers(j, db, a, key, value, q);
    case OpTstore(a, key, value) => TstoreAnswers(j, db, a, key, value, q);
    case OpLog(log) =>
    case OpBurn(token, holder, amount) => BurnAnswers(j, db, token, holder, amount, q);
    case OpMint(minter, recipient, token, amount) => MintAnswers(j, db, minter, recipient, token, amount, q);
  }

  /** Payments, made or failing, assign nothing. */
  lemma {:induction false} PaymentsAssign(j: Journaled, db: Db, from: Address, to: Address, ts: seq<TokenTransfer>, q: Query)
    requires Open(j) && Loaded(j, from) && Loaded(j, to) && Assignable(q) && TransferAll(j, from, to, ts).1 != Some(OverflowPayment)
    ensures Answer(db, TransferAll(j, from, to, ts).0.world, q) == Answer(db, j.world, q)
    decreases |ts|
  {
    if ts != [] {
      PaymentAnswers(j, db, from, to, ts[0], q);
      var (j1, failure) := TransferOne(j, from, to, ts[0]);
      OnePayment(j, from, to, ts[0]);
      if failure.None? {
        PaymentsAssign(j1, db, from, to, ts[1..], q);
      }
    }
  }

  lemma TransferAssigns(j: Journaled, db: Db, from: Address, to: Address, ts: seq<TokenTransfer>, q: Query)
    requires Open(j) && Assignable(q) && Transfer(j, db, from, to, ts).1 != Some(OverflowPayment)
    ensures Answer(db, Transfer(j, db, from, to, ts).0.world, q) == Answer(db, j.world, q)
  {
    var j2 := LoadAccount(LoadTokenIds(j, db), db, from);
    var j3 := LoadAccount(j2, db, to);
    LoadsAnswers(j, db, from);
    LoadAnswers(j2, db, to);
    assert Answer(db, j3.world, q) == Answer(db, j2.world, q) == Answer(db, j.world, q);
    PaymentsAssign(j3, db, from, to, ts, q);
  }

  lemma OpeningAssigns(j: Journaled, db: Db, caller: Address, a: Address, value: Word, q: Query)
    requires Open(j) && Loaded(j, caller) && Loaded(j, a) && Assignable(q)
    requires CreateAccount(j, caller, a, value).Some? && CreateAccount(j, caller, a, value).value.1.None?
    ensures Answer(db, CreateAccount(j, caller, a, value).value.0.world, q) == if q.SlotOf? && q.a == a then 0 else Answer(db, j.world, q)
  {
    var e := Enter(j);
    BornIs(e, a);
    MarkAnswers(e, db, a, q);
    EndowAssigns(Created(e, a), db, caller, a, value, q);
  }

  lemma EndowAssigns(j: Journaled, db: Db, caller: Address, a: Address, value: Word, q: Query)
    requires Open(j) && Loaded(j, caller) && Loaded(j, a) && Balance(j.world.accounts[a], BASE_TOKEN_ID) + value < TWO_256
    requires Assignable(q)
    ensures Answer(db, Funded(j, caller, a, value).world, q) == Answer(db, j.world, q)
  {
  }

  lemma {:induction false} RunAssigns(j: Journaled, db: Db, s: Script, q: Query)
    requires Open(j) && Sane(j) && Clean(Exact, j, db, s) && Assignable(q)
    ensures Run(j, db, s).Done? ==>
      Answer(db, Run(j, db, s).state.world, q) == LastValue(j, db, s, q, Answer(db, j.world, q))
    decreases s, 1
  {
    match s
    case Do(op) =>
      if Callable(j, op) {
        ApplyAssigns(j, db, op, q);
      }
    case Frame(OpenCall, body, ok) =>
      SaneEnter(j);
      KeepsRefl(Exact, Enter(j));
      FrameAssigns(j, Enter(j), db, body, ok, q);
    case Frame(OpenCreate(caller, a, value), body, ok) =>
      if Loaded(j, caller) && Loaded(j, a) {
        OpeningKeeps(Exact, j, caller, a, value);
        var (i, failure) := CreateAccount(j, caller, a, value).value;
        if failure.Some? {
          RestoredAnswers(db, j, Opened(j, a), i, q);
        } else {
          OpeningSane(j, caller, a, value);
          OpeningAssigns(j, db, caller, a, value, q);
          FrameAssigns(j, i, db, body, ok, q);
        }
      }
  }

  lemma {:induction false} FrameAssigns(j: Journaled, i: Journaled, db: Db, body: seq<Script>, ok: bool, q: Query)
    requires Open(j) && Open(i) && Sane(i) && Keeps(Exact, Enter(j), i) && CleanAll(Exact, i, db, body) && Assignable(q)
    ensures Close(j, RunAll(i, db, body), ok).Done? ==>
      Answer(db, Close(j, RunAll(i, db, body), ok).state.world, q) ==
      if ok then LastOfAll(i, db, body, q, Answer(db, i.world, q)) else Answer(db, j.world, q)
    decreases body, 1
  {
    var inner := RunAll(i, db, body);
    if inner.Done? {
      RunAllAssigns(i, db, body, q);
      RunAllKeeps(Exact, i, db, body);
      KeepsTrans(Exact, Enter(j), i, inner.state);
      CloseAnswers(j, inner.state, db, q);
    }
  }

  lemma CloseAnswers(j: Journaled, i: Journaled, db: Db, q: Query)
    requires Open(j) && Keeps(Exact, Enter(j), i)
    ensures Close(j, Done(i), true) == Done(Commit(i)) && Commit(i).world == i.world
    ensures Close(j, Done(i), false).Done? && Answer(db, Close(j, Done(i), false).state.world, q) == Answer(db, j.world, q)
  {
    RevertRestores(Exact, j, i);
    RestoredAnswers(db, j, i, Revert(i, Mark(j)).value, q);
  }

  /** Over every clean run, code, storage and transient storage answer with the last value assigned in a
      frame that was kept, and with the first state's answer where there is none. */
  lemma {:induction false} RunAllAssigns(j: Journaled, db: Db, body: seq<Script>, q: Query)
    requires Open(j) && Sane(j) && CleanAll(Exact, j, db, body) && Assignable(q)
    ensures RunAll(j, db, body).Done? ==>
      Answer(db, RunAll(j, db, body).state.world, q) == LastOfAll(j, db, body, q, Answer(db, j.world, q))
    decreases body, 0
  {
    if body != [] {
      RunAssigns(j, db, body[0], q);
      RunKeeps(Exact, j, db, body[0]);
      var first := Run(j, db, body[0]);
      if first.Done? {
        RunAllAssigns(first.state, db, body[1..], q);
      }
    }
  }

  // ---- Logs ----

  /** No operation but logging adds a log. */
  lemma ApplyLogs(j: Journaled, db: Db, op: Op)
    requires Open(j) && Callable(j, op)
    ensures Apply(j, db, op).logs == j.logs + if op.OpLog? then [op.log] else []
  {
    if op.OpTransfer? {
      PaymentLogs(LoadAccount(LoadAccount(LoadTokenIds(j, db), db, op.from), db, op.to), op.from, op.to, op.transfers);
    } else if op.OpLog? {
    } else {
      assert j.logs + [] == j.logs;
    }
  }

  lemma {:induction false} PaymentLogs(j: Journaled, from: Address, to: Address, ts: seq<TokenTransfer>)
    requires Open(j) && Loaded(j, from) && Loaded(j, to)
    ensures TransferAll(j, from, to, ts).0.logs == j.logs
    decreases |ts|
  {
    if ts != [] {
      var (j1, failure) := TransferOne(j, from, to, ts[0]);
      if failure.None? {
        PaymentLogs(j1, from, to, ts[1..]);
      }
    }
  }

  /** The logs of the frames that are kept, in order. */
  function Logged(j: Journaled, db: Db, s: Script): seq<Log>
    requires Open(j)
    decreases s
  {
    match s
    case Do(op) => if op.OpLog? then [op.log] else []
    case Frame(OpenCall, body, ok) => if ok then LoggedAll(Enter(j), db, body) else []
    case Frame(OpenCreate(caller, a, value), body, ok) =>
      if !ok || !Loaded(j, caller) || !Loaded(j, a) then []
      else
        var started := CreateAccount(j, caller, a, value);
        if started.None? || started.value.1.Some? || !Open(started.value.0) then [] else LoggedAll(started.value.0, db, body)
  }

  function LoggedAll(j: Journaled, db: Db, body: seq<Script>): seq<Log>
    requires Open(j)
    decreases body
  {
    if body == [] then []
    else
      var first := Run(j, db, body[0]);
      Logged(j, db, body[0]) + if first.Done? && Open(first.state) then LoggedAll(first.state, db, body[1..]) else []
  }

  lemma {:induction false} RunLogs(j: Journaled, db: Db, s: Script)
    requires Open(j)
    ensures Run(j, db, s).Done? ==> Run(j, db, s).state.logs == j.logs + Logged(j, db, s)
    decreases s, 1
  {
    match s
    case Do(op) =>
      if Callable(j, op) {
        ApplyLogs(j, db, op);
      }
    case Frame(OpenCall, body, ok) =>
      KeepsRefl(Shape, Enter(j));
      FrameLogs(j, Enter(j), db, body, ok);
    case Frame(OpenCreate(caller, a, value), body, ok) =>
      if Loaded(j, caller) && Loaded(j, a) {
        OpeningKeeps(Shape, j, caller, a, value);
        var (i, failure) := CreateAccount(j, caller, a, value).value;
        if failure.None? {
          FrameLogs(j, i, db, body, ok);
        }
      }
  }

  lemma {:induction false} FrameLogs(j: Journaled, i: Journaled, db: Db, body: seq<Script>, ok: bool)
    requires Open(j) && Open(i) && Keeps(Shape, Enter(j), i) && i.logs == j.logs
    ensures Close(j, RunAll(i, db, body), ok).Done? ==>
      Close(j, RunAll(i, db, body), ok).state.logs == j.logs + if ok then LoggedAll(i, db, body) else []
    decreases body, 1
  {
    var inner := RunAll(i, db, body);
    if inner.Done? {
      ShapeClean(i, db, body);
      RunAllKeeps(Shape, i, db, body);
      KeepsTrans(Shape, Enter(j), i, inner.state);
      RunAllLogs(i, db, body);
      RevertRestores(Shape, j, inner.state);
    }
  }

  lemma Joined(a: seq<Log>, b: seq<Log>, c: seq<Log>)
    ensures (a + b) + c == a + (b + c)
  {
  }

  /** Over every run the logs are those there were and those of the frames that were kept, in order. */
  lemma {:induction false} RunAllLogs(j: Journaled, db: Db, body: seq<Script>)
    requires Open(j)
    ensures RunAll(j, db, body).Done? ==> RunAll(j, db, body).state.logs == j.logs + LoggedAll(j, db, body)
    decreases body, 0
  {
    if body != [] {
      RunLogs(j, db, body[0]);
      ShapeCleanOne(j, db, body[0]);
      RunKeeps(Shape, j, db, body[0]);
      var first := Run(j, db, body[0]);
      if first.Done? {
        RunAllLogs(first.state, db, body[1..]);
        Joined(j.logs, Logged(j, db, body[0]), LoggedAll(first.state, db, body[1..]));
      }
    }
  }
}
