/** Conservation of tokens over whole runs. */
module JournalSupply {
  import opened Prelude
  import opened JournalState
  import opened JournalEquiv
  import opened JournalOps
  import opened JournalKeeps
  import opened JournalFunds
  import opened JournalRuns
  import opened JournalOverflow

  /** What address a holds: from the journaled state if loaded, from the database otherwise. */
  function Held(db: Db, w: World, a: Address, token: Word): Word {
    Balance(if a in w.accounts then w.accounts[a] else FromDb(db, a), token)
  }

  /** The total held by the addresses of `u`. */
  function Total(db: Db, w: World, token: Word, u: seq<Address>): nat {
    if u == [] then 0 else Held(db, w, u[0], token) as int + Total(db, w, token, u[1..])
  }

  /** No token's total reaches 2^256. */
  ghost predicate Bounded(db: Db, w: World, u: seq<Address>) {
    forall token {:trigger Total(db, w, token, u)} :: Total(db, w, token, u) < TWO_256
  }

  // ---- Sums ----

  lemma {:induction false} TotalSame(db: Db, v: World, w: World, token: Word, u: seq<Address>)
    requires forall a :: a in u ==> Held(db, v, a, token) == Held(db, w, a, token)
    ensures Total(db, v, token, u) == Total(db, w, token, u)
  {
    if u != [] {
      TotalSame(db, v, w, token, u[1..]);
    }
  }

  lemma {:induction false} TotalOne(db: Db, v: World, w: World, token: Word, u: seq<Address>, a: Address)
    requires Distinct(u) && a in u
    requires forall b :: b in u && b != a ==> Held(db, v, b, token) == Held(db, w, b, token)
    ensures Total(db, w, token, u) == Total(db, v, token, u) + Held(db, w, a, token) as int - Held(db, v, a, token) as int
  {
    if u[0] == a {
      TotalSame(db, v, w, token, u[1..]);
    } else {
      TotalOne(db, v, w, token, u[1..], a);
    }
  }

  lemma {:induction false} TotalAtLeast(db: Db, w: World, token: Word, u: seq<Address>, a: Address)
    requires a in u
    ensures Held(db, w, a, token) <= Total(db, w, token, u)
  {
    if u[0] != a {
      TotalAtLeast(db, w, token, u[1..], a);
    }
  }

  lemma {:induction false} TotalPair(db: Db, w: World, token: Word, u: seq<Address>, a: Address, b: Address)
    requires Distinct(u) && a in u && b in u && a != b
    ensures Held(db, w, a, token) as int + Held(db, w, b, token) as int <= Total(db, w, token, u)
  {
    if u[0] == a {
      TotalAtLeast(db, w, token, u[1..], b);
    } else if u[0] == b {
      TotalAtLeast(db, w, token, u[1..], a);
    } else {
      TotalPair(db, w, token, u[1..], a, b);
    }
  }

  /** A change at a and b that leaves their sum alone. */
  lemma TotalTwo(db: Db, v: World, w: World, token: Word, u: seq<Address>, a: Address, b: Address)
    requires Distinct(u) && a in u && b in u && a != b
    requires forall c :: c in u && c != a && c != b ==> Held(db, v, c, token) == Held(db, w, c, token)
    requires Held(db, v, a, token) as int + Held(db, v, b, token) as int == Held(db, w, a, token) as int + Held(db, w, b, token) as int
    ensures Total(db, w, token, u) == Total(db, v, token, u)
  {
    var m := w.(accounts := w.accounts[b := if b in v.accounts then v.accounts[b] else FromDb(db, b)]);
    TotalOne(db, v, m, token, u, a);
    TotalOne(db, m, w, token, u, b);
  }

  lemma EquivTotal(sd: bool, v: World, w: World, db: Db, token: Word, u: seq<Address>)
    requires Equiv(Funds, sd, v, w)
    ensures Total(db, v, token, u) == Total(db, w, token, u)
  {
    forall a | a in u ensures Held(db, v, a, token) == Held(db, w, a, token) {
      assert a in v.accounts ==> SameAccount(Funds, sd, a, v.accounts[a], w.accounts[a]);
    }
    TotalSame(db, v, w, token, u);
  }

  // ---- Operations ----

  lemma LoadTotal(db: Db, j: Journaled, a: Address, token: Word, u: seq<Address>)
    requires Open(j)
    ensures Total(db, LoadAccount(j, db, a).world, token, u) == Total(db, j.world, token, u)
    ensures Total(db, LoadTokenIds(j, db).world, token, u) == Total(db, j.world, token, u)
    ensures Total(db, Touch(j, a).world, token, u) == Total(db, j.world, token, u)
  {
    TotalSame(db, j.world, LoadAccount(j, db, a).world, token, u);
    TotalSame(db, j.world, LoadTokenIds(j, db).world, token, u);
    TotalSame(db, j.world, Touch(j, a).world, token, u);
  }

  lemma PaidTotal(db: Db, w: World, from: Address, to: Address, t: TokenTransfer, token: Word, u: seq<Address>)
    requires Distinct(u) && from in u && to in u && from in w.accounts && to in w.accounts
    requires t.amount <= Balance(w.accounts[from], t.id)
    requires from != to ==> Balance(w.accounts[to], t.id) + t.amount < TWO_256
    ensures Total(db, Paid(w, from, to, t.id, t.amount), token, u) == Total(db, w, token, u)
  {
    var w' := Paid(w, from, to, t.id, t.amount);
    if from == to {
      TotalSame(db, w, w', token, u);
    } else {
      TotalTwo(db, w, w', token, u, from, to);
    }
  }

  /** While totals stay below 2^256 a payment never overflows, and no total changes. */
  lemma TransferOneTotal(db: Db, j: Journaled, from: Address, to: Address, t: TokenTransfer, token: Word, u: seq<Address>)
    requires Open(j) && Loaded(j, from) && Loaded(j, to) && Distinct(u) && from in u && to in u
    requires Total(db, j.world, t.id, u) < TWO_256
    ensures TransferOne(j, from, to, t).1 != Some(OverflowPayment)
    ensures Total(db, TransferOne(j, from, to, t).0.world, token, u) == Total(db, j.world, token, u)
  {
    var j1 := Touch(j, from);
    var j2 := Touch(j1, to);
    NoOverflow(db, j, from, to, t, u);
    LoadTotal(db, j, from, token, u);
    LoadTotal(db, j1, to, token, u);
    TransferOneIs(j, from, to, t);
    if TransferOne(j, from, to, t).1 == None {
      PaidTotal(db, j2.world, from, to, t, token, u);
    }
  }

  /** Two balances that add up to less than 2^256 leave room for a payment. */
  lemma NoOverflow(db: Db, j: Journaled, from: Address, to: Address, t: TokenTransfer, u: seq<Address>)
    requires Open(j) && Loaded(j, from) && Loaded(j, to) && Distinct(u) && from in u && to in u
    requires Total(db, j.world, t.id, u) < TWO_256
    ensures TransferOne(j, from, to, t).1 != Some(OverflowPayment)
  {
    OnePayment(j, from, to, t);
    if from != to {
      TotalPair(db, j.world, t.id, u, from, to);
      assert Held(db, j.world, to, t.id) == Balance(j.world.accounts[to], t.id);
      assert Held(db, j.world, from, t.id) == Balance(j.world.accounts[from], t.id);
    }
  }

  lemma {:induction false} TransferAllTotal(db: Db, j: Journaled, from: Address, to: Address, ts: seq<TokenTransfer>, token: Word, u: seq<Address>)
    requires Open(j) && Loaded(j, from) && Loaded(j, to) && Distinct(u) && from in u && to in u && Bounded(db, j.world, u)
    ensures TransferAll(j, from, to, ts).1 != Some(OverflowPayment)
    ensures Total(db, TransferAll(j, from, to, ts).0.world, token, u) == Total(db, j.world, token, u)
    decreases |ts|
  {
    if ts != [] {
      TransferOneTotal(db, j, from, to, ts[0], token, u);
      var (j1, failure) := TransferOne(j, from, to, ts[0]);
      if failure.None? {
        forall k ensures Total(db, j1.world, k, u) < TWO_256 {
          TransferOneTotal(db, j, from, to, ts[0], k, u);
        }
        TransferAllTotal(db, j1, from, to, ts[1..], token, u);
      }
    }
  }

  lemma TransferTotal(db: Db, j: Journaled, from: Address, to: Address, ts: seq<TokenTransfer>, token: Word, u: seq<Address>)
    requires Open(j) && Distinct(u) && from in u && to in u && Bounded(db, j.world, u)
    ensures Transfer(j, db, from, to, ts).1 != Some(OverflowPayment)
    ensures Total(db, Transfer(j, db, from, to, ts).0.world, token, u) == Total(db, j.world, token, u)
  {
    var j1 := LoadTokenIds(j, db);
    var j2 := LoadAccount(j1, db, from);
    var j3 := LoadAccount(j2, db, to);
    forall k ensures Total(db, j3.world, k, u) == Total(db, j.world, k, u) {
      LoadTotal(db, j, from, k, u);
      LoadTotal(db, j1, from, k, u);
      LoadTotal(db, j2, to, k, u);
    }
    TransferAllTotal(db, j3, from, to, ts, token, u);
  }

  /** The base tokens that vanish when an account is destroyed in favour of itself. */
  function SelfLoss(j: Journaled, a: Address, target: Address, token: Word): nat
    requires Loaded(j, a)
  {
    var acc := j.world.accounts[a];
    if a == target && (acc.created || !j.spec.cancun) && token == BASE_TOKEN_ID then Balance(acc, BASE_TOKEN_ID) else 0
  }

  lemma GivenAwayTotal(db: Db, w: World, a: Address, target: Address, marked: bool, token: Word, u: seq<Address>)
    requires a in w.accounts && target in w.accounts && a != target && Distinct(u) && a in u && target in u
    requires Total(db, w, BASE_TOKEN_ID, u) < TWO_256
    ensures Total(db, GivenAway(w, a, target, marked), token, u) == Total(db, w, token, u)
  {
    TotalPair(db, w, BASE_TOKEN_ID, u, a, target);
    TotalTwo(db, w, GivenAway(w, a, target, marked), token, u, a, target);
  }

  lemma SelfdestructTotal(db: Db, j: Journaled, a: Address, target: Address, token: Word, u: seq<Address>)
    requires Open(j) && Loaded(j, a) && Distinct(u) && a in u && target in u && Bounded(db, j.world, u)
    ensures Total(db, Selfdestruct(j, db, a, target).world, token, u) == Total(db, j.world, token, u) - SelfLoss(j, a, target, token)
  {
    if a == target {
      TotalOne(db, j.world, Selfdestruct(j, db, a, target).world, token, u, a);
    } else {
      var j1 := LoadAccount(j, db, target);
      var j2 := Touch(j1, target);
      forall k ensures Total(db, j2.world, k, u) == Total(db, j.world, k, u) {
        LoadTotal(db, j, target, k, u);
        LoadTotal(db, j1, target, k, u);
      }
      SelfdestructIs(j, db, a, target);
      var x := j2.world.accounts[a];
      GivenAwayTotal(db, j2.world, a, target, x.created || !j.spec.cancun || x.selfDestructed, token, u);
    }
  }

  lemma BurnTotal(db: Db, j: Journaled, burned: Word, holder: Address, amount: Word, token: Word, u: seq<Address>)
    requires Open(j) && Distinct(u) && holder in u
    ensures var (j', ok) := Burn(j, db, burned, holder, amount);
            Total(db, j'.world, token, u) == Total(db, j.world, token, u) - if ok && token == burned then amount as int else 0
  {
    var (j', ok) := Burn(j, db, burned, holder, amount);
    var j1 := LoadTokenIds(j, db);
    var j2 := LoadAccount(j1, db, holder);
    LoadTotal(db, j, holder, token, u);
    LoadTotal(db, j1, holder, token, u);
    if ok {
      TotalOne(db, j2.world, j'.world, token, u, holder);
    }
  }

  lemma MintTotal(db: Db, j: Journaled, minter: Address, recipient: Address, minted: Word, amount: Word, token: Word, u: seq<Address>)
    requires Open(j) && (Loaded(j, recipient) || recipient == minter) && Distinct(u) && recipient in u
    ensures var (j', ok) := Mint(j, db, minter, recipient, minted, amount);
            Total(db, j'.world, token, u) == Total(db, j.world, token, u) + if ok && token == minted then amount as int else 0
  {
    var (j', ok) := Mint(j, db, minter, recipient, minted, amount);
    TotalOne(db, j.world, j'.world, token, u, recipient);
  }

  lemma EndowedTotal(db: Db, j: Journaled, caller: Address, a: Address, value: Word, token: Word, u: seq<Address>)
    requires Open(j) && Loaded(j, caller) && Loaded(j, a) && Distinct(u) && caller in u && a in u
    requires value <= Balance(j.world.accounts[caller], BASE_TOKEN_ID) && Balance(j.world.accounts[a], BASE_TOKEN_ID) + value < TWO_256
    ensures Total(db, Endowed(j, caller, a, value).world, token, u) == Total(db, j.world, token, u)
  {
    if caller == a {
      TotalSame(db, j.world, Endowed(j, caller, a, value).world, token, u);
    } else {
      TotalTwo(db, j.world, Endowed(j, caller, a, value).world, token, u, a, caller);
    }
  }

  lemma CreateTotal(db: Db, j: Journaled, caller: Address, a: Address, value: Word, token: Word, u: seq<Address>)
    requires Open(j) && Loaded(j, caller) && Loaded(j, a) && Distinct(u) && caller in u && a in u
    requires value <= Balance(j.world.accounts[caller], BASE_TOKEN_ID)
    requires CreateAccount(j, caller, a, value).Some? && CreateAccount(j, caller, a, value).value.1.None?
    ensures Total(db, CreateAccount(j, caller, a, value).value.0.world, token, u) == Total(db, j.world, token, u)
  {
    var born := BornWithNonce(Enter(j), a);
    CreateIs(j, caller, a, value);
    TotalSame(db, j.world, born.world, token, u);
    EndowedTotal(db, born, caller, a, value, token, u);
  }

  /** A successful creation endows an account born with its nonce; nobody's balance moves before. */
  lemma CreateIs(j: Journaled, caller: Address, a: Address, value: Word)
    requires Open(j) && Loaded(j, caller) && Loaded(j, a)
    requires CreateAccount(j, caller, a, value).Some? && CreateAccount(j, caller, a, value).value.1.None?
    ensures var born := BornWithNonce(Enter(j), a);
            && Open(born) && born.world.accounts.Keys == j.world.accounts.Keys
            && (forall b :: b in j.world.accounts ==> born.world.accounts[b].balances == j.world.accounts[b].balances)
            && Balance(born.world.accounts[a], BASE_TOKEN_ID) + value < TWO_256
            && CreateAccount(j, caller, a, value).value.0 == Endowed(born, caller, a, value)
  {
    var e := Enter(j);
    BornPoor(e, a);
    BornIs(e, a);
    NonceEarlier(Created(e, a), caller, a, value);
  }

  lemma BornPoor(j: Journaled, a: Address)
    requires Open(j) && Loaded(j, a)
    ensures var born := BornWithNonce(j, a);
            && Open(born) && born.world.accounts.Keys == j.world.accounts.Keys
            && (forall b :: b in j.world.accounts ==> born.world.accounts[b].balances == j.world.accounts[b].balances)
  {
  }

  // ---- Runs ----

  /** Everything the operation touches is counted. */
  predicate Counted(op: Op, u: seq<Address>) {
    match op
    case OpTransfer(from, to, _) => from in u && to in u
    case OpSelfdestruct(a, target) => a in u && target in u
    case OpBurn(_, holder, _) => holder in u
    case OpMint(_, recipient, _, _) => recipient in u
    case _ => true
  }

  /** What one operation adds to the total of `token`. */
  function Delta(j: Journaled, db: Db, op: Op, token: Word): int
    requires Open(j) && Callable(j, op)
  {
    match op
    case OpMint(minter, recipient, minted, amount) =>
      if Mint(j, db, minter, recipient, minted, amount).1 && token == minted then amount else 0
    case OpBurn(burned, holder, amount) =>
      if Burn(j, db, burned, holder, amount).1 && token == burned then -(amount as int) else 0
    case OpSelfdestruct(a, target) => -(SelfLoss(j, a, target, token) as int)
    case _ => 0
  }

  lemma OtherTotal(db: Db, j: Journaled, op: Op, token: Word, u: seq<Address>)
    requires Open(j) && Callable(j, op)
    requires !op.OpTransfer? && !op.OpSelfdestruct? && !op.OpBurn? && !op.OpMint?
    ensures Total(db, Apply(j, db, op).world, token, u) == Total(db, j.world, token, u)
  {
    TotalSame(db, j.world, Apply(j, db, op).world, token, u);
  }

  /** Every operation moves every total by exactly its delta. */
  lemma ApplyTotal(db: Db, j: Journaled, op: Op, token: Word, u: seq<Address>)
    requires Open(j) && Callable(j, op) && Distinct(u) && Counted(op, u) && Bounded(db, j.world, u)
    ensures CleanOp(Funds, j, db, op)
    ensures Total(db, Apply(j, db, op).world, token, u) == Total(db, j.world, token, u) + Delta(j, db, op, token)
  {
    match op
    case OpTransfer(from, to, ts) => TransferTotal(db, j, from, to, ts, token, u);
    case OpSelfdestruct(a, target) => SelfdestructTotal(db, j, a, target, token, u);
    case OpBurn(burned, holder, amount) => BurnTotal(db, j, burned, holder, amount, token, u);
    case OpMint(minter, recipient, minted, amount) => MintTotal(db, j, minter, recipient, minted, amount, token, u);
    case _ => OtherTotal(db, j, op, token, u);
  }

  /** What a run adds to the total of `token`: reverted frames add nothing. */
  function Net(j: Journaled, db: Db, s: Script, token: Word): int
    requires Open(j)
    decreases s
  {
    match s
    case Do(op) => if Callable(j, op) then Delta(j, db, op, token) else 0
    case Frame(OpenCall, body, ok) => if ok then NetAll(Enter(j), db, body, token) else 0
    case Frame(OpenCreate(caller, a, value), body, ok) =>
      if !ok || !Loaded(j, caller) || !Loaded(j, a) then 0
      else
        var started := CreateAccount(j, caller, a, value);
        if started.Some? && started.value.1.None? && Open(started.value.0) then NetAll(started.value.0, db, body, token) else 0
  }

  function NetAll(j: Journaled, db: Db, body: seq<Script>, token: Word): int
    requires Open(j)
    decreases body
  {
    if body == [] then 0
    else
      var first := Run(j, db, body[0]);
      Net(j, db, body[0], token) + if first.Done? && Open(first.state) then NetAll(first.state, db, body[1..], token) else 0
  }

  /** The hypotheses of conservation along a run: totals stay below 2^256 wherever an operation
      starts, everyone involved is counted, and creations are funded. */
  ghost predicate Accountable(j: Journaled, db: Db, s: Script, u: seq<Address>)
    requires Open(j)
    decreases s
  {
    match s
    case Do(op) => Bounded(db, j.world, u) && Counted(op, u)
    case Frame(OpenCall, body, ok) => AccountableAll(Enter(j), db, body, u)
    case Frame(OpenCreate(caller, a, value), body, ok) =>
      caller in u && a in u &&
      (Loaded(j, caller) && Loaded(j, a) ==>
        && value <= Balance(j.world.accounts[caller], BASE_TOKEN_ID)
        && var started := CreateAccount(j, caller, a, value);
           started.Some? && started.value.1.None? && Open(started.value.0) ==> AccountableAll(started.value.0, db, body, u))
  }

  ghost predicate AccountableAll(j: Journaled, db: Db, body: seq<Script>, u: seq<Address>)
    requires Open(j)
    decreases body
  {
    body == [] ||
    (Accountable(j, db, body[0], u) &&
     (Run(j, db, body[0]).Done? && Open(Run(j, db, body[0]).state) ==> AccountableAll(Run(j, db, body[0]).state, db, body[1..], u)))
  }

  lemma {:induction false} RunTotal(j: Journaled, db: Db, s: Script, token: Word, u: seq<Address>)
    requires Open(j) && Distinct(u) && Accountable(j, db, s, u)
    ensures Clean(Funds, j, db, s)
    ensures Run(j, db, s).Done? ==> Total(db, Run(j, db, s).state.world, token, u) == Total(db, j.world, token, u) + Net(j, db, s, token)
    decreases s, 1
  {
    match s
    case Do(op) =>
      if Callable(j, op) {
        ApplyTotal(db, j, op, token, u);
      }
    case Frame(OpenCall, body, ok) =>
      KeepsRefl(Funds, Enter(j));
      FrameTotal(j, Enter(j), db, body, ok, token, u);
    case Frame(OpenCreate(caller, a, value), body, ok) =>
      if Loaded(j, caller) && Loaded(j, a) {
        OpeningKeeps(Funds, j, caller, a, value);
        var (i, failure) := CreateAccount(j, caller, a, value).value;
        if failure.Some? {
          EquivTotal(j.spec.spuriousDragon, j.world, i.world, db, token, u);
        } else {
          CreateTotal(db, j, caller, a, value, token, u);
          FrameTotal(j, i, db, body, ok, token, u);
        }
      }
  }

  lemma {:induction false} FrameTotal(j: Journaled, i: Journaled, db: Db, body: seq<Script>, ok: bool, token: Word, u: seq<Address>)
    requires Open(j) && Open(i) && Keeps(Funds, Enter(j), i) && Distinct(u) && AccountableAll(i, db, body, u)
    requires Total(db, i.world, token, u) == Total(db, j.world, token, u)
    ensures CleanAll(Funds, i, db, body)
    ensures Close(j, RunAll(i, db, body), ok).Done? ==>
      Total(db, Close(j, RunAll(i, db, body), ok).state.world, token, u) ==
      Total(db, j.world, token, u) + if ok then NetAll(i, db, body, token) else 0
    decreases body, 1
  {
    RunAllTotal(i, db, body, token, u);
    RunAllKeeps(Funds, i, db, body);
    var inner := RunAll(i, db, body);
    if inner.Done? && !ok {
      KeepsTrans(Funds, Enter(j), i, inner.state);
      RevertRestores(Funds, j, inner.state);
      EquivTotal(j.spec.spuriousDragon, j.world, Revert(inner.state, Mark(j)).value.world, db, token, u);
    }
  }

  /** Conservation: over every run, with any nesting of commits and reverts, the total of each token
      grows by exactly what was minted and shrinks by exactly what was burned, or destroyed in favour
      of itself, in the frames that were not reverted; and no payment on the way overflows. */
  lemma {:induction false} RunAllTotal(j: Journaled, db: Db, body: seq<Script>, token: Word, u: seq<Address>)
    requires Open(j) && Distinct(u) && AccountableAll(j, db, body, u)
    ensures CleanAll(Funds, j, db, body)
    ensures RunAll(j, db, body).Done? ==>
      Total(db, RunAll(j, db, body).state.world, token, u) == Total(db, j.world, token, u) + NetAll(j, db, body, token)
    decreases body, 0
  {
    if body != [] {
      RunTotal(j, db, body[0], token, u);
      var first := Run(j, db, body[0]);
      if first.Done? && Open(first.state) {
        RunAllTotal(first.state, db, body[1..], token, u);
      }
    }
  }
}
