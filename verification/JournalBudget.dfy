/** Conservation of tokens under a bound that can be checked before the run. */
module JournalBudget {
  import opened Prelude
  import opened JournalState
  import opened JournalEquiv
  import opened JournalOps
  import opened JournalRuns
  import opened JournalSupply

  /** All that a script asks to mint of `token`, in frames kept or reverted. */
  function Minted(s: Script, token: Word): nat
    decreases s
  {
    match s
    case Do(OpMint(_, _, minted, amount)) => if minted == token then amount else 0
    case Do(_) => 0
    case Frame(_, body, _) => MintedAll(body, token)
  }

  function MintedAll(body: seq<Script>, token: Word): nat
    decreases body
  {
    if body == [] then 0 else Minted(body[0], token) + MintedAll(body[1..], token)
  }

  /** Everyone that a script names where balances may move is counted. */
  predicate Parties(s: Script, u: seq<Address>)
    decreases s
  {
    match s
    case Do(op) => Counted(op, u)
    case Frame(OpenCall, body, _) => PartiesAll(body, u)
    case Frame(OpenCreate(caller, a, _), body, _) => caller in u && a in u && PartiesAll(body, u)
  }

  predicate PartiesAll(body: seq<Script>, u: seq<Address>)
    decreases body
  {
    body == [] || (Parties(body[0], u) && PartiesAll(body[1..], u))
  }

  /** Every creation is asked for by a caller who has the value. */
  predicate Endows(j: Journaled, db: Db, s: Script)
    requires Open(j)
    decreases s
  {
    match s
    case Do(_) => true
    case Frame(OpenCall, body, _) => EndowsAll(Enter(j), db, body)
    case Frame(OpenCreate(caller, a, value), body, _) =>
      Loaded(j, caller) && Loaded(j, a) ==>
        && value <= Balance(j.world.accounts[caller], BASE_TOKEN_ID)
        && var started := CreateAccount(j, caller, a, value);
           started.Some? && started.value.1.None? && Open(started.value.0) ==> EndowsAll(started.value.0, db, body)
  }

  predicate EndowsAll(j: Journaled, db: Db, body: seq<Script>)
    requires Open(j)
    decreases body
  {
    body == [] ||
    (Endows(j, db, body[0]) &&
     (Run(j, db, body[0]).Done? && Open(Run(j, db, body[0]).state) ==> EndowsAll(Run(j, db, body[0]).state, db, body[1..])))
  }

  /** Each token's total and all that may be minted of it stay below 2^256 together. */
  ghost predicate Budget(db: Db, w: World, body: seq<Script>, u: seq<Address>) {
    forall token {:trigger Total(db, w, token, u)} :: Total(db, w, token, u) + MintedAll(body, token) < TWO_256
  }

  /** A run adds no more to a total than its script asks to mint. */
  lemma {:induction false} NetWithin(j: Journaled, db: Db, s: Script, token: Word)
    requires Open(j)
    ensures Net(j, db, s, token) <= Minted(s, token)
    decreases s, 1
  {
    match s
    case Do(op) =>
    case Frame(OpenCall, body, ok) => NetAllWithin(Enter(j), db, body, token);
    case Frame(OpenCreate(caller, a, value), body, ok) =>
      if Loaded(j, caller) && Loaded(j, a) {
        var started := CreateAccount(j, caller, a, value);
        if started.Some? && Open(started.value.0) {
          NetAllWithin(started.value.0, db, body, token);
        }
      }
  }

  lemma {:induction false} NetAllWithin(j: Journaled, db: Db, body: seq<Script>, token: Word)
    requires Open(j)
    ensures NetAll(j, db, body, token) <= MintedAll(body, token)
    decreases body, 0
  {
    if body != [] {
      NetWithin(j, db, body[0], token);
      var first := Run(j, db, body[0]);
      if first.Done? && Open(first.state) {
        NetAllWithin(first.state, db, body[1..], token);
      }
    }
  }

  lemma {:induction false} BudgetOne(j: Journaled, db: Db, s: Script, u: seq<Address>)
    requires Open(j) && Distinct(u) && Parties(s, u) && Endows(j, db, s)
    requires forall token {:trigger Total(db, j.world, token, u)} :: Total(db, j.world, token, u) + Minted(s, token) < TWO_256
    ensures Accountable(j, db, s, u)
    decreases s, 1
  {
    match s
    case Do(op) =>
    case Frame(OpenCall, body, ok) =>
      assert Budget(db, Enter(j).world, body, u);
      BudgetAll(Enter(j), db, body, u);
    case Frame(OpenCreate(caller, a, value), body, ok) =>
      if Loaded(j, caller) && Loaded(j, a) {
        var started := CreateAccount(j, caller, a, value);
        if started.Some? && started.value.1.None? && Open(started.value.0) {
          forall token ensures Total(db, started.value.0.world, token, u) + MintedAll(body, token) < TWO_256 {
            CreateTotal(db, j, caller, a, value, token, u);
          }
          BudgetAll(started.value.0, db, body, u);
        }
      }
  }

  /** A budget that holds at the start holds all along. */
  lemma {:induction false} BudgetAll(j: Journaled, db: Db, body: seq<Script>, u: seq<Address>)
    requires Open(j) && Distinct(u) && PartiesAll(body, u) && EndowsAll(j, db, body) && Budget(db, j.world, body, u)
    ensures AccountableAll(j, db, body, u)
    decreases body, 0
  {
    if body != [] {
      BudgetOne(j, db, body[0], u);
      var first := Run(j, db, body[0]);
      if first.Done? && Open(first.state) {
        forall token ensures Total(db, first.state.world, token, u) + MintedAll(body[1..], token) < TWO_256 {
          RunTotal(j, db, body[0], token, u);
          NetWithin(j, db, body[0], token);
          assert Total(db, j.world, token, u) + MintedAll(body, token) < TWO_256;
        }
        BudgetAll(first.state, db, body[1..], u);
      }
    }
  }

  /** Conservation from the first state: if each token's total and all that the script may mint of it
      stay below 2^256 together, then whatever the nesting of commits and reverts, every total changes
      by exactly what was minted, burned or destroyed in favour of itself in the frames kept, and no
      payment on the way overflows. */
  lemma RunConserves(j: Journaled, db: Db, body: seq<Script>, token: Word, u: seq<Address>)
    requires Open(j) && Distinct(u) && PartiesAll(body, u) && EndowsAll(j, db, body) && Budget(db, j.world, body, u)
    ensures CleanAll(Funds, j, db, body)
    ensures RunAll(j, db, body).Done? ==>
      Total(db, RunAll(j, db, body).state.world, token, u) == Total(db, j.world, token, u) + NetAll(j, db, body, token)
  {
    BudgetAll(j, db, body, u);
    RunAllTotal(j, db, body, token, u);
  }
}
