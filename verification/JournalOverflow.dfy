/** Which transfers overflow, foreseen from the balances before the transfer. */
module JournalOverflow {
  import opened Prelude
  import opened JournalState
  import opened JournalOps

  /** What the first n payments move of token `id`. */
  function Sent(ts: seq<TokenTransfer>, n: nat, id: Word): nat
    requires n <= |ts|
  {
    if n == 0 then 0 else Sent(ts, n - 1, id) + if ts[n - 1].id == id then ts[n - 1].amount else 0
  }

  /** The payer can make payment i after the ones before it. */
  predicate Affords(payer: Account, ts: seq<TokenTransfer>, i: int)
    requires 0 <= i < |ts|
  {
    Sent(ts, i + 1, ts[i].id) <= Balance(payer, ts[i].id)
  }

  /** The payee has room for payment i on top of the ones before it. */
  predicate HasRoom(payee: Account, ts: seq<TokenTransfer>, i: int)
    requires 0 <= i < |ts|
  {
    Balance(payee, ts[i].id) + Sent(ts, i + 1, ts[i].id) < TWO_256
  }

  /** Payment k is the first that the payee has no room for, and the payer can make it. */
  predicate OverflowsAt(payer: Account, payee: Account, ts: seq<TokenTransfer>, k: int)
    requires 0 <= k < |ts|
  {
    && (forall i {:trigger Affords(payer, ts, i)} :: 0 <= i <= k ==> Affords(payer, ts, i))
    && (forall i {:trigger HasRoom(payee, ts, i)} :: 0 <= i < k ==> HasRoom(payee, ts, i))
    && !HasRoom(payee, ts, k)
  }

  predicate Overflows(payer: Account, payee: Account, ts: seq<TokenTransfer>) {
    exists k {:trigger OverflowsAt(payer, payee, ts, k)} :: 0 <= k < |ts| && OverflowsAt(payer, payee, ts, k)
  }

  lemma {:induction false} SentShift(ts: seq<TokenTransfer>, n: nat, id: Word)
    requires n < |ts|
    ensures Sent(ts, n + 1, id) == (if ts[0].id == id then ts[0].amount else 0) + Sent(ts[1..], n, id)
  {
    if n > 0 {
      SentShift(ts, n - 1, id);
    }
  }

  /** The accounts after the head payment face the rest of the list as the accounts before it face
      the whole. */
  predicate HeadPaid(payer: Account, payee: Account, payer': Account, payee': Account, t: TokenTransfer) {
    forall id: Word {:trigger Balance(payer', id)} {:trigger Balance(payee', id)} ::
      && Balance(payer', id) == Balance(payer, id) - (if id == t.id then t.amount else 0)
      && Balance(payee', id) == Balance(payee, id) + (if id == t.id then t.amount else 0)
  }

  lemma ShiftOne(payer: Account, payee: Account, payer': Account, payee': Account, ts: seq<TokenTransfer>, i: nat)
    requires i + 1 < |ts| && HeadPaid(payer, payee, payer', payee', ts[0])
    ensures Affords(payer, ts, i + 1) <==> Affords(payer', ts[1..], i)
    ensures HasRoom(payee, ts, i + 1) <==> HasRoom(payee', ts[1..], i)
  {
    SentShift(ts, i + 1, ts[i + 1].id);
    assert Balance(payer', ts[i + 1].id) <= Balance(payer, ts[i + 1].id);
    assert Balance(payee', ts[i + 1].id) >= Balance(payee, ts[i + 1].id);
  }

  lemma ShiftAt(payer: Account, payee: Account, payer': Account, payee': Account, ts: seq<TokenTransfer>, k: nat)
    requires k + 1 < |ts| && HeadPaid(payer, payee, payer', payee', ts[0])
    requires Affords(payer, ts, 0) && HasRoom(payee, ts, 0)
    ensures OverflowsAt(payer, payee, ts, k + 1) <==> OverflowsAt(payer', payee', ts[1..], k)
  {
    forall i | 0 <= i <= k
      ensures Affords(payer, ts, i + 1) <==> Affords(payer', ts[1..], i)
      ensures HasRoom(payee, ts, i + 1) <==> HasRoom(payee', ts[1..], i)
    {
      ShiftOne(payer, payee, payer', payee', ts, i);
    }
    if OverflowsAt(payer, payee, ts, k + 1) {
      forall i | 0 <= i <= k ensures Affords(payer', ts[1..], i) {
        assert Affords(payer, ts, i + 1);
      }
      forall i | 0 <= i < k ensures HasRoom(payee', ts[1..], i) {
        assert HasRoom(payee, ts, i + 1);
      }
    }
    if OverflowsAt(payer', payee', ts[1..], k) {
      forall i | 0 <= i <= k + 1 ensures Affords(payer, ts, i) {
        assert i > 0 ==> Affords(payer', ts[1..], i - 1);
      }
      forall i | 0 <= i < k + 1 ensures HasRoom(payee, ts, i) {
        assert i > 0 ==> HasRoom(payee', ts[1..], i - 1);
      }
    }
  }

  /** One payment between two accounts. */
  lemma OnePayment(j: Journaled, from: Address, to: Address, t: TokenTransfer)
    requires Open(j) && Loaded(j, from) && Loaded(j, to)
    ensures var (j1, failure) := TransferOne(j, from, to, t);
            var payer, payee := j.world.accounts[from], j.world.accounts[to];
            && Open(j1) && Loaded(j1, from) && Loaded(j1, to)
            && (failure == Some(OutOfFunds) <==> Balance(payer, t.id) < t.amount)
            && (failure == Some(OverflowPayment) <==>
                  from != to && t.amount <= Balance(payer, t.id) && Balance(payee, t.id) + t.amount >= TWO_256)
            && failure in {None, Some(OutOfFunds), Some(OverflowPayment)}
            && (failure == None && from != to ==> HeadPaid(payer, payee, j1.world.accounts[from], j1.world.accounts[to], t))
            && forall id: Word :: id != t.id ==> Balance(j1.world.accounts[from], id) == Balance(payer, id)
  {
  }

  /** A list of payments to another account fails with an overflow exactly when some payment is the
      first without room; an account paying itself never overflows. */
  lemma {:induction false} OverflowForeseen(j: Journaled, from: Address, to: Address, ts: seq<TokenTransfer>)
    requires Open(j) && Loaded(j, from) && Loaded(j, to)
    ensures TransferAll(j, from, to, ts).1 == Some(OverflowPayment) <==>
            from != to && Overflows(j.world.accounts[from], j.world.accounts[to], ts)
    decreases |ts|
  {
    if ts != [] {
      var payer, payee := j.world.accounts[from], j.world.accounts[to];
      var (j1, failure) := TransferOne(j, from, to, ts[0]);
      OnePayment(j, from, to, ts[0]);
      assert Sent(ts, 1, ts[0].id) == ts[0].amount by {
        assert Sent(ts, 0, ts[0].id) == 0;
      }
      if failure == Some(OverflowPayment) {
        assert OverflowsAt(payer, payee, ts, 0);
      } else if failure == Some(OutOfFunds) {
        assert !Affords(payer, ts, 0);
      } else {
        OverflowForeseen(j1, from, to, ts[1..]);
        if from != to {
          RestDecides(payer, payee, j1.world.accounts[from], j1.world.accounts[to], ts);
        }
      }
    }
  }

  lemma RestDecides(payer: Account, payee: Account, payer': Account, payee': Account, ts: seq<TokenTransfer>)
    requires ts != [] && HeadPaid(payer, payee, payer', payee', ts[0]) && Affords(payer, ts, 0) && HasRoom(payee, ts, 0)
    ensures Overflows(payer, payee, ts) <==> Overflows(payer', payee', ts[1..])
  {
    if Overflows(payer, payee, ts) {
      var k :| 0 <= k < |ts| && OverflowsAt(payer, payee, ts, k);
      assert k > 0;
      ShiftAt(payer, payee, payer', payee', ts, k - 1);
    }
    if Overflows(payer', payee', ts[1..]) {
      var k :| 0 <= k < |ts[1..]| && OverflowsAt(payer', payee', ts[1..], k);
      ShiftAt(payer, payee, payer', payee', ts, k);
    }
  }

  /** A list of payments that goes through moves exactly the sums of its amounts, token by token, and
      an account that pays itself keeps its balances. */
  lemma {:induction false} TransferMoves(j: Journaled, from: Address, to: Address, ts: seq<TokenTransfer>, id: Word)
    requires Open(j) && Loaded(j, from) && Loaded(j, to) && TransferAll(j, from, to, ts).1.None?
    ensures var w := TransferAll(j, from, to, ts).0.world;
            var moved := if from == to then 0 else Sent(ts, |ts|, id);
            && from in w.accounts && Balance(w.accounts[from], id) == Balance(j.world.accounts[from], id) - moved
            && to in w.accounts && Balance(w.accounts[to], id) == Balance(j.world.accounts[to], id) + moved
    decreases |ts|
  {
    if ts != [] {
      var j1 := TransferOne(j, from, to, ts[0]).0;
      OneMove(j, from, to, ts[0], id);
      SentShift(ts, |ts| - 1, id);
      TransferMoves(j1, from, to, ts[1..], id);
    }
  }

  lemma OneMove(j: Journaled, from: Address, to: Address, t: TokenTransfer, id: Word)
    requires Open(j) && Loaded(j, from) && Loaded(j, to) && TransferOne(j, from, to, t).1.None?
    ensures var j1 := TransferOne(j, from, to, t).0;
            var moved := if from == to || id != t.id then 0 else t.amount;
            && Open(j1) && Loaded(j1, from) && Loaded(j1, to)
            && Balance(j1.world.accounts[from], id) == Balance(j.world.accounts[from], id) - moved
            && Balance(j1.world.accounts[to], id) == Balance(j.world.accounts[to], id) + moved
  {
    OnePayment(j, from, to, t);
  }
}
