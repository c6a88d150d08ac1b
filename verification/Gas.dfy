/** The gas counter of one frame. */
module Gas {
  import opened Prelude

  /** The refund a counter is left with at the end of the transaction. The cast to an unsigned number
      makes a negative counter huge. */
  function FinalRefund(refunded: int, spent: nat, isLondon: bool): int
    requires -0x8000_0000_0000_0000 <= refunded < 0x8000_0000_0000_0000
  {
    Min(if refunded < 0 then refunded + TWO_64 else refunded, spent / if isLondon then 5 else 2)
  }

  /** The final refund is the counter, capped; had the counter been negative it would have been the
      whole cap instead. */
  lemma FinalRefundCapped(refunded: int, spent: nat, isLondon: bool)
    requires -0x8000_0000_0000_0000 <= refunded < 0x8000_0000_0000_0000 && spent < TWO_64
    ensures var cap := spent / if isLondon then 5 else 2;
            && 0 <= FinalRefund(refunded, spent, isLondon) <= cap
            && (refunded >= 0 ==> FinalRefund(refunded, spent, isLondon) == if refunded <= cap then refunded else cap)
            && (refunded < 0 ==> FinalRefund(refunded, spent, isLondon) == cap)
  {
  }

  class Gas {
    const limit: nat
    var remaining: nat
    var refunded: int

    ghost predicate Valid()
      reads this
    {
      remaining <= limit < TWO_64
    }

    constructor (limit: nat)
      requires limit < TWO_64
      ensures Valid() && this.limit == limit && remaining == limit && refunded == 0
    {
      this.limit, remaining, refunded := limit, limit, 0;
    }

    function Spent(): nat
      requires Valid()
      reads this
    {
      limit - remaining
    }

    /** Fails and changes nothing when the cost cannot be paid. */
    method RecordCost(cost: nat) returns (ok: bool)
      requires Valid()
      modifies this`remaining
      ensures Valid()
      ensures ok <==> cost <= old(remaining)
      ensures remaining == if ok then old(remaining) - cost else old(remaining)
    {
      ok := cost <= remaining;
      if ok {
        remaining := remaining - cost;
      }
    }

    /** Gives gas back, on 64 bits. The counter stays within its limit if no more comes back than
        was spent. */
    method EraseCost(returned: nat)
      requires Valid() && returned < TWO_64
      modifies this`remaining
      ensures remaining == if old(remaining) + returned < TWO_64 then old(remaining) + returned else old(remaining) + returned - TWO_64
      ensures returned <= old(Spent()) ==> Valid() && Spent() == old(Spent()) - returned
      ensures old(Spent()) < returned < TWO_64 - old(remaining) ==> !Valid()
    {
      remaining := (remaining + returned) % TWO_64;
    }

    method SpendAll()
      requires Valid()
      modifies this`remaining
      ensures Valid() && remaining == 0 && Spent() == limit
    {
      remaining := 0;
    }

    method RecordRefund(refund: int)
      modifies this`refunded
      ensures refunded == old(refunded) + refund
    {
      refunded := refunded + refund;
    }

    method SetFinalRefund(isLondon: bool)
      requires Valid() && -0x8000_0000_0000_0000 <= refunded < 0x8000_0000_0000_0000
      modifies this`refunded
      ensures refunded == FinalRefund(old(refunded), Spent(), isLondon)
    {
      var quotient := if isLondon then 5 else 2;
      var unsigned := if refunded < 0 then refunded + TWO_64 else refunded;
      var cap := (limit - remaining) / quotient;
      refunded := if unsigned <= cap then unsigned else cap;
    }
  }
}
