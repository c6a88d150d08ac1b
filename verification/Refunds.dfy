/** The refund counters of all live frames, over whole transactions. */
module Refunds {
  import opened Prelude
  import opened SstoreGas
  import opened Gas
  import opened JournalState

  /** A slot is an address and a key. */
  type Key = (Address, Word)
  type Storage = map<Key, Slot>

  /** A live frame: its refund counter and the storage it will be reverted to. */
  datatype Frame = Frame(refund: int, entry: Storage)

  datatype State = State(storage: Storage, frames: seq<Frame>)

  /** What can happen to refunds and storage. A store whose gas cannot be paid ends its frame with a
      failure at once, so it is a Return(false). Create empties the slots of an account; `recorded` has,
      for every live frame, the slots stored to since it began. */
  datatype Event =
    | Load(key: Key, value: Word)
    | Store(key: Key, value: Word)
    | Reward(amount: nat)
    | Create(address: Address, recorded: seq<set<Key>>)
    | Call
    | Return(ok: bool)

  predicate Possible(st: State, ev: Event) {
    && st.frames != []
    && match ev
       case Load(key, _) => key !in st.storage
       case Store(key, _) => key in st.storage
       case Reward(_) => true
       case Create(_, recorded) => |recorded| == |st.frames|
       case Call => true
       case Return(_) => |st.frames| > 1
  }

  function AddRefund(frames: seq<Frame>, refund: int): seq<Frame>
    requires frames != []
  {
    var n := |frames| - 1;
    frames[n := frames[n].(refund := frames[n].refund + refund)]
  }

  /** What a revert will bring back of a frame's entry once the account at `address` has been created:
      present values that a store has recorded since, and no original value. */
  function Unrooted(storage: Storage, address: Address, recorded: set<Key>): Storage {
    map k | k in storage ::
      if k.0 != address then storage[k] else Slot(0, if k in recorded then storage[k].present else 0)
  }

  /** Creating an account empties its slots, for good. An ok return merges the counter into the
      caller's; any other drops it and reverts storage. */
  function Step(spec: SpecId, st: State, ev: Event): State
    requires Possible(st, ev)
  {
    match ev
    case Load(key, value) => st.(storage := st.storage[key := Slot(value, value)])
    case Store(key, value) =>
      var slot := st.storage[key];
      State(st.storage[key := slot.(present := value)],
            AddRefund(st.frames, Refund(spec, slot.original, slot.present, value)))
    case Reward(amount) => st.(frames := AddRefund(st.frames, amount))
    case Create(address, recorded) =>
      State(map k | k in st.storage :: if k.0 == address then Slot(0, 0) else st.storage[k],
            seq(|st.frames|, i requires 0 <= i < |st.frames| =>
              st.frames[i].(entry := Unrooted(st.frames[i].entry, address, recorded[i]))))
    case Call => st.(frames := st.frames + [Frame(0, st.storage)])
    case Return(ok) =>
      var n := |st.frames| - 1;
      var child, rest := st.frames[n], st.frames[..n];
      if ok then st.(frames := AddRefund(rest, child.refund)) else State(child.entry, rest)
  }

  ghost predicate IsRun(spec: SpecId, run: seq<State>, events: seq<Event>) {
    && |run| == |events| + 1
    && forall k :: 0 <= k < |events| ==> Possible(run[k], events[k]) && run[k + 1] == Step(spec, run[k], events[k])
  }

  /** A transaction starts in one frame with no slot changed. */
  predicate Initial(st: State) {
    && |st.frames| == 1 && st.frames[0].refund == 0 && st.frames[0].entry == st.storage
    && forall k :: k in st.storage ==> st.storage[k].present == st.storage[k].original
  }

  function TotalRefund(frames: seq<Frame>): int {
    if frames == [] then 0 else TotalRefund(frames[..|frames| - 1]) + frames[|frames| - 1].refund
  }

  // ---- The credit standing against storage ----

  function SlotCredit(spec: SpecId, slot: Slot): nat {
    if spec >= ISTANBUL then Clearing(spec, slot.original, slot.present) else 0
  }

  /** The clearing credit of every slot that was set and is now clear. */
  ghost function Credit(spec: SpecId, storage: Storage): nat {
    if storage.Keys == {} then 0
    else
      var k :| k in storage.Keys;
      SlotCredit(spec, storage[k]) + Credit(spec, storage - {k})
  }

  lemma {:induction false} CreditWithout(spec: SpecId, storage: Storage, k: Key)
    requires k in storage
    ensures Credit(spec, storage) == SlotCredit(spec, storage[k]) + Credit(spec, storage - {k})
    decreases |storage|
  {
    var c :| c in storage.Keys && Credit(spec, storage) == SlotCredit(spec, storage[c]) + Credit(spec, storage - {c});
    if c != k {
      CreditWithout(spec, storage - {c}, k);
      CreditWithout(spec, storage - {k}, c);
      assert storage - {c} - {k} == storage - {k} - {c};
    }
  }

  lemma CreditUpdate(spec: SpecId, storage: Storage, k: Key, slot: Slot)
    ensures Credit(spec, storage[k := slot]) ==
            Credit(spec, storage) + SlotCredit(spec, slot) - if k in storage then SlotCredit(spec, storage[k]) else 0
  {
    CreditWithout(spec, storage[k := slot], k);
    assert storage[k := slot] - {k} == storage - {k};
    if k in storage {
      CreditWithout(spec, storage, k);
    } else {
      assert storage - {k} == storage;
    }
  }

  lemma {:induction false} CreditOfUnchanged(spec: SpecId, storage: Storage)
    requires forall k :: k in storage ==> storage[k].present == storage[k].original
    ensures Credit(spec, storage) == 0
    decreases |storage|
  {
    if storage.Keys != {} {
      var k :| k in storage.Keys;
      CreditWithout(spec, storage, k);
      CreditOfUnchanged(spec, storage - {k});
    }
  }

  lemma {:induction false} CreditLower(spec: SpecId, storage: Storage, storage': Storage)
    requires storage'.Keys == storage.Keys
    requires forall k :: k in storage ==> SlotCredit(spec, storage'[k]) <= SlotCredit(spec, storage[k])
    ensures Credit(spec, storage') <= Credit(spec, storage)
    decreases |storage|
  {
    if storage.Keys != {} {
      var k :| k in storage.Keys;
      CreditWithout(spec, storage, k);
      CreditWithout(spec, storage', k);
      CreditLower(spec, storage - {k}, storage' - {k});
    }
  }

  // ---- What has been refunded covers the credit ----

  /** The storage that the frames before the i-th have left: the i-th frame's entry, or the present
      storage. */
  function StorageAt(st: State, i: nat): Storage
    requires i <= |st.frames|
  {
    if i < |st.frames| then st.frames[i].entry else st.storage
  }

  /** The first i frames have been refunded at least the credit of what they left. */
  ghost predicate Covered(spec: SpecId, st: State, i: nat)
    requires i <= |st.frames|
  {
    TotalRefund(st.frames[..i]) >= Credit(spec, StorageAt(st, i))
  }

  ghost predicate Inv(spec: SpecId, st: State) {
    && st.frames != []
    && forall i {:trigger Covered(spec, st, i)} :: 0 <= i <= |st.frames| ==> Covered(spec, st, i)
  }

  /** Adding to the last frame adds to the total and to nothing before it. */
  lemma TotalAdded(frames: seq<Frame>, refund: int)
    requires frames != []
    ensures TotalRefund(AddRefund(frames, refund)) == TotalRefund(frames) + refund
  {
    AddedAfter(frames, refund, |frames| - 1);
  }

  lemma AddedAfter(frames: seq<Frame>, refund: int, i: nat)
    requires i < |frames|
    ensures AddRefund(frames, refund)[..i] == frames[..i]
    ensures i < |frames| - 1 ==> AddRefund(frames, refund)[i] == frames[i]
    ensures AddRefund(frames, refund)[i].entry == frames[i].entry
  {
  }

  lemma TotalAll(frames: seq<Frame>)
    ensures frames[..|frames|] == frames
    ensures frames != [] ==> TotalRefund(frames) == TotalRefund(frames[..|frames| - 1]) + frames[|frames| - 1].refund
  {
  }

  /** A state whose last counter alone changed needs to cover only its own storage. */
  lemma LastCovers(spec: SpecId, st: State, st': State, refund: int)
    requires Inv(spec, st) && st'.frames == AddRefund(st.frames, refund)
    requires Credit(spec, st'.storage) <= TotalRefund(st.frames) + refund
    ensures Inv(spec, st')
  {
    forall i | 0 <= i <= |st'.frames| ensures Covered(spec, st', i) {
      if i < |st.frames| {
        assert Covered(spec, st, i);
        AddedAfter(st.frames, refund, i);
      } else {
        TotalAdded(st.frames, refund);
        TotalAll(st'.frames);
      }
    }
  }

  lemma AddedKeepsInv(spec: SpecId, st: State, st': State, refund: int)
    requires Inv(spec, st) && st'.frames == AddRefund(st.frames, refund)
    requires Credit(spec, st'.storage) <= Credit(spec, st.storage) + refund
    ensures Inv(spec, st')
  {
    TotalAll(st.frames);
    assert Covered(spec, st, |st.frames|);
    LastCovers(spec, st, st', refund);
  }

  lemma DropKeepsInv(spec: SpecId, st: State)
    requires Inv(spec, st) && Possible(st, Return(false))
    ensures Inv(spec, Step(spec, st, Return(false)))
  {
    var st', n := Step(spec, st, Return(false)), |st.frames| - 1;
    forall i | 0 <= i <= n ensures Covered(spec, st', i) {
      assert Covered(spec, st, i);
      assert st.frames[..n][..i] == st.frames[..i];
    }
  }

  lemma MergeKeepsInv(spec: SpecId, st: State)
    requires Inv(spec, st) && Possible(st, Return(true))
    ensures Inv(spec, Step(spec, st, Return(true)))
  {
    var n := |st.frames| - 1;
    DropKeepsInv(spec, st);
    TotalAll(st.frames);
    assert Covered(spec, st, n + 1);
    LastCovers(spec, Step(spec, st, Return(false)), Step(spec, st, Return(true)), st.frames[n].refund);
  }

  lemma {:induction false} TotalOfRefunds(a: seq<Frame>, b: seq<Frame>)
    requires |a| == |b| && forall i :: 0 <= i < |a| ==> a[i].refund == b[i].refund
    ensures TotalRefund(a) == TotalRefund(b)
  {
    if a != [] {
      TotalOfRefunds(a[..|a| - 1], b[..|b| - 1]);
    }
  }

  lemma EmptiedKeepsInv(spec: SpecId, st: State, address: Address, recorded: seq<set<Key>>)
    requires Inv(spec, st) && |recorded| == |st.frames|
    ensures Inv(spec, Step(spec, st, Create(address, recorded)))
  {
    var st' := Step(spec, st, Create(address, recorded));
    forall i | 0 <= i <= |st'.frames| ensures Covered(spec, st', i) {
      assert Covered(spec, st, i);
      TotalOfRefunds(st.frames[..i], st'.frames[..i]);
      CreditLower(spec, StorageAt(st, i), StorageAt(st', i));
    }
  }

  lemma StepKeepsInv(spec: SpecId, st: State, ev: Event)
    requires Inv(spec, st) && Possible(st, ev)
    ensures Inv(spec, Step(spec, st, ev))
  {
    var st' := Step(spec, st, ev);
    match ev
    case Load(key, value) =>
      CreditUpdate(spec, st.storage, key, st'.storage[key]);
      forall i | 0 <= i <= |st'.frames| ensures Covered(spec, st', i) {
        assert Covered(spec, st, i);
      }
    case Store(key, value) =>
      CreditUpdate(spec, st.storage, key, st'.storage[key]);
      AddedKeepsInv(spec, st, st', Refund(spec, st.storage[key].original, st.storage[key].present, value));
    case Reward(amount) => AddedKeepsInv(spec, st, st', amount);
    case Create(address, recorded) => EmptiedKeepsInv(spec, st, address, recorded);
    case Call =>
      TotalAll(st.frames);
      TotalAll(st'.frames);
      assert st'.frames[..|st.frames|] == st.frames;
      forall i | 0 <= i <= |st'.frames| ensures Covered(spec, st', i) {
        assert Covered(spec, st, if i <= |st.frames| then i else |st.frames|);
        assert i <= |st.frames| ==> st'.frames[..i] == st.frames[..i];
      }
    case Return(ok) =>
      if ok {
        MergeKeepsInv(spec, st);
      } else {
        DropKeepsInv(spec, st);
      }
  }

  /** At every point of every run, the refunds of all live frames add up to the clearing credit of
      every cleared slot plus an amount that is not negative. */
  lemma {:induction false} RefundsCoverCredit(spec: SpecId, run: seq<State>, events: seq<Event>, k: nat)
    requires IsRun(spec, run, events) && Initial(run[0]) && k < |run|
    ensures Inv(spec, run[k])
    ensures TotalRefund(run[k].frames) >= Credit(spec, run[k].storage) >= 0
  {
    if k == 0 {
      CreditOfUnchanged(spec, run[0].storage);
      forall i | 0 <= i <= |run[0].frames| ensures Covered(spec, run[0], i) {
        TotalAll(run[0].frames);
      }
    } else {
      RefundsCoverCredit(spec, run, events, k - 1);
      StepKeepsInv(spec, run[k - 1], events[k - 1]);
    }
    assert Covered(spec, run[k], |run[k].frames|);
    TotalAll(run[k].frames);
  }

  /** So the counter a transaction ends with, once only its first frame is left, is never negative,
      and the final refund is at most it and at most a fifth (before London, half) of the gas spent. */
  lemma FinalRefundNeverNegative(spec: SpecId, run: seq<State>, events: seq<Event>, spent: nat)
    requires IsRun(spec, run, events) && Initial(run[0]) && |run[|run| - 1].frames| == 1 && spent < TWO_64
    ensures var refund := run[|run| - 1].frames[0].refund;
            && refund >= 0
            && (refund < 0x8000_0000_0000_0000 ==>
                  0 <= FinalRefund(refund, spent, spec >= LONDON) <= Min(refund, spent / if spec >= LONDON then 5 else 2))
  {
    var last := run[|run| - 1];
    RefundsCoverCredit(spec, run, events, |run| - 1);
    assert TotalRefund(last.frames) == last.frames[0].refund by {
      assert last.frames[..0] == [];
    }
    if last.frames[0].refund < 0x8000_0000_0000_0000 {
      FinalRefundCapped(last.frames[0].refund, spent, spec >= LONDON);
    }
  }
}
