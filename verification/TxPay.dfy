/** Transaction validation and why a validated transaction can pay for what it transfers. */
module TxPay {
  import opened Prelude
  import opened JournalState
  import opened JournalOps
  import opened JournalOverflow

  const GAS_PER_BLOB: nat := 0x2_0000
  const MAX_BLOB_NUMBER_PER_BLOCK: nat := 6
  const MAX_INITCODE_SIZE: nat := 0xC000
  const VERSIONED_HASH_VERSION_KZG: nat := 1
  const MAX_WORD: Word := TWO_256 - 1
  const MAX_USIZE: nat := 0xFFFF_FFFF_FFFF_FFFF

  datatype Forks = Forks(london: bool, berlin: bool, shanghai: bool, cancun: bool)

  datatype Config = Config(
    chainId: nat, codeSizeLimit: Option<nat>, balanceCheckDisabled: bool, gasLimitCheckDisabled: bool,
    eip3607Disabled: bool, baseFeeCheckDisabled: bool)

  /** From Cancun on the block has a blob gas price, which block validation enforces. */
  datatype Block = Block(gasLimit: Word, baseFee: Word, blobGasPrice: nat)

  datatype Tx = Tx(
    gasLimit: nat, gasPrice: Word, priorityFee: Option<Word>, isCreate: bool, dataLength: nat, nonce: Option<nat>,
    chainId: Option<nat>, accessListLength: nat, blobVersions: seq<nat>, maxFeePerBlobGas: Option<Word>,
    tokens: seq<TokenTransfer>)

  datatype Env = Env(forks: Forks, cfg: Config, block: Block, tx: Tx)

  datatype InvalidTransaction =
    | PriorityFeeGreaterThanMaxFee
    | GasPriceLessThanBasefee
    | CallerGasLimitMoreThanBlock
    | CreateInitCodeSizeLimit
    | InvalidChainId
    | AccessListNotSupported
    | BlobGasPriceGreaterThanMax
    | EmptyBlobs
    | BlobCreateTransaction
    | BlobVersionNotSupported
    | TooManyBlobs
    | BlobVersionedHashesNotSupported
    | MaxFeePerBlobGasNotSupported
    | TokenIdsNotUnique
    | RejectCallerWithCode
    | NonceTooHigh
    | NonceTooLow
    | OverflowPaymentInTransaction
    | LackOfFundForMaxFee
    | NotEnoughTokenBalanceForTransfer

  function Saturated(x: nat): Word {
    if x < TWO_256 then x else MAX_WORD
  }

  function EffectiveGasPrice(env: Env): Word {
    if env.tx.priorityFee.None? then env.tx.gasPrice
    else Min(env.tx.gasPrice, WrappingAdd(env.block.baseFee, env.tx.priorityFee.value))
  }

  /** Base fee and tip add up to a word. */
  predicate TipFits(env: Env) {
    env.tx.priorityFee.None? || env.block.baseFee + env.tx.priorityFee.value < TWO_256
  }

  /** Whoever offers the base fee pays it, and on top the tip or what the offer leaves for it; the price is
      below the base fee exactly if the offer is, or if base fee and tip wrap. */
  lemma EffectivePriceIs(env: Env)
    ensures EffectiveGasPrice(env) <= env.tx.gasPrice
    ensures EffectiveGasPrice(env) >= env.block.baseFee <==> env.tx.gasPrice >= env.block.baseFee && TipFits(env)
    ensures env.tx.priorityFee.None? ==> EffectiveGasPrice(env) == env.tx.gasPrice
    ensures env.tx.priorityFee.Some? && env.tx.gasPrice >= env.block.baseFee && TipFits(env) ==>
      EffectiveGasPrice(env) - env.block.baseFee == Min(env.tx.priorityFee.value, env.tx.gasPrice - env.block.baseFee)
  {
  }

  function TotalBlobGas(tx: Tx): nat {
    GAS_PER_BLOB * |tx.blobVersions|
  }

  function DataFee(env: Env): Word {
    Saturated(env.block.blobGasPrice * TotalBlobGas(env.tx))
  }

  function MaxDataFee(tx: Tx): Word {
    if tx.maxFeePerBlobGas.None? then 0 else Saturated(tx.maxFeePerBlobGas.value * TotalBlobGas(tx))
  }

  /** The amount of the first transfer of the base token in the list. */
  function BaseTransferValue(ts: seq<TokenTransfer>): Word {
    if ts == [] then 0 else if ts[0].id == BASE_TOKEN_ID then ts[0].amount else BaseTransferValue(ts[1..])
  }

  // ---- What validation accepts ----

  predicate UniqueIds(ts: seq<TokenTransfer>) {
    forall i, j :: 0 <= i < j < |ts| ==> ts[i].id != ts[j].id
  }

  /** Prices, sizes and fields that need their fork. */
  predicate FieldsOk(env: Env) {
    var tx := env.tx;
    && (env.forks.london ==>
          && (tx.priorityFee.Some? ==> tx.priorityFee.value <= tx.gasPrice)
          && (env.cfg.baseFeeCheckDisabled || (tx.gasPrice >= env.block.baseFee && TipFits(env))))
    && (env.cfg.gasLimitCheckDisabled || tx.gasLimit <= env.block.gasLimit)
    && (env.forks.shanghai && tx.isCreate ==> tx.dataLength <= MaxInitcodeSize(env.cfg))
    && (tx.chainId.Some? ==> tx.chainId.value == env.cfg.chainId)
    && (env.forks.berlin || tx.accessListLength == 0)
  }

  function MaxInitcodeSize(cfg: Config): nat {
    if cfg.codeSizeLimit.None? then MAX_INITCODE_SIZE else Min(2 * cfg.codeSizeLimit.value, MAX_USIZE)
  }

  /** A transaction with a maximum blob fee carries blobs and offers the current price. Nothing is
      asked, from Cancun on, of a transaction with blobs and no maximum fee. */
  predicate BlobsOk(env: Env) {
    var tx := env.tx;
    if !env.forks.cancun then tx.blobVersions == [] && tx.maxFeePerBlobGas.None?
    else tx.maxFeePerBlobGas.Some? ==>
      && env.block.blobGasPrice <= tx.maxFeePerBlobGas.value
      && 0 < |tx.blobVersions| <= MAX_BLOB_NUMBER_PER_BLOCK
      && !tx.isCreate
      && forall i :: 0 <= i < |tx.blobVersions| ==> tx.blobVersions[i] == VERSIONED_HASH_VERSION_KZG
  }

  predicate ValidTx(env: Env) {
    FieldsOk(env) && BlobsOk(env) && UniqueIds(env.tx.tokens)
  }

  /** What validation sets aside for gas and blobs. */
  function Reserved(env: Env): nat {
    env.tx.gasLimit * env.tx.gasPrice + if env.forks.cancun then MaxDataFee(env.tx) else 0
  }

  function Required(env: Env): nat {
    Reserved(env) + BaseTransferValue(env.tx.tokens)
  }

  predicate SenderOk(env: Env, a: Account) {
    && (env.cfg.eip3607Disabled || a.codeHash == KECCAK_EMPTY)
    && (env.tx.nonce.Some? ==> env.tx.nonce.value == a.nonce)
  }

  /** Every transfer except the base token's is covered by the account's balance. */
  predicate TokensCovered(a: Account, ts: seq<TokenTransfer>) {
    forall i :: 0 <= i < |ts| && ts[i].id != BASE_TOKEN_ID ==> ts[i].amount <= Balance(a, ts[i].id)
  }

  predicate ValidAgainst(env: Env, a: Account) {
    && SenderOk(env, a) && Required(env) < TWO_256
    && (Required(env) <= Balance(a, BASE_TOKEN_ID) || env.cfg.balanceCheckDisabled)
    && TokensCovered(a, env.tx.tokens)
  }

  /** With the balance check off, validation tops the sender up. */
  function ToppedUp(env: Env, a: Account): Account
    requires Required(env) < TWO_256
  {
    if Required(env) > Balance(a, BASE_TOKEN_ID) && env.cfg.balanceCheckDisabled
    then SetBalance(a, BASE_TOKEN_ID, Required(env))
    else a
  }

  // ---- The checks as the program makes them ----

  method CheckBlobs(env: Env) returns (r: Result<(), InvalidTransaction>)
    ensures r.Ok? <==> BlobsOk(env)
  {
    var tx := env.tx;
    if env.forks.cancun {
      if tx.maxFeePerBlobGas.Some? {
        if env.block.blobGasPrice > tx.maxFeePerBlobGas.value { return Err(BlobGasPriceGreaterThanMax); }
        if |tx.blobVersions| == 0 { return Err(EmptyBlobs); }
        if tx.isCreate { return Err(BlobCreateTransaction); }
        for i := 0 to |tx.blobVersions|
          invariant forall k :: 0 <= k < i ==> tx.blobVersions[k] == VERSIONED_HASH_VERSION_KZG
        {
          if tx.blobVersions[i] != VERSIONED_HASH_VERSION_KZG { return Err(BlobVersionNotSupported); }
        }
        if |tx.blobVersions| > MAX_BLOB_NUMBER_PER_BLOCK { return Err(TooManyBlobs); }
      }
    } else {
      if tx.blobVersions != [] { return Err(BlobVersionedHashesNotSupported); }
      if tx.maxFeePerBlobGas.Some? { return Err(MaxFeePerBlobGasNotSupported); }
    }
    r := Ok(());
  }

  /** The ids collected into a set. */
  function Ids(ts: seq<TokenTransfer>): set<Word> {
    if ts == [] then {} else Ids(ts[..|ts| - 1]) + {ts[|ts| - 1].id}
  }

  lemma {:induction false} IdsHold(ts: seq<TokenTransfer>, id: Word)
    ensures id in Ids(ts) <==> exists i :: 0 <= i < |ts| && ts[i].id == id
  {
    if ts != [] {
      IdsHold(ts[..|ts| - 1], id);
    }
  }

  /** Collecting the ids into a set loses none exactly when they are pairwise different. */
  lemma {:induction false} CountsUniqueIds(ts: seq<TokenTransfer>)
    ensures |Ids(ts)| <= |ts|
    ensures |Ids(ts)| == |ts| <==> UniqueIds(ts)
  {
    if ts != [] {
      var n := |ts| - 1;
      var front, last := ts[..n], ts[n].id;
      CountsUniqueIds(front);
      IdsHold(front, last);
      assert UniqueIds(ts) <==> UniqueIds(front) && last !in Ids(front);
    }
  }

  method ValidateTx(env: Env) returns (r: Result<(), InvalidTransaction>)
    ensures r.Ok? <==> ValidTx(env)
  {
    var tx := env.tx;
    EffectivePriceIs(env);
    if env.forks.london {
      if tx.priorityFee.Some? && tx.priorityFee.value > tx.gasPrice { return Err(PriorityFeeGreaterThanMaxFee); }
      if !env.cfg.baseFeeCheckDisabled && EffectiveGasPrice(env) < env.block.baseFee { return Err(GasPriceLessThanBasefee); }
    }
    if !env.cfg.gasLimitCheckDisabled && tx.gasLimit > env.block.gasLimit { return Err(CallerGasLimitMoreThanBlock); }
    if env.forks.shanghai && tx.isCreate && tx.dataLength > MaxInitcodeSize(env.cfg) { return Err(CreateInitCodeSizeLimit); }
    if tx.chainId.Some? && tx.chainId.value != env.cfg.chainId { return Err(InvalidChainId); }
    if !env.forks.berlin && tx.accessListLength != 0 { return Err(AccessListNotSupported); }
    var blobs := CheckBlobs(env);
    if blobs.Err? { return blobs; }
    CountsUniqueIds(tx.tokens);
    if tx.tokens != [] && |Ids(tx.tokens)| != |tx.tokens| { return Err(TokenIdsNotUnique); }
    r := Ok(());
  }

  /** Checks the sender and returns its account, topped up when the balance check is off. */
  method ValidateTxAgainstState(env: Env, account: Account) returns (r: Result<(), InvalidTransaction>, account': Account)
    ensures r.Ok? <==> ValidAgainst(env, account)
    ensures r.Ok? ==> account' == ToppedUp(env, account)
    ensures r == Err(OverflowPaymentInTransaction) ==> Required(env) >= TWO_256
    ensures r == Err(LackOfFundForMaxFee) ==> Required(env) > Balance(account, BASE_TOKEN_ID)
    ensures r == Err(NotEnoughTokenBalanceForTransfer) ==> !TokensCovered(account, env.tx.tokens)
  {
    var tx := env.tx;
    account' := account;
    if !env.cfg.eip3607Disabled && account.codeHash != KECCAK_EMPTY { return Err(RejectCallerWithCode), account'; }
    if tx.nonce.Some? {
      if tx.nonce.value > account.nonce { return Err(NonceTooHigh), account'; }
      if tx.nonce.value < account.nonce { return Err(NonceTooLow), account'; }
    }
    var required: int := tx.gasLimit * tx.gasPrice;
    if required >= TWO_256 { return Err(OverflowPaymentInTransaction), account'; }
    required := required + BaseTransferValue(tx.tokens);
    if required >= TWO_256 { return Err(OverflowPaymentInTransaction), account'; }
    if env.forks.cancun {
      required := required + MaxDataFee(tx);
      if required >= TWO_256 { return Err(OverflowPaymentInTransaction), account'; }
    }
    if required > Balance(account, BASE_TOKEN_ID) {
      if !env.cfg.balanceCheckDisabled { return Err(LackOfFundForMaxFee), account'; }
      ToppedUpCovers(account, tx.tokens, required);
      account' := SetBalance(account, BASE_TOKEN_ID, required);
    }
    r := CheckTokens(account', tx.tokens);
  }

  /** The loop over the tokens other than the base token. */
  method CheckTokens(account: Account, ts: seq<TokenTransfer>) returns (r: Result<(), InvalidTransaction>)
    ensures r == if TokensCovered(account, ts) then Ok(()) else Err(NotEnoughTokenBalanceForTransfer)
  {
    for i := 0 to |ts|
      invariant forall k :: 0 <= k < i && ts[k].id != BASE_TOKEN_ID ==> ts[k].amount <= Balance(account, ts[k].id)
    {
      if ts[i].id != BASE_TOKEN_ID && Balance(account, ts[i].id) < ts[i].amount {
        return Err(NotEnoughTokenBalanceForTransfer);
      }
    }
    r := Ok(());
  }

  /** Topping up the base token changes no other check. */
  lemma ToppedUpCovers(a: Account, ts: seq<TokenTransfer>, amount: Word)
    ensures TokensCovered(SetBalance(a, BASE_TOKEN_ID, amount), ts) <==> TokensCovered(a, ts)
  {
    forall id: Word | id != BASE_TOKEN_ID ensures Balance(SetBalance(a, BASE_TOKEN_ID, amount), id) == Balance(a, id) {}
  }

  // ---- What is taken for gas before the transfer ----

  function GasCost(env: Env): Word {
    var cost := Saturated(env.tx.gasLimit * EffectiveGasPrice(env));
    if env.forks.cancun then Saturated(cost + DataFee(env)) else cost
  }

  function Deducted(env: Env, a: Account): Account {
    var paid := SetBalance(a, BASE_TOKEN_ID, Max(0, Balance(a, BASE_TOKEN_ID) - GasCost(env)));
    if env.tx.isCreate then paid.(touched := true)
    else paid.(touched := true, nonce := Min(paid.nonce + 1, MAX_NONCE))
  }

  /** The sender pays the gas cost as far as its base balance goes, and nothing else; a call bumps the
      nonce. */
  lemma DeductedIs(env: Env, a: Account, token: Word)
    ensures Balance(Deducted(env, a), token) ==
            if token != BASE_TOKEN_ID then Balance(a, token)
            else if GasCost(env) <= Balance(a, token) then Balance(a, token) - GasCost(env) else 0
    ensures a.nonce < MAX_NONCE ==> Deducted(env, a).nonce == a.nonce + if env.tx.isCreate then 0 else 1
  {
  }

  /** The fees in numbers: gas at the effective price, and 131072 gas a blob at the block's price; what is
      set aside for blobs is the fee at the transaction's own maximum. */
  lemma FeesAre(env: Env)
    requires env.tx.gasLimit * EffectiveGasPrice(env) + env.block.blobGasPrice * (131072 * |env.tx.blobVersions|) < TWO_256
    ensures GasCost(env) ==
            env.tx.gasLimit * EffectiveGasPrice(env)
            + if env.forks.cancun then env.block.blobGasPrice * (131072 * |env.tx.blobVersions|) else 0
    ensures env.tx.maxFeePerBlobGas == Some(env.block.blobGasPrice) ==> MaxDataFee(env.tx) == DataFee(env)
    ensures env.tx.maxFeePerBlobGas.None? ==> MaxDataFee(env.tx) == 0
  {
    ProductGrows(env.tx.gasLimit, 0, EffectiveGasPrice(env));
    ProductGrows(env.block.blobGasPrice, 0, 131072 * |env.tx.blobVersions|);
  }

  lemma ProductGrows(x: nat, y: nat, z: nat)
    requires y <= z
    ensures x * y <= x * z && y * x <= z * x
  {
  }

  /** A valid transaction is charged no more than was set aside if it names a maximum blob fee or
      carries no blobs. */
  lemma ChargeWithinReserve(env: Env)
    requires ValidTx(env)
    requires env.forks.cancun ==> env.tx.maxFeePerBlobGas.Some? || env.tx.blobVersions == []
    ensures GasCost(env) <= Reserved(env)
  {
    ProductGrows(env.tx.gasLimit, EffectiveGasPrice(env), env.tx.gasPrice);
    if env.forks.cancun {
      if env.tx.maxFeePerBlobGas.Some? {
        ProductGrows(TotalBlobGas(env.tx), env.block.blobGasPrice, env.tx.maxFeePerBlobGas.value);
      } else {
        assert TotalBlobGas(env.tx) == 0;
      }
    }
  }

  // ---- Paying ----

  predicate AllCovered(a: Account, ts: seq<TokenTransfer>) {
    forall i :: 0 <= i < |ts| ==> ts[i].amount <= Balance(a, ts[i].id)
  }

  /** For transfers of different tokens, out of funds means just that some balance is too small:
      covered lists never run out, and a list that goes through was covered. */
  lemma {:induction false} RunsOutOnlyIfUncovered(j: Journaled, from: Address, to: Address, ts: seq<TokenTransfer>)
    requires Open(j) && Loaded(j, from) && Loaded(j, to) && UniqueIds(ts)
    ensures var failure := TransferAll(j, from, to, ts).1;
            && failure in {None, Some(OutOfFunds), Some(OverflowPayment)}
            && (AllCovered(j.world.accounts[from], ts) ==> failure != Some(OutOfFunds))
            && (!AllCovered(j.world.accounts[from], ts) ==> failure.Some?)
    decreases |ts|
  {
    if ts != [] {
      OnePayment(j, from, to, ts[0]);
      var (j1, failure) := TransferOne(j, from, to, ts[0]);
      if failure.None? {
        RunsOutOnlyIfUncovered(j1, from, to, ts[1..]);
        CoverMoves(j.world.accounts[from], j1.world.accounts[from], ts);
      }
    }
  }

  /** Covering the rest of the list is not disturbed by paying its head. */
  lemma CoverMoves(a: Account, a': Account, ts: seq<TokenTransfer>)
    requires ts != [] && UniqueIds(ts) && ts[0].amount <= Balance(a, ts[0].id)
    requires forall id: Word :: id != ts[0].id ==> Balance(a', id) == Balance(a, id)
    ensures AllCovered(a, ts) <==> AllCovered(a', ts[1..])
  {
    forall i | 0 < i < |ts| ensures Balance(a', ts[i].id) == Balance(a, ts[i].id) && ts[1..][i - 1] == ts[i] {
      assert ts[0].id != ts[i].id;
    }
    if AllCovered(a', ts[1..]) {
      forall i | 0 <= i < |ts| ensures ts[i].amount <= Balance(a, ts[i].id) {
        if i > 0 {
          assert ts[1..][i - 1].amount <= Balance(a', ts[1..][i - 1].id);
        }
      }
    }
  }

  /** With different ids there is one base transfer at most, and validation has seen its amount. */
  lemma {:induction false} BaseTransferIsAll(ts: seq<TokenTransfer>, i: nat)
    requires UniqueIds(ts) && i < |ts| && ts[i].id == BASE_TOKEN_ID
    ensures ts[i].amount == BaseTransferValue(ts)
  {
    if i > 0 {
      BaseTransferIsAll(ts[1..], i - 1);
    }
  }

  lemma {:induction false} BaseTransferFound(ts: seq<TokenTransfer>) returns (i: nat)
    requires BaseTransferValue(ts) > 0
    ensures i < |ts| && ts[i] == TokenTransfer(BASE_TOKEN_ID, BaseTransferValue(ts))
  {
    if ts[0].id == BASE_TOKEN_ID {
      i := 0;
    } else {
      i := BaseTransferFound(ts[1..]);
      i := i + 1;
    }
  }

  /** The account has the balances of the sender once validated and charged. */
  predicate ChargedSender(env: Env, sender: Account, a: Account)
    requires Required(env) < TWO_256
  {
    forall id: Word :: Balance(a, id) == Balance(Deducted(env, ToppedUp(env, sender)), id)
  }

  /** The loads that start a transfer keep a loaded account as it is. */
  lemma TransferLoads(j: Journaled, db: Db, from: Address, to: Address, ts: seq<TokenTransfer>) returns (j1: Journaled)
    requires Open(j) && Loaded(j, from)
    ensures Open(j1) && Loaded(j1, from) && Loaded(j1, to) && j1.world.accounts[from] == j.world.accounts[from]
    ensures j1 == LoadAccount(LoadAccount(LoadTokenIds(j, db), db, from), db, to)
    ensures Transfer(j, db, from, to, ts) == TransferAll(j1, from, to, ts)
  {
    j1 := LoadAccount(LoadAccount(LoadTokenIds(j, db), db, from), db, to);
  }

  /** The charge stays within the reserve, or there is no base transfer left to pay for. */
  predicate Payable(env: Env) {
    GasCost(env) <= Reserved(env) || BaseTransferValue(env.tx.tokens) == 0
  }

  /** If the sender passes validation and is charged, the caller's transfer does not run out of funds. */
  predicate Pays(env: Env, sender: Account, j: Journaled, db: Db, caller: Address, to: Address) {
    ValidAgainst(env, sender) && Open(j) && Loaded(j, caller) && ChargedSender(env, sender, j.world.accounts[caller]) ==>
      Transfer(j, db, caller, to, env.tx.tokens).1 != Some(OutOfFunds)
  }

  ghost predicate EverySenderPays(env: Env) {
    forall sender, j, db, caller, to {:trigger Pays(env, sender, j, db, caller, to)} :: Pays(env, sender, j, db, caller, to)
  }

  /** Validated transactions can pay: a transaction that passes both validations and is payable never
      runs out of funds when its whole token list is transferred, whoever receives it, whether or not
      the balance check is on. */
  lemma ValidatedCanPay(env: Env, sender: Account, j: Journaled, db: Db, caller: Address, to: Address)
    requires ValidTx(env) && ValidAgainst(env, sender) && Payable(env)
    requires Open(j) && Loaded(j, caller) && ChargedSender(env, sender, j.world.accounts[caller])
    ensures Transfer(j, db, caller, to, env.tx.tokens).1 != Some(OutOfFunds)
  {
    var ts, a := env.tx.tokens, j.world.accounts[caller];
    forall i | 0 <= i < |ts| ensures ts[i].amount <= Balance(a, ts[i].id) {
      if ts[i].id == BASE_TOKEN_ID {
        BaseTransferIsAll(ts, i);
      }
    }
    var j1 := TransferLoads(j, db, caller, to, ts);
    RunsOutOnlyIfUncovered(j1, caller, to, ts);
  }

  /** Balances that just cover the list. */
  function Covering(ts: seq<TokenTransfer>): map<Word, Word> {
    if ts == [] then map[] else Covering(ts[..|ts| - 1])[ts[|ts| - 1].id := ts[|ts| - 1].amount]
  }

  lemma {:induction false} CoveringCovers(ts: seq<TokenTransfer>, i: nat)
    requires UniqueIds(ts) && i < |ts|
    ensures ts[i].id in Covering(ts) && Covering(ts)[ts[i].id] == ts[i].amount
  {
    if i < |ts| - 1 {
      CoveringCovers(ts[..|ts| - 1], i);
    }
  }

  /** A sender who holds just what validation requires. */
  function PoorestSender(env: Env): Account
    requires Required(env) < TWO_256
  {
    Account(Covering(env.tx.tokens)[BASE_TOKEN_ID := Required(env)], if env.tx.nonce.Some? then env.tx.nonce.value else 0,
            KECCAK_EMPTY, map[], false, false, false, false)
  }

  lemma PoorestSenderPasses(env: Env)
    requires UniqueIds(env.tx.tokens) && Required(env) < TWO_256
    ensures ValidAgainst(env, PoorestSender(env))
  {
    var ts := env.tx.tokens;
    forall i | 0 <= i < |ts| && ts[i].id != BASE_TOKEN_ID ensures ts[i].amount <= Balance(PoorestSender(env), ts[i].id) {
      CoveringCovers(ts, i);
    }
  }

  /** With different ids each payment is the only one of its token. */
  lemma {:induction false} SentOnce(ts: seq<TokenTransfer>, n: nat, id: Word)
    requires UniqueIds(ts) && n <= |ts|
    ensures Sent(ts, n, id) < TWO_256 && ((forall i :: 0 <= i < n ==> ts[i].id != id) ==> Sent(ts, n, id) == 0)
  {
    if n > 0 {
      SentOnce(ts, n - 1, id);
    }
  }

  lemma NewcomerHasRoom(payer: Account, payee: Account, ts: seq<TokenTransfer>)
    requires UniqueIds(ts) && payee.balances == map[]
    ensures !Overflows(payer, payee, ts)
  {
    forall k | 0 <= k < |ts| ensures HasRoom(payee, ts, k) {
      SentOnce(ts, k + 1, ts[k].id);
    }
  }

  /** A state in which the charged sender is the only account loaded. */
  function SenderAlone(env: Env, sender: Account, caller: Address): Journaled
    requires Required(env) < TWO_256
  {
    Journaled(World(map[caller := Deducted(env, ToppedUp(env, sender))], map[], []), [], 0, [[]], Spec(true, true), {})
  }

  const EMPTY_DB: Db := Db(map[], map[], [], {})

  lemma PoorestSenderShort(env: Env)
    requires Required(env) < TWO_256 && !Payable(env)
    ensures Balance(Deducted(env, ToppedUp(env, PoorestSender(env))), BASE_TOKEN_ID) < BaseTransferValue(env.tx.tokens)
  {
    var sender := PoorestSender(env);
    assert Balance(sender, BASE_TOKEN_ID) == Required(env);
    assert ToppedUp(env, sender) == sender;
  }

  /** An uncovered list to an account without balances runs out of funds. */
  lemma UncoveredRunsOut(j: Journaled, db: Db, caller: Address, to: Address, ts: seq<TokenTransfer>)
    requires Open(j) && Loaded(j, caller) && !Loaded(j, to) && to !in db.accounts
    requires UniqueIds(ts) && !AllCovered(j.world.accounts[caller], ts)
    ensures Transfer(j, db, caller, to, ts).1 == Some(OutOfFunds)
  {
    var j1 := TransferLoads(j, db, caller, to, ts);
    assert j1.world.accounts[to].balances == map[];
    NewcomerHasRoom(j1.world.accounts[caller], j1.world.accounts[to], ts);
    OverflowForeseen(j1, caller, to, ts);
    RunsOutOnlyIfUncovered(j1, caller, to, ts);
  }

  /** A transaction with a base transfer that is charged more than its reserve has a sender who passes
      validation and runs out of funds paying a fresh account: the one who holds just what validation
      requires. */
  lemma OverchargedCannotPay(env: Env, caller: Address, to: Address)
    requires UniqueIds(env.tx.tokens) && Required(env) < TWO_256 && !Payable(env) && caller != to
    ensures ValidAgainst(env, PoorestSender(env))
    ensures Transfer(SenderAlone(env, PoorestSender(env), caller), EMPTY_DB, caller, to, env.tx.tokens).1 == Some(OutOfFunds)
  {
    var ts, j := env.tx.tokens, SenderAlone(env, PoorestSender(env), caller);
    PoorestSenderPasses(env);
    PoorestSenderShort(env);
    var i := BaseTransferFound(ts);
    assert !AllCovered(j.world.accounts[caller], ts);
    UncoveredRunsOut(j, EMPTY_DB, caller, to, ts);
  }

  /** For a valid transaction some sender could afford at all: every validated sender can pay if and
      only if the charge stays within the reserve or no base token moves. */
  lemma PaysIff(env: Env)
    requires ValidTx(env) && Required(env) < TWO_256
    ensures EverySenderPays(env) <==> Payable(env)
  {
    if Payable(env) {
      forall sender, j, db, caller, to ensures Pays(env, sender, j, db, caller, to) {
        if ValidAgainst(env, sender) && Open(j) && Loaded(j, caller) && ChargedSender(env, sender, j.world.accounts[caller]) {
          ValidatedCanPay(env, sender, j, db, caller, to);
        }
      }
    } else {
      OverchargedCannotPay(env, 0, 1);
      var sender := PoorestSender(env);
      assert !Pays(env, sender, SenderAlone(env, sender, 0), EMPTY_DB, 0, 1);
    }
  }

  /** Blobs without a maximum blob fee pass validation, and their fee was not set aside. */
  const UNPRICED_BLOBS: Env := Env(
    Forks(true, true, true, true), Config(1, None, false, false, false, false), Block(30_000_000, 1, 1),
    Tx(21_000, 1, None, false, 0, None, None, 0, [1], None, [TokenTransfer(BASE_TOKEN_ID, 5)]))

  const UNPRICED_SENDER: Account :=
    Account(map[BASE_TOKEN_ID := 21_005], 0, KECCAK_EMPTY, map[], false, false, false, false)

  lemma UnpricedBlobsCannotPay(j: Journaled, db: Db, caller: Address, to: Address)
    requires Open(j) && Loaded(j, caller)
    requires j.world.accounts[caller] == Deducted(UNPRICED_BLOBS, UNPRICED_SENDER)
    ensures ValidTx(UNPRICED_BLOBS) && ValidAgainst(UNPRICED_BLOBS, UNPRICED_SENDER)
    ensures Transfer(j, db, caller, to, UNPRICED_BLOBS.tx.tokens).1 == Some(OutOfFunds)
  {
    var ts := [TokenTransfer(BASE_TOKEN_ID, 5)];
    assert BaseTransferValue(ts) == 5;
    assert TotalBlobGas(UNPRICED_BLOBS.tx) == 0x2_0000;
    assert GasCost(UNPRICED_BLOBS) == 152_072;
    var j1 := TransferLoads(j, db, caller, to, ts);
    OnePayment(j1, caller, to, ts[0]);
  }

  /** Without different ids the other checks are not enough: a token named twice is checked twice
      against the same balance. */
  lemma TwiceTheSameToken(j: Journaled, from: Address, to: Address, id: Word, amount: Word)
    requires Open(j) && Loaded(j, from) && Loaded(j, to) && from != to && amount > 0
    requires Balance(j.world.accounts[from], id) == amount && Balance(j.world.accounts[to], id) == 0
    ensures var ts := [TokenTransfer(id, amount), TokenTransfer(id, amount)];
            AllCovered(j.world.accounts[from], ts) && TransferAll(j, from, to, ts).1 == Some(OutOfFunds)
  {
    var t := TokenTransfer(id, amount);
    var ts := [t, t];
    var (j1, failure) := TransferOne(j, from, to, t);
    assert failure.None? && Balance(j1.world.accounts[from], id) == 0;
    assert ts[1..] == [t];
    OnePayment(j1, from, to, t);
    assert TransferAll(j1, from, to, [t]) == TransferOne(j1, from, to, t);
  }
}
