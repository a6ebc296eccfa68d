/**
  Who is paid what around the frame of a transaction: the prepayment of the
  caller, what it gets back, and what the coinbase receives, over the numbers of
  the transaction's result.
 */
module Fees {
  import opened Words
  import opened Accounts
  import opened InstructionResults
  import opened GasMeter
  import opened Journal
  import opened Supply
  import opened Evm
  import opened Transaction
  import opened Ether
  import opened Answers
  import opened Payments

  // ---------------------------------------------------------------- what the frame finds

  /** The accounts loaded so far are what the database holds. */
  ghost predicate AsStored(db: Database, s: State) {
    forall a | a in s :: Fetch(db, a).DbOk? && s[a].info == Fetch(db, a).value.info
  }

  /** Loads of a new journaled state: nothing is opened and all accounts are as stored. */
  ghost predicate OnlyLoaded(db: Database, js: ValidJState, numOfPrecompiles: nat) {
    AsStored(db, js.state) && js.depth == 0 && js.numOfPrecompiles == numOfPrecompiles
  }

  lemma InitialLoadStored(js: ValidJState, db: Database, a: Address, slots: seq<U256>, n: nat)
    requires OnlyLoaded(db, js, n)
    ensures OnlyLoaded(db, InitialAccountLoad(js, db, a, slots).0, n)
  {
  }

  lemma {:induction false} AccessListStored(js: ValidJState, db: Database, list: seq<(Address, seq<U256>)>, n: nat)
    requires OnlyLoaded(db, js, n)
    ensures OnlyLoaded(db, LoadAccessList(js, db, list).0, n)
    decreases |list|
  {
    if list != [] {
      InitialLoadStored(js, db, list[0].0, list[0].1, n);
      AccessListStored(InitialAccountLoad(js, db, list[0].0, list[0].1).0, db, list[1..], n);
    }
  }

  lemma PreloadStored(env: Env, db: Database, numOfPrecompiles: nat)
    requires Preload(env, db, numOfPrecompiles).1.None?
    ensures OnlyLoaded(db, Preload(env, db, numOfPrecompiles).0, numOfPrecompiles)
  {
    var js0 := if env.cfg.Enabled(SPURIOUS_DRAGON) then New(numOfPrecompiles) else NewLegacy(numOfPrecompiles);
    var js1 := if env.cfg.Enabled(SHANGHAI) then InitialAccountLoad(js0, db, env.block.coinbase, []).0 else js0;
    InitialLoadStored(js0, db, env.block.coinbase, [], numOfPrecompiles);
    AccessListStored(js1, db, env.tx.accessList, numOfPrecompiles);
  }

  // ---------------------------------------------------------------- which transactions are accepted

  /** Preset storage holds what the database holds, original and present. */
  ghost predicate Preset(db: Database, a: Address, slots: seq<U256>, storage: Storage) {
    && (forall k :: k in storage <==> k in slots)
    && SlotsReadable(db, a, slots)
    && forall k | k in storage :: storage[k] == StorageSlot(db.slot(a, k).value, db.slot(a, k).value)
  }

  predicate SlotsReadable(db: Database, a: Address, slots: seq<U256>) {
    forall k | k in slots :: db.slot(a, k).DbOk?
  }

  lemma {:induction false} FetchSlotsAnswers(db: Database, a: Address, slots: seq<U256>)
    ensures var r := FetchSlots(db, a, slots);
            && (r.DbOk? <==> SlotsReadable(db, a, slots))
            && (r.DbOk? ==> Preset(db, a, slots, r.value))
  {
    if slots != [] {
      var n := |slots| - 1;
      FetchSlotsAnswers(db, a, slots[..n]);
      assert forall k :: k in slots <==> k in slots[..n] || k == slots[n];
    }
  }

  /** An entry of the access list is loaded with its slots preset, unless its account is loaded already. */
  lemma InitialLoadAnswers(js: ValidJState, db: Database, a: Address, slots: seq<U256>)
    ensures var (js', ok) := InitialAccountLoad(js, db, a, slots);
            && (ok <==> a in js.state || (Fetch(db, a).DbOk? && SlotsReadable(db, a, slots)))
            && (!ok || a in js.state ==> js' == js)
            && (ok && a !in js.state ==>
                  && Preset(db, a, slots, js'.state[a].storage)
                  && js'.state == js.state[a := Fetch(db, a).value.(storage := js'.state[a].storage)])
  {
    FetchSlotsAnswers(db, a, slots);
  }

  /** Whether all accounts and slots of an access list can be read that are not loaded before their turn. */
  predicate ListReadable(db: Database, loaded: set<Address>, list: seq<(Address, seq<U256>)>)
    decreases |list|
  {
    list == [] ||
    (&& (list[0].0 in loaded || (Fetch(db, list[0].0).DbOk? && SlotsReadable(db, list[0].0, list[0].1)))
     && ListReadable(db, loaded + {list[0].0}, list[1..]))
  }

  lemma {:induction false} AccessListAnswers(js: ValidJState, db: Database, list: seq<(Address, seq<U256>)>)
    ensures LoadAccessList(js, db, list).1 <==> ListReadable(db, js.state.Keys, list)
    decreases |list|
  {
    if list != [] {
      InitialLoadAnswers(js, db, list[0].0, list[0].1);
      var (js1, ok) := InitialAccountLoad(js, db, list[0].0, list[0].1);
      if ok {
        assert js1.state.Keys == js.state.Keys + {list[0].0};
        AccessListAnswers(js1, db, list[1..]);
      }
    }
  }

  /** What the transaction and its block must satisfy by themselves. */
  predicate WellFormed(env: Env) {
    var spec, tx, price := env.cfg.specId, env.tx, PriceOf(env.tx, env.block);
    && (spec >= 15 ==> env.block.hasPrevrandao)
    && (spec >= 12 ==> env.block.basefee <= price)
    && (spec >= 12 && tx.gasPriorityFee.Some? ==> tx.gasPriorityFee.value <= tx.gasPrice)
    && tx.initialGas <= tx.gasLimit <= env.block.gasLimit
    && (spec >= 16 && tx.to.ToCreate? ==> tx.dataLength <= 49152)
    && (tx.chainId.Some? ==> tx.chainId.value == env.chainId)
    && (spec < 11 ==> tx.accessList == [])
  }

  /** What the sender must satisfy: no code, the right nonce, and means for all gas and the value. */
  predicate CanSend(tx: TxEnv, info: AccountInfo) {
    && info.codeHash == KECCAK_EMPTY
    && (tx.nonce.Some? ==> tx.nonce.value == info.nonce)
    && tx.gasLimit * tx.gasPrice + tx.value <= info.balance
  }

  /** The error of a transaction that is not well formed names a condition that fails. */
  lemma WellFormedIs(env: Env)
    ensures ValidateTx(env).None? <==> WellFormed(env)
    ensures var spec, tx, error := env.cfg.specId, env.tx, ValidateTx(env);
            error.Some? ==>
              match error.value
              case PrevrandaoNotSet => spec >= 15 && !env.block.hasPrevrandao
              case GasMaxFeeGreaterThanPriorityFee =>
                spec >= 12 && tx.gasPriorityFee.Some? && tx.gasPrice < tx.gasPriorityFee.value
              case GasPriceLessThanBasefee => spec >= 12 && PriceOf(tx, env.block) < env.block.basefee
              case CallerGasLimitMoreThanBlock => env.block.gasLimit < tx.gasLimit
              case CreateInitcodeSizeLimit => spec >= 16 && tx.to.ToCreate? && tx.dataLength > 49152
              case InvalidChainId => tx.chainId.Some? && tx.chainId.value != env.chainId
              case AccessListNotSupported => spec < 11 && tx.accessList != []
              case CallGasCostMoreThanGasLimit => tx.gasLimit < tx.initialGas
              case _ => false
  {
  }

  /** The error of a sender that cannot send tells why. */
  lemma CanSendIs(env: Env, caller: Account)
    ensures ValidateTxAgainstState(env, caller).None? <==> CanSend(env.tx, caller.info)
    ensures var tx, info, error := env.tx, caller.info, ValidateTxAgainstState(env, caller);
            error.Some? ==>
              match error.value
              case RejectCallerWithCode => info.codeHash != KECCAK_EMPTY
              case NonceTooHigh => tx.nonce.Some? && info.nonce < tx.nonce.value
              case NonceTooLow => tx.nonce.Some? && tx.nonce.value < info.nonce
              case OverflowPaymentInTransaction => tx.gasLimit * tx.gasPrice + tx.value >= TWO_256
              case LackOfFundForMaxFee => info.balance < tx.gasLimit * tx.gasPrice + tx.value < TWO_256
              case _ => false
  {
  }

  /**
    A transaction reaches its frame exactly if it is well formed, the coinbase (from
    Shanghai on), the access list and the sender can be read, and the sender can
    send it, all said of what the database holds.
   */
  lemma AcceptedExactly(env: Env, db: Database, numOfPrecompiles: nat)
    ensures Accepted(env, db, numOfPrecompiles)
            <==> && WellFormed(env)
                 && (env.cfg.specId >= 16 ==> Fetch(db, env.block.coinbase).DbOk?)
                 && ListReadable(db, if env.cfg.specId >= 16 then {env.block.coinbase} else {}, env.tx.accessList)
                 && Fetch(db, env.tx.caller).DbOk? && CanSend(env.tx, Fetch(db, env.tx.caller).value.info)
  {
    WellFormedIs(env);
    var js0 := if env.cfg.Enabled(SPURIOUS_DRAGON) then New(numOfPrecompiles) else NewLegacy(numOfPrecompiles);
    var js1 := if env.cfg.Enabled(SHANGHAI) then InitialAccountLoad(js0, db, env.block.coinbase, []).0 else js0;
    var js2 := LoadAccessList(js1, db, env.tx.accessList).0;
    InitialLoadAnswers(js0, db, env.block.coinbase, []);
    InitialLoadStored(js0, db, env.block.coinbase, [], numOfPrecompiles);
    if env.cfg.specId >= 16 ==> Fetch(db, env.block.coinbase).DbOk? {
      assert js1.state.Keys == if env.cfg.specId >= 16 then {env.block.coinbase} else {};
      AccessListAnswers(js1, db, env.tx.accessList);
      AccessListStored(js1, db, env.tx.accessList, numOfPrecompiles);
      SenderIs(env, db, js2, numOfPrecompiles);
    }
  }

  lemma SenderIs(env: Env, db: Database, js: ValidJState, numOfPrecompiles: nat)
    requires OnlyLoaded(db, js, numOfPrecompiles)
    ensures var (js', loaded) := LoadAccount(js, db, env.tx.caller);
            && (loaded.DbOk? <==> Fetch(db, env.tx.caller).DbOk?)
            && (loaded.DbOk? ==>
                  (ValidateTxAgainstState(env, js'.state[env.tx.caller]).None?
                   <==> CanSend(env.tx, Fetch(db, env.tx.caller).value.info)))
  {
    if LoadAccount(js, db, env.tx.caller).1.DbOk? {
      CanSendIs(env, LoadAccount(js, db, env.tx.caller).0.state[env.tx.caller]);
    }
  }

  // ---------------------------------------------------------------- the prepayment

  /** From `s` to `t`, `a` has paid `amount` to nobody. */
  ghost predicate Prepaid(db: Database, s: State, t: State, a: Address, amount: int) {
    forall x: Address :: BalanceOf(db, t, x) == BalanceOf(db, s, x) - if x == a then amount else 0
  }

  /**
    The frame is entered with every balance as the database holds it, less the
    caller's prepayment of the whole gas limit; the caller is touched, its nonce
    counted for a call, and it still holds the value to be sent.
   */
  lemma EnteredPrepaid(env: Env, db: Database, numOfPrecompiles: nat)
    requires Accepted(env, db, numOfPrecompiles)
    ensures var js := Entered(env, db, numOfPrecompiles);
            && Fetch(db, env.tx.caller).DbOk?
            && js.depth == 0 && js.numOfPrecompiles == numOfPrecompiles
            && Prepaid(db, map[], js.state, env.tx.caller, env.tx.gasLimit * EffectiveGasPrice(env))
            && env.tx.caller in js.state && js.state[env.tx.caller].touched
            && env.tx.value <= js.state[env.tx.caller].info.balance
            && var nonce := Fetch(db, env.tx.caller).value.info.nonce;
               js.state[env.tx.caller].info.nonce
               == if env.tx.to.ToCall? && nonce < U64_MAX then nonce + 1 else nonce
  {
    var js0 := Preload(env, db, numOfPrecompiles).0;
    PreloadStored(env, db, numOfPrecompiles);
    PreloadValidated(env, db, numOfPrecompiles);
    ChargedExactly(env, db, js0);
  }

  lemma ChargedExactly(env: Env, db: Database, js: ValidJState)
    requires env.tx.caller in js.state && AsStored(db, js.state)
    requires ValidateTxAgainstState(env, js.state[env.tx.caller]).None?
    ensures var js1 := ChargeCaller(env, js);
            && env.tx.caller in js1.state
            && Prepaid(db, map[], js1.state, env.tx.caller, env.tx.gasLimit * EffectiveGasPrice(env))
            && env.tx.value <= js1.state[env.tx.caller].info.balance
  {
    MulMonotone(env.tx.gasLimit, EffectiveGasPrice(env), env.tx.gasPrice);
    ProductNonNegative(env.tx.gasLimit, EffectiveGasPrice(env));
  }

  // ---------------------------------------------------------------- gas of the result

  /** The part of the gas used that the refund may make up. */
  function RefundQuotient(env: Env): nat {
    if env.cfg.specId >= 12 then 5 else 2
  }

  /** Gas the frame leaves for the caller: what its meter shows, if it ended well or reverted. */
  function GasLeft(exit: InstructionResult, ret: Meter): U64 {
    if exit.IsOk() || exit.IsRevert() then ret.Remaining() else 0
  }

  /** The settled meter holds what the frame left and, if it ended well, its refunds. */
  lemma SettledMeter(env: Env, exit: InstructionResult, ret: Meter)
    requires env.cfg.useGas && env.tx.initialGas <= env.tx.gasLimit
    requires Metered(ret, env.tx.gasLimit - env.tx.initialGas)
    ensures var gas := SettleGas(env, exit, ret);
            && gas.Remaining() == GasLeft(exit, ret) && gas.allUsedGas == env.tx.gasLimit - GasLeft(exit, ret)
            && gas.refunded == if exit.IsOk() then ret.refunded else 0
  {
  }

  // ---------------------------------------------------------------- payments after the frame

  /** From `s` to `t`, `back` came to `caller` and `fee` to `coinbase`. */
  ghost predicate Rewarded(db: Database, s: State, t: State, caller: Address, back: int, coinbase: Address, fee: int) {
    forall x: Address ::
      BalanceOf(db, t, x)
      == BalanceOf(db, s, x) + (if x == caller then back else 0) + (if x == coinbase then fee else 0)
  }

  /** A credit within the supply bound arrives in full. */
  lemma CreditArrives(db: Database, s: State, a: Address, amount: nat, touch: bool)
    requires a in s && TotalSupply(db, s) + amount < TWO_256
    ensures SaturatingAdd(s[a].info.balance, amount) == s[a].info.balance + amount
    ensures Rewarded(db, s, s[a := WithBalance(s[a], s[a].info.balance + amount).(touched := touch)], a, amount, a, 0)
  {
    BalanceWithinSupply(db, s, a);
  }

  lemma RewardedTwice(db: Database, s: State, s1: State, s2: State, t: State, caller: Address, back: int,
                      coinbase: Address, fee: int)
    requires Rewarded(db, s, s1, caller, back, caller, 0) && SameBalances(db, s1, s2)
    requires Rewarded(db, s2, t, coinbase, fee, coinbase, 0)
    ensures Rewarded(db, s, t, caller, back, coinbase, fee)
  {
  }

  lemma PayFeesPays(env: Env, db: Database, js: ValidJState, gas: Meter, back: nat, fee: nat)
    requires env.tx.caller in js.state
    requires Reimbursement(env, gas) == back && Reward(env, gas) == fee
    requires TotalSupply(db, js.state) + back + fee < TWO_256
    requires PayFees(env, db, js, gas).Some?
    ensures var s := PayFees(env, db, js, gas).value.state;
            && Rewarded(db, js.state, s, env.tx.caller, back, env.block.coinbase, fee)
            && env.block.coinbase in s && s[env.block.coinbase].touched
  {
    var caller := js.state[env.tx.caller];
    CreditArrives(db, js.state, env.tx.caller, back, caller.touched);
    var js1 := PutAccount(js, env.tx.caller, WithBalance(caller, caller.info.balance + back));
    var js2 := LoadAccount(js1, db, env.block.coinbase).0;
    LoadAnswers(js1, db, env.block.coinbase);
    CreditSupply(db, js, env.tx.caller, back, caller.touched);
    SameSupply(db, js1.state, js2.state);
    CreditArrives(db, js2.state, env.block.coinbase, fee, true);
    RewardedTwice(db, js.state, js1.state, js2.state, PayFees(env, db, js, gas).value.state, env.tx.caller, back,
                  env.block.coinbase, fee);
  }

  /** The price of a unit of gas that reaches the coinbase. */
  function TipOf(env: Env, price: U256): int {
    price - if env.cfg.specId >= 12 then env.block.basefee else 0
  }

  /** The price a transaction pays for a unit of gas. */
  function PriceOf(tx: TxEnv, block: BlockEnv): U256 {
    match tx.gasPriorityFee
    case None => tx.gasPrice
    case Some(tip) => Min(tx.gasPrice, (block.basefee + tip) % TWO_256)
  }

  lemma PriceIs(env: Env)
    requires ValidateTx(env).None?
    ensures EffectiveGasPrice(env) == PriceOf(env.tx, env.block)
    ensures CoinbaseGasPrice(env) == TipOf(env, PriceOf(env.tx, env.block))
    ensures 0 <= TipOf(env, PriceOf(env.tx, env.block)) <= PriceOf(env.tx, env.block) <= env.tx.gasPrice
  {
  }

  /**
    The numbers of a result: gas used and refunded make up what the frame did not
    leave, and what is refunded are the frame's refunds, up to the quotient, if it
    ended well.
   */
  ghost predicate GasReported(env: Env, exit: InstructionResult, ret: Meter, gasUsed: U64, gasRefunded: U64) {
    var spent := env.tx.gasLimit - GasLeft(exit, ret);
    && gasUsed + gasRefunded == spent
    && gasRefunded == if exit.IsOk() then Min(AsU64(ret.refunded), spent / RefundQuotient(env)) else 0
  }

  /** What the caller gets back for the gas it did not use and the coinbase for the gas that was used. */
  ghost predicate FeesPaid(env: Env, db: Database, s: State, t: State, gasUsed: U64) {
    var price := PriceOf(env.tx, env.block);
    && Rewarded(db, s, t, env.tx.caller, price * (env.tx.gasLimit - gasUsed), env.block.coinbase,
                TipOf(env, price) * gasUsed)
    && env.block.coinbase in t && t[env.block.coinbase].touched
  }

  lemma FinalizeReports(env: Env, db: Database, js: ValidJState, exit: InstructionResult, ret: Meter)
    requires env.cfg.useGas && env.tx.initialGas <= env.tx.gasLimit
    requires Metered(ret, env.tx.gasLimit - env.tx.initialGas)
    requires Finalize(env, db, js, SettleGas(env, exit, ret)).Some?
    ensures var gas := SettleGas(env, exit, ret);
            var (js', gasUsed, gasRefunded) := Finalize(env, db, js, gas).value;
            && GasReported(env, exit, ret, gasUsed, gasRefunded)
            && PayFees(env, db, js, gas) == Some(js')
            && gasRefunded == MaxRefund(env, gas) && gasUsed == gas.allUsedGas - gasRefunded
  {
    var gas := SettleGas(env, exit, ret);
    SettledMeter(env, exit, ret);
    SettleGasFacts(env, exit, ret);
    MaxRefundBound(env, gas);
    FinalizePays(env, db, js, gas);
  }

  lemma FinalizeIsPaid(env: Env, db: Database, js: ValidJState, gas: Meter, js': ValidJState, gasUsed: nat)
    requires env.tx.caller in js.state && ValidateTx(env).None?
    requires gas.Balanced() && gas.limit == env.tx.gasLimit
    requires 0 <= env.tx.gasLimit * EffectiveGasPrice(env)
    requires TotalSupply(db, js.state) + env.tx.gasLimit * EffectiveGasPrice(env) < TWO_256
    requires PayFees(env, db, js, gas) == Some(js') && gasUsed == gas.allUsedGas - MaxRefund(env, gas)
    ensures FeesPaid(env, db, js.state, js'.state, gasUsed)
  {
    var refunded := MaxRefund(env, gas);
    MaxRefundBound(env, gas);
    PriceIs(env);
    var back := EffectiveGasPrice(env) * (gas.Remaining() + refunded);
    var fee := CoinbaseGasPrice(env) * (gas.allUsedGas - refunded);
    FeesAddUp(env, gas, refunded, back, fee);
    PaymentsExact(env, gas, refunded, back, fee);
    PayFeesPays(env, db, js, gas, back, fee);
    assert gas.Remaining() + refunded == env.tx.gasLimit - gasUsed;
  }

  lemma FinalizeUnmeasured(env: Env, db: Database, js: ValidJState, gas: Meter)
    requires !env.cfg.useGas
    ensures var r := Finalize(env, db, js, gas);
            && r.Some? && r.value.1 == 0 && r.value.2 == 0
            && SameBalances(db, js.state, r.value.0.state)
  {
    var js1 := LoadAccount(js, db, env.block.coinbase).0;
    LoadAnswers(js, db, env.block.coinbase);
    TouchKeepsBalances(db, js1, env.block.coinbase);
    SameBalancesTrans(db, js.state, js1.state, Touch(js1, env.block.coinbase).state);
  }

  // ---------------------------------------------------------------- whole transactions

  /** `done` reports the gas of the frame that ended as `ran`, and its state has the fees paid. */
  ghost predicate Finished(env: Env, db: Database, ran: Outcome, done: TxOutcome)
    requires done.TxDone?
  {
    if env.cfg.useGas then
      && GasReported(env, ran.result, ran.gas, done.gasUsed, done.gasRefunded)
      && FeesPaid(env, db, ran.js.state, done.state, done.gasUsed)
    else
      done.gasUsed == 0 && done.gasRefunded == 0 && SameBalances(db, ran.js.state, done.state)
  }

  lemma FrameIsFinished(env: Env, db: Database, numOfPrecompiles: nat, callee: Callee, ran: Outcome)
    requires Transact(env, db, numOfPrecompiles, callee).Some?
             && Transact(env, db, numOfPrecompiles, callee).value.TxDone?
    requires TotalSupply(db, map[]) < TWO_256 && Accepted(env, db, numOfPrecompiles)
    requires RunTransaction(env, db, Entered(env, db, numOfPrecompiles), callee) == Some(ran)
    requires Metered(ran.gas, env.tx.gasLimit - env.tx.initialGas)
    ensures Finished(env, db, ran, Transact(env, db, numOfPrecompiles, callee).value)
  {
    var js := Entered(env, db, numOfPrecompiles);
    var ran0 := DoneParts(env, db, numOfPrecompiles, callee);
    EnteredSupply(env, db, numOfPrecompiles);
    RunTransactionRuns(env, db, js, callee);
    var gas := SettleGas(env, ran.result, ran.gas);
    if env.cfg.useGas {
      FinalizeReports(env, db, ran.js, ran.result, ran.gas);
      SettleGasFacts(env, ran.result, ran.gas);
      var final := Finalize(env, db, ran.js, gas).value;
      FinalizeIsPaid(env, db, ran.js, gas, final.0, final.1);
    } else {
      FinalizeUnmeasured(env, db, ran.js, gas);
    }
  }

  /**
    Who is paid in a transaction. The caller has prepaid the gas limit when the
    frame is entered. When it is done, the caller has back the price of all gas
    that was not used, the coinbase has the price less the burnt base fee of all
    gas that was, and no other balance differs from what the frame left, whether
    caller and coinbase are one or two.
   */
  lemma FeesArePaid(env: Env, db: Database, numOfPrecompiles: nat, callee: Callee)
    requires Transact(env, db, numOfPrecompiles, callee).Some?
             && Transact(env, db, numOfPrecompiles, callee).value.TxDone?
    requires TotalSupply(db, map[]) < TWO_256
    requires env.tx.initialGas <= env.tx.gasLimit ==> Metered(callee.gas, env.tx.gasLimit - env.tx.initialGas)
    ensures Accepted(env, db, numOfPrecompiles)
    ensures var done := Transact(env, db, numOfPrecompiles, callee).value;
            var js := Entered(env, db, numOfPrecompiles);
            var ran := RunTransaction(env, db, js, callee);
            && Prepaid(db, map[], js.state, env.tx.caller, env.tx.gasLimit * PriceOf(env.tx, env.block))
            && ran.Some? && done.exit == ran.value.result && done.logs == ran.value.js.logs
            && Finished(env, db, ran.value, done)
  {
    var ran := DoneParts(env, db, numOfPrecompiles, callee);
    var js := Entered(env, db, numOfPrecompiles);
    EnteredSupply(env, db, numOfPrecompiles);
    EnteredPrepaid(env, db, numOfPrecompiles);
    PriceIs(env);
    RunTransactionTracked(env, db, js, callee);
    FrameIsFinished(env, db, numOfPrecompiles, callee, ran);
    DoneExit(env, db, numOfPrecompiles, callee, ran);
  }

  lemma DoneExit(env: Env, db: Database, numOfPrecompiles: nat, callee: Callee, ran: Outcome)
    requires Transact(env, db, numOfPrecompiles, callee).Some?
             && Transact(env, db, numOfPrecompiles, callee).value.TxDone?
    requires Accepted(env, db, numOfPrecompiles)
    requires RunTransaction(env, db, Entered(env, db, numOfPrecompiles), callee) == Some(ran)
    ensures Transact(env, db, numOfPrecompiles, callee).value.exit == ran.result
    ensures Transact(env, db, numOfPrecompiles, callee).value.logs == ran.js.logs
    ensures !ran.result.IsFatal()
  {
    AcceptedRuns(env, db, numOfPrecompiles, callee);
    SettledExit(env, db, ran, TransactionRecords(env, db, Entered(env, db, numOfPrecompiles), callee));
  }

  lemma SettledExit(env: Env, db: Database, ran: Outcome, recorded: bool)
    requires Settle(env, db, ran, recorded).Some? && Settle(env, db, ran, recorded).value.TxDone?
    ensures var done := Settle(env, db, ran, recorded).value;
            done.exit == ran.result && done.logs == ran.js.logs && !ran.result.IsFatal()
  {
    FinalizeKeepsLogs(env, db, ran.js, SettleGas(env, ran.result, ran.gas));
  }

  lemma FinalizeKeepsLogs(env: Env, db: Database, js: ValidJState, gas: Meter)
    requires Finalize(env, db, js, gas).Some?
    ensures Finalize(env, db, js, gas).value.0.logs == js.logs
  {
  }

  // ---------------------------------------------------------------- what a transaction takes in all

  /** Of the sender's balance a finished transaction took the price of the gas used and, if it was sent, the value. */
  ghost predicate PaidInFull(env: Env, db: Database, t: State, to: Address, made: bool, gasUsed: nat) {
    var price := PriceOf(env.tx, env.block);
    forall x: Address ::
      BalanceOf(db, t, x)
      == BalanceOf(db, map[], x)
         - (if x == env.tx.caller then (if made then env.tx.value else 0) + price * gasUsed else 0)
         + (if made && x == to then env.tx.value else 0)
         + (if x == env.block.coinbase then TipOf(env, price) * gasUsed else 0)
  }

  lemma SettlesInFull(env: Env, db: Database, s: State, t: State, u: State, to: Address, made: bool, gasUsed: U64)
    requires gasUsed <= env.tx.gasLimit
    requires Prepaid(db, map[], s, env.tx.caller, env.tx.gasLimit * PriceOf(env.tx, env.block))
    requires Settled(db, s, t, env.tx.caller, to, env.tx.value, made)
    requires FeesPaid(env, db, t, u, gasUsed)
    ensures PaidInFull(env, db, u, to, made, gasUsed)
  {
    var price := PriceOf(env.tx, env.block);
    SettledInAll(db, map[], s, t, u, env.tx.caller, to, env.block.coinbase, env.tx.gasLimit * price, env.tx.value,
                 made, price * (env.tx.gasLimit - gasUsed), TipOf(env, price) * gasUsed);
    PrepaidLess(price, env.tx.gasLimit, gasUsed);
  }

  lemma SettledInAll(db: Database, s: State, t: State, u: State, v: State, caller: Address, to: Address,
                     coinbase: Address, paid: int, value: U256, made: bool, back: int, fee: int)
    requires Prepaid(db, s, t, caller, paid) && Settled(db, t, u, caller, to, value, made)
    requires Rewarded(db, u, v, caller, back, coinbase, fee)
    ensures forall x: Address ::
              BalanceOf(db, v, x)
              == BalanceOf(db, s, x) - (if x == caller then (if made then value else 0) + paid - back else 0)
                 + (if made && x == to then value else 0) + (if x == coinbase then fee else 0)
  {
  }

  lemma PrepaidLess(price: nat, limit: nat, used: nat)
    ensures limit * price - price * (limit - used) == price * used
  {
  }

  // ---------------------------------------------------------------- plain payments

  /** The frame of a payment to an address without code, in an accepted transaction. */
  lemma PaymentFrame(env: Env, db: Database, numOfPrecompiles: nat, callee: Callee)
    requires Accepted(env, db, numOfPrecompiles) && TotalSupply(db, map[]) < TWO_256
    requires env.tx.to.ToCall? && !callee.hasCode && !IsPrecompile(env.tx.to.address, numOfPrecompiles)
    ensures var js := Entered(env, db, numOfPrecompiles);
            var r := RunTransaction(env, db, js, callee);
            && r.Some? && r.value.result in {Stop, FatalExternalError}
            && r.value.gas == NewMeter(env.tx.gasLimit - env.tx.initialGas)
            && Settled(db, js.state, r.value.js.state, env.tx.caller, env.tx.to.address, env.tx.value,
                       r.value.result == Stop)
  {
    EnteredSupply(env, db, numOfPrecompiles);
    EnteredPrepaid(env, db, numOfPrecompiles);
    PaymentEnd(env, db, Entered(env, db, numOfPrecompiles));
    CodelessCallPays(env.cfg, db, Entered(env, db, numOfPrecompiles), TransactionCall(env), callee);
  }

  lemma PaymentEnd(env: Env, db: Database, js: ValidJState)
    requires env.tx.to.ToCall? && env.tx.initialGas <= env.tx.gasLimit && js.depth == 0
    requires env.tx.caller in js.state && env.tx.value <= js.state[env.tx.caller].info.balance
    ensures CodelessEnd(db, js, TransactionCall(env)) in {Stop, FatalExternalError}
  {
  }

  /**
    A transaction that pays an address without code and gets done: it stops, it
    uses its intrinsic gas, and of all balances the database holds exactly three
    may change: the payer's by the value and the price of that gas, the payee's
    by the value, the coinbase's by the price less the burnt base fee.
   */
  lemma PaymentTransaction(env: Env, db: Database, numOfPrecompiles: nat, callee: Callee)
    requires Transact(env, db, numOfPrecompiles, callee).Some?
             && Transact(env, db, numOfPrecompiles, callee).value.TxDone?
    requires env.cfg.useGas && TotalSupply(db, map[]) < TWO_256
    requires env.tx.to.ToCall? && !callee.hasCode && !IsPrecompile(env.tx.to.address, numOfPrecompiles)
    ensures var done := Transact(env, db, numOfPrecompiles, callee).value;
            && done.exit == Stop && done.gasUsed == env.tx.initialGas && done.gasRefunded == 0
            && PaidInFull(env, db, done.state, env.tx.to.address, true, env.tx.initialGas)
  {
    var done := Transact(env, db, numOfPrecompiles, callee).value;
    var ran := DoneParts(env, db, numOfPrecompiles, callee);
    var js := Entered(env, db, numOfPrecompiles);
    PaymentFrame(env, db, numOfPrecompiles, callee);
    DoneExit(env, db, numOfPrecompiles, callee, ran);
    FrameIsFinished(env, db, numOfPrecompiles, callee, ran);
    EnteredPrepaid(env, db, numOfPrecompiles);
    PriceIs(env);
    PaymentReported(env, ran, done);
    SettlesInFull(env, db, js.state, ran.js.state, done.state, env.tx.to.address, true, done.gasUsed);
  }

  lemma PaymentReported(env: Env, ran: Outcome, done: TxOutcome)
    requires done.TxDone? && env.tx.initialGas <= env.tx.gasLimit
    requires ran.result == Stop && ran.gas == NewMeter(env.tx.gasLimit - env.tx.initialGas)
    requires GasReported(env, ran.result, ran.gas, done.gasUsed, done.gasRefunded)
    ensures done.gasUsed == env.tx.initialGas && done.gasRefunded == 0
  {
  }

  // ---------------------------------------------------------------- creations

  /** What the frame of a creation is asked for. */
  function CreationOf(tx: TxEnv): CreateInputs
    requires tx.to.ToCreate? && tx.initialGas <= tx.gasLimit
  {
    CreateInputs(tx.caller, tx.to.created, tx.value, tx.gasLimit - tx.initialGas)
  }

  /**
    A transaction that creates a contract by init code that performs nothing, once
    done: it ended as `Payments.IdleCreateEnd` says, the created account was paid
    exactly if it was not refused and ended well, and no balance differs from the
    database's but by that, the price of the gas used, and the coinbase's part of it.
   */
  lemma CreationTransaction(env: Env, db: Database, numOfPrecompiles: nat, callee: Callee)
    requires Transact(env, db, numOfPrecompiles, callee).Some?
             && Transact(env, db, numOfPrecompiles, callee).value.TxDone?
    requires env.cfg.useGas && TotalSupply(db, map[]) < TWO_256
    requires env.tx.to.ToCreate? && callee.body == []
    requires env.tx.initialGas <= env.tx.gasLimit ==> Metered(callee.gas, env.tx.gasLimit - env.tx.initialGas)
    ensures Accepted(env, db, numOfPrecompiles)
    ensures var done, js := Transact(env, db, numOfPrecompiles, callee).value, Entered(env, db, numOfPrecompiles);
            var made := CreateRefusal(db, js, CreationOf(env.tx)).None? && done.exit.IsOk();
            && done.exit == IdleCreateEnd(env.cfg, db, js, CreationOf(env.tx), callee).result
            && done.gasUsed <= env.tx.gasLimit
            && PaidInFull(env, db, done.state, env.tx.to.created, made, done.gasUsed)
  {
    FeesArePaid(env, db, numOfPrecompiles, callee);
    EnteredSupply(env, db, numOfPrecompiles);
    var js := Entered(env, db, numOfPrecompiles);
    CreationFrame(env, db, js, callee);
    var ran := RunTransaction(env, db, js, callee).value;
    var done := Transact(env, db, numOfPrecompiles, callee).value;
    var made := CreateRefusal(db, js, CreationOf(env.tx)).None? && done.exit.IsOk();
    CreationReported(env, ran, done);
    SettlesInFull(env, db, js.state, ran.js.state, done.state, env.tx.to.created, made, done.gasUsed);
  }

  lemma CreationReported(env: Env, ran: Outcome, done: TxOutcome)
    requires done.TxDone? && GasReported(env, ran.result, ran.gas, done.gasUsed, done.gasRefunded)
    ensures done.gasUsed <= env.tx.gasLimit
  {
  }

  lemma CreationIs(env: Env)
    requires env.tx.to.ToCreate? && env.tx.initialGas <= env.tx.gasLimit
    ensures TransactionCreate(env) == CreationOf(env.tx)
  {
  }

  lemma CreationFrame(env: Env, db: Database, js: ValidJState, callee: Callee)
    requires env.tx.to.ToCreate? && env.tx.initialGas <= env.tx.gasLimit
    requires TotalSupply(db, js.state) < TWO_256 && callee.body == []
    ensures var inputs := CreationOf(env.tx);
            var r, end := RunTransaction(env, db, js, callee), IdleCreateEnd(env.cfg, db, js, inputs, callee);
            && r.Some? && r.value.result == end.result
            && Settled(db, js.state, r.value.js.state, env.tx.caller, env.tx.to.created, env.tx.value,
                       CreateRefusal(db, js, inputs).None? && end.result.IsOk())
  {
    CreationIs(env);
    IdleCreatePays(env.cfg, db, js, TransactionCreate(env), callee);
  }
}
