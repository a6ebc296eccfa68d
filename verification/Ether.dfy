/**
  Where the ether of a transaction goes. The gas prepayment is split between the
  caller, the coinbase and, from London on, the burnt base fee; everything else
  a transaction does moves ether or destroys it by a selfdestruct to itself.
 */
module Ether {
  import opened Words
  import opened Accounts
  import opened InstructionResults
  import opened GasMeter
  import opened Journal
  import opened Supply
  import opened Tracking
  import opened Evm
  import opened DatabaseErrors
  import opened EvmRuns
  import opened Transaction

  // ---------------------------------------------------------------- gas of a frame

  /** The callee's interpreter was started with `gasLimit` and its meter balances. */
  ghost predicate Metered(gas: Meter, gasLimit: U64) {
    gas.limit == gasLimit && gas.Balanced()
  }

  lemma CallPrecompileMetered(cfg: Config, gasLimit: U64, outcome: PrecompileOutcome)
    ensures Metered(CallPrecompile(cfg, NewMeter(gasLimit), outcome).1, gasLimit)
  {
  }

  lemma FinishCallMetered(cfg: Config, db: Database, js: ValidJState, error: Option<InstructionResult>,
                          cp: JournalCheckpoint, inputs: CallInputs, callee: Callee)
    requires Metered(callee.gas, inputs.gasLimit)
    requires FinishCall(cfg, db, js, error, cp, inputs, callee).Some?
    ensures Metered(FinishCall(cfg, db, js, error, cp, inputs, callee).value.gas, inputs.gasLimit)
  {
    CallPrecompileMetered(cfg, inputs.gasLimit, callee.precompile);
  }

  lemma CallMetered(cfg: Config, db: Database, js: ValidJState, inputs: CallInputs, callee: Callee)
    requires Metered(callee.gas, inputs.gasLimit)
    requires CallInner(cfg, db, js, inputs, callee).Some?
    ensures Metered(CallInner(cfg, db, js, inputs, callee).value.gas, inputs.gasLimit)
  {
    var (js1, loaded) := LoadCode(js, db, inputs.contract);
    if loaded.DbOk? && js1.depth <= CALL_STACK_LIMIT {
      var (cp, js2) := Checkpoint(js1);
      var (js3, error) := EnterCall(db, js2, inputs);
      FinishCallMetered(cfg, db, js3, error, cp, inputs, callee);
    }
  }

  lemma DeploymentMetered(cfg: Config, callee: Callee, gasLimit: U64)
    requires Metered(callee.gas, gasLimit)
    ensures Metered(Deployment(cfg, callee).1, gasLimit)
  {
  }

  lemma FinishCreateMetered(cfg: Config, js: ValidJState, cp: JournalCheckpoint, inputs: CreateInputs, callee: Callee)
    requires Metered(callee.gas, inputs.gasLimit)
    requires FinishCreate(cfg, js, cp, inputs, callee).Some?
    ensures Metered(FinishCreate(cfg, js, cp, inputs, callee).value.gas, inputs.gasLimit)
  {
    DeploymentMetered(cfg, callee, inputs.gasLimit);
  }

  lemma CreateMetered(cfg: Config, db: Database, js: ValidJState, inputs: CreateInputs, callee: Callee)
    requires Metered(callee.gas, inputs.gasLimit)
    requires CreateInner(cfg, db, js, inputs, callee).Some?
    ensures Metered(CreateInner(cfg, db, js, inputs, callee).value.gas, inputs.gasLimit)
  {
    var (js1, refused) := PrepareCreate(db, js, inputs);
    if refused.None? {
      var (cp, js2) := Checkpoint(js1);
      var (js3, error) := CreateAccount(js2, cfg.Enabled(SPURIOUS_DRAGON), inputs.caller, inputs.created, inputs.value);
      if error.None? {
        var js4 := RunOps(cfg, db, js3, inputs.created, callee.body).value;
        FinishCreateMetered(cfg, js4, cp, inputs, callee);
      }
    }
  }

  // ---------------------------------------------------------------- before the run

  lemma InitialLoadSupply(js: ValidJState, db: Database, a: Address, slots: seq<U256>)
    ensures TotalSupply(db, InitialAccountLoad(js, db, a, slots).0.state) == TotalSupply(db, js.state)
  {
    SameSupply(db, js.state, InitialAccountLoad(js, db, a, slots).0.state);
  }

  lemma {:induction false} AccessListSupply(js: ValidJState, db: Database, list: seq<(Address, seq<U256>)>)
    ensures TotalSupply(db, LoadAccessList(js, db, list).0.state) == TotalSupply(db, js.state)
    decreases |list|
  {
    if list != [] {
      InitialLoadSupply(js, db, list[0].0, list[0].1);
      AccessListSupply(InitialAccountLoad(js, db, list[0].0, list[0].1).0, db, list[1..]);
    }
  }

  lemma PreloadSupply(env: Env, db: Database, numOfPrecompiles: nat)
    requires Preload(env, db, numOfPrecompiles).1.None?
    ensures TotalSupply(db, Preload(env, db, numOfPrecompiles).0.state) == TotalSupply(db, map[])
  {
    var js0 := if env.cfg.Enabled(SPURIOUS_DRAGON) then New(numOfPrecompiles) else NewLegacy(numOfPrecompiles);
    var js1 := if env.cfg.Enabled(SHANGHAI) then InitialAccountLoad(js0, db, env.block.coinbase, []).0 else js0;
    var js2 := LoadAccessList(js1, db, env.tx.accessList).0;
    InitialLoadSupply(js0, db, env.block.coinbase, []);
    AccessListSupply(js1, db, env.tx.accessList);
    SameSupply(db, js2.state, LoadAccount(js2, db, env.tx.caller).0.state);
  }

  lemma MulMonotone(a: nat, b: nat, c: nat)
    requires b <= c
    ensures a * b <= a * c && b * a <= c * a
  {
  }

  /** The prepayment, which neither saturates nor takes the value to be sent. */
  lemma ChargeCallerSupply(env: Env, db: Database, js: ValidJState)
    requires env.tx.caller in js.state
    requires ValidateTxAgainstState(env, js.state[env.tx.caller]).None?
    ensures 0 <= env.tx.gasLimit * EffectiveGasPrice(env) < TWO_256
    ensures TotalSupply(db, ChargeCaller(env, js).state)
            == TotalSupply(db, js.state) - env.tx.gasLimit * EffectiveGasPrice(env)
  {
    MulMonotone(env.tx.gasLimit, EffectiveGasPrice(env), env.tx.gasPrice);
    ProductNonNegative(env.tx.gasLimit, EffectiveGasPrice(env));
    SupplyAfterOne(db, js.state, ChargeCaller(env, js).state, env.tx.caller);
  }

  // ---------------------------------------------------------------- the run

  ghost predicate GoodOutcome(db: Database, js: ValidJState, r: Option<Outcome>, gasLimit: U64) {
    r.Some? && Tracked(db, js, r.value.js) && Metered(r.value.gas, gasLimit)
  }

  lemma TopCall(cfg: Config, db: Database, js: ValidJState, inputs: CallInputs, callee: Callee)
    requires inputs.contextAddress == inputs.target && TotalSupply(db, js.state) < TWO_256
    requires Metered(callee.gas, inputs.gasLimit)
    ensures GoodOutcome(db, js, CallInner(cfg, db, js, inputs, callee), inputs.gasLimit)
  {
    CallInnerTracked(cfg, db, js, inputs, callee);
    CallMetered(cfg, db, js, inputs, callee);
  }

  lemma TopCreate(cfg: Config, db: Database, js: ValidJState, inputs: CreateInputs, callee: Callee)
    requires TotalSupply(db, js.state) < TWO_256
    requires Metered(callee.gas, inputs.gasLimit)
    ensures GoodOutcome(db, js, CreateInner(cfg, db, js, inputs, callee), inputs.gasLimit)
  {
    CreateInnerTracked(cfg, db, js, inputs, callee);
    CreateMetered(cfg, db, js, inputs, callee);
  }

  lemma RunTransactionRuns(env: Env, db: Database, js: ValidJState, callee: Callee)
    requires env.tx.initialGas <= env.tx.gasLimit && TotalSupply(db, js.state) < TWO_256
    ensures var r := RunTransaction(env, db, js, callee); r.Some? && Tracked(db, js, r.value.js)
  {
    if env.tx.to.ToCall? {
      CallInnerTracked(env.cfg, db, js, TransactionCall(env), callee);
    } else {
      CreateInnerTracked(env.cfg, db, js, TransactionCreate(env), callee);
    }
  }

  lemma RunTransactionTracked(env: Env, db: Database, js: ValidJState, callee: Callee)
    requires env.tx.initialGas <= env.tx.gasLimit
    requires TotalSupply(db, js.state) < TWO_256
    requires Metered(callee.gas, env.tx.gasLimit - env.tx.initialGas)
    ensures GoodOutcome(db, js, RunTransaction(env, db, js, callee), env.tx.gasLimit - env.tx.initialGas)
  {
    if env.tx.to.ToCall? {
      TopCall(env.cfg, db, js, TransactionCall(env), callee);
    } else {
      TopCreate(env.cfg, db, js, TransactionCreate(env), callee);
    }
  }

  // ---------------------------------------------------------------- after the run

  /** The settled meter: gas spent and gas remaining add up to the limit. */
  lemma SettleGasFacts(env: Env, exit: InstructionResult, ret: Meter)
    requires env.tx.initialGas <= env.tx.gasLimit && Metered(ret, env.tx.gasLimit - env.tx.initialGas)
    ensures var gas := SettleGas(env, exit, ret);
            && gas.limit == env.tx.gasLimit
            && gas.Balanced()
            && gas.allUsedGas + gas.Remaining() == env.tx.gasLimit
  {
  }

  lemma MaxRefundBound(env: Env, gas: Meter)
    requires gas.Balanced()
    ensures var q := if env.cfg.Enabled(LONDON) then 5 else 2;
            q * MaxRefund(env, gas) <= gas.allUsedGas && gas.Remaining() + MaxRefund(env, gas) <= gas.limit
  {
  }

  /** The two payments and the burnt base fee make up the prepayment. */
  lemma FeeSplit(price: nat, basefee: nat, limit: nat, spent: nat, refunded: nat)
    requires basefee <= price && refunded <= spent <= limit
    ensures price * (limit - spent + refunded) + (price - basefee) * (spent - refunded) + basefee * (spent - refunded)
            == price * limit
    ensures 0 <= price * (limit - spent + refunded) <= price * limit
    ensures 0 <= (price - basefee) * (spent - refunded) && 0 <= basefee * (spent - refunded)
  {
    var used := spent - refunded;
    assert (price - basefee) * used + basefee * used == price * used;
    assert price * (limit - used) + price * used == price * limit;
    ProductNonNegative(price, limit - used);
    ProductNonNegative(price - basefee, used);
    ProductNonNegative(basefee, used);
  }

  /** Base fee that leaves circulation. */
  function BurntBasefee(env: Env): U256 {
    if env.cfg.Enabled(LONDON) then env.block.basefee else 0
  }

  /** A credit within the bound does not saturate. */
  lemma CreditSupply(db: Database, js: ValidJState, a: Address, amount: nat, touch: bool)
    requires a in js.state && TotalSupply(db, js.state) + amount < TWO_256
    ensures var acc := js.state[a];
            && acc.info.balance + amount < TWO_256
            && TotalSupply(db, js.state[a := WithBalance(acc, acc.info.balance + amount).(touched := touch)])
               == TotalSupply(db, js.state) + amount
  {
    BalanceWithinSupply(db, js.state, a);
    var acc := js.state[a];
    SupplyAfterOne(db, js.state, js.state[a := WithBalance(acc, acc.info.balance + amount).(touched := touch)], a);
  }

  lemma WrappingMulExact(a: U256, b: U256)
    requires 0 <= a * b < TWO_256
    ensures WrappingMul(a, b) == a * b
  {
  }

  /** The two payments in exact arithmetic. */
  lemma PayFeesExact(env: Env, db: Database, js: ValidJState, gas: Meter, back: nat, fee: nat)
    requires env.tx.caller in js.state
    requires Reimbursement(env, gas) == back && Reward(env, gas) == fee
    requires TotalSupply(db, js.state) + back + fee < TWO_256
    requires PayFees(env, db, js, gas).Some?
    ensures TotalSupply(db, PayFees(env, db, js, gas).value.state) == TotalSupply(db, js.state) + back + fee
  {
    var caller := js.state[env.tx.caller];
    CreditSupply(db, js, env.tx.caller, back, caller.touched);
    var js1 := PutAccount(js, env.tx.caller, WithBalance(caller, caller.info.balance + back));
    var js2 := LoadAccount(js1, db, env.block.coinbase).0;
    SameSupply(db, js1.state, js2.state);
    CreditSupply(db, js2, env.block.coinbase, fee, true);
  }

  lemma PayFeesSupply(env: Env, db: Database, js: ValidJState, gas: Meter)
    requires env.tx.caller in js.state
    requires gas.Balanced() && gas.limit == env.tx.gasLimit
    requires ValidateTx(env).None?
    requires TotalSupply(db, js.state) + env.tx.gasLimit * EffectiveGasPrice(env) < TWO_256
    requires PayFees(env, db, js, gas).Some?
    ensures var gasUsed := gas.allUsedGas - MaxRefund(env, gas);
            TotalSupply(db, PayFees(env, db, js, gas).value.state) + BurntBasefee(env) * gasUsed
            == TotalSupply(db, js.state) + env.tx.gasLimit * EffectiveGasPrice(env)
  {
    var refunded := MaxRefund(env, gas);
    MaxRefundBound(env, gas);
    var back := EffectiveGasPrice(env) * (gas.Remaining() + refunded);
    var fee := CoinbaseGasPrice(env) * (gas.allUsedGas - refunded);
    FeesAddUp(env, gas, refunded, back, fee);
    PaymentsExact(env, gas, refunded, back, fee);
    PayFeesExact(env, db, js, gas, back, fee);
  }

  lemma FeesAddUp(env: Env, gas: Meter, refunded: nat, back: int, fee: int)
    requires gas.Balanced() && gas.limit == env.tx.gasLimit && ValidateTx(env).None?
    requires refunded <= gas.allUsedGas && gas.Remaining() + refunded <= gas.limit
    requires back == EffectiveGasPrice(env) * (gas.Remaining() + refunded)
    requires fee == CoinbaseGasPrice(env) * (gas.allUsedGas - refunded)
    ensures 0 <= back && 0 <= fee && 0 <= BurntBasefee(env) * (gas.allUsedGas - refunded)
    ensures back + fee + BurntBasefee(env) * (gas.allUsedGas - refunded) == env.tx.gasLimit * EffectiveGasPrice(env)
  {
    assert CoinbaseGasPrice(env) == EffectiveGasPrice(env) - BurntBasefee(env);
    FeeSplit(EffectiveGasPrice(env), BurntBasefee(env), env.tx.gasLimit, gas.allUsedGas, refunded);
    assert gas.limit - gas.allUsedGas + refunded == gas.Remaining() + refunded;
  }

  lemma PaymentsExact(env: Env, gas: Meter, refunded: nat, back: nat, fee: nat)
    requires refunded == MaxRefund(env, gas) <= gas.allUsedGas && gas.Remaining() + refunded < TWO_64
    requires back == EffectiveGasPrice(env) * (gas.Remaining() + refunded) < TWO_256
    requires fee == CoinbaseGasPrice(env) * (gas.allUsedGas - refunded) < TWO_256
    ensures Reimbursement(env, gas) == back && Reward(env, gas) == fee
  {
    WrappingMulExact(EffectiveGasPrice(env), gas.Remaining() + refunded);
    WrappingMulExact(CoinbaseGasPrice(env), gas.allUsedGas - refunded);
  }

  // ---------------------------------------------------------------- whole transactions

  /** The journaled state the frame of the transaction is entered with. */
  function Entered(env: Env, db: Database, numOfPrecompiles: nat): (r: ValidJState)
    requires Preload(env, db, numOfPrecompiles).1.None?
  {
    ChargeCaller(env, Preload(env, db, numOfPrecompiles).0)
  }

  /** Ether that committed selfdestruct-to-self entries of the run destroyed. */
  ghost function RunBurned(js: ValidJState, ran: Option<Outcome>): nat {
    if ran.Some? && Continues(js, ran.value.js) then Burned(NewEntries(js, ran.value.js)) else 0
  }

  /** Whether the transaction got as far as running its frame. */
  predicate Accepted(env: Env, db: Database, numOfPrecompiles: nat) {
    ValidateTx(env).None? && Preload(env, db, numOfPrecompiles).1.None?
  }

  lemma EnteredSupply(env: Env, db: Database, numOfPrecompiles: nat)
    requires Accepted(env, db, numOfPrecompiles)
    ensures TotalSupply(db, Entered(env, db, numOfPrecompiles).state) + env.tx.gasLimit * EffectiveGasPrice(env)
            == TotalSupply(db, map[])
    ensures env.tx.caller in Entered(env, db, numOfPrecompiles).state
    ensures 0 <= env.tx.gasLimit * EffectiveGasPrice(env)
  {
    var js0 := Preload(env, db, numOfPrecompiles).0;
    PreloadSupply(env, db, numOfPrecompiles);
    PreloadValidated(env, db, numOfPrecompiles);
    ChargeCallerSupply(env, db, js0);
  }

  lemma PreloadValidated(env: Env, db: Database, numOfPrecompiles: nat)
    requires Preload(env, db, numOfPrecompiles).1.None?
    ensures ValidateTxAgainstState(env, Preload(env, db, numOfPrecompiles).0.state[env.tx.caller]).None?
  {
  }

  lemma FinalizeSupply(env: Env, db: Database, js: ValidJState, gas: Meter)
    requires env.tx.caller in js.state
    requires gas.Balanced() && gas.limit == env.tx.gasLimit && ValidateTx(env).None?
    requires TotalSupply(db, js.state) + env.tx.gasLimit * EffectiveGasPrice(env) < TWO_256
    requires 0 <= env.tx.gasLimit * EffectiveGasPrice(env)
    requires Finalize(env, db, js, gas).Some?
    ensures var (js', gasUsed, gasRefunded) := Finalize(env, db, js, gas).value;
            if env.cfg.useGas then
              && TotalSupply(db, js'.state) + BurntBasefee(env) * gasUsed
                 == TotalSupply(db, js.state) + env.tx.gasLimit * EffectiveGasPrice(env)
              && gasUsed + gasRefunded + gas.Remaining() == env.tx.gasLimit
              && (if env.cfg.Enabled(LONDON) then 5 else 2) * gasRefunded <= gasUsed + gasRefunded
            else
              TotalSupply(db, js'.state) == TotalSupply(db, js.state)
  {
    if env.cfg.useGas {
      MaxRefundBound(env, gas);
      PayFeesSupply(env, db, js, gas);
      FinalizePays(env, db, js, gas);
    } else {
      FinalizeKeeps(env, db, js, gas);
    }
  }

  lemma FinalizePays(env: Env, db: Database, js: ValidJState, gas: Meter)
    requires env.cfg.useGas && Finalize(env, db, js, gas).Some? && MaxRefund(env, gas) <= gas.allUsedGas
    ensures PayFees(env, db, js, gas).Some?
    ensures var r := Finalize(env, db, js, gas).value;
            && r.0 == PayFees(env, db, js, gas).value && r.2 == MaxRefund(env, gas)
            && r.1 == gas.allUsedGas - MaxRefund(env, gas)
  {
  }

  lemma FinalizeKeeps(env: Env, db: Database, js: ValidJState, gas: Meter)
    requires !env.cfg.useGas
    ensures Finalize(env, db, js, gas).Some?
    ensures TotalSupply(db, Finalize(env, db, js, gas).value.0.state) == TotalSupply(db, js.state)
  {
    var js1 := LoadAccount(js, db, env.block.coinbase).0;
    SameSupply(db, js.state, js1.state);
    SameSupply(db, js1.state, Touch(js1, env.block.coinbase).state);
  }

  /** What a finished transaction was finished from. */
  lemma DoneParts(env: Env, db: Database, numOfPrecompiles: nat, callee: Callee) returns (ran: Outcome)
    requires Transact(env, db, numOfPrecompiles, callee).Some?
             && Transact(env, db, numOfPrecompiles, callee).value.TxDone?
    ensures Accepted(env, db, numOfPrecompiles)
    ensures RunTransaction(env, db, Entered(env, db, numOfPrecompiles), callee) == Some(ran)
    ensures var done := Transact(env, db, numOfPrecompiles, callee).value;
            var final := Finalize(env, db, ran.js, SettleGas(env, ran.result, ran.gas));
            && final.Some?
            && done.state == final.value.0.state && done.gasUsed == final.value.1 && done.gasRefunded == final.value.2
  {
    var js := Entered(env, db, numOfPrecompiles);
    AcceptedRuns(env, db, numOfPrecompiles, callee);
    ran := RunTransaction(env, db, js, callee).value;
    SettledParts(env, db, ran, TransactionRecords(env, db, js, callee));
  }

  lemma AcceptedRuns(env: Env, db: Database, numOfPrecompiles: nat, callee: Callee)
    requires Transact(env, db, numOfPrecompiles, callee).Some?
             && Transact(env, db, numOfPrecompiles, callee).value.TxDone?
    ensures Accepted(env, db, numOfPrecompiles)
    ensures var js := Entered(env, db, numOfPrecompiles);
            var ran := RunTransaction(env, db, js, callee);
            && ran.Some?
            && Transact(env, db, numOfPrecompiles, callee)
               == Settle(env, db, ran.value, TransactionRecords(env, db, js, callee))
  {
  }

  lemma SettledParts(env: Env, db: Database, ran: Outcome, recorded: bool)
    requires Settle(env, db, ran, recorded).Some? && Settle(env, db, ran, recorded).value.TxDone?
    ensures var done := Settle(env, db, ran, recorded).value;
            var final := Finalize(env, db, ran.js, SettleGas(env, ran.result, ran.gas));
            && final.Some?
            && done.state == final.value.0.state && done.gasUsed == final.value.1 && done.gasRefunded == final.value.2
  {
  }

  /**
    Conservation of ether over a whole transaction. With gas measured, only the
    base fee of the gas used (from London on) and self-destructed balances leave
    circulation, and the refund obeys its quotient. In a build without gas
    measuring the whole prepayment is lost, because nobody is paid back.
   */
  lemma EtherConserved(env: Env, db: Database, numOfPrecompiles: nat, callee: Callee)
    requires Transact(env, db, numOfPrecompiles, callee).Some?
             && Transact(env, db, numOfPrecompiles, callee).value.TxDone?
    requires TotalSupply(db, map[]) < TWO_256
    requires env.tx.initialGas <= env.tx.gasLimit ==> Metered(callee.gas, env.tx.gasLimit - env.tx.initialGas)
    ensures Accepted(env, db, numOfPrecompiles)
    ensures var done := Transact(env, db, numOfPrecompiles, callee).value;
            var js := Entered(env, db, numOfPrecompiles);
            var ran := RunTransaction(env, db, js, callee);
            var lost := if env.cfg.useGas then BurntBasefee(env) * done.gasUsed
                        else env.tx.gasLimit * EffectiveGasPrice(env);
            && TotalSupply(db, done.state) + RunBurned(js, ran) + lost == TotalSupply(db, map[])
            && (env.cfg.useGas ==>
                  && ran.Some?
                  && done.gasUsed + done.gasRefunded + SettleGas(env, ran.value.result, ran.value.gas).Remaining()
                    == env.tx.gasLimit
                  && (if env.cfg.Enabled(LONDON) then 5 else 2) * done.gasRefunded <= done.gasUsed + done.gasRefunded)
  {
    var ran := DoneParts(env, db, numOfPrecompiles, callee);
    var js := Entered(env, db, numOfPrecompiles);
    EnteredSupply(env, db, numOfPrecompiles);
    RunTransactionTracked(env, db, js, callee);
    SettleGasFacts(env, ran.result, ran.gas);
    FinalizeSupply(env, db, ran.js, SettleGas(env, ran.result, ran.gas));
  }

  lemma FinalizeGoesThrough(env: Env, db: Database, js: ValidJState, gas: Meter)
    requires env.tx.caller in js.state && (env.cfg.useGas ==> Fetch(db, env.block.coinbase).DbOk?)
    ensures Finalize(env, db, js, gas).Some?
  {
  }

  /** The parts of a transaction that could panic. */
  lemma TransactParts(env: Env, db: Database, numOfPrecompiles: nat, callee: Callee, ran: Outcome)
    requires Accepted(env, db, numOfPrecompiles)
    requires RunTransaction(env, db, Entered(env, db, numOfPrecompiles), callee) == Some(ran) && ran.result != Continue
    requires ran.result.IsFatal() ==> TransactionRecords(env, db, Entered(env, db, numOfPrecompiles), callee)
    requires Finalize(env, db, ran.js, SettleGas(env, ran.result, ran.gas)).Some?
    ensures Transact(env, db, numOfPrecompiles, callee).Some?
  {
  }

  /** Every interpreter of the transaction that ends fatally does so because its last operation failed. */
  predicate HonestTransaction(env: Env, db: Database, js: ValidJState, callee: Callee)
    requires env.tx.initialGas <= env.tx.gasLimit
  {
    if env.tx.to.ToCall? then HonestCall(env.cfg, db, js, TransactionCall(env), callee)
    else HonestCreate(env.cfg, db, js, TransactionCreate(env), callee)
  }

  /** A fatal frame of such a transaction has kept the error that `transact` reports. */
  lemma FatalIsRecorded(env: Env, db: Database, js: ValidJState, callee: Callee)
    requires env.tx.initialGas <= env.tx.gasLimit && env.tx.caller in js.state && TotalSupply(db, js.state) < TWO_256
    requires HonestTransaction(env, db, js, callee)
    requires RunTransaction(env, db, js, callee).Some? && RunTransaction(env, db, js, callee).value.result.IsFatal()
    ensures TransactionRecords(env, db, js, callee)
  {
    if env.tx.to.ToCall? {
      FatalCallIsRecorded(env.cfg, db, js, TransactionCall(env), callee);
    } else {
      FatalCreateIsRecorded(env.cfg, db, js, TransactionCreate(env), callee);
    }
  }

  /**
    An accepted transaction panics only if its interpreter stops while told to
    continue, one of its interpreters ends fatally without cause, or the coinbase cannot be read.
   */
  lemma TransactNeverPanics(env: Env, db: Database, numOfPrecompiles: nat, callee: Callee)
    requires TotalSupply(db, map[]) < TWO_256
    requires callee.exit != Continue
    requires Accepted(env, db, numOfPrecompiles)
             ==> HonestTransaction(env, db, Entered(env, db, numOfPrecompiles), callee)
    requires env.cfg.useGas ==> Fetch(db, env.block.coinbase).DbOk?
    ensures Transact(env, db, numOfPrecompiles, callee).Some?
  {
    if Accepted(env, db, numOfPrecompiles) {
      var js := Entered(env, db, numOfPrecompiles);
      EnteredSupply(env, db, numOfPrecompiles);
      RunTransactionRuns(env, db, js, callee);
      NeverContinues(env, db, js, callee);
      var ran := RunTransaction(env, db, js, callee).value;
      FinalizeGoesThrough(env, db, ran.js, SettleGas(env, ran.result, ran.gas));
      if ran.result.IsFatal() {
        FatalIsRecorded(env, db, js, callee);
      }
      TransactParts(env, db, numOfPrecompiles, callee, ran);
    }
  }

  lemma EnterCallErrors(db: Database, js: ValidJState, inputs: CallInputs)
    ensures EnterCall(db, js, inputs).1 != Some(Continue)
  {
  }

  lemma FinishCallNeverContinues(cfg: Config, db: Database, js: ValidJState, error: Option<InstructionResult>,
                                 cp: JournalCheckpoint, inputs: CallInputs, callee: Callee)
    requires FinishCall(cfg, db, js, error, cp, inputs, callee).Some? && callee.exit != Continue
             && error != Some(Continue)
    ensures FinishCall(cfg, db, js, error, cp, inputs, callee).value.result != Continue
  {
  }

  lemma CallNeverContinues(cfg: Config, db: Database, js: ValidJState, inputs: CallInputs, callee: Callee)
    requires CallInner(cfg, db, js, inputs, callee).Some? && callee.exit != Continue
    ensures CallInner(cfg, db, js, inputs, callee).value.result != Continue
  {
    var (js1, loaded) := LoadCode(js, db, inputs.contract);
    if loaded.DbOk? && js1.depth <= CALL_STACK_LIMIT {
      var (cp, js2) := Checkpoint(js1);
      var (js3, error) := EnterCall(db, js2, inputs);
      EnterCallErrors(db, js2, inputs);
      FinishCallNeverContinues(cfg, db, js3, error, cp, inputs, callee);
    }
  }

  lemma FinishCreateNeverContinues(cfg: Config, js: ValidJState, cp: JournalCheckpoint, inputs: CreateInputs,
                                   callee: Callee)
    requires FinishCreate(cfg, js, cp, inputs, callee).Some? && callee.exit != Continue
    ensures FinishCreate(cfg, js, cp, inputs, callee).value.result != Continue
  {
  }

  lemma CreateNeverContinues(cfg: Config, db: Database, js: ValidJState, inputs: CreateInputs, callee: Callee)
    requires CreateInner(cfg, db, js, inputs, callee).Some? && callee.exit != Continue
    ensures CreateInner(cfg, db, js, inputs, callee).value.result != Continue
  {
    var (js1, refused) := PrepareCreate(db, js, inputs);
    if refused.None? {
      var (cp, js2) := Checkpoint(js1);
      var (js3, error) := CreateAccount(js2, cfg.Enabled(SPURIOUS_DRAGON), inputs.caller, inputs.created, inputs.value);
      CreateErrors(js2, cfg.Enabled(SPURIOUS_DRAGON), inputs.caller, inputs.created, inputs.value);
      if error.None? {
        var js4 := RunOps(cfg, db, js3, inputs.created, callee.body).value;
        FinishCreateNeverContinues(cfg, js4, cp, inputs, callee);
      }
    }
  }

  lemma NeverContinues(env: Env, db: Database, js: ValidJState, callee: Callee)
    requires env.tx.initialGas <= env.tx.gasLimit && callee.exit != Continue
    requires RunTransaction(env, db, js, callee).Some?
    ensures RunTransaction(env, db, js, callee).value.result != Continue
  {
    if env.tx.to.ToCall? {
      CallNeverContinues(env.cfg, db, js, TransactionCall(env), callee);
    } else {
      CreateNeverContinues(env.cfg, db, js, TransactionCreate(env), callee);
    }
  }
}
