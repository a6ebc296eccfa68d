/**
  A whole transaction: validation (primitives/src/env.rs), and `transact` with
  `finalize` (revm/src/evm_impl.rs). The intrinsic gas of the transaction is a
  parameter.
 */
module Transaction {
  import opened Words
  import opened Accounts
  import opened InstructionResults
  import opened GasMeter
  import opened Journal
  import opened Evm
  import opened DatabaseErrors

  const MAX_INITCODE_SIZE: nat := 2 * MAX_CODE_SIZE

  datatype TransactTo = ToCall(address: Address) | ToCreate(created: Address)

  datatype BlockEnv = BlockEnv(coinbase: Address, basefee: U256, gasLimit: U256, hasPrevrandao: bool)

  datatype TxEnv = TxEnv(
    caller: Address, gasLimit: U64, gasPrice: U256, gasPriorityFee: Option<U256>, to: TransactTo, value: U256,
    dataLength: nat, chainId: Option<U64>, nonce: Option<U64>, accessList: seq<(Address, seq<U256>)>, initialGas: U64)

  datatype Env = Env(cfg: Config, chainId: U256, block: BlockEnv, tx: TxEnv)

  datatype TxError =
    | PrevrandaoNotSet | GasMaxFeeGreaterThanPriorityFee | GasPriceLessThanBasefee | CallerGasLimitMoreThanBlock
    | CreateInitcodeSizeLimit | InvalidChainId | AccessListNotSupported | CallGasCostMoreThanGasLimit
    | RejectCallerWithCode | NonceTooHigh | NonceTooLow | OverflowPaymentInTransaction | LackOfFundForMaxFee
    | DatabaseError

  datatype TxOutcome =
    | TxDone(exit: InstructionResult, state: State, logs: seq<Log>, gasUsed: U64, gasRefunded: U64)
    | TxFailed(error: TxError)

  /** The sum of base fee and priority fee wraps, as the source's addition does. */
  function EffectiveGasPrice(env: Env): U256 {
    if env.tx.gasPriorityFee.None? then env.tx.gasPrice
    else Min(env.tx.gasPrice, WrappingAdd(env.block.basefee, env.tx.gasPriorityFee.value))
  }

  function ValidateTx(env: Env): Option<TxError> {
    if env.cfg.Enabled(MERGE) && !env.block.hasPrevrandao then Some(PrevrandaoNotSet)
    else if env.cfg.Enabled(LONDON) && env.tx.gasPriorityFee.Some? && env.tx.gasPriorityFee.value > env.tx.gasPrice then
      Some(GasMaxFeeGreaterThanPriorityFee)
    else if env.cfg.Enabled(LONDON) && EffectiveGasPrice(env) < env.block.basefee then Some(GasPriceLessThanBasefee)
    else if env.tx.gasLimit > env.block.gasLimit then Some(CallerGasLimitMoreThanBlock)
    else if env.cfg.Enabled(SHANGHAI) && env.tx.to.ToCreate? && env.tx.dataLength > MAX_INITCODE_SIZE
      then Some(TxError.CreateInitcodeSizeLimit)
    else if env.tx.chainId.Some? && env.tx.chainId.value != env.chainId then Some(InvalidChainId)
    else if !env.cfg.Enabled(BERLIN) && env.tx.accessList != [] then Some(AccessListNotSupported)
    else if env.tx.gasLimit < env.tx.initialGas then Some(CallGasCostMoreThanGasLimit)
    else None
  }

  function ValidateTxAgainstState(env: Env, caller: Account): Option<TxError> {
    if caller.info.codeHash != KECCAK_EMPTY then Some(RejectCallerWithCode)
    else if env.tx.nonce.Some? && env.tx.nonce.value > caller.info.nonce then Some(NonceTooHigh)
    else if env.tx.nonce.Some? && env.tx.nonce.value < caller.info.nonce then Some(NonceTooLow)
    else
      var cost := env.tx.gasLimit * env.tx.gasPrice + env.tx.value;
      if cost >= TWO_256 then Some(OverflowPaymentInTransaction)
      else if cost > caller.info.balance then Some(LackOfFundForMaxFee)
      else None
  }

  function LoadAccessList(js: ValidJState, db: Database, list: seq<(Address, seq<U256>)>): (ValidJState, bool)
    decreases |list|
  {
    if list == [] then (js, true)
    else
      var (js1, ok) := InitialAccountLoad(js, db, list[0].0, list[0].1);
      if ok then LoadAccessList(js1, db, list[1..]) else (js1, false)
  }

  /** The journaled state after all loads before the caller is charged. */
  function Preload(env: Env, db: Database, numOfPrecompiles: nat): (r: (ValidJState, Option<TxError>))
    ensures r.1.None? ==> env.tx.caller in r.0.state
  {
    var js0 := if env.cfg.Enabled(SPURIOUS_DRAGON) then New(numOfPrecompiles) else NewLegacy(numOfPrecompiles);
    var (js1, ok1) := if env.cfg.Enabled(SHANGHAI) then InitialAccountLoad(js0, db, env.block.coinbase, [])
                      else (js0, true);
    if !ok1 then (js1, Some(DatabaseError))
    else
      var (js2, ok2) := LoadAccessList(js1, db, env.tx.accessList);
      if !ok2 then (js2, Some(DatabaseError))
      else
        var (js3, loaded) := LoadAccount(js2, db, env.tx.caller);
        if loaded.DbErr? then (js3, Some(DatabaseError))
        else (js3, ValidateTxAgainstState(env, js3.state[env.tx.caller]))
  }

  /** Takes the gas prepayment from the caller and touches it; for a call, also counts the nonce. */
  function ChargeCaller(env: Env, js: ValidJState): ValidJState
    requires env.tx.caller in js.state
  {
    var acc := js.state[env.tx.caller];
    var cost := SaturatingMul(env.tx.gasLimit, EffectiveGasPrice(env));
    var left := if cost <= acc.info.balance then acc.info.balance - cost else 0;
    var nonce := if env.tx.to.ToCall? then Min(acc.info.nonce + 1, U64_MAX) else acc.info.nonce;
    PutAccount(js, env.tx.caller, WithNonce(WithBalance(acc, left), nonce).(touched := true))
  }

  function TransactionCall(env: Env): CallInputs
    requires env.tx.to.ToCall? && env.tx.initialGas <= env.tx.gasLimit
  {
    CallInputs(env.tx.to.address, env.tx.caller, env.tx.to.address, env.tx.value, env.tx.to.address,
               env.tx.gasLimit - env.tx.initialGas)
  }

  function TransactionCreate(env: Env): CreateInputs
    requires env.tx.to.ToCreate? && env.tx.initialGas <= env.tx.gasLimit
  {
    CreateInputs(env.tx.caller, env.tx.to.created, env.tx.value, env.tx.gasLimit - env.tx.initialGas)
  }

  /** The call or create the transaction asks for. */
  function RunTransaction(env: Env, db: Database, js: ValidJState, callee: Callee): Option<Outcome>
    requires env.tx.initialGas <= env.tx.gasLimit
  {
    if env.tx.to.ToCall? then CallInner(env.cfg, db, js, TransactionCall(env), callee)
    else CreateInner(env.cfg, db, js, TransactionCreate(env), callee)
  }

  /** Whether running it leaves a database error to report. */
  predicate TransactionRecords(env: Env, db: Database, js: ValidJState, callee: Callee)
    requires env.tx.initialGas <= env.tx.gasLimit
  {
    if env.tx.to.ToCall? then CallRecords(env.cfg, db, js, TransactionCall(env), callee)
    else CreateRecords(env.cfg, db, js, TransactionCreate(env), callee)
  }

  /** The meter of the transaction: all gas spent, then what the frame left handed back. */
  function SettleGas(env: Env, exit: InstructionResult, ret: Meter): Meter {
    var spent := RecordCost(NewMeter(env.tx.gasLimit), env.tx.gasLimit).0;
    if !env.cfg.useGas then spent
    else if exit.IsOk() then RecordRefund(EraseCost(spent, ret.Remaining()), ret.refunded)
    else if exit.IsRevert() then EraseCost(spent, ret.Remaining())
    else spent
  }

  function MaxRefund(env: Env, gas: Meter): U64 {
    Min(AsU64(gas.refunded), gas.allUsedGas / (if env.cfg.Enabled(LONDON) then 5 else 2))
  }

  function CoinbaseGasPrice(env: Env): U256 {
    if env.cfg.Enabled(LONDON) then SaturatingSub(EffectiveGasPrice(env), env.block.basefee) else EffectiveGasPrice(env)
  }

  /** Multiplication on U256, which wraps. */
  function WrappingMul(a: U256, b: U256): U256 {
    a * b % TWO_256
  }

  /** Price of the gas the caller gets back. */
  function Reimbursement(env: Env, gas: Meter): U256 {
    WrappingMul(EffectiveGasPrice(env), WrappingAdd64(gas.Remaining(), MaxRefund(env, gas)))
  }

  /** Price of the gas the coinbase is paid for. */
  function Reward(env: Env, gas: Meter): U256 {
    WrappingMul(CoinbaseGasPrice(env), WrappingSub64(gas.allUsedGas, MaxRefund(env, gas)))
  }

  /** Pays the caller back and the coinbase; `None` when one of them cannot be found. */
  function PayFees(env: Env, db: Database, js: ValidJState, gas: Meter): Option<ValidJState> {
    if env.tx.caller !in js.state then None
    else
      var caller := js.state[env.tx.caller];
      var js1 := PutAccount(js, env.tx.caller,
                            WithBalance(caller, SaturatingAdd(caller.info.balance, Reimbursement(env, gas))));
      var (js2, loaded) := LoadAccount(js1, db, env.block.coinbase);
      if loaded.DbErr? then None
      else
        var coinbase := js2.state[env.block.coinbase];
        Some(PutAccount(js2, env.block.coinbase,
                        WithBalance(coinbase, SaturatingAdd(coinbase.info.balance, Reward(env, gas))).(touched :=
                          true)))
  }

  /** Result: the final journaled state, gas used, gas refunded. */
  function Finalize(env: Env, db: Database, js: ValidJState, gas: Meter): Option<(ValidJState, U64, U64)> {
    if env.cfg.useGas then
      var js1 :- PayFees(env, db, js, gas);
      var refunded := MaxRefund(env, gas);
      Some((js1, WrappingSub64(gas.allUsedGas, refunded), refunded))
    else
      Some((Touch(LoadAccount(js, db, env.block.coinbase).0, env.block.coinbase), 0, 0))
  }

  function Transact(env: Env, db: Database, numOfPrecompiles: nat, callee: Callee): Option<TxOutcome> {
    if ValidateTx(env).Some? then Some(TxFailed(ValidateTx(env).value))
    else
      var (js0, error) := Preload(env, db, numOfPrecompiles);
      if error.Some? then Some(TxFailed(error.value))
      else
        var js1 := ChargeCaller(env, js0);
        var ret :- RunTransaction(env, db, js1, callee);
        Settle(env, db, ret, TransactionRecords(env, db, js1, callee))
  }

  /** The end of a transaction that ran; a fatal result panics unless a database error was recorded. */
  function Settle(env: Env, db: Database, ret: Outcome, recorded: bool): Option<TxOutcome> {
    var (js2, gasUsed, gasRefunded) :- Finalize(env, db, ret.js, SettleGas(env, ret.result, ret.gas));
    if ret.result.IsFatal() then (if recorded then Some(TxFailed(DatabaseError)) else None)
    else if ret.result.Continue? then None
    else Some(TxDone(ret.result, js2.state, js2.logs, gasUsed, gasRefunded))
  }
}
