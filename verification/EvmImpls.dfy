/**
  `EVMImpl`: frames run in place on a `JournaledState` object. Every frame is
  entered with the depth at most `CALL_STACK_LIMIT + 1`, every method computes
  what `Evm` says, and the error slot is filled when `DatabaseErrors` says so.
 */
module EvmImpls {
  import opened Words
  import opened Accounts
  import opened InstructionResults
  import opened GasMeter
  import opened Journal
  import opened Supply
  import opened Tracking
  import opened Evm
  import opened EvmRuns
  import opened JournaledStates
  import opened DatabaseErrors
  import opened Transaction
  import opened Ether

  class EvmImpl {
    const cfg: Config
    const db: Database
    const journaledState: JournaledState
    /** Whether a database error is kept, to be reported. */
    var error: bool

    constructor (cfg: Config, db: Database, numOfPrecompiles: nat)
      ensures this.cfg == cfg && this.db == db && !error && fresh(journaledState) && journaledState.Valid()
      ensures journaledState.Value() == if cfg.Enabled(SPURIOUS_DRAGON) then New(numOfPrecompiles)
                                        else NewLegacy(numOfPrecompiles)
    {
      this.cfg := cfg;
      this.db := db;
      this.error := false;
      if cfg.Enabled(SPURIOUS_DRAGON) {
        journaledState := new JournaledState(numOfPrecompiles);
      } else {
        journaledState := new JournaledState.Legacy(numOfPrecompiles);
      }
    }

    /** The journaled state is well formed and holds less than 2^256 wei. */
    ghost predicate Ready()
      reads journaledState
    {
      journaledState.Valid() && TotalSupply(db, journaledState.Value().state) < TWO_256
    }

    /** Runs the operations of a frame. */
    method RunInterpreter(self: Address, body: seq<HostOp>)
      requires Ready() && self in journaledState.state && journaledState.depth <= CALL_STACK_LIMIT + 1
      modifies journaledState, this`error
      ensures journaledState.Valid()
      ensures error == (old(error) || BodyRecords(cfg, db, old(journaledState.Value()), self, body))
      ensures RunOps(cfg, db, old(journaledState.Value()), self, body) == Some(journaledState.Value())
      ensures Ran(db, old(journaledState.Value()), Some(journaledState.Value()))
      decreases body
    {
      if body == [] {
        TrackedReflexive(db, journaledState.Value());
        return;
      }
      ghost var before := journaledState.Value();
      RunOpTracked(cfg, db, before, self, body[0]);
      Step(self, body[0]);
      ghost var middle := journaledState.Value();
      SmallerSupply(db, before, Some(middle));
      RunInterpreter(self, body[1..]);
      RanTrans(db, before, middle, Some(journaledState.Value()));
    }

    /** A host operation that opens no frame. */
    method StepPlain(self: Address, op: HostOp)
      requires !op.OpCall? && !op.OpCreate?
      requires journaledState.Valid() && self in journaledState.state
      modifies journaledState, this`error
      ensures journaledState.Valid()
      ensures error == (old(error) || OpRecords(cfg, db, old(journaledState.Value()), self, op))
      ensures PlainOp(db, old(journaledState.Value()), self, op) == Some(journaledState.Value())
    {
      match op
      case OpBalance(a) =>
        var r := journaledState.Load(db, a);
        error := error || r.DbErr?;
      case OpLoadAccount(a) =>
        var r := journaledState.LoadExist(db, a);
        error := error || r.DbErr?;
      case OpLoadCode(a) =>
        var r := journaledState.LoadWithCode(db, a);
        error := error || r.DbErr?;
      case OpSload(key) =>
        var r := journaledState.LoadSlot(db, self, key);
        error := error || r.DbErr?;
      case OpSstore(key, value) =>
        var r := journaledState.StoreSlot(db, self, key, value);
        error := error || r.DbErr?;
      case OpLog(log) => journaledState.AddLog(log);
      case OpSelfDestruct(target) =>
        var r := journaledState.SelfDestruct(db, self, target);
        error := error || r.DbErr?;
    }

    /** One host operation of a frame of `self`. */
    method Step(self: Address, op: HostOp)
      requires Ready() && self in journaledState.state && journaledState.depth <= CALL_STACK_LIMIT + 1
      modifies journaledState, this`error
      ensures journaledState.Valid()
      ensures error == (old(error) || OpRecords(cfg, db, old(journaledState.Value()), self, op))
      ensures RunOp(cfg, db, old(journaledState.Value()), self, op) == Some(journaledState.Value())
      decreases op
    {
      if op.OpCall? {
        CallFrom(CallInputsOf(self, op.scheme, op.to, op.value, op.gasLimit), op.callee);
      } else if op.OpCreate? {
        StepCreate(self, op);
      } else {
        StepPlain(self, op);
      }
    }

    method StepCreate(self: Address, op: HostOp)
      requires op.OpCreate? && Ready() && journaledState.depth <= CALL_STACK_LIMIT + 1
      modifies journaledState, this`error
      ensures journaledState.Valid()
      ensures error == (old(error) || OpRecords(cfg, db, old(journaledState.Value()), self, op))
      ensures RunOp(cfg, db, old(journaledState.Value()), self, op) == Some(journaledState.Value())
      decreases op.callee, 5
    {
      var _, _, _, _ := CreateInner(CreateInputs(self, op.created, op.value, op.gasLimit), op.callee);
    }

    /** A CALL opcode: the target is loaded to price the call before the call is made. */
    method CallFrom(inputs: CallInputs, callee: Callee)
      requires Ready() && ContextLoaded(journaledState.Value(), inputs)
      modifies journaledState, this`error
      ensures journaledState.Valid()
      ensures error == (old(error) || CallFromRecords(cfg, db, old(journaledState.Value()), inputs, callee))
      ensures Evm.CallFrom(cfg, db, old(journaledState.Value()), inputs, callee) == Some(journaledState.Value())
      decreases callee, 3
    {
      ghost var before := journaledState.Value();
      var loaded := journaledState.LoadExist(db, inputs.contract);
      TrackedLoadAccount(db, before, inputs.contract);
      if loaded.DbErr? {
        error := true;
      } else {
        SmallerSupply(db, before, Some(journaledState.Value()));
        var _, _, _ := CallInner(inputs, callee);
      }
    }

    /** The main contract call. */
    method CallInner(inputs: CallInputs, callee: Callee) returns (result: InstructionResult, gas: Meter, output: Bytes)
      requires Ready() && ContextLoaded(journaledState.Value(), inputs)
      modifies journaledState, this`error
      ensures journaledState.Valid()
      ensures error == (old(error) || CallRecords(cfg, db, old(journaledState.Value()), inputs, callee))
      ensures Evm.CallInner(cfg, db, old(journaledState.Value()), inputs, callee)
           == Some(Outcome(result, None, gas, output, journaledState.Value()))
      decreases callee, 2
    {
      ghost var before := journaledState.Value();
      gas := NewMeter(inputs.gasLimit);
      var loaded := journaledState.LoadWithCode(db, inputs.contract);
      if loaded.DbErr? {
        error := true;
        return FatalExternalError, gas, [];
      }
      if journaledState.depth > CALL_STACK_LIMIT {
        return CallTooDeep, gas, [];
      }
      TrackedLoadCode(db, before, inputs.contract);
      ghost var warmed := journaledState.Value();
      SmallerSupply(db, before, Some(warmed));
      result, gas, output := CallFrame(inputs, callee);
    }

    /** Loads and touches for a call without value, then the transfer. */
    method EnterCall(inputs: CallInputs) returns (failure: Option<InstructionResult>)
      requires journaledState.Valid()
      modifies journaledState`state, journaledState`journal, this`error
      ensures journaledState.Valid()
      ensures error == (old(error) || (inputs.value == 0
                                       && LoadAccountExist(old(journaledState.Value()), db,
                                                           inputs.contextAddress).1.DbErr?))
      ensures (journaledState.Value(), failure) == Evm.EnterCall(db, old(journaledState.Value()), inputs)
    {
      if inputs.value == 0 {
        var loaded := journaledState.LoadExist(db, inputs.contextAddress);
        error := error || loaded.DbErr?;
        journaledState.TouchAccount(inputs.contextAddress);
      }
      failure := journaledState.TransferBalance(db, inputs.source, inputs.target, inputs.value);
    }

    /** Precompile, interpreter, or nothing to run. */
    method RunCallee(inputs: CallInputs, callee: Callee) returns (result: InstructionResult, gas: Meter, output: Bytes)
      requires Ready() && inputs.contextAddress in journaledState.state && journaledState.depth <= CALL_STACK_LIMIT + 1
      modifies journaledState, this`error
      ensures journaledState.Valid()
      ensures error == (old(error) || CalleeRecords(cfg, db, old(journaledState.Value()), inputs, callee))
      ensures Evm.RunCallee(cfg, db, old(journaledState.Value()), inputs, callee)
           == Some(Outcome(result, None, gas, output, journaledState.Value()))
      decreases callee, 0
    {
      gas := NewMeter(inputs.gasLimit);
      if IsPrecompile(inputs.contract, journaledState.numOfPrecompiles) {
        var outcome := CallPrecompile(cfg, gas, callee.precompile);
        return outcome.0, outcome.1, outcome.2;
      } else if callee.hasCode {
        RunInterpreter(inputs.contextAddress, callee.body);
        return callee.exit, callee.gas, callee.output;
      } else {
        return Stop, gas, [];
      }
    }

    /** A call from its checkpoint to its end. */
    method CallFrame(inputs: CallInputs, callee: Callee) returns (result: InstructionResult, gas: Meter, output: Bytes)
      requires Ready() && ContextLoaded(journaledState.Value(), inputs) && inputs.contract in journaledState.state
      requires journaledState.depth <= CALL_STACK_LIMIT
      modifies journaledState, this`error
      ensures journaledState.Valid()
      ensures error == (old(error) || FrameRecords(cfg, db, Checkpoint(old(journaledState.Value())).1, inputs, callee))
      ensures Evm.CallFrame(cfg, db, old(journaledState.Value()), inputs, callee)
           == Some(Outcome(result, None, gas, output, journaledState.Value()))
      decreases callee, 1
    {
      ghost var before := journaledState.Value();
      var cp := journaledState.OpenCheckpoint();
      ghost var inner := journaledState.Value();
      var failure := EnterCall(inputs);
      ghost var entered := journaledState.Value();
      EnterCallTracked(db, inner, inputs);
      SmallerSupply(db, inner, Some(entered));
      if failure.Some? {
        CloseFrame(before, cp, false);
        return failure.value, NewMeter(inputs.gasLimit), [];
      }
      RunCalleeTracked(cfg, db, entered, inputs, callee);
      result, gas, output := RunCallee(inputs, callee);
      RanTrans(db, inner, entered, Some(journaledState.Value()));
      CloseFrame(before, cp, result.IsOk());
    }

    /** Commits or reverts the frame that `before` opened. */
    method CloseFrame(ghost before: ValidJState, cp: JournalCheckpoint, ok: bool)
      requires journaledState.Valid() && cp == Checkpoint(before).0
      requires Ran(db, Checkpoint(before).1, Some(journaledState.Value()))
      modifies journaledState
      ensures journaledState.Valid()
      ensures Evm.CloseFrame(old(journaledState.Value()), cp, ok) == Some(journaledState.Value())
    {
      ClosedFrame(db, before, journaledState.Value(), ok);
      if ok {
        journaledState.CommitCheckpoint();
      } else {
        journaledState.RevertCheckpoint(cp);
      }
    }

    /** CREATE and CREATE2, and the creation a transaction asks for. */
    method CreateInner(inputs: CreateInputs, callee: Callee)
      returns (result: InstructionResult, address: Option<Address>, gas: Meter, output: Bytes)
      requires Ready()
      modifies journaledState, this`error
      ensures journaledState.Valid()
      ensures error == (old(error) || CreateRecords(cfg, db, old(journaledState.Value()), inputs, callee))
      ensures Evm.CreateInner(cfg, db, old(journaledState.Value()), inputs, callee)
           == Some(Outcome(result, address, gas, output, journaledState.Value()))
      decreases callee, 2
    {
      ghost var before := journaledState.Value();
      gas := NewMeter(inputs.gasLimit);
      if journaledState.depth > CALL_STACK_LIMIT {
        return CallTooDeep, None, gas, [];
      }
      var loaded := journaledState.Load(db, inputs.caller);
      if loaded.DbErr? {
        error := true;
        return FatalExternalError, None, gas, [];
      }
      if journaledState.state[inputs.caller].info.balance < inputs.value {
        return OutOfFund, None, gas, [];
      }
      var nonce := journaledState.IncrementNonce(inputs.caller);
      if nonce.None? {
        return Return, None, gas, [];
      }
      var createdLoad := journaledState.Load(db, inputs.created);
      if createdLoad.DbErr? {
        error := true;
        return FatalExternalError, None, gas, [];
      }
      PrepareCreateTracked(db, before, inputs);
      EnoughForCreate(db, before, inputs);
      SmallerSupply(db, before, Some(journaledState.Value()));
      result, address, gas, output := CreateFrame(inputs, callee);
    }

    /** A create from its checkpoint to its end. */
    method CreateFrame(inputs: CreateInputs, callee: Callee)
      returns (result: InstructionResult, address: Option<Address>, gas: Meter, output: Bytes)
      requires Ready() && inputs.caller in journaledState.state && inputs.created in journaledState.state
      requires inputs.value <= journaledState.state[inputs.caller].info.balance
               && journaledState.depth <= CALL_STACK_LIMIT
      modifies journaledState, this`error
      ensures journaledState.Valid()
      ensures error == (old(error) || CreateFrameRecords(cfg, db, Checkpoint(old(journaledState.Value())).1, inputs,
                                                         callee))
      ensures Evm.CreateFrame(cfg, db, old(journaledState.Value()), inputs, callee)
           == Some(Outcome(result, address, gas, output, journaledState.Value()))
      decreases callee, 1
    {
      ghost var before := journaledState.Value();
      ghost var inner := Checkpoint(before).1;
      var isSpuriousDragon := cfg.Enabled(SPURIOUS_DRAGON);
      TrackedCreateAccount(db, inner, isSpuriousDragon, inputs.caller, inputs.created, inputs.value);
      var cp, failure := journaledState.CreateAccountCheckpoint(isSpuriousDragon, inputs.caller, inputs.created,
          inputs.value);
      if failure.Some? {
        return failure.value, None, NewMeter(inputs.gasLimit), [];
      }
      ghost var endowed := journaledState.Value();
      SmallerSupply(db, inner, Some(endowed));
      CreatedMark(inner, isSpuriousDragon, inputs.caller, inputs.created, inputs.value);
      result, address, gas, output := RunInitCode(before, cp, inputs, callee);
    }

    /** Init code and the end of the frame. */
    method RunInitCode(ghost before: ValidJState, cp: JournalCheckpoint, inputs: CreateInputs, callee: Callee)
      returns (result: InstructionResult, address: Option<Address>, gas: Meter, output: Bytes)
      requires Ready() && cp == Checkpoint(before).0 && journaledState.depth <= CALL_STACK_LIMIT + 1
      requires Ran(db, Checkpoint(before).1, Some(journaledState.Value()))
      requires inputs.created in journaledState.state && journaledState.state[inputs.created].created
      modifies journaledState, this`error
      ensures journaledState.Valid()
      ensures error == (old(error) || BodyRecords(cfg, db, old(journaledState.Value()), inputs.created, callee.body))
      ensures var ran := RunOps(cfg, db, old(journaledState.Value()), inputs.created, callee.body);
              && ran.Some?
              && Evm.FinishCreate(cfg, ran.value, cp, inputs, callee)
              == Some(Outcome(result, address, gas, output, journaledState.Value()))
      decreases callee, 0
    {
      ghost var endowed := journaledState.Value();
      RunInterpreter(inputs.created, callee.body);
      RanTrans(db, Checkpoint(before).1, endowed, Some(journaledState.Value()));
      result, address, gas, output := FinishCreate(before, cp, inputs, callee);
    }

    /** Verdict on the deployed code, the end of the frame, and the deployment. */
    method FinishCreate(ghost before: ValidJState, cp: JournalCheckpoint, inputs: CreateInputs, callee: Callee)
      returns (result: InstructionResult, address: Option<Address>, gas: Meter, output: Bytes)
      requires journaledState.Valid() && cp == Checkpoint(before).0
      requires Ran(db, Checkpoint(before).1, Some(journaledState.Value()))
      requires inputs.created in journaledState.state
      modifies journaledState
      ensures journaledState.Valid()
      ensures Evm.FinishCreate(cfg, old(journaledState.Value()), cp, inputs, callee)
           == Some(Outcome(result, address, gas, output, journaledState.Value()))
    {
      address := Some(inputs.created);
      if callee.exit.IsOk() {
        var verdict := Deployment(cfg, callee);
        result, gas, output := verdict.0, verdict.1, verdict.2;
      } else {
        result, gas, output := callee.exit, callee.gas, callee.output;
      }
      ClosedFrame(db, before, journaledState.Value(), result.IsOk());
      if !result.IsOk() {
        journaledState.RevertCheckpoint(cp);
        return;
      }
      journaledState.CommitCheckpoint();
      journaledState.SetAccountCode(inputs.created,
                                    Bytecode(output, if output == [] then KECCAK_EMPTY else callee.outputHash));
      result := Return;
    }

    // -------------------------------------------------------------- transactions

    /** Coinbase, access list and caller are loaded, and the caller is checked against the transaction. */
    method PreloadAccounts(env: Env) returns (failure: Option<TxError>)
      requires env.cfg == cfg && journaledState.Valid()
      requires journaledState.Value()
            == if cfg.Enabled(SPURIOUS_DRAGON) then New(journaledState.numOfPrecompiles)
               else NewLegacy(journaledState.numOfPrecompiles)
      modifies journaledState`state, journaledState`journal
      ensures journaledState.Valid()
      ensures (journaledState.Value(), failure) == Preload(env, db, journaledState.numOfPrecompiles)
    {
      if cfg.Enabled(SHANGHAI) {
        var ok := journaledState.InitialLoad(db, env.block.coinbase, []);
        if !ok {
          return Some(DatabaseError);
        }
      }
      var ok := LoadList(env.tx.accessList);
      if !ok {
        return Some(DatabaseError);
      }
      var loaded := journaledState.Load(db, env.tx.caller);
      if loaded.DbErr? {
        return Some(DatabaseError);
      }
      return ValidateTxAgainstState(env, journaledState.state[env.tx.caller]);
    }

    method LoadList(list: seq<(Address, seq<U256>)>) returns (ok: bool)
      requires journaledState.Valid()
      modifies journaledState`state
      ensures journaledState.Valid()
      ensures (journaledState.Value(), ok) == LoadAccessList(old(journaledState.Value()), db, list)
    {
      ok := true;
      for i := 0 to |list|
        invariant journaledState.Valid() && ok
        invariant LoadAccessList(journaledState.Value(), db, list[i..])
                 == LoadAccessList(old(journaledState.Value()), db, list)
      {
        assert list[i..][1..] == list[i + 1..];
        ok := journaledState.InitialLoad(db, list[i].0, list[i].1);
        if !ok {
          return;
        }
      }
    }

    /** The journaled state is handed out and emptied. */
    method TakeState() returns (state: State, logs: seq<Log>)
      modifies journaledState
      ensures state == old(journaledState.state) && logs == old(journaledState.logs)
      ensures journaledState.Valid() && journaledState.state == map[] && journaledState.logs == []
      ensures journaledState.journal == [[]] && journaledState.depth == 0
    {
      state, logs := journaledState.state, journaledState.logs;
      journaledState.state := map[];
      journaledState.logs := [];
      journaledState.journal := [[]];
      journaledState.depth := 0;
    }

    /** Pays the caller back and the coinbase; false where the source panics, the coinbase being unreadable. */
    method SettleFees(env: Env, gas: Meter) returns (ok: bool, gasUsed: U64, gasRefunded: U64)
      requires env.cfg == cfg && journaledState.Valid() && env.tx.caller in journaledState.state
      modifies journaledState`state, journaledState`journal
      ensures journaledState.Valid()
      ensures Finalize(env, db, old(journaledState.Value()), gas)
           == if ok then Some((journaledState.Value(), gasUsed, gasRefunded)) else None
    {
      ok := true;
      if !cfg.useGas {
        var _ := journaledState.Load(db, env.block.coinbase);
        journaledState.TouchAccount(env.block.coinbase);
        return ok, 0, 0;
      }
      gasRefunded := MaxRefund(env, gas);
      gasUsed := WrappingSub64(gas.allUsedGas, gasRefunded);
      var caller := journaledState.state[env.tx.caller];
      journaledState.state := journaledState.state[env.tx.caller :=
        WithBalance(caller, SaturatingAdd(caller.info.balance, Reimbursement(env, gas)))];
      var loaded := journaledState.Load(db, env.block.coinbase);
      if loaded.DbErr? {
        ok := false;
        return;
      }
      var coinbase := journaledState.state[env.block.coinbase];
      journaledState.state := journaledState.state[env.block.coinbase :=
        WithBalance(coinbase, SaturatingAdd(coinbase.info.balance, Reward(env, gas))).(touched := true)];
    }

    /** Charges the caller for all of the gas limit, and counts the nonce of a call. */
    method Charge(env: Env)
      requires journaledState.Valid() && env.tx.caller in journaledState.state
      modifies journaledState`state
      ensures journaledState.Valid() && journaledState.Value() == ChargeCaller(env, old(journaledState.Value()))
    {
      var acc := journaledState.state[env.tx.caller];
      var cost := SaturatingMul(env.tx.gasLimit, EffectiveGasPrice(env));
      acc := WithBalance(acc, if cost <= acc.info.balance then acc.info.balance - cost else 0).(touched := true);
      if env.tx.to.ToCall? {
        acc := WithNonce(acc, Min(acc.info.nonce + 1, U64_MAX));
      }
      journaledState.state := journaledState.state[env.tx.caller := acc];
    }

    /** The call or create of the transaction. */
    method RunFrame(env: Env, callee: Callee) returns (result: InstructionResult, gas: Meter)
      requires env.cfg == cfg && env.tx.initialGas <= env.tx.gasLimit && Ready()
      modifies journaledState, this`error
      ensures journaledState.Valid()
      ensures error == (old(error) || TransactionRecords(env, db, old(journaledState.Value()), callee))
      ensures var r := RunTransaction(env, db, old(journaledState.Value()), callee);
              r.Some? && r.value.result == result && r.value.gas == gas && r.value.js == journaledState.Value()
    {
      if env.tx.to.ToCall? {
        var output;
        result, gas, output := CallInner(TransactionCall(env), callee);
      } else {
        var address, output;
        result, address, gas, output := CreateInner(TransactionCreate(env), callee);
      }
    }

    /** A whole transaction on a fresh journaled state; `None` where the source panics. */
    method Transact(env: Env, callee: Callee) returns (outcome: Option<TxOutcome>)
      requires env.cfg == cfg && journaledState.Valid() && !error
      requires journaledState.Value()
            == if cfg.Enabled(SPURIOUS_DRAGON) then New(journaledState.numOfPrecompiles)
               else NewLegacy(journaledState.numOfPrecompiles)
      requires TotalSupply(db, map[]) < TWO_256
      modifies journaledState, this`error
      ensures Transaction.Transact(env, db, journaledState.numOfPrecompiles, callee) == outcome
      ensures outcome.Some? && outcome.value.TxDone? ==> journaledState.state == map[] && journaledState.journal == [[]]
    {
      var invalid := ValidateTx(env);
      if invalid.Some? {
        return Some(TxFailed(invalid.value));
      }
      var failure := PreloadAccounts(env);
      if failure.Some? {
        return Some(TxFailed(failure.value));
      }
      EnteredSupply(env, db, journaledState.numOfPrecompiles);
      Charge(env);
      RunTransactionRuns(env, db, journaledState.Value(), callee);
      var result, gas := RunFrame(env, callee);
      var ok, gasUsed, gasRefunded := SettleFees(env, SettleGas(env, result, gas));
      if !ok {
        return None;
      }
      var state, logs := TakeState();
      if result.IsFatal() {
        if !error {
          return None;
        }
        error := false;
        return Some(TxFailed(DatabaseError));
      }
      if result.Continue? {
        return None;
      }
      return Some(TxDone(result, state, logs, gasUsed, gasRefunded));
    }
  }
}
