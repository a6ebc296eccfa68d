/**
  Who pays whom in calls and creates, and whose nonce counts. Balances are those
  of all addresses, loaded or still in the database.
 */
module Payments {
  import opened Words
  import opened Accounts
  import opened InstructionResults
  import opened GasMeter
  import opened Journal
  import opened Rollback
  import opened Supply
  import opened Tracking
  import opened Evm
  import opened EvmRuns
  import opened Answers

  /** From `s` to `t`, `from` has paid `to` and nobody else paid or was paid. */
  ghost predicate Paid(db: Database, s: State, t: State, from: Address, to: Address, value: U256) {
    forall x: Address ::
      BalanceOf(db, t, x)
      == BalanceOf(db, s, x) - (if x == from then value else 0) + (if x == to then value else 0)
  }

  /** A transfer that cannot be made leaves all balances alone, one that is made moves the value. */
  ghost predicate Settled(db: Database, s: State, t: State, from: Address, to: Address, value: U256, made: bool) {
    if made then Paid(db, s, t, from, to, value) else SameBalances(db, s, t)
  }

  lemma SettledLater(db: Database, s: State, s1: State, t: State, from: Address, to: Address, value: U256, made: bool)
    requires SameBalances(db, s, s1) && Settled(db, s1, t, from, to, value, made)
    ensures Settled(db, s, t, from, to, value, made)
  {
  }

  lemma SettledThen(db: Database, s: State, t: State, t1: State, from: Address, to: Address, value: U256, made: bool)
    requires Settled(db, s, t, from, to, value, made) && SameBalances(db, t, t1)
    ensures Settled(db, s, t1, from, to, value, made)
  {
  }

  lemma TouchKeepsBalances(db: Database, js: ValidJState, a: Address)
    ensures SameBalances(db, js.state, Touch(js, a).state)
    ensures a in js.state ==> Touch(js, a).state[a].touched
  {
  }

  // ---------------------------------------------------------------- transfers

  lemma MovePays(db: Database, s: State, from: Address, to: Address, value: U256)
    requires from in s && to in s && value <= s[from].info.balance && TotalSupply(db, s) < TWO_256
    ensures Paid(db, s, Moved(s, from, to, value), from, to, value)
  {
    MovedSupply(db, s, from, to, value);
  }

  /** A payment between loaded accounts is made exactly if the payer holds the value. */
  lemma PayPays(db: Database, js: ValidJState, from: Address, to: Address, value: U256)
    requires from in js.state && to in js.state && TotalSupply(db, js.state) < TWO_256
    ensures var r := Pay(js, from, to, value);
            && r.1 == (if value <= js.state[from].info.balance then None else Some(OutOfFund))
            && Settled(db, js.state, r.0.state, from, to, value, r.1.None?)
            && r.0.state[from].touched && (r.1.None? ==> r.0.state[to].touched)
  {
    var js1 := Touch(js, from);
    var js2 := Touch(js1, to);
    TouchKeepsBalances(db, js, from);
    PayNeverOverflows(db, js, from, to, value);
    PayRefused(js, from, to, value);
    if Pay(js, from, to, value).1.None? {
      TouchKeepsBalances(db, js1, to);
      PayIsMove(js, from, to, value);
      SameBalancesTrans(db, js.state, js1.state, js2.state);
      SameSupply(db, js.state, js2.state);
      MovePays(db, js2.state, from, to, value);
      SettledLater(db, js.state, js2.state, Moved(js2.state, from, to, value), from, to, value, true);
    }
  }

  lemma PayRefused(js: ValidJState, from: Address, to: Address, value: U256)
    requires from in js.state && to in js.state
    ensures Pay(js, from, to, value).1 == Some(OutOfFund) <==> js.state[from].info.balance < value
    ensures Pay(js, from, to, value).1 == Some(OutOfFund) ==> Pay(js, from, to, value).0 == Touch(js, from)
    ensures Pay(js, from, to, value).1 in {None, Some(OutOfFund), Some(OverflowPayment)}
  {
  }

  /** How a transfer ends, by what is there before. */
  function TransferEnd(db: Database, s: State, from: Address, to: Address, value: U256): Option<InstructionResult> {
    if !Readable(db, s, from) || !Readable(db, s, to) then Some(FatalExternalError)
    else if BalanceOf(db, s, from) < value then Some(OutOfFund)
    else None
  }

  /** It is the same where the same accounts can be read and hold the same. */
  lemma SameTransferEnd(db: Database, s: State, t: State, from: Address, to: Address, value: U256)
    requires forall x: Address :: Readable(db, t, x) <==> Readable(db, s, x)
    requires SameBalances(db, s, t)
    ensures TransferEnd(db, t, from, to, value) == TransferEnd(db, s, from, to, value)
  {
  }

  lemma TransferPays(db: Database, js: ValidJState, from: Address, to: Address, value: U256)
    requires TotalSupply(db, js.state) < TWO_256
    ensures var r := Transfer(js, db, from, to, value);
            && r.1 == TransferEnd(db, js.state, from, to, value)
            && Settled(db, js.state, r.0.state, from, to, value, r.1.None?)
            && (r.1.None? ==>
                  from in r.0.state && to in r.0.state && r.0.state[from].touched && r.0.state[to].touched)
  {
    var js1 := LoadAccount(js, db, from).0;
    var js2 := LoadAccount(js1, db, to).0;
    LoadAnswers(js, db, from);
    LoadAnswers(js1, db, to);
    LoadKeeps(js, db, from, to);
    SameBalancesTrans(db, js.state, js1.state, js2.state);
    if from in js1.state && to in js2.state {
      SameSupply(db, js.state, js2.state);
      PayPays(db, js2, from, to, value);
      SettledLater(db, js.state, js2.state, Pay(js2, from, to, value).0.state, from, to, value,
                   Pay(js2, from, to, value).1.None?);
    }
  }

  // ---------------------------------------------------------------- calls

  /**
    The entry of a call: its source pays its target, exactly if both can be read
    and the source holds the value.
   */
  lemma EnterCallPays(db: Database, js: ValidJState, inputs: CallInputs)
    requires TotalSupply(db, js.state) < TWO_256
    ensures var r := EnterCall(db, js, inputs);
            && r.1 == TransferEnd(db, js.state, inputs.source, inputs.target, inputs.value)
            && Settled(db, js.state, r.0.state, inputs.source, inputs.target, inputs.value, r.1.None?)
  {
    var js1 := if inputs.value == 0 then Touch(LoadAccountExist(js, db, inputs.contextAddress).0,
                                               inputs.contextAddress) else js;
    if inputs.value == 0 {
      var js0 := LoadAccount(js, db, inputs.contextAddress).0;
      LoadAnswers(js, db, inputs.contextAddress);
      TouchKeepsBalances(db, js0, inputs.contextAddress);
      SameBalancesTrans(db, js.state, js0.state, js1.state);
      LoadKeeps(js, db, inputs.contextAddress, inputs.source);
      LoadKeeps(js, db, inputs.contextAddress, inputs.target);
    }
    SameSupply(db, js.state, js1.state);
    TransferPays(db, js1, inputs.source, inputs.target, inputs.value);
    var r := Transfer(js1, db, inputs.source, inputs.target, inputs.value);
    SettledLater(db, js.state, js1.state, r.0.state, inputs.source, inputs.target, inputs.value, r.1.None?);
  }

  /** The code of the account is cached, or its hash can be looked up. */
  predicate CodeReadable(db: Database, s: State, a: Address) {
    Readable(db, s, a) && (Found(db, s, a).info.code.Some? || ReadCode(db, Found(db, s, a).info.codeHash).DbOk?)
  }

  function CodeOf(db: Database, s: State, a: Address): Bytecode
    requires CodeReadable(db, s, a)
  {
    var info := Found(db, s, a).info;
    if info.code.Some? then info.code.value else ReadCode(db, info.codeHash).value
  }

  /** Loading the code of an account caches it and changes nothing else that is there. */
  lemma LoadCodeAnswers(js: ValidJState, db: Database, a: Address)
    ensures var r := LoadCode(js, db, a);
            && (r.1.DbOk? <==> CodeReadable(db, js.state, a))
            && (r.1.DbOk? ==>
                  r.0.state == js.state[a := WithCode(Found(db, js.state, a), CodeOf(db, js.state, a))])
            && SameBalances(db, js.state, r.0.state)
            && forall x: Address :: Readable(db, r.0.state, x) <==> Readable(db, js.state, x)
  {
    var js1 := LoadAccount(js, db, a).0;
    LoadAnswers(js, db, a);
    LoadKeeps(js, db, a, a);
    if a in js1.state {
      CacheAnswers(js1, db, a);
      WithOwnCode(js1, a);
      SameBalancesTrans(db, js.state, js1.state, CacheCode(js1, db, a).0.state);
    }
  }

  lemma WithOwnCode(js: ValidJState, a: Address)
    requires a in js.state
    ensures js.state[a].info.code.Some? ==> WithCode(js.state[a], js.state[a].info.code.value) == js.state[a]
    ensures js.state[a := js.state[a]] == js.state
  {
  }

  lemma CacheAnswers(js: ValidJState, db: Database, a: Address)
    requires a in js.state
    ensures var r := CacheCode(js, db, a);
            && (r.1 <==> js.state[a].info.code.Some? || ReadCode(db, js.state[a].info.codeHash).DbOk?)
            && SameBalances(db, js.state, r.0.state)
  {
  }

  /** A callee that performs no operation: a precompile, an address without code, or code that does nothing. */
  predicate Idle(numOfPrecompiles: nat, inputs: CallInputs, callee: Callee) {
    IsPrecompile(inputs.contract, numOfPrecompiles) || !callee.hasCode || callee.body == []
  }

  /** How a precompile ends: it fails for gas exactly if it uses more than the limit, and then uses none. */
  function PrecompileEnd(useGas: bool, gasLimit: U64, outcome: PrecompileOutcome): (InstructionResult, Meter, Bytes) {
    match outcome
    case PrecompileOk(gasUsed, data) =>
      if !useGas then (Return, NewMeter(gasLimit), data)
      else if gasUsed <= gasLimit then (Return, Meter(gasLimit, gasUsed, gasUsed, 0, 0), data)
      else (PrecompileOOG, NewMeter(gasLimit), [])
    case PrecompileErr(true) => (PrecompileOOG, NewMeter(gasLimit), [])
    case PrecompileErr(false) => (PrecompileError, NewMeter(gasLimit), [])
  }

  function IdleEnd(cfg: Config, numOfPrecompiles: nat, inputs: CallInputs,
                   callee: Callee): (InstructionResult, Meter, Bytes) {
    if IsPrecompile(inputs.contract, numOfPrecompiles)
    then PrecompileEnd(cfg.useGas, inputs.gasLimit, callee.precompile)
    else if callee.hasCode then (callee.exit, callee.gas, callee.output)
    else (Stop, NewMeter(inputs.gasLimit), [])
  }

  /** Why a call does not get to its callee, by what is there before. */
  function CallRefusal(db: Database, js: ValidJState, inputs: CallInputs): Option<InstructionResult> {
    if !CodeReadable(db, js.state, inputs.contract) then Some(FatalExternalError)
    else if js.depth > CALL_STACK_LIMIT then Some(CallTooDeep)
    else TransferEnd(db, js.state, inputs.source, inputs.target, inputs.value)
  }

  /** A frame that is closed keeps what was settled, and one that is undone restores what it was opened in. */
  lemma ClosedSettled(db: Database, isSpuriousDragon: bool, s: State, t: State, t1: State, from: Address, to: Address,
                      value: U256, paid: bool, kept: bool)
    requires Settled(db, s, t, from, to, value, paid) && (kept ==> paid)
    requires if kept then t1 == t else Restored(db, isSpuriousDragon, s, t1)
    ensures Settled(db, s, t1, from, to, value, kept)
  {
    if !kept {
      RestoredBalances(db, isSpuriousDragon, s, t1);
    }
  }

  lemma IdleRuns(cfg: Config, db: Database, js: ValidJState, inputs: CallInputs, callee: Callee)
    requires Idle(js.numOfPrecompiles, inputs, callee)
    ensures var (result, gas, output) := IdleEnd(cfg, js.numOfPrecompiles, inputs, callee);
            RunCallee(cfg, db, js, inputs, callee) == Some(Outcome(result, None, gas, output, js))
  {
  }

  /** `r` ends a call with `result`, and the value has moved exactly if it was not refused and ended well. */
  ghost predicate IdleCalled(db: Database, js: ValidJState, inputs: CallInputs, r: Option<Outcome>,
                             error: Option<InstructionResult>, end: (InstructionResult, Meter, Bytes)) {
    && r.Some?
    && (if error.Some? then
          r.value.result == error.value && r.value.gas == NewMeter(inputs.gasLimit) && r.value.output == []
        else
          r.value.result == end.0 && r.value.gas == end.1 && r.value.output == end.2)
    && Settled(db, js.state, r.value.js.state, inputs.source, inputs.target, inputs.value,
               error.None? && end.0.IsOk())
  }

  /** The end of a call whose callee does nothing. */
  lemma IdleFinish(cfg: Config, db: Database, js: ValidJState, js2: ValidJState, error: Option<InstructionResult>,
                   inputs: CallInputs, callee: Callee, end: (InstructionResult, Meter, Bytes))
    requires Ran(db, Checkpoint(js).1, Some(js2))
    requires Settled(db, js.state, js2.state, inputs.source, inputs.target, inputs.value, error.None?)
    requires RunCallee(cfg, db, js2, inputs, callee) == Some(Outcome(end.0, None, end.1, end.2, js2))
    ensures IdleCalled(db, js, inputs, FinishCall(cfg, db, js2, error, Checkpoint(js).0, inputs, callee), error, end)
  {
    var kept := error.None? && end.0.IsOk();
    ClosedFrame(db, js, js2, kept);
    var closed := CloseFrame(js2, Checkpoint(js).0, kept).value;
    ClosedSettled(db, !js.isBeforeSpuriousDragon, js.state, js2.state, closed.state, inputs.source,
                  inputs.target, inputs.value, error.None?, kept);
  }

  lemma IdleFrame(cfg: Config, db: Database, js: ValidJState, inputs: CallInputs, callee: Callee)
    requires TotalSupply(db, js.state) < TWO_256 && Idle(js.numOfPrecompiles, inputs, callee)
    ensures IdleCalled(db, js, inputs, CallFrame(cfg, db, js, inputs, callee),
                       TransferEnd(db, js.state, inputs.source, inputs.target, inputs.value),
                       IdleEnd(cfg, js.numOfPrecompiles, inputs, callee))
  {
    var (cp, js1) := Checkpoint(js);
    var (js2, error) := EnterCall(db, js1, inputs);
    EnterCallPays(db, js1, inputs);
    EnterCallTracked(db, js1, inputs);
    IdleRuns(cfg, db, js2, inputs, callee);
    IdleFinish(cfg, db, js, js2, error, inputs, callee, IdleEnd(cfg, js.numOfPrecompiles, inputs, callee));
  }

  /**
    A call whose callee performs nothing, as every exit path leaves it: it is
    refused exactly if something it needs cannot be read, the stack is too deep or the
    source holds too little, and ends as its callee if not; the source has paid the
    target if it was not refused and ended well, and nobody has paid otherwise.
   */
  lemma IdleCallPays(cfg: Config, db: Database, js: ValidJState, inputs: CallInputs, callee: Callee)
    requires TotalSupply(db, js.state) < TWO_256 && Idle(js.numOfPrecompiles, inputs, callee)
    ensures IdleCalled(db, js, inputs, CallInner(cfg, db, js, inputs, callee), CallRefusal(db, js, inputs),
                       IdleEnd(cfg, js.numOfPrecompiles, inputs, callee))
  {
    var (js1, loaded) := LoadCode(js, db, inputs.contract);
    LoadCodeAnswers(js, db, inputs.contract);
    TrackedLoadCode(db, js, inputs.contract);
    if loaded.DbOk? && js1.depth <= CALL_STACK_LIMIT {
      SameSupply(db, js.state, js1.state);
      SameTransferEnd(db, js.state, js1.state, inputs.source, inputs.target, inputs.value);
      IdleFrame(cfg, db, js1, inputs, callee);
      IdleWarmed(db, js, js1, inputs, CallFrame(cfg, db, js1, inputs, callee), CallRefusal(db, js, inputs),
                 IdleEnd(cfg, js.numOfPrecompiles, inputs, callee));
    }
  }

  /** The frame as its caller sees it, who had the code of the callee loaded before. */
  lemma IdleWarmed(db: Database, js: ValidJState, js1: ValidJState, inputs: CallInputs, r: Option<Outcome>,
                   error: Option<InstructionResult>, end: (InstructionResult, Meter, Bytes))
    requires SameBalances(db, js.state, js1.state) && IdleCalled(db, js1, inputs, r, error, end)
    ensures IdleCalled(db, js, inputs, r, error, end)
  {
    SettledLater(db, js.state, js1.state, r.value.js.state, inputs.source, inputs.target, inputs.value,
                 error.None? && end.0.IsOk());
  }

  /** How a call of an address without code ends, by what is there before. */
  function CodelessEnd(db: Database, js: ValidJState, inputs: CallInputs): InstructionResult {
    var refusal := CallRefusal(db, js, inputs);
    if refusal.Some? then refusal.value else Stop
  }

  /**
    A call of an address without code: it stops exactly if it is not refused, and
    then the source has paid the target; otherwise nobody has. It uses no gas and
    returns no data.
   */
  lemma CodelessCallPays(cfg: Config, db: Database, js: ValidJState, inputs: CallInputs, callee: Callee)
    requires TotalSupply(db, js.state) < TWO_256
    requires !callee.hasCode && !IsPrecompile(inputs.contract, js.numOfPrecompiles)
    ensures var r := CallInner(cfg, db, js, inputs, callee);
            && r.Some?
            && r.value.result == CodelessEnd(db, js, inputs)
            && r.value.gas == NewMeter(inputs.gasLimit) && r.value.output == []
            && Settled(db, js.state, r.value.js.state, inputs.source, inputs.target, inputs.value,
                       r.value.result == Stop)
  {
    IdleCallPays(cfg, db, js, inputs, callee);
  }

  // ---------------------------------------------------------------- calls from a contract

  /** Whether a CALL opcode of `self` to an address without code goes through. */
  function OpcodeEnd(db: Database, js: ValidJState, self: Address, to: Address, value: U256): InstructionResult {
    if !CodeReadable(db, js.state, to) then FatalExternalError
    else if js.depth > CALL_STACK_LIMIT then CallTooDeep
    else if BalanceOf(db, js.state, self) < value then OutOfFund
    else Stop
  }

  /**
    The CALL opcodes of a loaded contract to an address without code: a CALL
    that goes through pays from the contract to that address; CALLCODE pays the
    contract itself, DELEGATECALL and STATICCALL pay nothing, so none of the
    three moves a balance.
   */
  lemma CallOpcodePays(cfg: Config, db: Database, js: ValidJState, self: Address, op: HostOp)
    requires op.OpCall? && self in js.state && TotalSupply(db, js.state) < TWO_256
    requires !op.callee.hasCode && !IsPrecompile(op.to, js.numOfPrecompiles)
    ensures var r := RunOp(cfg, db, js, self, op);
            && r.Some?
            && Settled(db, js.state, r.value.state, self, op.to, op.value,
                       op.scheme == Call && OpcodeEnd(db, js, self, op.to, op.value) == Stop)
  {
    var inputs := CallInputsOf(self, op.scheme, op.to, op.value, op.gasLimit);
    var js1 := LoadAccountExist(js, db, op.to).0;
    LoadAnswers(js, db, op.to);
    if op.to in js1.state {
      SameSupply(db, js.state, js1.state);
      CodelessCallPays(cfg, db, js1, inputs, op.callee);
      var r := CallInner(cfg, db, js1, inputs, op.callee).value;
      OpcodeIsCall(cfg, db, js, js1, self, op, inputs, r);
      LoadedOpcodeEnd(db, js, js1, self, op);
      SettledLater(db, js.state, js1.state, r.js.state, inputs.source, inputs.target, inputs.value, r.result == Stop);
      OpcodeSettled(db, js.state, r.js.state, self, op, r.result == Stop);
    }
  }

  /** A CALL opcode whose target could be loaded is the call of it. */
  lemma OpcodeIsCall(cfg: Config, db: Database, js: ValidJState, js1: ValidJState, self: Address, op: HostOp,
                     inputs: CallInputs, r: Outcome)
    requires op.OpCall? && inputs == CallInputsOf(self, op.scheme, op.to, op.value, op.gasLimit)
    requires js1 == LoadAccountExist(js, db, op.to).0 && op.to in js1.state
    requires CallInner(cfg, db, js1, inputs, op.callee) == Some(r)
    ensures RunOp(cfg, db, js, self, op) == Some(r.js)
  {
  }

  /** The callee being loaded, the call of a CALL opcode ends as it says. */
  lemma LoadedOpcodeEnd(db: Database, js: ValidJState, js1: ValidJState, self: Address, op: HostOp)
    requires op.OpCall? && self in js.state && js1 == LoadAccount(js, db, op.to).0 && op.to in js1.state
    ensures op.scheme == Call ==>
              CodelessEnd(db, js1, CallInputsOf(self, op.scheme, op.to, op.value, op.gasLimit))
              == OpcodeEnd(db, js, self, op.to, op.value)
  {
  }

  lemma OpcodeSettled(db: Database, s: State, t: State, self: Address, op: HostOp, made: bool)
    requires op.OpCall?
    requires var inputs := CallInputsOf(self, op.scheme, op.to, op.value, op.gasLimit);
             Settled(db, s, t, inputs.source, inputs.target, inputs.value, made)
    ensures Settled(db, s, t, self, op.to, op.value, op.scheme == Call && made)
  {
  }

  // ---------------------------------------------------------------- checks before a create

  /** Whether a create takes its caller's nonce, by what is there before. */
  predicate TakesNonce(db: Database, js: ValidJState, inputs: CreateInputs) {
    && js.depth <= CALL_STACK_LIMIT
    && Readable(db, js.state, inputs.caller)
    && inputs.value <= BalanceOf(db, js.state, inputs.caller)
    && NonceOf(db, js.state, inputs.caller) < U64_MAX
  }

  /** How the checks of a create end, by what is there before; the largest nonce ends it with Return. */
  function CreateRefusal(db: Database, js: ValidJState, inputs: CreateInputs): Option<InstructionResult> {
    if js.depth > CALL_STACK_LIMIT then Some(CallTooDeep)
    else if !Readable(db, js.state, inputs.caller) then Some(FatalExternalError)
    else if BalanceOf(db, js.state, inputs.caller) < inputs.value then Some(OutOfFund)
    else if NonceOf(db, js.state, inputs.caller) == U64_MAX then Some(Return)
    else if !Readable(db, js.state, inputs.created) then Some(FatalExternalError)
    else None
  }

  /** From `s` to `t` the nonce of `a` went up by one if `taken`, and stayed if not. */
  ghost predicate NonceTaken(db: Database, s: State, t: State, a: Address, taken: bool) {
    if taken then Readable(db, s, a) && a in t && t[a].info.nonce == NonceOf(db, s, a) + 1
    else Readable(db, s, a) && a in t ==> t[a].info.nonce == NonceOf(db, s, a)
  }

  /** Nothing but what is loaded differs between `s` and `t`, except at `a`. */
  ghost predicate SameElsewhere(db: Database, s: State, t: State, a: Address) {
    forall x: Address | x != a ::
      (Readable(db, t, x) <==> Readable(db, s, x)) && (Readable(db, s, x) ==> Found(db, t, x) == Found(db, s, x))
  }

  lemma ReserveCounts(db: Database, js: ValidJState, inputs: CreateInputs)
    requires inputs.caller in js.state
    ensures var r := ReserveCreate(db, js, inputs);
            && r.1 == (if js.state[inputs.caller].info.nonce == U64_MAX then Some(Return)
                       else if !Readable(db, js.state, inputs.created) then Some(FatalExternalError) else None)
            && SameBalances(db, js.state, r.0.state)
            && NonceTaken(db, js.state, r.0.state, inputs.caller, js.state[inputs.caller].info.nonce < U64_MAX)
            && (js.state[inputs.caller].info.nonce < U64_MAX ==> r.0.state[inputs.caller].touched)
            && SameElsewhere(db, js.state, r.0.state, inputs.caller)
  {
    var js1 := IncNonce(js, inputs.caller).0;
    NonceCounted(js, inputs.caller);
    LoadAnswers(js1, db, inputs.created);
    assert SameBalances(db, js.state, js1.state);
    SameBalancesTrans(db, js.state, js1.state, LoadAccount(js1, db, inputs.created).0.state);
    LoadKeepsElsewhere(db, js1, inputs.created, inputs.caller);
    SameElsewhereTrans(db, js.state, js1.state, LoadAccount(js1, db, inputs.created).0.state, inputs.caller);
  }

  /**
    The checks of a create: how they end, that they move no balance, and that the
    caller's nonce goes up by one, its account touched and the created one loaded,
    in every create that is not refused for its depth, its caller, its value or
    the largest nonce.
   */
  lemma PrepareCounts(db: Database, js: ValidJState, inputs: CreateInputs)
    ensures var r := PrepareCreate(db, js, inputs);
            && r.1 == CreateRefusal(db, js, inputs)
            && SameBalances(db, js.state, r.0.state)
            && NonceTaken(db, js.state, r.0.state, inputs.caller, TakesNonce(db, js, inputs))
            && (TakesNonce(db, js, inputs) ==> r.0.state[inputs.caller].touched)
            && (r.1.None? ==> inputs.created in r.0.state)
            && SameElsewhere(db, js.state, r.0.state, inputs.caller)
  {
    if js.depth <= CALL_STACK_LIMIT {
      var js1 := LoadAccount(js, db, inputs.caller).0;
      LoadAnswers(js, db, inputs.caller);
      LoadKeepsElsewhere(db, js, inputs.caller, inputs.caller);
      LoadKeeps(js, db, inputs.caller, inputs.created);
      if inputs.caller in js1.state {
        PrepareIs(db, js, inputs, js1);
        ReserveCounts(db, js1, inputs);
        SameBalancesTrans(db, js.state, js1.state, ReserveCreate(db, js1, inputs).0.state);
        SameElsewhereTrans(db, js.state, js1.state, ReserveCreate(db, js1, inputs).0.state, inputs.caller);
      }
    }
  }

  lemma LoadKeepsElsewhere(db: Database, js: ValidJState, a: Address, b: Address)
    ensures SameElsewhere(db, js.state, LoadAccount(js, db, a).0.state, b)
  {
    forall x: Address | x != b
      ensures var s := LoadAccount(js, db, a).0.state;
              && (Readable(db, s, x) <==> Readable(db, js.state, x))
              && (Readable(db, js.state, x) ==> Found(db, s, x) == Found(db, js.state, x))
    {
      LoadKeeps(js, db, a, x);
    }
  }

  lemma SameElsewhereTrans(db: Database, s: State, t: State, u: State, a: Address)
    requires SameElsewhere(db, s, t, a) && SameElsewhere(db, t, u, a)
    ensures SameElsewhere(db, s, u, a)
  {
  }

  lemma PrepareIs(db: Database, js: ValidJState, inputs: CreateInputs, js1: ValidJState)
    requires js.depth <= CALL_STACK_LIMIT && js1 == LoadAccount(js, db, inputs.caller).0
    requires inputs.caller in js1.state
    ensures PrepareCreate(db, js, inputs)
         == if js1.state[inputs.caller].info.balance < inputs.value then (js1, Some(OutOfFund))
            else ReserveCreate(db, js1, inputs)
  {
  }

  /** A create that does not succeed has taken the nonce all the same, and has moved no balance. */
  lemma FailedCreateCounts(cfg: Config, db: Database, js: ValidJState, inputs: CreateInputs, callee: Callee)
    requires TotalSupply(db, js.state) < TWO_256
    ensures var r := CreateInner(cfg, db, js, inputs, callee);
            && r.Some?
            && (!r.value.result.IsOk() ==>
                  && SameBalances(db, js.state, r.value.js.state)
                  && NonceTaken(db, js.state, r.value.js.state, inputs.caller, TakesNonce(db, js, inputs)))
  {
    CreateInnerTracked(cfg, db, js, inputs, callee);
    PrepareCounts(db, js, inputs);
    var (js1, refused) := PrepareCreate(db, js, inputs);
    var r := CreateInner(cfg, db, js, inputs, callee).value;
    if refused.None? && !r.result.IsOk() {
      RestoredBalances(db, !js.isBeforeSpuriousDragon, js1.state, r.js.state);
      SameBalancesTrans(db, js.state, js1.state, r.js.state);
      RestoredNonce(db, !js.isBeforeSpuriousDragon, js1.state, r.js.state, inputs.caller);
    }
  }

  lemma RestoredNonce(db: Database, isSpuriousDragon: bool, s: State, u: State, a: Address)
    requires Restored(db, isSpuriousDragon, s, u) && a in s
    ensures a in u && u[a].info.nonce == s[a].info.nonce
  {
    assert RestoredAt(db, isSpuriousDragon, a, s[a], u[a]);
  }

  // ---------------------------------------------------------------- create frames

  /** Whether the account cannot be created. */
  predicate Collides(a: Address, acc: Account, numOfPrecompiles: nat) {
    acc.info.nonce != 0 || acc.info.codeHash != KECCAK_EMPTY || IsPrecompile(a, numOfPrecompiles)
  }

  /** What a created account starts with: the flags, its first nonce, no code and zero slots. */
  ghost predicate FreshlyCreated(s: State, a: Address, isSpuriousDragon: bool) {
    && a in s && s[a].created && s[a].touched
    && s[a].info.nonce == (if isSpuriousDragon then 1 else 0)
    && s[a].info.code.None? && s[a].info.codeHash == KECCAK_EMPTY
    && forall k | k in s[a].storage :: s[a].storage[k] == StorageSlot(0, 0)
  }

  /**
    Creating an account is refused exactly if it collides; otherwise the creator
    pays the endowment to it, and no other account is changed.
   */
  lemma CreateAccountPays(db: Database, js: ValidJState, isSpuriousDragon: bool, caller: Address, a: Address,
                          balance: U256)
    requires a in js.state && caller in js.state && TotalSupply(db, js.state) < TWO_256
    requires balance <= js.state[caller].info.balance && (a == caller ==> js.state[a].info.nonce != 0)
    ensures var r := CreateAccount(js, isSpuriousDragon, caller, a, balance);
            if Collides(a, js.state[a], js.numOfPrecompiles) then
              r == (js, Some(CreateCollision))
            else
              && r.1.None?
              && Paid(db, js.state, r.0.state, caller, a, balance)
              && FreshlyCreated(r.0.state, a, isSpuriousDragon)
              && r.0.state[caller].info.nonce == js.state[caller].info.nonce
              && forall x | x in js.state && x != a && x != caller :: r.0.state[x] == js.state[x]
  {
    if !Collides(a, js.state[a], js.numOfPrecompiles) {
      TwoBalancesWithinSupply(db, js.state, caller, a);
      var js1 := Touch(PutAccount(js, a, MarkCreated(js.state[a])), a);
      var js2 := FirstNonce(js1, isSpuriousDragon, a);
      FreshMark(js, isSpuriousDragon, a, js1, js2);
      CreatedIsMove(js, isSpuriousDragon, caller, a, balance, js1, js2);
      MovedFresh(js2.state, isSpuriousDragon, caller, a, balance);
      MarkedPays(db, js.state, js2.state, caller, a, balance);
    }
  }

  lemma CreatedIsMove(js: ValidJState, isSpuriousDragon: bool, caller: Address, a: Address, balance: U256,
                      js1: ValidJState, js2: ValidJState)
    requires a in js.state && caller in js.state && !Collides(a, js.state[a], js.numOfPrecompiles)
    requires js.state[a].info.balance + balance < TWO_256
    requires js1 == Touch(PutAccount(js, a, MarkCreated(js.state[a])), a)
    requires js2 == FirstNonce(js1, isSpuriousDragon, a)
    ensures var r := CreateAccount(js, isSpuriousDragon, caller, a, balance);
            r.1.None? && r.0.state == Moved(js2.state, caller, a, balance)
  {
    EndowIsMove(js1, isSpuriousDragon, caller, a, balance);
  }

  lemma MovedFresh(s: State, isSpuriousDragon: bool, caller: Address, a: Address, balance: U256)
    requires a in s && caller in s && a != caller && FreshlyCreated(s, a, isSpuriousDragon)
    ensures var t := Moved(s, caller, a, balance);
            && FreshlyCreated(t, a, isSpuriousDragon)
            && t[caller].info.nonce == s[caller].info.nonce
            && forall x | x in s && x != a && x != caller :: t[x] == s[x]
  {
  }

  lemma MarkedPays(db: Database, s: State, s1: State, from: Address, to: Address, value: U256)
    requires from in s && to in s && value <= s[from].info.balance && TotalSupply(db, s) < TWO_256
    requires to in s1 && s1 == s[to := s1[to]] && s1[to].info.balance == s[to].info.balance
    ensures Paid(db, s, Moved(s1, from, to, value), from, to, value)
  {
    SameSupply(db, s, s1);
    MovePays(db, s1, from, to, value);
    SettledLater(db, s, s1, Moved(s1, from, to, value), from, to, value, true);
  }

  lemma FreshMark(js: ValidJState, isSpuriousDragon: bool, a: Address, js1: ValidJState, js2: ValidJState)
    requires a in js.state && !Collides(a, js.state[a], js.numOfPrecompiles)
    requires js1 == Touch(PutAccount(js, a, MarkCreated(js.state[a])), a)
    requires js2 == FirstNonce(js1, isSpuriousDragon, a)
    ensures FreshlyCreated(js2.state, a, isSpuriousDragon)
    ensures js2.state[a].info.balance == js.state[a].info.balance
    ensures js2.state == js.state[a := js2.state[a]]
  {
  }

  /**
    What is left to decide after init code that ran well. The deposit is paid for
    every byte; before Homestead code that cannot be paid for is left out.
   */
  lemma DeploymentAnswers(cfg: Config, callee: Callee)
    requires callee.gas.Balanced() && |callee.output| * CODEDEPOSIT < TWO_64
    ensures var (result, gas, code) := Deployment(cfg, callee);
            var limit := if cfg.limitContractCodeSize.Some? then cfg.limitContractCodeSize.value else MAX_CODE_SIZE;
            var deposit := if cfg.useGas then |callee.output| * CODEDEPOSIT else 0;
            var paid := deposit <= callee.gas.Remaining();
            && (result == Return
                <==>
                && !(cfg.Enabled(LONDON) && callee.output != [] && callee.output[0] == 0xEF)
                && !(cfg.Enabled(SPURIOUS_DRAGON) && |callee.output| > limit)
                && (cfg.Enabled(HOMESTEAD) ==> paid))
            && (result == Return ==>
                  && gas.Balanced() && gas.limit == callee.gas.limit
                  && gas.Remaining() == callee.gas.Remaining() - (if paid then deposit else 0)
                  && code == if paid then callee.output else [])
            && (result != Return ==>
                  gas == callee.gas && result in {CreateContractStartingWithEF, CreateContractSizeLimit, OutOfGas})
  {
  }

  /** Deploying code changes no balance and no nonce. */
  lemma SetCodeKeeps(db: Database, js: ValidJState, a: Address, code: Bytecode)
    requires a in js.state
    ensures var s := SetCode(js, a, code).state;
            && s.Keys == js.state.Keys && SameBalances(db, js.state, s) && SameNonces(js.state, s)
            && s[a].info.code == Some(code) && s[a].info.codeHash == code.hash
  {
  }

  ghost predicate SameNonces(s: State, t: State) {
    forall x | x in s :: x in t && t[x].info.nonce == s[x].info.nonce
  }

  /** How a frame ends for its caller, but for the state it leaves. */
  datatype FrameEnd = FrameEnd(result: InstructionResult, address: Option<Address>, gas: Meter, output: Bytes)

  predicate Ends(r: Outcome, end: FrameEnd) {
    r.result == end.result && r.address == end.address && r.gas == end.gas && r.output == end.output
  }

  /** A create that does not get to its init code gives all gas back. */
  function Refusal(inputs: CreateInputs, error: InstructionResult): FrameEnd {
    FrameEnd(error, None, NewMeter(inputs.gasLimit), [])
  }

  /** The verdict on a create whose init code ended, with the code to deploy. */
  function Verdict(cfg: Config, inputs: CreateInputs, callee: Callee): FrameEnd {
    if callee.exit.IsOk() then
      var (result, gas, code) := Deployment(cfg, callee);
      FrameEnd(result, Some(inputs.created), gas, code)
    else
      FrameEnd(callee.exit, Some(inputs.created), callee.gas, callee.output)
  }

  /** The account holds this code, under its hash, and its first nonce. */
  ghost predicate CreatedWith(cfg: Config, s: State, a: Address, code: Bytes, hash: B256) {
    && a in s && s[a].info.nonce == (if cfg.Enabled(SPURIOUS_DRAGON) then 1 else 0)
    && s[a].info.codeHash == (if code == [] then KECCAK_EMPTY else hash)
    && s[a].info.code == Some(Bytecode(code, s[a].info.codeHash))
  }

  lemma FinishCreateIs(cfg: Config, js: ValidJState, cp: JournalCheckpoint, inputs: CreateInputs, callee: Callee,
                       end: FrameEnd, closed: Option<ValidJState>)
    requires end == Verdict(cfg, inputs, callee) && closed.Some? && closed == CloseFrame(js, cp, end.result.IsOk())
    requires end.result.IsOk() ==> inputs.created in closed.value.state
    ensures var r := FinishCreate(cfg, js, cp, inputs, callee);
            && r.Some? && Ends(r.value, end)
            && r.value.js == if !end.result.IsOk() then closed.value
                             else SetCode(closed.value, inputs.created,
                                          Bytecode(end.output, if end.output == [] then KECCAK_EMPTY
                                                               else callee.outputHash))
  {
  }

  /** The end of a create frame: deployed code on what the init code left, or what the frame was opened in. */
  lemma FinishCreateKeeps(cfg: Config, db: Database, js: ValidJState, js': ValidJState, inputs: CreateInputs,
                          callee: Callee, end: FrameEnd)
    requires Ran(db, Checkpoint(js).1, Some(js')) && inputs.created in js'.state
    requires end == Verdict(cfg, inputs, callee)
    requires js'.state[inputs.created].info.nonce == if cfg.Enabled(SPURIOUS_DRAGON) then 1 else 0
    ensures var r := FinishCreate(cfg, js', Checkpoint(js).0, inputs, callee);
            && r.Some? && Ends(r.value, end)
            && (end.result.IsOk() ==>
                  && SameBalances(db, js'.state, r.value.js.state) && SameNonces(js'.state, r.value.js.state)
                  && CreatedWith(cfg, r.value.js.state, inputs.created, end.output, callee.outputHash))
            && (!end.result.IsOk() ==> Restored(db, !js.isBeforeSpuriousDragon, js.state, r.value.js.state))
  {
    ClosedFrame(db, js, js', end.result.IsOk());
    var closed := CloseFrame(js', Checkpoint(js).0, end.result.IsOk());
    FinishCreateIs(cfg, js', Checkpoint(js).0, inputs, callee, end, closed);
    if end.result.IsOk() {
      SetCodeKeeps(db, closed.value, inputs.created,
                   Bytecode(end.output, if end.output == [] then KECCAK_EMPTY else callee.outputHash));
    }
  }

  // ---------------------------------------------------------------- creates whose init code performs nothing

  /** How a create ends whose init code performs no operation, by what is there before. */
  function IdleCreateEnd(cfg: Config, db: Database, js: ValidJState, inputs: CreateInputs, callee: Callee): FrameEnd {
    var refusal := CreateRefusal(db, js, inputs);
    if refusal.Some? then Refusal(inputs, refusal.value)
    else if inputs.created == inputs.caller
         || Collides(inputs.created, Found(db, js.state, inputs.created), js.numOfPrecompiles)
    then Refusal(inputs, CreateCollision)
    else Verdict(cfg, inputs, callee)
  }

  /** `r` ends a create frame opened in `js` so, with all it says about balances, nonces and code. */
  ghost predicate IdleDone(cfg: Config, db: Database, js: ValidJState, inputs: CreateInputs, callee: Callee,
                           r: Option<Outcome>, end: FrameEnd)
    requires inputs.caller in js.state
  {
    && r.Some? && Ends(r.value, end)
    && Settled(db, js.state, r.value.js.state, inputs.caller, inputs.created, inputs.value, end.result.IsOk())
    && inputs.caller in r.value.js.state
    && r.value.js.state[inputs.caller].info.nonce == js.state[inputs.caller].info.nonce
    && (end.result.IsOk() ==> CreatedWith(cfg, r.value.js.state, inputs.created, end.output, callee.outputHash))
  }

  lemma FailedIsDone(cfg: Config, db: Database, js: ValidJState, inputs: CreateInputs, callee: Callee,
                     r: Option<Outcome>, end: FrameEnd)
    requires inputs.caller in js.state && FrameOutcome(db, js, r) && Ends(r.value, end) && !end.result.IsOk()
    ensures IdleDone(cfg, db, js, inputs, callee, r, end)
  {
    RestoredBalances(db, !js.isBeforeSpuriousDragon, js.state, r.value.js.state);
    RestoredNonce(db, !js.isBeforeSpuriousDragon, js.state, r.value.js.state, inputs.caller);
  }

  /** Without operations of the init code, the frame is its creation and its end. */
  lemma IdleFrameIs(cfg: Config, db: Database, js: ValidJState, inputs: CreateInputs, callee: Callee, js2: ValidJState,
                    error: Option<InstructionResult>)
    requires callee.body == [] && inputs.caller in js.state && inputs.created in js.state
    requires (js2, error) == CreateAccount(Checkpoint(js).1, cfg.Enabled(SPURIOUS_DRAGON), inputs.caller,
                                           inputs.created, inputs.value)
    ensures var r := CreateFrame(cfg, db, js, inputs, callee);
            if error.None? then r == FinishCreate(cfg, js2, Checkpoint(js).0, inputs, callee)
            else r.Some? ==> Ends(r.value, Refusal(inputs, error.value))
  {
  }

  lemma EndowedIsDone(cfg: Config, db: Database, js: ValidJState, inputs: CreateInputs, callee: Callee,
                      js2: ValidJState, end: FrameEnd)
    requires inputs.caller in js.state && inputs.created in js2.state && inputs.caller in js2.state
    requires Ran(db, Checkpoint(js).1, Some(js2)) && end == Verdict(cfg, inputs, callee)
    requires Paid(db, js.state, js2.state, inputs.caller, inputs.created, inputs.value)
    requires FreshlyCreated(js2.state, inputs.created, cfg.Enabled(SPURIOUS_DRAGON))
    requires js2.state[inputs.caller].info.nonce == js.state[inputs.caller].info.nonce
    ensures IdleDone(cfg, db, js, inputs, callee, FinishCreate(cfg, js2, Checkpoint(js).0, inputs, callee), end)
  {
    FinishCreateKeeps(cfg, db, js, js2, inputs, callee, end);
    var r := FinishCreate(cfg, js2, Checkpoint(js).0, inputs, callee).value;
    if r.result.IsOk() {
      SettledThen(db, js.state, js2.state, r.js.state, inputs.caller, inputs.created, inputs.value, true);
    } else {
      RestoredBalances(db, !js.isBeforeSpuriousDragon, js.state, r.js.state);
      RestoredNonce(db, !js.isBeforeSpuriousDragon, js.state, r.js.state, inputs.caller);
    }
  }

  lemma IdleFramePays(cfg: Config, db: Database, js: ValidJState, inputs: CreateInputs, callee: Callee)
    requires callee.body == [] && TotalSupply(db, js.state) < TWO_256
    requires inputs.caller in js.state && inputs.created in js.state
    requires inputs.value <= js.state[inputs.caller].info.balance
    requires inputs.created == inputs.caller ==> js.state[inputs.created].info.nonce != 0
    ensures var collides := Collides(inputs.created, js.state[inputs.created], js.numOfPrecompiles);
            IdleDone(cfg, db, js, inputs, callee, CreateFrame(cfg, db, js, inputs, callee),
                     if collides then Refusal(inputs, CreateCollision) else Verdict(cfg, inputs, callee))
  {
    var js1 := Checkpoint(js).1;
    var isSpuriousDragon := cfg.Enabled(SPURIOUS_DRAGON);
    var (js2, error) := CreateAccount(js1, isSpuriousDragon, inputs.caller, inputs.created, inputs.value);
    CreateAccountPays(db, js1, isSpuriousDragon, inputs.caller, inputs.created, inputs.value);
    IdleFrameIs(cfg, db, js, inputs, callee, js2, error);
    if error.None? {
      TrackedCreateAccount(db, js1, isSpuriousDragon, inputs.caller, inputs.created, inputs.value);
      EndowedIsDone(cfg, db, js, inputs, callee, js2, Verdict(cfg, inputs, callee));
    } else {
      CreateFrameTracked(cfg, db, js, inputs, callee);
      FailedIsDone(cfg, db, js, inputs, callee, CreateFrame(cfg, db, js, inputs, callee),
                   Refusal(inputs, CreateCollision));
    }
  }

  /**
    A create whose init code performs nothing, on every exit path: how it ends, that
    the caller's nonce is counted unless its checks refuse that, and that the caller
    has paid the endowment to the created account, which then holds the code,
    exactly if the frame was entered and ended well.
   */
  lemma IdleCreatePays(cfg: Config, db: Database, js: ValidJState, inputs: CreateInputs, callee: Callee)
    requires callee.body == [] && TotalSupply(db, js.state) < TWO_256
    ensures var r, end := CreateInner(cfg, db, js, inputs, callee), IdleCreateEnd(cfg, db, js, inputs, callee);
            var made := CreateRefusal(db, js, inputs).None? && end.result.IsOk();
            && r.Some? && Ends(r.value, end)
            && Settled(db, js.state, r.value.js.state, inputs.caller, inputs.created, inputs.value, made)
            && NonceTaken(db, js.state, r.value.js.state, inputs.caller, TakesNonce(db, js, inputs))
            && (made ==> CreatedWith(cfg, r.value.js.state, inputs.created, end.output, callee.outputHash))
  {
    var (js1, refused) := PrepareCreate(db, js, inputs);
    PrepareCounts(db, js, inputs);
    if refused.None? {
      EnoughForCreate(db, js, inputs);
      PrepareCreateTracked(db, js, inputs);
      SameSupply(db, js.state, js1.state);
      IdleFramePays(cfg, db, js1, inputs, callee);
      var r := CreateFrame(cfg, db, js1, inputs, callee).value;
      SettledLater(db, js.state, js1.state, r.js.state, inputs.caller, inputs.created, inputs.value, r.result.IsOk());
    }
  }

  /** The CREATE opcode: the contract that executes it pays for the account it creates. */
  lemma CreateOpcodePays(cfg: Config, db: Database, js: ValidJState, self: Address, op: HostOp)
    requires op.OpCreate? && op.callee.body == [] && TotalSupply(db, js.state) < TWO_256
    ensures var r := RunOp(cfg, db, js, self, op);
            var inputs := CreateInputs(self, op.created, op.value, op.gasLimit);
            && r.Some?
            && Settled(db, js.state, r.value.state, self, op.created, op.value,
                       CreateRefusal(db, js, inputs).None?
                       && IdleCreateEnd(cfg, db, js, inputs, op.callee).result.IsOk())
            && NonceTaken(db, js.state, r.value.state, self, TakesNonce(db, js, inputs))
  {
    IdleCreatePays(cfg, db, js, CreateInputs(self, op.created, op.value, op.gasLimit), op.callee);
  }

  /** Of the operations that open no frame, only a log adds to the logs. */
  lemma PlainOpLogs(db: Database, js: ValidJState, self: Address, op: HostOp)
    requires !op.OpCall? && !op.OpCreate? && PlainOp(db, js, self, op).Some?
    ensures PlainOp(db, js, self, op).value.logs == js.logs + if op.OpLog? then [op.log] else []
  {
    assert js.logs + [] == js.logs;
  }
}
