/**
  Call and create frames (revm/src/evm_impl.rs) as functions on the journaled
  state. What a contract does is given as the finite tree of host operations it
  performs, so a theorem about all trees is one about all contracts. `None`
  stands for a panic of the source: a missing account, an undo that fails, or a
  depth decremented below zero.
 */
module Evm {
  import opened Words
  import opened Accounts
  import opened InstructionResults
  import opened GasMeter
  import opened Journal

  const CALL_STACK_LIMIT: nat := 1024
  const MAX_CODE_SIZE: nat := 0x6000
  const CODEDEPOSIT: nat := 200

  // Specification identifiers, in activation order.
  const HOMESTEAD: nat := 2
  const SPURIOUS_DRAGON: nat := 5
  const BERLIN: nat := 11
  const LONDON: nat := 12
  const MERGE: nat := 15
  const SHANGHAI: nat := 16

  /** `useGas` is off when the crate is built with no_gas_measuring. */
  datatype Config = Config(specId: nat, useGas: bool, limitContractCodeSize: Option<nat>) {
    predicate Enabled(spec: nat) {
      specId >= spec
    }
  }

  datatype CallScheme = Call | CallCode | DelegateCall | StaticCall

  datatype CallInputs = CallInputs(
    contract: Address, source: Address, target: Address, value: U256, contextAddress: Address, gasLimit: U64)

  datatype CreateInputs = CreateInputs(caller: Address, created: Address, value: U256, gasLimit: U64)

  datatype PrecompileOutcome = PrecompileOk(gasUsed: U64, data: Bytes) | PrecompileErr(outOfGas: bool)

  /** A callee: whether it has code, what it does, and how its interpreter ends. */
  datatype Callee = Callee(
    hasCode: bool, body: seq<HostOp>, exit: InstructionResult, gas: Meter, output: Bytes,
    outputHash: B256, precompile: PrecompileOutcome)

  datatype HostOp =
    | OpBalance(a: Address)
    | OpLoadAccount(a: Address)
    | OpLoadCode(a: Address)
    | OpSload(key: U256)
    | OpSstore(key: U256, value: U256)
    | OpLog(log: Log)
    | OpSelfDestruct(target: Address)
    | OpCall(scheme: CallScheme, to: Address, value: U256, gasLimit: U64, callee: Callee)
    | OpCreate(created: Address, value: U256, gasLimit: U64, callee: Callee)

  datatype Outcome = Outcome(
    result: InstructionResult, address: Option<Address>, gas: Meter, output: Bytes, js: ValidJState)

  /** The inputs the CALL family of opcodes builds in the frame of `self`. */
  function CallInputsOf(self: Address, scheme: CallScheme, to: Address, value: U256, gasLimit: U64): CallInputs {
    match scheme
    case Call => CallInputs(to, self, to, value, to, gasLimit)
    case CallCode => CallInputs(to, self, self, value, self, gasLimit)
    case DelegateCall => CallInputs(to, self, self, 0, self, gasLimit)
    case StaticCall => CallInputs(to, self, self, 0, to, gasLimit)
  }

  /** The end of a frame: commit if it went well, revert if not. */
  function CloseFrame(js: ValidJState, cp: JournalCheckpoint, ok: bool): Option<ValidJState> {
    if ok then (if js.depth > 0 then Some(Commit(js)) else None)
    else if CanRevert(js, cp) then Some(RevertTo(js, cp))
    else None
  }

  function CallPrecompile(cfg: Config, gas: Meter, outcome: PrecompileOutcome): (InstructionResult, Meter, Bytes) {
    match outcome
    case PrecompileOk(gasUsed, data) =>
      var (charged, ok) := if cfg.useGas then RecordCost(gas, gasUsed) else (gas, true);
      if ok then (Return, charged, data) else (PrecompileOOG, charged, [])
    case PrecompileErr(outOfGas) =>
      (if outOfGas then PrecompileOOG else PrecompileError, gas, [])
  }

  function RunOps(cfg: Config, db: Database, js: ValidJState, self: Address, body: seq<HostOp>): Option<ValidJState>
    decreases body
  {
    if body == [] then Some(js)
    else
      var js1 :- RunOp(cfg, db, js, self, body[0]);
      RunOps(cfg, db, js1, self, body[1..])
  }

  /** The operations that open no frame. */
  function PlainOp(db: Database, js: ValidJState, self: Address, op: HostOp): Option<ValidJState>
    requires !op.OpCall? && !op.OpCreate?
  {
    match op
    case OpBalance(a) => Some(LoadAccount(js, db, a).0)
    case OpLoadAccount(a) => Some(LoadAccountExist(js, db, a).0)
    case OpLoadCode(a) => Some(LoadCode(js, db, a).0)
    case OpSload(key) => if self in js.state then Some(Sload(js, db, self, key).0) else None
    case OpSstore(key, value) => if self in js.state then Some(Sstore(js, db, self, key, value).0) else None
    case OpLog(log) => Some(PushLog(js, log))
    case OpSelfDestruct(target) => if self in js.state then Some(SelfDestructAccount(js, db, self, target).0) else None
  }

  function RunOp(cfg: Config, db: Database, js: ValidJState, self: Address, op: HostOp): Option<ValidJState>
    decreases op
  {
    if op.OpCall? then
      CallFrom(cfg, db, js, CallInputsOf(self, op.scheme, op.to, op.value, op.gasLimit), op.callee)
    else if op.OpCreate? then
      var outcome :- CreateInner(cfg, db, js, CreateInputs(self, op.created, op.value, op.gasLimit), op.callee);
      Some(outcome.js)
    else
      PlainOp(db, js, self, op)
  }

  /** A CALL opcode: the target is loaded to price the call before the host is asked to perform it. */
  function CallFrom(cfg: Config, db: Database, js: ValidJState, inputs: CallInputs, callee: Callee): Option<ValidJState>
    decreases callee, 4
  {
    var (js1, loaded) := LoadAccountExist(js, db, inputs.contract);
    if loaded.DbErr? then Some(js1)
    else
      var outcome :- CallInner(cfg, db, js1, inputs, callee);
      Some(outcome.js)
  }

  /** The frame of a call between its checkpoint and the run of the callee. */
  function EnterCall(db: Database, js: ValidJState, inputs: CallInputs): (r: (ValidJState, Option<InstructionResult>))
    ensures js.state.Keys <= r.0.state.Keys
  {
    var js1 := if inputs.value == 0 then Touch(LoadAccountExist(js, db, inputs.contextAddress).0,
                                               inputs.contextAddress) else js;
    Transfer(js1, db, inputs.source, inputs.target, inputs.value)
  }

  /** What the callee of an entered call does. */
  function RunCallee(cfg: Config, db: Database, js: ValidJState, inputs: CallInputs, callee: Callee): Option<Outcome>
    decreases callee, 0
  {
    var gas := NewMeter(inputs.gasLimit);
    if IsPrecompile(inputs.contract, js.numOfPrecompiles) then
      var (result, charged, output) := CallPrecompile(cfg, gas, callee.precompile);
      Some(Outcome(result, None, charged, output, js))
    else if callee.hasCode then
      var js1 :- RunOps(cfg, db, js, inputs.contextAddress, callee.body);
      Some(Outcome(callee.exit, None, callee.gas, callee.output, js1))
    else
      Some(Outcome(Stop, None, gas, [], js))
  }

  /** A call from its transfer, which went well or failed with `error`, to its end. */
  function FinishCall(cfg: Config, db: Database, js: ValidJState, error: Option<InstructionResult>,
                      cp: JournalCheckpoint, inputs: CallInputs, callee: Callee): Option<Outcome>
    decreases callee, 1
  {
    if error.Some? then
      var js1 :- CloseFrame(js, cp, false);
      Some(Outcome(error.value, None, NewMeter(inputs.gasLimit), [], js1))
    else
      var ran :- RunCallee(cfg, db, js, inputs, callee);
      var js1 :- CloseFrame(ran.js, cp, ran.result.IsOk());
      Some(ran.(js := js1))
  }

  /** A call from its checkpoint to its end. */
  function CallFrame(cfg: Config, db: Database, js: ValidJState, inputs: CallInputs, callee: Callee): Option<Outcome>
    decreases callee, 2
  {
    var (cp, js1) := Checkpoint(js);
    var (js2, error) := EnterCall(db, js1, inputs);
    FinishCall(cfg, db, js2, error, cp, inputs, callee)
  }

  function CallInner(cfg: Config, db: Database, js: ValidJState, inputs: CallInputs, callee: Callee): Option<Outcome>
    decreases callee, 3
  {
    var gas := NewMeter(inputs.gasLimit);
    var (js1, loaded) := LoadCode(js, db, inputs.contract);
    if loaded.DbErr? then Some(Outcome(FatalExternalError, None, gas, [], js1))
    else if js1.depth > CALL_STACK_LIMIT then Some(Outcome(CallTooDeep, None, gas, [], js1))
    else CallFrame(cfg, db, js1, inputs, callee)
  }

  /** What is left to decide once the init code has run well: the verdict, the meter and the code to deploy. */
  function Deployment(cfg: Config, callee: Callee): (InstructionResult, Meter, Bytes) {
    var output := callee.output;
    if cfg.Enabled(LONDON) && output != [] && output[0] == 0xEF then (CreateContractStartingWithEF, callee.gas, output)
    else if cfg.Enabled(SPURIOUS_DRAGON)
         && |output| > (if cfg.limitContractCodeSize.Some? then cfg.limitContractCodeSize.value else MAX_CODE_SIZE)
    then (CreateContractSizeLimit, callee.gas, output)
    else if !cfg.useGas then (Return, callee.gas, output)
    else
      var (gas, paid) := RecordCost(callee.gas, |output| * CODEDEPOSIT % TWO_64);
      if paid then (Return, gas, output)
      else if cfg.Enabled(HOMESTEAD) then (OutOfGas, gas, output)
      else (Return, gas, [])
  }

  /** Takes the caller's nonce and loads the account to create. */
  function ReserveCreate(db: Database, js: ValidJState,
                         inputs: CreateInputs): (r: (ValidJState, Option<InstructionResult>))
    requires inputs.caller in js.state
    ensures inputs.caller in r.0.state
    ensures r.1.None? ==> inputs.created in r.0.state
    ensures r.0.depth == js.depth
  {
    var (js1, nonce) := IncNonce(js, inputs.caller);
    if nonce.None? then (js1, Some(Return))
    else
      var (js2, created) := LoadAccount(js1, db, inputs.created);
      if created.DbErr? then (js2, Some(FatalExternalError)) else (js2, None)
  }

  /** Checks and preparation of a create, before its frame is opened. */
  function PrepareCreate(db: Database, js: ValidJState,
                         inputs: CreateInputs): (r: (ValidJState, Option<InstructionResult>))
    ensures r.1.None? ==> inputs.caller in r.0.state && inputs.created in r.0.state
    ensures r.0.depth == js.depth
  {
    if js.depth > CALL_STACK_LIMIT then (js, Some(CallTooDeep))
    else
      var (js1, loaded) := LoadAccount(js, db, inputs.caller);
      if loaded.DbErr? then (js1, Some(FatalExternalError))
      else if js1.state[inputs.caller].info.balance < inputs.value then (js1, Some(OutOfFund))
      else ReserveCreate(db, js1, inputs)
  }

  /** The end of a create whose init code ran to `js`. */
  function FinishCreate(cfg: Config, js: ValidJState, cp: JournalCheckpoint, inputs: CreateInputs,
                        callee: Callee): Option<Outcome> {
    var (result, charged, output) :=
      if callee.exit.IsOk() then Deployment(cfg, callee) else (callee.exit, callee.gas, callee.output);
    var js1 :- CloseFrame(js, cp, result.IsOk());
    if !result.IsOk() then Some(Outcome(result, Some(inputs.created), charged, output, js1))
    else if inputs.created !in js1.state then None
    else
      var code := Bytecode(output, if output == [] then KECCAK_EMPTY else callee.outputHash);
      Some(Outcome(Return, Some(inputs.created), charged, output, SetCode(js1, inputs.created, code)))
  }

  /** A create from its checkpoint to its end. */
  function CreateFrame(cfg: Config, db: Database, js: ValidJState, inputs: CreateInputs,
                       callee: Callee): Option<Outcome>
    requires inputs.caller in js.state && inputs.created in js.state
    decreases callee, 0
  {
    var (cp, js1) := Checkpoint(js);
    var (js2, error) := CreateAccount(js1, cfg.Enabled(SPURIOUS_DRAGON), inputs.caller, inputs.created, inputs.value);
    if error.Some? then
      var js3 :- CloseFrame(js2, cp, false);
      Some(Outcome(error.value, None, NewMeter(inputs.gasLimit), [], js3))
    else
      var js3 :- RunOps(cfg, db, js2, inputs.created, callee.body);
      FinishCreate(cfg, js3, cp, inputs, callee)
  }

  function CreateInner(cfg: Config, db: Database, js: ValidJState, inputs: CreateInputs,
                       callee: Callee): Option<Outcome>
    decreases callee, 1
  {
    var (js1, refused) := PrepareCreate(db, js, inputs);
    if refused.Some? then Some(Outcome(refused.value, None, NewMeter(inputs.gasLimit), [], js1))
    else CreateFrame(cfg, db, js1, inputs, callee)
  }
}
