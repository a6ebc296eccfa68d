/**
  The error slot of `EVMData`. A host operation that the database fails leaves
  its error there, and `transact` takes it out to report a fatal result; taking
  it out of an empty slot is a panic. The failures of `transfer` are not kept.
 */
module DatabaseErrors {
  import opened Words
  import opened Accounts
  import opened InstructionResults
  import opened Journal
  import opened Supply
  import opened Tracking
  import opened Evm
  import opened EvmRuns

  /** Some operation of the run keeps a database error. */
  predicate BodyRecords(cfg: Config, db: Database, js: ValidJState, self: Address, body: seq<HostOp>)
    decreases body
  {
    if body == [] then false
    else if OpRecords(cfg, db, js, self, body[0]) then true
    else
      var r := RunOp(cfg, db, js, self, body[0]);
      r.Some? && BodyRecords(cfg, db, r.value, self, body[1..])
  }

  predicate OpRecords(cfg: Config, db: Database, js: ValidJState, self: Address, op: HostOp)
    decreases op
  {
    match op
    case OpBalance(a) => LoadAccount(js, db, a).1.DbErr?
    case OpLoadAccount(a) => LoadAccountExist(js, db, a).1.DbErr?
    case OpLoadCode(a) => LoadCode(js, db, a).1.DbErr?
    case OpSload(key) => self in js.state && Sload(js, db, self, key).1.DbErr?
    case OpSstore(key, value) => self in js.state && Sstore(js, db, self, key, value).1.DbErr?
    case OpLog(_) => false
    case OpSelfDestruct(target) => self in js.state && SelfDestructAccount(js, db, self, target).1.DbErr?
    case OpCall(scheme, to, value, gasLimit, callee) =>
      CallFromRecords(cfg, db, js, CallInputsOf(self, scheme, to, value, gasLimit), callee)
    case OpCreate(created, value, gasLimit, callee) =>
      CreateRecords(cfg, db, js, CreateInputs(self, created, value, gasLimit), callee)
  }

  predicate CallFromRecords(cfg: Config, db: Database, js: ValidJState, inputs: CallInputs, callee: Callee)
    decreases callee, 3
  {
    var loaded := LoadAccountExist(js, db, inputs.contract);
    loaded.1.DbErr? || CallRecords(cfg, db, loaded.0, inputs, callee)
  }

  predicate CallRecords(cfg: Config, db: Database, js: ValidJState, inputs: CallInputs, callee: Callee)
    decreases callee, 2
  {
    var (js1, loaded) := LoadCode(js, db, inputs.contract);
    loaded.DbErr? || (js1.depth <= CALL_STACK_LIMIT && FrameRecords(cfg, db, Checkpoint(js1).1, inputs, callee))
  }

  predicate FrameRecords(cfg: Config, db: Database, js: ValidJState, inputs: CallInputs, callee: Callee)
    decreases callee, 1
  {
    if inputs.value == 0 && LoadAccountExist(js, db, inputs.contextAddress).1.DbErr? then true
    else
      var entered := EnterCall(db, js, inputs);
      entered.1.None? && CalleeRecords(cfg, db, entered.0, inputs, callee)
  }

  predicate CalleeRecords(cfg: Config, db: Database, js: ValidJState, inputs: CallInputs, callee: Callee)
    decreases callee, 0
  {
    !IsPrecompile(inputs.contract, js.numOfPrecompiles) && callee.hasCode
      && BodyRecords(cfg, db, js, inputs.contextAddress, callee.body)
  }

  predicate CreateRecords(cfg: Config, db: Database, js: ValidJState, inputs: CreateInputs, callee: Callee)
    decreases callee, 1
  {
    var prepared := PrepareCreate(db, js, inputs);
    if prepared.1.Some? then prepared.1.value == FatalExternalError
    else CreateFrameRecords(cfg, db, Checkpoint(prepared.0).1, inputs, callee)
  }

  predicate CreateFrameRecords(cfg: Config, db: Database, js: ValidJState, inputs: CreateInputs, callee: Callee)
    requires inputs.caller in js.state && inputs.created in js.state
    decreases callee, 0
  {
    var made := CreateAccount(js, cfg.Enabled(SPURIOUS_DRAGON), inputs.caller, inputs.created, inputs.value);
    made.1.None? && BodyRecords(cfg, db, made.0, inputs.created, callee.body)
  }

  // ---------------------------------------------------------------- interpreters that stop fatally

  /** The operation makes an interpreter stop fatally: the database fails it, or its frame ended fatally. */
  predicate Failed(cfg: Config, db: Database, js: ValidJState, self: Address, op: HostOp) {
    match op
    case OpCall(scheme, to, value, gasLimit, callee) =>
      FailedCall(cfg, db, js, CallInputsOf(self, scheme, to, value, gasLimit), callee)
    case OpCreate(created, value, gasLimit, callee) =>
      FailedCreate(cfg, db, js, CreateInputs(self, created, value, gasLimit), callee)
    case _ => OpRecords(cfg, db, js, self, op)
  }

  predicate FailedCall(cfg: Config, db: Database, js: ValidJState, inputs: CallInputs, callee: Callee) {
    var loaded := LoadAccountExist(js, db, inputs.contract);
    loaded.1.DbErr? || EndsFatally(CallInner(cfg, db, loaded.0, inputs, callee))
  }

  predicate FailedCreate(cfg: Config, db: Database, js: ValidJState, inputs: CreateInputs, callee: Callee) {
    EndsFatally(CreateInner(cfg, db, js, inputs, callee))
  }

  predicate EndsFatally(r: Option<Outcome>) {
    r.Some? && r.value.result.IsFatal()
  }

  /** The last operation of the run does. */
  predicate LastFailed(cfg: Config, db: Database, js: ValidJState, self: Address, body: seq<HostOp>)
    decreases |body|
  {
    if body == [] then false
    else if |body| == 1 then Failed(cfg, db, js, self, body[0])
    else
      var r := RunOp(cfg, db, js, self, body[0]);
      r.Some? && LastFailed(cfg, db, r.value, self, body[1..])
  }

  /** An interpreter that ends fatally does so because of its last operation, and so do all it calls. */
  predicate HonestCallee(cfg: Config, db: Database, js: ValidJState, self: Address, callee: Callee)
    decreases callee, 0
  {
    && (callee.exit.IsFatal() ==> LastFailed(cfg, db, js, self, callee.body))
    && HonestBody(cfg, db, js, self, callee.body)
  }

  predicate HonestBody(cfg: Config, db: Database, js: ValidJState, self: Address, body: seq<HostOp>)
    decreases body
  {
    body == [] ||
    (&& HonestOp(cfg, db, js, self, body[0])
     && var r := RunOp(cfg, db, js, self, body[0]);
        r.Some? ==> HonestBody(cfg, db, r.value, self, body[1..]))
  }

  predicate HonestOp(cfg: Config, db: Database, js: ValidJState, self: Address, op: HostOp)
    decreases op
  {
    match op
    case OpCall(scheme, to, value, gasLimit, callee) =>
      HonestCallFrom(cfg, db, js, CallInputsOf(self, scheme, to, value, gasLimit), callee)
    case OpCreate(created, value, gasLimit, callee) =>
      HonestCreate(cfg, db, js, CreateInputs(self, created, value, gasLimit), callee)
    case _ => true
  }

  predicate HonestCallFrom(cfg: Config, db: Database, js: ValidJState, inputs: CallInputs, callee: Callee)
    decreases callee, 3
  {
    var loaded := LoadAccountExist(js, db, inputs.contract);
    loaded.1.DbOk? ==> HonestCall(cfg, db, loaded.0, inputs, callee)
  }

  /** Of the calls that get as far as running code. */
  predicate HonestCall(cfg: Config, db: Database, js: ValidJState, inputs: CallInputs, callee: Callee)
    decreases callee, 2
  {
    var loaded := LoadCode(js, db, inputs.contract);
    loaded.1.DbOk? && loaded.0.depth <= CALL_STACK_LIMIT ==>
      HonestFrame(cfg, db, EnterCall(db, Checkpoint(loaded.0).1, inputs), inputs, callee)
  }

  predicate HonestFrame(cfg: Config, db: Database, entered: (ValidJState, Option<InstructionResult>),
                        inputs: CallInputs, callee: Callee)
    decreases callee, 1
  {
    RunsCode(entered, inputs, callee) ==> HonestCallee(cfg, db, entered.0, inputs.contextAddress, callee)
  }

  predicate RunsCode(entered: (ValidJState, Option<InstructionResult>), inputs: CallInputs, callee: Callee) {
    entered.1.None? && !IsPrecompile(inputs.contract, entered.0.numOfPrecompiles) && callee.hasCode
  }

  predicate HonestCreate(cfg: Config, db: Database, js: ValidJState, inputs: CreateInputs, callee: Callee)
    decreases callee, 1
  {
    var prepared := PrepareCreate(db, js, inputs);
    prepared.1.None? ==>
      var made := CreateAccount(Checkpoint(prepared.0).1, cfg.Enabled(SPURIOUS_DRAGON), inputs.caller, inputs.created,
                                inputs.value);
      made.1.None? ==> HonestCallee(cfg, db, made.0, inputs.created, callee)
  }

  // ---------------------------------------------------------------- fatal frames

  /** Between loaded accounts, a payment fails for want of funds or room, never because of the database. */
  lemma LoadedEntry(db: Database, js: ValidJState, inputs: CallInputs)
    requires inputs.source in js.state && inputs.target in js.state
    ensures var error := EnterCall(db, js, inputs).1;
            error.None? || error == Some(OutOfFund) || error == Some(OverflowPayment)
  {
  }

  /** The call is between a loaded payer and the contract itself or another loaded account, as all calls are. */
  predicate PartiesLoaded(js: ValidJState, inputs: CallInputs) {
    inputs.source in js.state && (inputs.target in js.state || inputs.target == inputs.contract)
  }

  lemma FinishCallFatal(cfg: Config, db: Database, js: ValidJState, error: Option<InstructionResult>,
                        cp: JournalCheckpoint, inputs: CallInputs, callee: Callee)
    requires FinishCall(cfg, db, js, error, cp, inputs, callee).Some?
    requires error.None? || error == Some(OutOfFund) || error == Some(OverflowPayment)
    ensures FinishCall(cfg, db, js, error, cp, inputs, callee).value.result.IsFatal() ==>
              callee.exit.IsFatal() && RunsCode((js, error), inputs, callee)
  {
  }

  /** A fatal result of a call is a failed load of code, or the interpreter's own. */
  lemma FatalCall(cfg: Config, db: Database, js: ValidJState, inputs: CallInputs, callee: Callee)
    requires PartiesLoaded(js, inputs)
    requires CallInner(cfg, db, js, inputs, callee).Some?
             && CallInner(cfg, db, js, inputs, callee).value.result.IsFatal()
    ensures var loaded := LoadCode(js, db, inputs.contract);
            loaded.1.DbErr? ||
            (&& loaded.0.depth <= CALL_STACK_LIMIT
             && callee.exit.IsFatal()
             && RunsCode(EnterCall(db, Checkpoint(loaded.0).1, inputs), inputs, callee))
  {
    var (js1, loaded) := LoadCode(js, db, inputs.contract);
    if loaded.DbOk? && js1.depth <= CALL_STACK_LIMIT {
      var (cp, js2) := Checkpoint(js1);
      var (js3, error) := EnterCall(db, js2, inputs);
      LoadedEntry(db, js2, inputs);
      FinishCallFatal(cfg, db, js3, error, cp, inputs, callee);
    }
  }

  lemma FinishCreateFatal(cfg: Config, js: ValidJState, cp: JournalCheckpoint, inputs: CreateInputs, callee: Callee)
    requires FinishCreate(cfg, js, cp, inputs, callee).Some?
    ensures FinishCreate(cfg, js, cp, inputs, callee).value.result.IsFatal() ==> callee.exit.IsFatal()
  {
  }

  lemma CreateErrorsNotFatal(js: ValidJState, isSpuriousDragon: bool, caller: Address, a: Address, balance: U256)
    requires a in js.state && caller in js.state
    ensures var error := CreateAccount(js, isSpuriousDragon, caller, a, balance).1;
            error.Some? ==> !error.value.IsFatal()
  {
  }

  /** A fatal result of a create is a failed load, or the interpreter's own. */
  lemma FatalCreate(cfg: Config, db: Database, js: ValidJState, inputs: CreateInputs, callee: Callee)
    requires CreateInner(cfg, db, js, inputs, callee).Some?
             && CreateInner(cfg, db, js, inputs, callee).value.result.IsFatal()
    ensures var prepared := PrepareCreate(db, js, inputs);
            prepared.1 == Some(FatalExternalError) ||
            (&& prepared.1.None?
             && callee.exit.IsFatal()
             && CreateAccount(Checkpoint(prepared.0).1, cfg.Enabled(SPURIOUS_DRAGON), inputs.caller, inputs.created,
                              inputs.value).1.None?)
  {
    var (js1, refused) := PrepareCreate(db, js, inputs);
    if refused.None? {
      var (cp, js2) := Checkpoint(js1);
      var (js3, error) := CreateAccount(js2, cfg.Enabled(SPURIOUS_DRAGON), inputs.caller, inputs.created, inputs.value);
      CreateErrorsNotFatal(js2, cfg.Enabled(SPURIOUS_DRAGON), inputs.caller, inputs.created, inputs.value);
      if error.None? {
        var js4 := RunOps(cfg, db, js3, inputs.created, callee.body).value;
        FinishCreateFatal(cfg, js4, cp, inputs, callee);
      }
    }
  }

  // ---------------------------------------------------------------- fatal frames have kept the error

  /** A run whose last operation failed has kept an error. */
  lemma {:induction false} FailedRunRecords(cfg: Config, db: Database, js: ValidJState, self: Address,
                                            body: seq<HostOp>)
    requires self in js.state && TotalSupply(db, js.state) < TWO_256
    requires HonestBody(cfg, db, js, self, body) && LastFailed(cfg, db, js, self, body)
    ensures BodyRecords(cfg, db, js, self, body)
    decreases body
  {
    if |body| == 1 {
      FailedOpRecords(cfg, db, js, self, body[0]);
    } else {
      RunOpTracked(cfg, db, js, self, body[0]);
      var js1 := RunOp(cfg, db, js, self, body[0]).value;
      SmallerSupply(db, js, Some(js1));
      FailedRunRecords(cfg, db, js1, self, body[1..]);
    }
  }

  lemma {:induction false} FailedOpRecords(cfg: Config, db: Database, js: ValidJState, self: Address, op: HostOp)
    requires self in js.state && TotalSupply(db, js.state) < TWO_256
    requires HonestOp(cfg, db, js, self, op) && Failed(cfg, db, js, self, op)
    ensures OpRecords(cfg, db, js, self, op)
    decreases op
  {
    match op
    case OpCall(scheme, to, value, gasLimit, callee) =>
      FailedCallRecords(cfg, db, js, CallInputsOf(self, scheme, to, value, gasLimit), callee);
    case OpCreate(created, value, gasLimit, callee) =>
      FatalCreateIsRecorded(cfg, db, js, CreateInputs(self, created, value, gasLimit), callee);
    case _ =>
  }

  lemma {:induction false} FailedCallRecords(cfg: Config, db: Database, js: ValidJState, inputs: CallInputs,
                                             callee: Callee)
    requires inputs.source in js.state && ContextLoaded(js, inputs) && TotalSupply(db, js.state) < TWO_256
    requires inputs.target == inputs.source || inputs.target == inputs.contract
    requires HonestCallFrom(cfg, db, js, inputs, callee) && FailedCall(cfg, db, js, inputs, callee)
    ensures CallFromRecords(cfg, db, js, inputs, callee)
    decreases callee, 3
  {
    var loaded := LoadAccountExist(js, db, inputs.contract);
    if loaded.1.DbOk? {
      TrackedLoadAccount(db, js, inputs.contract);
      SmallerSupply(db, js, Some(loaded.0));
      FatalCallIsRecorded(cfg, db, loaded.0, inputs, callee);
    }
  }

  /** A call that enters its callee, the callee's errors being kept. */
  lemma EnteredRecords(cfg: Config, db: Database, js: ValidJState, inputs: CallInputs, callee: Callee,
                       js1: ValidJState, entered: (ValidJState, Option<InstructionResult>))
    requires LoadCode(js, db, inputs.contract).1.DbOk? && js1 == LoadCode(js, db, inputs.contract).0
             && js1.depth <= CALL_STACK_LIMIT
    requires entered == EnterCall(db, Checkpoint(js1).1, inputs) && RunsCode(entered, inputs, callee)
    requires BodyRecords(cfg, db, entered.0, inputs.contextAddress, callee.body)
    ensures CallRecords(cfg, db, js, inputs, callee)
  {
    assert FrameRecords(cfg, db, Checkpoint(js1).1, inputs, callee);
  }

  lemma EnteredHonest(cfg: Config, db: Database, js: ValidJState, inputs: CallInputs, callee: Callee,
                      js1: ValidJState, entered: (ValidJState, Option<InstructionResult>))
    requires LoadCode(js, db, inputs.contract).1.DbOk? && js1 == LoadCode(js, db, inputs.contract).0
             && js1.depth <= CALL_STACK_LIMIT
    requires entered == EnterCall(db, Checkpoint(js1).1, inputs) && RunsCode(entered, inputs, callee)
    requires HonestCall(cfg, db, js, inputs, callee)
    ensures HonestCallee(cfg, db, entered.0, inputs.contextAddress, callee)
  {
    assert HonestFrame(cfg, db, entered, inputs, callee);
  }

  /** The callee's account is loaded when it starts. */
  lemma EnteredLoaded(db: Database, js: ValidJState, inputs: CallInputs, js1: ValidJState,
                      entered: (ValidJState, Option<InstructionResult>))
    requires ContextLoaded(js, inputs) && TotalSupply(db, js.state) < TWO_256
    requires LoadCode(js, db, inputs.contract).1.DbOk? && js1 == LoadCode(js, db, inputs.contract).0
    requires entered == EnterCall(db, Checkpoint(js1).1, inputs) && entered.1.None?
    ensures inputs.contextAddress in entered.0.state && TotalSupply(db, entered.0.state) < TWO_256
  {
    TrackedLoadCode(db, js, inputs.contract);
    SmallerSupply(db, js, Some(js1));
    EnterCallTracked(db, Checkpoint(js1).1, inputs);
    SmallerSupply(db, Checkpoint(js1).1, Some(entered.0));
  }

  /** A call of any scheme that ends fatally has kept an error, whatever frames are nested in it. */
  lemma {:induction false} FatalCallIsRecorded(cfg: Config, db: Database, js: ValidJState, inputs: CallInputs,
                                               callee: Callee)
    requires PartiesLoaded(js, inputs) && ContextLoaded(js, inputs) && TotalSupply(db, js.state) < TWO_256
    requires HonestCall(cfg, db, js, inputs, callee)
    requires CallInner(cfg, db, js, inputs, callee).Some?
             && CallInner(cfg, db, js, inputs, callee).value.result.IsFatal()
    ensures CallRecords(cfg, db, js, inputs, callee)
    decreases callee, 2
  {
    FatalCall(cfg, db, js, inputs, callee);
    var js1 := LoadCode(js, db, inputs.contract).0;
    if LoadCode(js, db, inputs.contract).1.DbOk? {
      var entered := EnterCall(db, Checkpoint(js1).1, inputs);
      EnteredLoaded(db, js, inputs, js1, entered);
      EnteredHonest(cfg, db, js, inputs, callee, js1, entered);
      FatalCalleeRecords(cfg, db, entered.0, inputs.contextAddress, callee);
      EnteredRecords(cfg, db, js, inputs, callee, js1, entered);
    }
  }

  lemma {:induction false} FatalCalleeRecords(cfg: Config, db: Database, js: ValidJState, self: Address, callee: Callee)
    requires self in js.state && TotalSupply(db, js.state) < TWO_256
    requires HonestCallee(cfg, db, js, self, callee) && callee.exit.IsFatal()
    ensures BodyRecords(cfg, db, js, self, callee.body)
    decreases callee, 0
  {
    FailedRunRecords(cfg, db, js, self, callee.body);
  }

  lemma {:induction false} FatalCreateIsRecorded(cfg: Config, db: Database, js: ValidJState, inputs: CreateInputs,
                                                 callee: Callee)
    requires TotalSupply(db, js.state) < TWO_256 && HonestCreate(cfg, db, js, inputs, callee)
    requires CreateInner(cfg, db, js, inputs, callee).Some?
             && CreateInner(cfg, db, js, inputs, callee).value.result.IsFatal()
    ensures CreateRecords(cfg, db, js, inputs, callee)
    decreases callee, 1
  {
    FatalCreate(cfg, db, js, inputs, callee);
    var (js1, refused) := PrepareCreate(db, js, inputs);
    if refused.None? {
      PrepareCreateTracked(db, js, inputs);
      EnoughForCreate(db, js, inputs);
      var js2 := Checkpoint(js1).1;
      TrackedCreateAccount(db, js2, cfg.Enabled(SPURIOUS_DRAGON), inputs.caller, inputs.created, inputs.value);
      var js3 := CreateAccount(js2, cfg.Enabled(SPURIOUS_DRAGON), inputs.caller, inputs.created, inputs.value).0;
      FatalCalleeRecords(cfg, db, js3, inputs.created, callee);
    }
  }
}
