/**
  What host operations answer: values, cold flags, results of calls. The journal
  and the machine that keeps copies answer alike, in every frame of every
  create-free run, so a contract cannot tell them apart, as long as 0x03 is a
  precompile or the rules are older than Spurious Dragon; the cold flag of an
  account that only a revert left loaded is where they differ otherwise.
 */
module Reports {
  import opened Words
  import opened Accounts
  import opened InstructionResults
  import opened GasMeter
  import opened Journal
  import opened Rollback
  import opened Supply
  import opened Tracking
  import opened Evm
  import opened EvmRuns
  import opened DatabaseErrors
  import opened Snapshots

  datatype Report =
    | Balance(balance: DbResult<(U256, bool)>)
    | Existing(flags: DbResult<(bool, bool)>)
    | Coded(codeHash: DbResult<(B256, bool)>)
    | Slot(slot: DbResult<(U256, bool)>)
    | Written(slots: DbResult<(U256, U256, U256, bool)>)
    | Destroyed(outcome: DbResult<SelfDestructResult>)
    | Called(target: DbResult<(bool, bool)>, result: InstructionResult, gas: Meter, output: Bytes)

  /** `code_hash` of the host, and of `code` the cold flag, since that returns no code here. */
  function CodeHash(db: Database, js: ValidJState, a: Address): DbResult<(B256, bool)> {
    var (js1, isCold) := LoadCode(js, db, a);
    if isCold.DbErr? then DbErr else DbOk((HashAnswer(js1.state[a]), isCold.value))
  }

  /** An empty account answers zero. */
  function HashAnswer(acc: Account): B256 {
    if acc.info.IsEmpty() then 0 else acc.info.codeHash
  }

  /** The answer to an operation that opens no frame; a log has none. */
  function PlainReport(db: Database, js: ValidJState, self: Address, op: HostOp): seq<Report>
    requires self in js.state && !op.OpCall? && !op.OpCreate?
  {
    match op
    case OpBalance(a) =>
      var loaded := LoadAccount(js, db, a);
      [Balance(if loaded.1.DbErr? then DbErr else DbOk((loaded.0.state[a].info.balance, loaded.1.value)))]
    case OpLoadAccount(a) => [Existing(LoadAccountExist(js, db, a).1)]
    case OpLoadCode(a) => [Coded(CodeHash(db, js, a))]
    case OpSload(key) => [Slot(Sload(js, db, self, key).1)]
    case OpSstore(key, value) => [Written(Sstore(js, db, self, key, value).1)]
    case OpLog(_) => []
    case OpSelfDestruct(target) => [Destroyed(SelfDestructAccount(js, db, self, target).1)]
  }

  /** How a call ends whose transfer was made, or failed. */
  function EndOfEntered(cfg: Config, entered: (ValidJState, Option<InstructionResult>), inputs: CallInputs,
                        callee: Callee)
    : (InstructionResult, Meter, Bytes)
  {
    var gas := NewMeter(inputs.gasLimit);
    if entered.1.Some? then (entered.1.value, gas, [])
    else if IsPrecompile(inputs.contract, entered.0.numOfPrecompiles) then CallPrecompile(cfg, gas, callee.precompile)
    else if callee.hasCode then (callee.exit, callee.gas, callee.output)
    else (Stop, gas, [])
  }

  /** How it ends from the load of its code on. */
  function EndOfCall(cfg: Config, coded: (ValidJState, DbResult<bool>),
                     entered: (ValidJState, Option<InstructionResult>),
                     inputs: CallInputs, callee: Callee): (InstructionResult, Meter, Bytes)
  {
    if coded.1.DbErr? then (FatalExternalError, NewMeter(inputs.gasLimit), [])
    else if coded.0.depth > CALL_STACK_LIMIT then (CallTooDeep, NewMeter(inputs.gasLimit), [])
    else EndOfEntered(cfg, entered, inputs, callee)
  }

  predicate Enters(coded: (ValidJState, DbResult<bool>), entered: (ValidJState, Option<InstructionResult>),
                   inputs: CallInputs, callee: Callee) {
    coded.1.DbOk? && coded.0.depth <= CALL_STACK_LIMIT && RunsCode(entered, inputs, callee)
  }

  /** What `call_inner` hands back is what is reported of it. */
  lemma CallEndsAs(cfg: Config, db: Database, js: ValidJState, inputs: CallInputs, callee: Callee)
    requires CallInner(cfg, db, js, inputs, callee).Some?
    ensures var r, coded := CallInner(cfg, db, js, inputs, callee).value, LoadCode(js, db, inputs.contract);
            (r.result, r.gas, r.output) == EndOfCall(cfg, coded, EnterCall(db, Checkpoint(coded.0).1, inputs), inputs,
                                                     callee)
  {
    var (js1, loaded) := LoadCode(js, db, inputs.contract);
    if loaded.DbOk? && js1.depth <= CALL_STACK_LIMIT {
      var (cp, js2) := Checkpoint(js1);
      var (js3, error) := EnterCall(db, js2, inputs);
      FinishedAs(cfg, db, js3, error, cp, inputs, callee);
    }
  }

  lemma FinishedAs(cfg: Config, db: Database, js: ValidJState, error: Option<InstructionResult>, cp: JournalCheckpoint,
                   inputs: CallInputs, callee: Callee)
    requires FinishCall(cfg, db, js, error, cp, inputs, callee).Some?
    ensures var r := FinishCall(cfg, db, js, error, cp, inputs, callee).value;
            (r.result, r.gas, r.output) == EndOfEntered(cfg, (js, error), inputs, callee)
  {
  }

  // ---------------------------------------------------------------- reports of runs

  function Reports(cfg: Config, db: Database, js: ValidJState, self: Address, body: seq<HostOp>): seq<Report>
    requires self in js.state
    decreases body
  {
    if body == [] then []
    else
      var r := RunOp(cfg, db, js, self, body[0]);
      OpReports(cfg, db, js, self, body[0])
      + if r.Some? && self in r.value.state then Reports(cfg, db, r.value, self, body[1..]) else []
  }

  function OpReports(cfg: Config, db: Database, js: ValidJState, self: Address, op: HostOp): seq<Report>
    requires self in js.state
    decreases op
  {
    match op
    case OpCall(scheme, to, value, gasLimit, callee) =>
      CallReports(cfg, db, js, CallInputsOf(self, scheme, to, value, gasLimit), callee)
    case OpCreate(_, _, _, _) => []
    case _ => PlainReport(db, js, self, op)
  }

  function CallReports(cfg: Config, db: Database, js: ValidJState, inputs: CallInputs, callee: Callee): seq<Report>
    decreases callee, 2
  {
    var loaded := LoadAccountExist(js, db, inputs.contract);
    if loaded.1.DbErr? then [Existing(DbErr)]
    else
      var coded := LoadCode(loaded.0, db, inputs.contract);
      CodedReports(cfg, db, loaded.1, coded, EnterCall(db, Checkpoint(coded.0).1, inputs), inputs, callee)
  }

  function CodedReports(cfg: Config, db: Database, flags: DbResult<(bool, bool)>, coded: (ValidJState, DbResult<bool>),
                        entered: (ValidJState, Option<InstructionResult>), inputs: CallInputs,
                          callee: Callee): seq<Report>
    decreases callee, 1
  {
    var end := EndOfCall(cfg, coded, entered, inputs, callee);
    (if Enters(coded, entered, inputs, callee) && inputs.contextAddress in entered.0.state
     then Reports(cfg, db, entered.0, inputs.contextAddress, callee.body) else [])
    + [Called(flags, end.0, end.1, end.2)]
  }

  // The same of the machine that keeps copies.

  function SnapReports(cfg: Config, db: Database, js: ValidJState, self: Address, body: seq<HostOp>): seq<Report>
    requires self in js.state
    decreases body
  {
    if body == [] then []
    else
      SnapOpReports(cfg, db, js, self, body[0])
      + SnapReports(cfg, db, SnapOp(cfg, db, js, self, body[0]), self, body[1..])
  }

  function SnapOpReports(cfg: Config, db: Database, js: ValidJState, self: Address, op: HostOp): seq<Report>
    requires self in js.state
    decreases op
  {
    match op
    case OpCall(scheme, to, value, gasLimit, callee) =>
      SnapCallReports(cfg, db, js, CallInputsOf(self, scheme, to, value, gasLimit), callee)
    case OpCreate(_, _, _, _) => []
    case _ => PlainReport(db, js, self, op)
  }

  function SnapCallReports(cfg: Config, db: Database, js: ValidJState, inputs: CallInputs, callee: Callee): seq<Report>
    decreases callee, 2
  {
    var loaded := LoadAccountExist(js, db, inputs.contract);
    if loaded.1.DbErr? then [Existing(DbErr)]
    else
      var coded := LoadCode(loaded.0, db, inputs.contract);
      SnapCodedReports(cfg, db, loaded.1, coded, EnterCall(db, SnapOpen(coded.0), inputs), inputs, callee)
  }

  function SnapCodedReports(cfg: Config, db: Database, flags: DbResult<(bool, bool)>,
                            coded: (ValidJState, DbResult<bool>),
                            entered: (ValidJState, Option<InstructionResult>), inputs: CallInputs,
                              callee: Callee): seq<Report>
    decreases callee, 1
  {
    var end := EndOfCall(cfg, coded, entered, inputs, callee);
    (if Enters(coded, entered, inputs, callee) && inputs.contextAddress in entered.0.state
     then SnapReports(cfg, db, entered.0, inputs.contextAddress, callee.body) else [])
    + [Called(flags, end.0, end.1, end.2)]
  }

  // ---------------------------------------------------------------- equal answers

  /** The account that a revert may leave loaded is a precompile, which is never cold, or nothing is left loaded. */
  predicate ThreeNeverCold(js: ValidJState) {
    js.isBeforeSpuriousDragon || IsPrecompile(PRECOMPILE3, js.numOfPrecompiles)
  }

  /** The cold flags agree, except for what a revert left loaded and is no precompile. */
  lemma SameColdFlag(db: Database, snap: ValidJState, live: ValidJState, a: Address)
    requires Sim(db, snap, live)
    ensures LoadAccount(snap, db, a).1 == LoadAccount(live, db, a).1
            <==> !(a !in snap.state && a in live.state && !IsPrecompile(a, snap.numOfPrecompiles))
    ensures a !in snap.state && a in live.state ==> Exempt(!snap.isBeforeSpuriousDragon, a)
  {
    SimLoad(db, snap, live, a);
    if a in snap.state {
      SimAccount(db, snap, live, a);
    } else if a in live.state {
      assert Leftover(db, !snap.isBeforeSpuriousDragon, a, live.state[a]);
    }
  }

  lemma SameFlags(db: Database, snap: ValidJState, live: ValidJState, a: Address)
    requires Sim(db, snap, live) && ThreeNeverCold(snap)
    ensures LoadAccount(snap, db, a).1 == LoadAccount(live, db, a).1
    ensures LoadAccountExist(snap, db, a).1 == LoadAccountExist(live, db, a).1
  {
    SameColdFlag(db, snap, live, a);
    SimLoad(db, snap, live, a);
    var snap1, live1 := LoadAccount(snap, db, a).0, LoadAccount(live, db, a).0;
    if a in snap1.state {
      SimAccount(db, snap1, live1, a);
    }
  }

  lemma SameSlot(db: Database, snap: ValidJState, live: ValidJState, a: Address, key: U256)
    requires Sim(db, snap, live) && a in snap.state && a in live.state
    ensures Sload(snap, db, a, key).1 == Sload(live, db, a, key).1
  {
    SimAccount(db, snap, live, a);
  }

  lemma SameWrite(db: Database, snap: ValidJState, live: ValidJState, a: Address, key: U256, value: U256)
    requires Sim(db, snap, live) && a in snap.state && a in live.state
    ensures Sstore(snap, db, a, key, value).1 == Sstore(live, db, a, key, value).1
  {
    SameSlot(db, snap, live, a, key);
    SimSload(db, snap, live, a, key);
    SimAccount(db, Sload(snap, db, a, key).0, Sload(live, db, a, key).0, a);
  }

  /** What a selfdestruct answers, from the load of its target. */
  function DestructionAnswer(loaded: (ValidJState, DbResult<(bool, bool)>), a: Address): DbResult<SelfDestructResult>
    requires a in loaded.0.state
  {
    if loaded.1.DbErr? then DbErr
    else
      var acc := loaded.0.state[a];
      DbOk(SelfDestructResult(acc.info.balance != 0, loaded.1.value.1, loaded.1.value.0, acc.selfDestructed))
  }

  lemma DestructionAnswers(db: Database, js: ValidJState, a: Address, target: Address)
    requires a in js.state
    ensures SelfDestructAccount(js, db, a, target).1 == DestructionAnswer(LoadAccountExist(js, db, target), a)
  {
  }

  lemma SameDestruction(db: Database, snap: ValidJState, live: ValidJState, a: Address, target: Address)
    requires Sim(db, snap, live) && ThreeNeverCold(snap) && a in snap.state && a in live.state
    ensures SelfDestructAccount(snap, db, a, target).1 == SelfDestructAccount(live, db, a, target).1
  {
    SameFlags(db, snap, live, target);
    SimLoad(db, snap, live, target);
    SimAccount(db, LoadAccountExist(snap, db, target).0, LoadAccountExist(live, db, target).0, a);
    DestructionAnswers(db, snap, a, target);
    DestructionAnswers(db, live, a, target);
  }

  lemma SameBalance(db: Database, snap: ValidJState, live: ValidJState, self: Address, a: Address)
    requires Sim(db, snap, live) && ThreeNeverCold(snap) && self in snap.state && self in live.state
    ensures PlainReport(db, snap, self, OpBalance(a)) == PlainReport(db, live, self, OpBalance(a))
  {
    SameFlags(db, snap, live, a);
    SimLoad(db, snap, live, a);
    var snap1, live1 := LoadAccount(snap, db, a).0, LoadAccount(live, db, a).0;
    if a in snap1.state {
      SimAccount(db, snap1, live1, a);
    }
  }

  /** Caching the code changes nothing that the hash is answered from. */
  lemma CodeHashIs(db: Database, js: ValidJState, a: Address)
    ensures var js1 := LoadAccount(js, db, a).0;
            CodeHash(db, js, a)
            == if LoadCode(js, db, a).1.DbErr? then DbErr
               else DbOk((HashAnswer(js1.state[a]), LoadAccount(js, db, a).1.value))
  {
  }

  lemma SameCodeHash(db: Database, snap: ValidJState, live: ValidJState, a: Address)
    requires Sim(db, snap, live) && ThreeNeverCold(snap)
    ensures CodeHash(db, snap, a) == CodeHash(db, live, a)
  {
    SameFlags(db, snap, live, a);
    SimLoadCode(db, snap, live, a);
    CodeHashIs(db, snap, a);
    CodeHashIs(db, live, a);
    SimLoad(db, snap, live, a);
    var snap1, live1 := LoadAccount(snap, db, a).0, LoadAccount(live, db, a).0;
    if a in snap1.state {
      SimAccount(db, snap1, live1, a);
    }
  }

  lemma SamePlainReport(db: Database, snap: ValidJState, live: ValidJState, self: Address, op: HostOp)
    requires !op.OpCall? && !op.OpCreate?
    requires Sim(db, snap, live) && ThreeNeverCold(snap) && self in snap.state && self in live.state
    ensures PlainReport(db, snap, self, op) == PlainReport(db, live, self, op)
  {
    match op
    case OpBalance(a) => SameBalance(db, snap, live, self, a);
    case OpLoadAccount(a) => SameExisting(db, snap, live, self, a);
    case OpLoadCode(a) => SameCoded(db, snap, live, self, a);
    case OpSload(key) => SameSlotRead(db, snap, live, self, key);
    case OpSstore(key, value) => SameSlotWritten(db, snap, live, self, key, value);
    case OpLog(_) =>
    case OpSelfDestruct(target) => SameDestroyed(db, snap, live, self, target);
  }

  lemma SameExisting(db: Database, snap: ValidJState, live: ValidJState, self: Address, a: Address)
    requires Sim(db, snap, live) && ThreeNeverCold(snap) && self in snap.state && self in live.state
    ensures PlainReport(db, snap, self, OpLoadAccount(a)) == PlainReport(db, live, self, OpLoadAccount(a))
  {
    SameFlags(db, snap, live, a);
  }

  lemma SameCoded(db: Database, snap: ValidJState, live: ValidJState, self: Address, a: Address)
    requires Sim(db, snap, live) && ThreeNeverCold(snap) && self in snap.state && self in live.state
    ensures PlainReport(db, snap, self, OpLoadCode(a)) == PlainReport(db, live, self, OpLoadCode(a))
  {
    SameCodeHash(db, snap, live, a);
  }

  lemma SameSlotRead(db: Database, snap: ValidJState, live: ValidJState, self: Address, key: U256)
    requires Sim(db, snap, live) && self in snap.state && self in live.state
    ensures PlainReport(db, snap, self, OpSload(key)) == PlainReport(db, live, self, OpSload(key))
  {
    SameSlot(db, snap, live, self, key);
  }

  lemma SameSlotWritten(db: Database, snap: ValidJState, live: ValidJState, self: Address, key: U256, value: U256)
    requires Sim(db, snap, live) && self in snap.state && self in live.state
    ensures PlainReport(db, snap, self, OpSstore(key, value)) == PlainReport(db, live, self, OpSstore(key, value))
  {
    SameWrite(db, snap, live, self, key, value);
    WrittenReport(db, snap, self, key, value, Sstore(snap, db, self, key, value).1);
    WrittenReport(db, live, self, key, value, Sstore(live, db, self, key, value).1);
  }

  lemma WrittenReport(db: Database, js: ValidJState, self: Address, key: U256, value: U256,
                      r: DbResult<(U256, U256, U256, bool)>)
    requires self in js.state && r == Sstore(js, db, self, key, value).1
    ensures PlainReport(db, js, self, OpSstore(key, value)) == [Written(r)]
  {
  }

  lemma SameDestroyed(db: Database, snap: ValidJState, live: ValidJState, self: Address, target: Address)
    requires Sim(db, snap, live) && ThreeNeverCold(snap) && self in snap.state && self in live.state
    ensures PlainReport(db, snap, self, OpSelfDestruct(target)) == PlainReport(db, live, self, OpSelfDestruct(target))
  {
    SameDestruction(db, snap, live, self, target);
    DestroyedReport(db, snap, self, target, SelfDestructAccount(snap, db, self, target).1);
    DestroyedReport(db, live, self, target, SelfDestructAccount(live, db, self, target).1);
  }

  lemma DestroyedReport(db: Database, js: ValidJState, self: Address, target: Address, r: DbResult<SelfDestructResult>)
    requires self in js.state && r == SelfDestructAccount(js, db, self, target).1
    ensures PlainReport(db, js, self, OpSelfDestruct(target)) == [Destroyed(r)]
  {
  }

  /** The rules and the number of precompiles are fixed. */
  lemma StillNeverCold(cfg: Config, db: Database, snap: ValidJState, live: ValidJState, live1: ValidJState,
                       snap1: ValidJState)
    requires Sim(db, snap, live) && Sim(db, snap1, live1) && Continues(live, live1) && ThreeNeverCold(snap)
    ensures ThreeNeverCold(snap1)
  {
  }

  /** On create-free runs the journal answers every operation, in every frame, as the copies do. */
  lemma {:induction false} ReportsAlike(cfg: Config, db: Database, snap: ValidJState, live: ValidJState,
                                        self: Address, body: seq<HostOp>)
    requires Sim(db, snap, live) && ThreeNeverCold(snap) && CreateFree(body)
    requires self in snap.state && self in live.state && TotalSupply(db, live.state) < TWO_256
    ensures Reports(cfg, db, live, self, body) == SnapReports(cfg, db, snap, self, body)
    decreases body
  {
    if body != [] {
      OpReportsAlike(cfg, db, snap, live, self, body[0]);
      SimOp(cfg, db, snap, live, self, body[0]);
      RunOpTracked(cfg, db, live, self, body[0]);
      var snap1, live1 := SnapOp(cfg, db, snap, self, body[0]), RunOp(cfg, db, live, self, body[0]).value;
      SmallerSupply(db, live, Some(live1));
      StillNeverCold(cfg, db, snap, live, live1, snap1);
      ReportsAlike(cfg, db, snap1, live1, self, body[1..]);
    }
  }

  lemma {:induction false} OpReportsAlike(cfg: Config, db: Database, snap: ValidJState, live: ValidJState,
                                          self: Address, op: HostOp)
    requires Sim(db, snap, live) && ThreeNeverCold(snap) && CreateFreeOp(op)
    requires self in snap.state && self in live.state && TotalSupply(db, live.state) < TWO_256
    ensures OpReports(cfg, db, live, self, op) == SnapOpReports(cfg, db, snap, self, op)
    decreases op
  {
    match op
    case OpCall(scheme, to, value, gasLimit, callee) =>
      CallReportsAlike(cfg, db, snap, live, CallInputsOf(self, scheme, to, value, gasLimit), callee);
    case _ => SamePlainReport(db, snap, live, self, op);
  }

  lemma {:induction false} CallReportsAlike(cfg: Config, db: Database, snap: ValidJState, live: ValidJState,
                                            inputs: CallInputs, callee: Callee)
    requires Sim(db, snap, live) && ThreeNeverCold(snap) && CreateFree(callee.body)
    requires ContextLoaded(snap, inputs) && ContextLoaded(live, inputs) && TotalSupply(db, live.state) < TWO_256
    ensures CallReports(cfg, db, live, inputs, callee) == SnapCallReports(cfg, db, snap, inputs, callee)
    decreases callee, 2
  {
    SameFlags(db, snap, live, inputs.contract);
    SimLoad(db, snap, live, inputs.contract);
    var snap1, live1 := LoadAccountExist(snap, db, inputs.contract).0, LoadAccountExist(live, db, inputs.contract).0;
    if inputs.contract in live1.state {
      TrackedLoadAccount(db, live, inputs.contract);
      SmallerSupply(db, live, Some(live1));
      SameFlags(db, snap1, live1, inputs.contract);
      SimLoadCode(db, snap1, live1, inputs.contract);
      TrackedLoadCode(db, live1, inputs.contract);
      var snap2, live2 := LoadCode(snap1, db, inputs.contract), LoadCode(live1, db, inputs.contract);
      SmallerSupply(db, live1, Some(live2.0));
      StillNeverCold(cfg, db, snap1, live1, live2.0, snap2.0);
      CodedReportsAlike(cfg, db, LoadAccountExist(live, db, inputs.contract).1, snap2, live2, inputs, callee);
    }
  }

  lemma {:induction false} CodedReportsAlike(
    cfg: Config, db: Database, flags: DbResult<(bool, bool)>, snap: (ValidJState, DbResult<bool>),
      live: (ValidJState, DbResult<bool>),
    inputs: CallInputs, callee: Callee)
    requires Sim(db, snap.0, live.0) && snap.1 == live.1 && ThreeNeverCold(snap.0) && CreateFree(callee.body)
    requires inputs.contract in snap.0.state && inputs.contract in live.0.state
    requires ContextLoaded(snap.0, inputs) && ContextLoaded(live.0, inputs) && TotalSupply(db, live.0.state) < TWO_256
    ensures CodedReports(cfg, db, flags, live, EnterCall(db, Checkpoint(live.0).1, inputs), inputs, callee)
         == SnapCodedReports(cfg, db, flags, snap, EnterCall(db, SnapOpen(snap.0), inputs), inputs, callee)
    decreases callee, 1
  {
    var snap1, live1, error := SimEntry(db, snap.0, live.0, inputs);
    EnteredReportsAlike(cfg, db, flags, snap, live, EnterCall(db, SnapOpen(snap.0), inputs),
                        EnterCall(db, Checkpoint(live.0).1, inputs),
                        inputs, callee);
  }

  lemma {:induction false} EnteredReportsAlike(
    cfg: Config, db: Database, flags: DbResult<(bool, bool)>, snap: (ValidJState, DbResult<bool>),
      live: (ValidJState, DbResult<bool>),
    entered: (ValidJState, Option<InstructionResult>), entered': (ValidJState, Option<InstructionResult>),
      inputs: CallInputs, callee: Callee)
    requires snap.0.depth == live.0.depth && snap.1 == live.1 && ThreeNeverCold(entered.0) && CreateFree(callee.body)
    requires Sim(db, entered.0, entered'.0) && entered.1 == entered'.1 && TotalSupply(db, entered'.0.state) < TWO_256
    requires entered.1.None? ==> inputs.contextAddress in entered.0.state && inputs.contextAddress in entered'.0.state
    ensures CodedReports(cfg, db, flags, live, entered', inputs, callee)
            == SnapCodedReports(cfg, db, flags, snap, entered, inputs, callee)
    decreases callee, 0
  {
    if RunsCode(entered, inputs, callee) {
      ReportsAlike(cfg, db, entered.0, entered'.0, inputs.contextAddress, callee.body);
    }
  }
}
