/**
  Whole runs. Every tree of host operations, with frames nested to any depth,
  runs without a panic, stays tracked, and leaves the depth as it found it; a
  frame that fails is all-or-nothing.
 */
module EvmRuns {
  import opened Words
  import opened Accounts
  import opened InstructionResults
  import opened Journal
  import opened Rollback
  import opened Supply
  import opened Tracking
  import opened Frames
  import opened Evm

  /** `js'` is reached from `js` by tracked operations that end in the frame they began in. */
  ghost predicate Ran(db: Database, js: ValidJState, js': Option<ValidJState>) {
    js'.Some? && Tracked(db, js, js'.value) && js'.value.depth == js.depth
  }

  lemma RanTrans(db: Database, a: ValidJState, b: ValidJState, c: Option<ValidJState>)
    requires Ran(db, a, Some(b)) && Ran(db, b, c)
    ensures Ran(db, a, c)
  {
    TrackedTrans(db, a, b, c.value);
  }

  /** `CloseFrame` after a tracked frame body. */
  lemma ClosedFrame(db: Database, js: ValidJState, js': ValidJState, ok: bool)
    requires Ran(db, Checkpoint(js).1, Some(js'))
    ensures var r := CloseFrame(js', Checkpoint(js).0, ok);
            && Ran(db, js, r)
            && (!ok ==>
                  && Restored(db, !js.isBeforeSpuriousDragon, js.state, r.value.state)
                  && r.value.(state := js.state) == js)
  {
    if ok {
      CommittedFrame(db, js, js');
    } else {
      RevertedFrame(db, js, js');
    }
  }

  lemma SmallerSupply(db: Database, js: ValidJState, js': Option<ValidJState>)
    requires Ran(db, js, js') && TotalSupply(db, js.state) < TWO_256
    ensures TotalSupply(db, js'.value.state) < TWO_256
    ensures js.state.Keys <= js'.value.state.Keys
  {
  }

  /** `r` ends a frame opened in `js`: tracked, and restoring `js` if it failed. */
  ghost predicate FrameOutcome(db: Database, js: ValidJState, r: Option<Outcome>) {
    && r.Some?
    && Ran(db, js, Some(r.value.js))
    && (!r.value.result.IsOk() ==>
          && Restored(db, !js.isBeforeSpuriousDragon, js.state, r.value.js.state)
          && r.value.js.(state := js.state) == js)
  }

  // ---------------------------------------------------------------- runs

  lemma {:induction false} RunOpsTracked(cfg: Config, db: Database, js: ValidJState, self: Address, body: seq<HostOp>)
    requires self in js.state && TotalSupply(db, js.state) < TWO_256
    ensures Ran(db, js, RunOps(cfg, db, js, self, body))
    decreases body
  {
    if body == [] {
      TrackedReflexive(db, js);
    } else {
      RunOpTracked(cfg, db, js, self, body[0]);
      var js1 := RunOp(cfg, db, js, self, body[0]).value;
      SmallerSupply(db, js, Some(js1));
      RunOpsTracked(cfg, db, js1, self, body[1..]);
      RanTrans(db, js, js1, RunOps(cfg, db, js1, self, body[1..]));
    }
  }

  lemma PlainOpTracked(db: Database, js: ValidJState, self: Address, op: HostOp)
    requires !op.OpCall? && !op.OpCreate?
    requires self in js.state && TotalSupply(db, js.state) < TWO_256
    ensures Ran(db, js, PlainOp(db, js, self, op))
  {
    match op
    case OpBalance(a) => TrackedLoadAccount(db, js, a);
    case OpLoadAccount(a) => TrackedLoadAccount(db, js, a);
    case OpLoadCode(a) => TrackedLoadCode(db, js, a);
    case OpSload(key) => TrackedSload(db, js, self, key);
    case OpSstore(key, value) => TrackedSstore(db, js, self, key, value);
    case OpLog(log) => TrackedPushLog(db, js, log);
    case OpSelfDestruct(target) => TrackedSelfDestruct(db, js, self, target);
  }

  lemma {:induction false} RunOpTracked(cfg: Config, db: Database, js: ValidJState, self: Address, op: HostOp)
    requires self in js.state && TotalSupply(db, js.state) < TWO_256
    ensures Ran(db, js, RunOp(cfg, db, js, self, op))
    decreases op
  {
    if op.OpCall? {
      CallFromTracked(cfg, db, js, CallInputsOf(self, op.scheme, op.to, op.value, op.gasLimit), op.callee);
    } else if op.OpCreate? {
      CreateInnerTracked(cfg, db, js, CreateInputs(self, op.created, op.value, op.gasLimit), op.callee);
    } else {
      PlainOpTracked(db, js, self, op);
    }
  }

  lemma {:induction false} CallFromTracked(cfg: Config, db: Database, js: ValidJState, inputs: CallInputs,
                                           callee: Callee)
    requires ContextLoaded(js, inputs) && TotalSupply(db, js.state) < TWO_256
    ensures Ran(db, js, CallFrom(cfg, db, js, inputs, callee))
    decreases callee, 3
  {
    var js1 := LoadAccountExist(js, db, inputs.contract).0;
    TrackedLoadAccount(db, js, inputs.contract);
    if inputs.contract in js1.state {
      SmallerSupply(db, js, Some(js1));
      CallInnerTracked(cfg, db, js1, inputs, callee);
      RanTrans(db, js, js1, Some(CallInner(cfg, db, js1, inputs, callee).value.js));
    }
  }

  lemma EnterCallTracked(db: Database, js: ValidJState, inputs: CallInputs)
    requires TotalSupply(db, js.state) < TWO_256
    ensures Ran(db, js, Some(EnterCall(db, js, inputs).0))
  {
    var js1 := if inputs.value == 0 then Touch(LoadAccountExist(js, db, inputs.contextAddress).0,
                                               inputs.contextAddress) else js;
    if inputs.value == 0 {
      var js0 := LoadAccountExist(js, db, inputs.contextAddress).0;
      TrackedLoadAccount(db, js, inputs.contextAddress);
      TrackedTouch(db, js0, inputs.contextAddress);
      TrackedTrans(db, js, js0, js1);
    } else {
      TrackedReflexive(db, js);
    }
    SmallerSupply(db, js, Some(js1));
    TrackedTransfer(db, js1, inputs.source, inputs.target, inputs.value);
    TrackedTrans(db, js, js1, EnterCall(db, js, inputs).0);
  }

  /** The executing account of the callee is loaded, so its storage operations find it. */
  ghost predicate ContextLoaded(js: ValidJState, inputs: CallInputs) {
    || inputs.contextAddress in js.state
    || inputs.contextAddress == inputs.target
    || inputs.contextAddress == inputs.contract
  }

  lemma {:induction false} RunCalleeTracked(cfg: Config, db: Database, js: ValidJState, inputs: CallInputs,
                                            callee: Callee)
    requires inputs.contextAddress in js.state && TotalSupply(db, js.state) < TWO_256
    ensures var r := RunCallee(cfg, db, js, inputs, callee);
            r.Some? && Ran(db, js, Some(r.value.js))
    decreases callee, 0
  {
    TrackedReflexive(db, js);
    if !IsPrecompile(inputs.contract, js.numOfPrecompiles) && callee.hasCode {
      RunOpsTracked(cfg, db, js, inputs.contextAddress, callee.body);
    }
  }

  /** A call frame is one tracked operation, and one that fails restores the state it was opened in. */
  lemma {:induction false} CallFrameTracked(cfg: Config, db: Database, js: ValidJState, inputs: CallInputs,
                                            callee: Callee)
    requires ContextLoaded(js, inputs) && inputs.contract in js.state && TotalSupply(db, js.state) < TWO_256
    ensures FrameOutcome(db, js, CallFrame(cfg, db, js, inputs, callee))
    decreases callee, 1
  {
    var (cp, js1) := Checkpoint(js);
    var (js2, error) := EnterCall(db, js1, inputs);
    EnterCallTracked(db, js1, inputs);
    SmallerSupply(db, js1, Some(js2));
    if error.Some? {
      ClosedFrame(db, js, js2, false);
    } else {
      RunCalleeTracked(cfg, db, js2, inputs, callee);
      var ran := RunCallee(cfg, db, js2, inputs, callee).value;
      RanTrans(db, js1, js2, Some(ran.js));
      ClosedFrame(db, js, ran.js, ran.result.IsOk());
    }
  }

  /** A call is one tracked operation, and a call that does not succeed restores what it found, the callee warmed. */
  lemma {:induction false} CallInnerTracked(cfg: Config, db: Database, js: ValidJState, inputs: CallInputs,
                                            callee: Callee)
    requires ContextLoaded(js, inputs) && TotalSupply(db, js.state) < TWO_256
    ensures var r := CallInner(cfg, db, js, inputs, callee);
            && r.Some?
            && Ran(db, js, Some(r.value.js))
            && (!r.value.result.IsOk() ==>
                  var warmed := LoadCode(js, db, inputs.contract).0;
                  && Restored(db, !js.isBeforeSpuriousDragon, warmed.state, r.value.js.state)
                  && r.value.js.(state := warmed.state) == warmed)
    decreases callee, 2
  {
    var (js1, loaded) := LoadCode(js, db, inputs.contract);
    TrackedLoadCode(db, js, inputs.contract);
    RestoredReflexive(db, !js.isBeforeSpuriousDragon, js1.state);
    if loaded.DbOk? && js1.depth <= CALL_STACK_LIMIT {
      SmallerSupply(db, js, Some(js1));
      CallFrameTracked(cfg, db, js1, inputs, callee);
      RanTrans(db, js, js1, Some(CallFrame(cfg, db, js1, inputs, callee).value.js));
    }
  }

  lemma ReserveCreateTracked(db: Database, js: ValidJState, inputs: CreateInputs)
    requires inputs.caller in js.state
    ensures Ran(db, js, Some(ReserveCreate(db, js, inputs).0))
  {
    var js1 := IncNonce(js, inputs.caller).0;
    TrackedIncNonce(db, js, inputs.caller);
    TrackedLoadAccount(db, js1, inputs.created);
    TrackedTrans(db, js, js1, LoadAccount(js1, db, inputs.created).0);
  }

  lemma PrepareCreateTracked(db: Database, js: ValidJState, inputs: CreateInputs)
    ensures Ran(db, js, Some(PrepareCreate(db, js, inputs).0))
  {
    TrackedReflexive(db, js);
    if js.depth <= CALL_STACK_LIMIT {
      var js1 := LoadAccount(js, db, inputs.caller).0;
      TrackedLoadAccount(db, js, inputs.caller);
      if inputs.caller in js1.state {
        ReserveCreateTracked(db, js1, inputs);
        TrackedTrans(db, js, js1, ReserveCreate(db, js1, inputs).0);
      }
    }
  }

  lemma EnoughAfterReserve(db: Database, js: ValidJState, inputs: CreateInputs)
    requires inputs.caller in js.state
    ensures ReserveCreate(db, js, inputs).0.state[inputs.caller].info.balance == js.state[inputs.caller].info.balance
  {
  }

  lemma EnoughForCreate(db: Database, js: ValidJState, inputs: CreateInputs)
    requires PrepareCreate(db, js, inputs).1.None?
    ensures inputs.value <= PrepareCreate(db, js, inputs).0.state[inputs.caller].info.balance
  {
    EnoughAfterReserve(db, LoadAccount(js, db, inputs.caller).0, inputs);
  }

  lemma CreatedMark(js: ValidJState, isSpuriousDragon: bool, caller: Address, a: Address, balance: U256)
    requires a in js.state && caller in js.state
    requires CreateAccount(js, isSpuriousDragon, caller, a, balance).1.None?
    ensures CreateAccount(js, isSpuriousDragon, caller, a, balance).0.state[a].created
  {
  }

  lemma CreateErrors(js: ValidJState, isSpuriousDragon: bool, caller: Address, a: Address, balance: U256)
    requires a in js.state && caller in js.state
    ensures var error := CreateAccount(js, isSpuriousDragon, caller, a, balance).1;
            error.None? || error == Some(CreateCollision) || error == Some(OverflowPayment)
  {
  }

  /** Deploying code onto a created account. */
  lemma DeployTracked(db: Database, js: ValidJState, js': ValidJState, a: Address, code: Bytecode)
    requires Ran(db, js, Some(js')) && a in js'.state && js'.state[a].created
    ensures Ran(db, js, Some(SetCode(js', a, code)))
  {
    TrackedSetCode(db, js', a, code);
    TrackedTrans(db, js, js', SetCode(js', a, code));
  }

  lemma FinishCreateTracked(cfg: Config, db: Database, js: ValidJState, js': ValidJState, inputs: CreateInputs,
                            callee: Callee)
    requires Ran(db, Checkpoint(js).1, Some(js'))
    requires inputs.created in js'.state && js'.state[inputs.created].created
    ensures FrameOutcome(db, js, FinishCreate(cfg, js', Checkpoint(js).0, inputs, callee))
  {
    var (result, _, output) :=
      if callee.exit.IsOk() then Deployment(cfg, callee) else (callee.exit, callee.gas, callee.output);
    ClosedFrame(db, js, js', result.IsOk());
    if result.IsOk() {
      var code := Bytecode(output, if output == [] then KECCAK_EMPTY else callee.outputHash);
      DeployTracked(db, js, Commit(js'), inputs.created, code);
    }
  }

  /** A create frame is one tracked operation, and one that fails restores the state it was opened in. */
  lemma {:induction false} CreateFrameTracked(cfg: Config, db: Database, js: ValidJState, inputs: CreateInputs,
                                              callee: Callee)
    requires inputs.caller in js.state && inputs.created in js.state
    requires inputs.value <= js.state[inputs.caller].info.balance && TotalSupply(db, js.state) < TWO_256
    ensures FrameOutcome(db, js, CreateFrame(cfg, db, js, inputs, callee))
    decreases callee, 0
  {
    var (cp, js1) := Checkpoint(js);
    var (js2, error) := CreateAccount(js1, cfg.Enabled(SPURIOUS_DRAGON), inputs.caller, inputs.created, inputs.value);
    TrackedCreateAccount(db, js1, cfg.Enabled(SPURIOUS_DRAGON), inputs.caller, inputs.created, inputs.value);
    SmallerSupply(db, js1, Some(js2));
    if error.Some? {
      ClosedFrame(db, js, js2, false);
      CreateErrors(js1, cfg.Enabled(SPURIOUS_DRAGON), inputs.caller, inputs.created, inputs.value);
    } else {
      CreatedMark(js1, cfg.Enabled(SPURIOUS_DRAGON), inputs.caller, inputs.created, inputs.value);
      RunOpsTracked(cfg, db, js2, inputs.created, callee.body);
      var js3 := RunOps(cfg, db, js2, inputs.created, callee.body).value;
      RanTrans(db, js1, js2, Some(js3));
      FinishCreateTracked(cfg, db, js, js3, inputs, callee);
    }
  }

  /** A create is one tracked operation, and a create that does not succeed restores what its checks left. */
  lemma {:induction false} CreateInnerTracked(cfg: Config, db: Database, js: ValidJState, inputs: CreateInputs,
                                              callee: Callee)
    requires TotalSupply(db, js.state) < TWO_256
    ensures var r := CreateInner(cfg, db, js, inputs, callee);
            && r.Some?
            && Ran(db, js, Some(r.value.js))
            && (!r.value.result.IsOk() ==>
                  var prepared := PrepareCreate(db, js, inputs).0;
                  && Restored(db, !js.isBeforeSpuriousDragon, prepared.state, r.value.js.state)
                  && r.value.js.(state := prepared.state) == prepared)
    decreases callee, 1
  {
    var (js1, refused) := PrepareCreate(db, js, inputs);
    PrepareCreateTracked(db, js, inputs);
    RestoredReflexive(db, !js.isBeforeSpuriousDragon, js1.state);
    if refused.None? {
      SmallerSupply(db, js, Some(js1));
      EnoughForCreate(db, js, inputs);
      CreateFrameTracked(cfg, db, js1, inputs, callee);
      RanTrans(db, js, js1, Some(CreateFrame(cfg, db, js1, inputs, callee).value.js));
    }
  }
}
