/**
  The stories of accounts over whole runs, and what every frame that fails
  leaves of an account outside the journal's reach.
 */
module Stories {
  import opened Words
  import opened Accounts
  import opened InstructionResults
  import opened Journal
  import opened Rollback
  import opened Supply
  import opened Tracking
  import Frames
  import opened Evm
  import opened EvmRuns
  import opened Limits
  import opened Creations

  lemma {:induction false} RunOpsStory(cfg: Config, db: Database, js: ValidJState, self: Address, body: seq<HostOp>,
                                       a: Address, k: U256)
    requires self in js.state && a in js.state && TotalSupply(db, js.state) < TWO_256
    ensures RunOps(cfg, db, js, self, body).Some?
    ensures Story(js, RunOps(cfg, db, js, self, body).value, a, k, Deeds(cfg, db, js, self, body),
                  cfg.Enabled(SPURIOUS_DRAGON))
    decreases body
  {
    var isSpuriousDragon := cfg.Enabled(SPURIOUS_DRAGON);
    if body == [] {
      QuietReflexive(js, a, k);
      QuietStory(a, k, js, js, isSpuriousDragon);
    } else {
      RunOpStory(cfg, db, js, self, body[0], a, k);
      RunOpTracked(cfg, db, js, self, body[0]);
      var js1 := RunOp(cfg, db, js, self, body[0]).value;
      SmallerSupply(db, js, Some(js1));
      RunOpsStory(cfg, db, js1, self, body[1..], a, k);
      StoryTrans(a, k, js, js1, RunOps(cfg, db, js1, self, body[1..]).value, OpDeeds(cfg, db, js, self, body[0]),
                 Deeds(cfg, db, js1, self, body[1..]), isSpuriousDragon);
    }
  }

  lemma {:induction false} RunOpStory(cfg: Config, db: Database, js: ValidJState, self: Address, op: HostOp,
                                      a: Address, k: U256)
    requires self in js.state && a in js.state && TotalSupply(db, js.state) < TWO_256
    ensures RunOp(cfg, db, js, self, op).Some?
    ensures Story(js, RunOp(cfg, db, js, self, op).value, a, k, OpDeeds(cfg, db, js, self, op),
                  cfg.Enabled(SPURIOUS_DRAGON))
    decreases op
  {
    if op.OpCall? {
      CallFromStory(cfg, db, js, CallInputsOf(self, op.scheme, op.to, op.value, op.gasLimit), op.callee, a, k);
    } else if op.OpCreate? {
      CreateInnerStory(cfg, db, js, CreateInputs(self, op.created, op.value, op.gasLimit), op.callee, a, k);
    } else {
      QuietPlain(db, js, self, op, a, k);
      QuietStory(a, k, js, PlainOp(db, js, self, op).value, cfg.Enabled(SPURIOUS_DRAGON));
    }
  }

  /** The deeds of a CALL opcode. */
  function CallFromDeeds(cfg: Config, db: Database, js: ValidJState, inputs: CallInputs, callee: Callee): seq<Deed> {
    var loaded := LoadAccountExist(js, db, inputs.contract);
    if loaded.1.DbErr? then [] else CallDeeds(cfg, db, loaded.0, inputs, callee)
  }

  lemma {:induction false} CallFromStory(cfg: Config, db: Database, js: ValidJState, inputs: CallInputs,
                                         callee: Callee, a: Address, k: U256)
    requires ContextLoaded(js, inputs) && a in js.state && TotalSupply(db, js.state) < TWO_256
    ensures CallFrom(cfg, db, js, inputs, callee).Some?
    ensures Story(js, CallFrom(cfg, db, js, inputs, callee).value, a, k, CallFromDeeds(cfg, db, js, inputs, callee),
                  cfg.Enabled(SPURIOUS_DRAGON))
    decreases callee, 4
  {
    var js1 := LoadAccountExist(js, db, inputs.contract).0;
    QuietLoad(db, js, inputs.contract, a, k);
    TrackedLoadAccount(db, js, inputs.contract);
    if inputs.contract in js1.state {
      SmallerSupply(db, js, Some(js1));
      CallInnerStory(cfg, db, js1, inputs, callee, a, k);
      QuietThen(a, k, js, js1, CallInner(cfg, db, js1, inputs, callee).value.js,
                CallDeeds(cfg, db, js1, inputs, callee),
                cfg.Enabled(SPURIOUS_DRAGON));
    } else {
      QuietStory(a, k, js, js1, cfg.Enabled(SPURIOUS_DRAGON));
    }
  }

  lemma {:induction false} CallInnerStory(cfg: Config, db: Database, js: ValidJState, inputs: CallInputs,
                                          callee: Callee, a: Address, k: U256)
    requires ContextLoaded(js, inputs) && a in js.state && TotalSupply(db, js.state) < TWO_256
    ensures CallInner(cfg, db, js, inputs, callee).Some?
    ensures Story(js, CallInner(cfg, db, js, inputs, callee).value.js, a, k, CallDeeds(cfg, db, js, inputs, callee),
                  cfg.Enabled(SPURIOUS_DRAGON))
    decreases callee, 3
  {
    var (js1, loaded) := LoadCode(js, db, inputs.contract);
    QuietLoadCode(db, js, inputs.contract, a, k);
    TrackedLoadCode(db, js, inputs.contract);
    if loaded.DbOk? && js1.depth <= CALL_STACK_LIMIT {
      SmallerSupply(db, js, Some(js1));
      CallFrameStory(cfg, db, js1, inputs, callee, a, k);
      QuietThen(a, k, js, js1, CallFrame(cfg, db, js1, inputs, callee).value.js,
                CallFrameDeeds(cfg, db, EnterCall(db, Checkpoint(js1).1, inputs), inputs, callee),
                  cfg.Enabled(SPURIOUS_DRAGON));
    } else {
      QuietStory(a, k, js, js1, cfg.Enabled(SPURIOUS_DRAGON));
    }
  }

  lemma {:induction false} CallFrameStory(cfg: Config, db: Database, js: ValidJState, inputs: CallInputs,
                                          callee: Callee, a: Address, k: U256)
    requires ContextLoaded(js, inputs) && inputs.contract in js.state && a in js.state
             && TotalSupply(db, js.state) < TWO_256
    ensures CallFrame(cfg, db, js, inputs, callee).Some?
    ensures Story(js, CallFrame(cfg, db, js, inputs, callee).value.js, a, k,
                  CallFrameDeeds(cfg, db, EnterCall(db, Checkpoint(js).1, inputs), inputs, callee),
                    cfg.Enabled(SPURIOUS_DRAGON))
    decreases callee, 2
  {
    var js1 := Checkpoint(js).1;
    var (js2, error) := EnterCall(db, js1, inputs);
    EnterCallTracked(db, js1, inputs);
    SmallerSupply(db, js1, Some(js2));
    QuietEnterCall(db, js1, inputs, a, k);
    FinishCallStory(cfg, db, js, js2, error, inputs, callee, a, k);
  }

  lemma {:induction false} FinishCallStory(
    cfg: Config, db: Database, js: ValidJState, js2: ValidJState, error: Option<InstructionResult>,
      inputs: CallInputs, callee: Callee,
    a: Address, k: U256)
    requires Ran(db, Checkpoint(js).1, Some(js2)) && TotalSupply(db, js2.state) < TWO_256 && a in js.state
    requires error.None? ==> inputs.contextAddress in js2.state
    requires Quiet(Checkpoint(js).1, js2, a, k)
    ensures FinishCall(cfg, db, js2, error, Checkpoint(js).0, inputs, callee).Some?
    ensures Story(js, FinishCall(cfg, db, js2, error, Checkpoint(js).0, inputs, callee).value.js, a, k,
                  CallFrameDeeds(cfg, db, (js2, error), inputs, callee), cfg.Enabled(SPURIOUS_DRAGON))
    decreases callee, 1
  {
    var js1, isSpuriousDragon := Checkpoint(js).1, cfg.Enabled(SPURIOUS_DRAGON);
    if error.Some? {
      QuietStory(a, k, js1, js2, isSpuriousDragon);
      ClosedStory(db, js, js2, false, a, k, [], isSpuriousDragon);
    } else {
      RunCalleeTracked(cfg, db, js2, inputs, callee);
      var ran := RunCallee(cfg, db, js2, inputs, callee).value;
      RanTrans(db, js1, js2, Some(ran.js));
      CalleeStory(cfg, db, js1, js2, inputs, callee, a, k);
      ClosedStory(db, js, ran.js, ran.result.IsOk(), a, k, CallFrameDeeds(cfg, db, (js2, error), inputs, callee),
                  isSpuriousDragon);
    }
  }

  /** The callee's code, if it runs any. */
  lemma {:induction false} CalleeStory(cfg: Config, db: Database, js1: ValidJState, js2: ValidJState,
                                       inputs: CallInputs,
                                       callee: Callee, a: Address, k: U256)
    requires inputs.contextAddress in js2.state && TotalSupply(db, js2.state) < TWO_256 && Quiet(js1, js2, a, k)
    ensures RunCallee(cfg, db, js2, inputs, callee).Some?
    ensures Story(js1, RunCallee(cfg, db, js2, inputs, callee).value.js, a, k,
                  CallFrameDeeds(cfg, db, (js2, None), inputs, callee), cfg.Enabled(SPURIOUS_DRAGON))
    decreases callee, 0
  {
    var isSpuriousDragon := cfg.Enabled(SPURIOUS_DRAGON);
    if !IsPrecompile(inputs.contract, js2.numOfPrecompiles) && callee.hasCode {
      RunOpsStory(cfg, db, js2, inputs.contextAddress, callee.body, a, k);
      QuietThen(a, k, js1, js2, RunOps(cfg, db, js2, inputs.contextAddress, callee.body).value,
                Deeds(cfg, db, js2, inputs.contextAddress, callee.body), isSpuriousDragon);
    } else {
      QuietStory(a, k, js1, js2, isSpuriousDragon);
    }
  }

  lemma {:induction false} CreateInnerStory(cfg: Config, db: Database, js: ValidJState, inputs: CreateInputs,
                                            callee: Callee, a: Address, k: U256)
    requires a in js.state && TotalSupply(db, js.state) < TWO_256
    ensures CreateInner(cfg, db, js, inputs, callee).Some?
    ensures Story(js, CreateInner(cfg, db, js, inputs, callee).value.js, a, k,
                  CreateDeeds(cfg, db, js, inputs, callee), cfg.Enabled(SPURIOUS_DRAGON))
    decreases callee, 4
  {
    var (js1, refused) := PrepareCreate(db, js, inputs);
    PrepareCreateTracked(db, js, inputs);
    QuietPrepare(db, js, inputs, a, k);
    if refused.None? {
      SmallerSupply(db, js, Some(js1));
      EnoughForCreate(db, js, inputs);
      CreateFrameStory(cfg, db, js1, inputs, callee, a, k);
      QuietThen(a, k, js, js1, CreateFrame(cfg, db, js1, inputs, callee).value.js,
                CreateFrameDeeds(cfg, db, Checkpoint(js1).1, inputs, callee), cfg.Enabled(SPURIOUS_DRAGON));
    } else {
      QuietStory(a, k, js, js1, cfg.Enabled(SPURIOUS_DRAGON));
    }
  }

  /** The state after `CreateAccount`, before the init code. */
  lemma MadeStory(js: ValidJState, isSpuriousDragon: bool, caller: Address, b: Address, balance: U256, a: Address,
                  k: U256)
    requires b in js.state && caller in js.state && a in js.state
    ensures var r := CreateAccount(js, isSpuriousDragon, caller, b, balance);
            Story(js, r.0, a, k, MadeDeeds(js, b), isSpuriousDragon)
  {
    var r := CreateAccount(js, isSpuriousDragon, caller, b, balance);
    if AccountCollision(b, js.state[b], js.numOfPrecompiles) {
      QuietReflexive(js, a, k);
      QuietStory(a, k, js, js, isSpuriousDragon);
    } else if a == b {
      CreateStory(js, isSpuriousDragon, caller, a, balance, k);
    } else {
      QuietCreate(js, isSpuriousDragon, caller, b, balance, a, k);
      QuietStory(a, k, js, r.0, isSpuriousDragon);
      ContinuesSame(js, js);
      OtherDeeds(a, k, js, r.0, [], Marks(js, b), isSpuriousDragon);
      assert [] + Marks(js, b) == Marks(js, b);
    }
  }

  lemma {:induction false} CreateFrameStory(cfg: Config, db: Database, js: ValidJState, inputs: CreateInputs,
                                            callee: Callee, a: Address, k: U256)
    requires inputs.caller in js.state && inputs.created in js.state && a in js.state
    requires inputs.value <= js.state[inputs.caller].info.balance && TotalSupply(db, js.state) < TWO_256
    ensures CreateFrame(cfg, db, js, inputs, callee).Some?
    ensures Story(js, CreateFrame(cfg, db, js, inputs, callee).value.js, a, k,
                  CreateFrameDeeds(cfg, db, Checkpoint(js).1, inputs, callee), cfg.Enabled(SPURIOUS_DRAGON))
    decreases callee, 3
  {
    var js1, isSpuriousDragon := Checkpoint(js).1, cfg.Enabled(SPURIOUS_DRAGON);
    var (js2, error) := CreateAccount(js1, isSpuriousDragon, inputs.caller, inputs.created, inputs.value);
    TrackedCreateAccount(db, js1, isSpuriousDragon, inputs.caller, inputs.created, inputs.value);
    SmallerSupply(db, js1, Some(js2));
    MadeStory(js1, isSpuriousDragon, inputs.caller, inputs.created, inputs.value, a, k);
    MadeFrameStory(cfg, db, js, js1, js2, error, inputs, callee, a, k);
  }

  /** The frame from the made account on. */
  lemma {:induction false} MadeFrameStory(
    cfg: Config, db: Database, js: ValidJState, js1: ValidJState, js2: ValidJState, error: Option<InstructionResult>,
    inputs: CreateInputs, callee: Callee, a: Address, k: U256)
    requires inputs.caller in js.state && inputs.created in js.state && a in js.state
    requires js1 == Checkpoint(js).1 && Ran(db, js1, Some(js2)) && TotalSupply(db, js2.state) < TWO_256
    requires (js2, error) == CreateAccount(js1, cfg.Enabled(SPURIOUS_DRAGON), inputs.caller, inputs.created,
                                           inputs.value)
    requires Story(js1, js2, a, k, MadeDeeds(js1, inputs.created), cfg.Enabled(SPURIOUS_DRAGON))
    ensures CreateFrame(cfg, db, js, inputs, callee).Some?
    ensures Story(js, CreateFrame(cfg, db, js, inputs, callee).value.js, a, k,
                  CreateFrameDeeds(cfg, db, js1, inputs, callee),
                  cfg.Enabled(SPURIOUS_DRAGON))
    decreases callee, 2
  {
    var isSpuriousDragon := cfg.Enabled(SPURIOUS_DRAGON);
    if error.Some? {
      ClosedStory(db, js, js2, false, a, k, CreateFrameDeeds(cfg, db, js1, inputs, callee), isSpuriousDragon);
    } else {
      BegunStory(js, isSpuriousDragon, inputs, js2, a, k);
      InitStory(cfg, db, js, js1, js2, inputs, callee, a, k);
    }
  }

  function MadeDeeds(js: ValidJState, created: Address): seq<Deed>
    requires created in js.state
  {
    if AccountCollision(created, js.state[created], js.numOfPrecompiles) then [] else Marks(js, created)
  }

  /** The account a creation works on, if it is `a`, has nothing deployed to it yet. */
  ghost predicate Begun(js1: ValidJState, js2: ValidJState, created: Address, a: Address, isSpuriousDragon: bool)
    requires a in js1.state && Continues(js1, js2)
  {
    && created in js2.state && js2.state[created].created
    && (a == created ==>
          && !Taken(js1.state[a])
          && (isSpuriousDragon ==> NoCodeOf(NewEntries(js1, js2), a) && js2.state[a].info.nonce != 0))
  }

  lemma BegunStory(js: ValidJState, isSpuriousDragon: bool, inputs: CreateInputs, js2: ValidJState, a: Address, k: U256)
    requires inputs.caller in js.state && inputs.created in js.state && a in js.state
    requires CreateAccount(Checkpoint(js).1, isSpuriousDragon, inputs.caller, inputs.created, inputs.value)
             == (js2, None)
    requires Continues(Checkpoint(js).1, js2)
    ensures Begun(Checkpoint(js).1, js2, inputs.created, a, isSpuriousDragon)
  {
    var js1 := Checkpoint(js).1;
    assert !AccountCollision(inputs.created, js1.state[inputs.created], js1.numOfPrecompiles);
    CreatedMark(js1, isSpuriousDragon, inputs.caller, inputs.created, inputs.value);
    if a == inputs.created {
      CreateStory(js1, isSpuriousDragon, inputs.caller, a, inputs.value, k);
    }
  }

  /** Init code. */
  lemma {:induction false} InitRunStory(cfg: Config, db: Database, js1: ValidJState, js2: ValidJState, created: Address,
                                        callee: Callee, a: Address, k: U256)
    requires Ran(db, js1, Some(js2)) && TotalSupply(db, js2.state) < TWO_256 && a in js1.state
    requires Begun(js1, js2, created, a, cfg.Enabled(SPURIOUS_DRAGON))
    requires Story(js1, js2, a, k, Marks(js1, created), cfg.Enabled(SPURIOUS_DRAGON))
    ensures Ran(db, js1, RunOps(cfg, db, js2, created, callee.body))
    ensures var js3 := RunOps(cfg, db, js2, created, callee.body).value;
            var deeds := Marks(js1, created) + Deeds(cfg, db, js2, created, callee.body);
            && created in js3.state && js3.state[created].created
            && Story(js1, js3, a, k, deeds, cfg.Enabled(SPURIOUS_DRAGON))
            && (a == created && cfg.Enabled(SPURIOUS_DRAGON) ==> Undeployed(js1, js3, a, deeds))
    decreases callee, 0
  {
    var isSpuriousDragon := cfg.Enabled(SPURIOUS_DRAGON);
    RunOpsStory(cfg, db, js2, created, callee.body, a, k);
    RunOpsTracked(cfg, db, js2, created, callee.body);
    var js3 := RunOps(cfg, db, js2, created, callee.body).value;
    RanTrans(db, js1, js2, Some(js3));
    StoryTrans(a, k, js1, js2, js3, Marks(js1, created), Deeds(cfg, db, js2, created, callee.body), isSpuriousDragon);
    if isSpuriousDragon && a == created {
      ContinuesTrans(js1, js2, js3);
    }
  }

  /** Init code, verdict, the end of the frame and the deployment. */
  lemma {:induction false} InitStory(
    cfg: Config, db: Database, js: ValidJState, js1: ValidJState, js2: ValidJState, inputs: CreateInputs,
      callee: Callee,
    a: Address, k: U256)
    requires js1 == Checkpoint(js).1 && Ran(db, js1, Some(js2)) && TotalSupply(db, js2.state) < TWO_256 && a in js.state
    requires Begun(js1, js2, inputs.created, a, cfg.Enabled(SPURIOUS_DRAGON))
    requires Story(js1, js2, a, k, Marks(js1, inputs.created), cfg.Enabled(SPURIOUS_DRAGON))
    ensures RunOps(cfg, db, js2, inputs.created, callee.body).Some?
    ensures var js3 := RunOps(cfg, db, js2, inputs.created, callee.body).value;
            var r := FinishCreate(cfg, js3, Checkpoint(js).0, inputs, callee);
            && r.Some?
            && Story(js, r.value.js, a, k, Marks(js1, inputs.created) + InitDeeds(cfg, db, js2, inputs, callee),
                     cfg.Enabled(SPURIOUS_DRAGON))
    decreases callee, 1
  {
    InitRunStory(cfg, db, js1, js2, inputs.created, callee, a, k);
    var js3 := RunOps(cfg, db, js2, inputs.created, callee.body).value;
    var marked, deeds := Marks(js1, inputs.created), Deeds(cfg, db, js2, inputs.created, callee.body);
    FinishStory(cfg, db, js, js3, inputs, callee, a, k, marked + deeds);
    AssociateSeqs(marked, deeds, FinalDeeds(cfg, inputs.created, callee));
  }

  /** The deployment to `b` at the end of a creation that began at `x`. */
  lemma SetCodeStory(x: ValidJState, y: ValidJState, b: Address, code: Bytecode, a: Address, k: U256,
                     deeds: seq<Deed>, isSpuriousDragon: bool)
    requires Story(x, y, a, k, deeds, isSpuriousDragon) && b in y.state
    requires a == b ==> !Taken(x.state[a]) && (isSpuriousDragon ==> Undeployed(x, y, a, deeds))
    ensures Story(x, SetCode(y, b, code), a, k, deeds + [Deployed(b, code.hash)], isSpuriousDragon)
  {
    if a == b {
      DeployedStory(x, y, a, k, deeds, code, isSpuriousDragon);
    } else {
      QuietSetCode(y, b, code, a, k);
      ThenQuiet(a, k, x, y, SetCode(y, b, code), deeds, isSpuriousDragon);
      OtherDeeds(a, k, x, SetCode(y, b, code), deeds, [Deployed(b, code.hash)], isSpuriousDragon);
    }
  }

  lemma FinishStory(cfg: Config, db: Database, js: ValidJState, js3: ValidJState, inputs: CreateInputs, callee: Callee,
                    a: Address, k: U256, deeds: seq<Deed>)
    requires Ran(db, Checkpoint(js).1, Some(js3)) && a in js.state && inputs.created in js3.state
    requires js3.state[inputs.created].created
    requires Story(Checkpoint(js).1, js3, a, k, deeds, cfg.Enabled(SPURIOUS_DRAGON))
    requires a == inputs.created ==>
               !Taken(js.state[a]) && (cfg.Enabled(SPURIOUS_DRAGON) ==> Undeployed(Checkpoint(js).1, js3, a, deeds))
    ensures var r := FinishCreate(cfg, js3, Checkpoint(js).0, inputs, callee);
            && r.Some?
            && Story(js, r.value.js, a, k, deeds
                     + FinalDeeds(cfg, inputs.created, callee), cfg.Enabled(SPURIOUS_DRAGON))
  {
    var isSpuriousDragon := cfg.Enabled(SPURIOUS_DRAGON);
    var verdict := Evm.Deployment(cfg, callee);
    var ok := callee.exit.IsOk() && verdict.0.IsOk();
    FinishCreateTracked(cfg, db, js, js3, inputs, callee);
    ClosedStory(db, js, js3, ok, a, k, deeds, isSpuriousDragon);
    if ok {
      CommittedEntries(db, js, js3);
      SetCodeStory(js, Commit(js3), inputs.created, Bytecode(verdict.2, DeployedHash(verdict.2, callee)), a, k, deeds,
                   isSpuriousDragon);
    } else {
      assert deeds + [] == deeds;
    }
  }

  /** A commit adds no entries. */
  lemma CommittedEntries(db: Database, js: ValidJState, js3: ValidJState)
    requires Ran(db, Checkpoint(js).1, Some(js3))
    ensures Continues(js, Commit(js3)) && NewEntries(js, Commit(js3)) == NewEntries(Checkpoint(js).1, js3)
  {
    var js1 := Checkpoint(js).1;
    Frames.TrackedCheckpoint(db, js);
    CheckpointEntries(js);
    ContinuesTrans(js, js1, js3);
    ContinuesSame(js3, Commit(js3));
    ContinuesTrans(js, js3, Commit(js3));
    assert [] + NewEntries(js1, js3) == NewEntries(js1, js3);
  }

  // ---------------------------------------------------------------- frames that fail

  /** No slot was written since it was loaded. */
  predicate Clean(storage: Storage) {
    forall k | k in storage :: storage[k].present == storage[k].original
  }

  /**
    What is left of `a` when a frame entered in `js` has failed and ended in `r`:
    an account the collision test would refuse is as it was; any other has its
    flag exactly if the frame did not mark it, of each slot what `SlotLeft` says,
    and its code hash exactly if no other was deployed. So the slots are as they
    were if it was not marked or they were all zero, which for slots that were
    not written before is exact.
   */
  ghost predicate LeftOf(js: ValidJState, r: ValidJState, a: Address, deeds: seq<Deed>, isSpuriousDragon: bool)
    requires a in js.state
  {
    && a in r.state
    && var before, after := js.state[a], r.state[a];
       && (Taken(before) ==>
             && after.info.codeHash == before.info.codeHash && after.storage == before.storage
             && after.created == before.created)
       && (after.created == before.created <==> before.created || Marked(a) !in deeds)
       && after.storage.Keys == before.storage.Keys
       && (forall k | k in before.storage ::
             after.storage[k] == SlotLeft(before.storage[k], Marked(a) in deeds, Lost(deeds, js, a, k)))
       && (Marked(a) !in deeds || AllSlotsZero(before.storage) ==> after.storage == before.storage)
       && (Clean(before.storage) && after.storage == before.storage ==>
             Marked(a) !in deeds || AllSlotsZero(before.storage))
       && (OnlyEmpty(deeds, a) ==> after.info.codeHash == before.info.codeHash)
       && (isSpuriousDragon && after.info.codeHash == before.info.codeHash ==> OnlyEmpty(deeds, a))
  }

  /** A marked account's slots have original value zero, and present value zero unless the frame wrote them before. */
  function SlotLeft(slot: StorageSlot, marked: bool, lost: bool): StorageSlot {
    slot.(original := if marked then 0 else slot.original, present := if lost then 0 else slot.present)
  }

  lemma StoryLeaves(db: Database, js: ValidJState, r: ValidJState, a: Address, deeds: seq<Deed>, isSpuriousDragon: bool)
    requires a in js.state && Restored(db, !js.isBeforeSpuriousDragon, js.state, r.state) && r.(state := js.state) == js
    requires forall k: U256 :: Story(js, r, a, k, deeds, isSpuriousDragon)
    ensures LeftOf(js, r, a, deeds, isSpuriousDragon)
  {
    ContinuesSame(js, r);
    assert Story(js, r, a, 0, deeds, isSpuriousDragon);
    assert RestoredAt(db, !js.isBeforeSpuriousDragon, a, js.state[a], r.state[a]);
    SlotsLeft(js, r, a, deeds, isSpuriousDragon);
    EachSlotLeft(js, r, a, deeds, isSpuriousDragon);
  }

  lemma EachSlotLeft(js: ValidJState, r: ValidJState, a: Address, deeds: seq<Deed>, isSpuriousDragon: bool)
    requires a in js.state && a in r.state && Continues(js, r) && NewEntries(js, r) == []
    requires r.state[a].storage.Keys == js.state[a].storage.Keys
    requires forall k: U256 :: Story(js, r, a, k, deeds, isSpuriousDragon)
    ensures forall k | k in js.state[a].storage ::
              r.state[a].storage[k] == SlotLeft(js.state[a].storage[k], Marked(a) in deeds, Lost(deeds, js, a, k))
  {
    var before, after := js.state[a].storage, r.state[a].storage;
    forall k | k in before
      ensures after[k] == SlotLeft(before[k], Marked(a) in deeds, Lost(deeds, js, a, k))
    {
      assert k in after.Keys;
      assert Story(js, r, a, k, deeds, isSpuriousDragon);
    }
  }

  lemma SlotsLeft(js: ValidJState, r: ValidJState, a: Address, deeds: seq<Deed>, isSpuriousDragon: bool)
    requires a in js.state && a in r.state && Continues(js, r) && NewEntries(js, r) == []
    requires r.state[a].storage.Keys == js.state[a].storage.Keys
    requires forall k: U256 :: Story(js, r, a, k, deeds, isSpuriousDragon)
    ensures Marked(a) !in deeds || AllSlotsZero(js.state[a].storage) ==> r.state[a].storage == js.state[a].storage
    ensures Clean(js.state[a].storage) && r.state[a].storage == js.state[a].storage
            ==> Marked(a) !in deeds || AllSlotsZero(js.state[a].storage)
  {
    var before, after := js.state[a].storage, r.state[a].storage;
    forall k | k in before
      ensures k in after
      ensures after[k].original == if Marked(a) in deeds then 0 else before[k].original
      ensures after[k].present == before[k].present || (Marked(a) in deeds && after[k].present == 0)
    {
      assert k in before.Keys;
      assert Story(js, r, a, k, deeds, isSpuriousDragon);
    }
    if Marked(a) !in deeds || AllSlotsZero(before) {
      assert forall k | k in before :: after[k] == before[k];
    }
  }

  /** Every call frame that fails, whatever it runs. */
  lemma FailedCallLeaves(cfg: Config, db: Database, js: ValidJState, inputs: CallInputs, callee: Callee, a: Address)
    requires ContextLoaded(js, inputs) && inputs.contract in js.state && a in js.state
             && TotalSupply(db, js.state) < TWO_256
    ensures var r := CallFrame(cfg, db, js, inputs, callee);
            && r.Some?
            && (!r.value.result.IsOk() ==>
                  LeftOf(js, r.value.js, a, CallFrameDeeds(cfg, db, EnterCall(db, Checkpoint(js).1, inputs), inputs,
                                                           callee), cfg.Enabled(SPURIOUS_DRAGON)))
  {
    CallFrameTracked(cfg, db, js, inputs, callee);
    var r := CallFrame(cfg, db, js, inputs, callee).value;
    var deeds := CallFrameDeeds(cfg, db, EnterCall(db, Checkpoint(js).1, inputs), inputs, callee);
    if !r.result.IsOk() {
      forall k: U256
        ensures Story(js, r.js, a, k, deeds, cfg.Enabled(SPURIOUS_DRAGON))
      {
        CallFrameStory(cfg, db, js, inputs, callee, a, k);
      }
      StoryLeaves(db, js, r.js, a, deeds, cfg.Enabled(SPURIOUS_DRAGON));
    }
  }

  /** Every create frame that fails, whatever its init code runs. */
  lemma FailedCreateLeaves(cfg: Config, db: Database, js: ValidJState, inputs: CreateInputs, callee: Callee, a: Address)
    requires inputs.caller in js.state && inputs.created in js.state && a in js.state
    requires inputs.value <= js.state[inputs.caller].info.balance && TotalSupply(db, js.state) < TWO_256
    ensures var r := CreateFrame(cfg, db, js, inputs, callee);
            && r.Some?
            && (!r.value.result.IsOk() ==>
                  LeftOf(js, r.value.js, a, CreateFrameDeeds(cfg, db, Checkpoint(js).1, inputs, callee),
                         cfg.Enabled(SPURIOUS_DRAGON)))
  {
    CreateFrameTracked(cfg, db, js, inputs, callee);
    var r := CreateFrame(cfg, db, js, inputs, callee).value;
    var deeds := CreateFrameDeeds(cfg, db, Checkpoint(js).1, inputs, callee);
    if !r.result.IsOk() {
      forall k: U256
        ensures Story(js, r.js, a, k, deeds, cfg.Enabled(SPURIOUS_DRAGON))
      {
        CreateFrameStory(cfg, db, js, inputs, callee, a, k);
      }
      StoryLeaves(db, js, r.js, a, deeds, cfg.Enabled(SPURIOUS_DRAGON));
    }
  }
}
