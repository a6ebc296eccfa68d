/** Whose storage the code of a callee writes. */
module Owners {
  import opened Words
  import opened Accounts
  import opened InstructionResults
  import opened Journal
  import opened Rollback
  import opened Supply
  import opened Tracking
  import opened Evm
  import opened EvmRuns
  import opened Answers
  import opened Payments

  /** The slot of any account, loaded or not, as reading it would find it. */
  function SlotThere(db: Database, s: State, a: Address, key: U256): DbResult<StorageSlot> {
    if !Readable(db, s, a) then DbErr
    else
      var acc := Found(db, s, a);
      if key in acc.storage then DbOk(acc.storage[key])
      else if acc.created then DbOk(StorageSlot(0, 0))
      else match db.slot(a, key)
        case DbErr => DbErr
        case DbOk(v) => DbOk(StorageSlot(v, v))
  }

  ghost predicate SameSlots(db: Database, s: State, t: State) {
    forall a: Address, key: U256 :: SlotThere(db, t, a, key) == SlotThere(db, s, a, key)
  }

  lemma SameSlotsTrans(db: Database, s: State, t: State, u: State)
    requires SameSlots(db, s, t) && SameSlots(db, t, u)
    ensures SameSlots(db, s, u)
  {
  }

  /** Only `key` of `a` differs: it shows `value`, its original untouched, if it could be read. */
  ghost predicate Written(db: Database, s: State, t: State, owner: Address, key: U256, value: U256) {
    forall a: Address, k: U256 ::
      SlotThere(db, t, a, k)
      == if a == owner && k == key && SlotThere(db, s, a, k).DbOk?
         then DbOk(StorageSlot(SlotThere(db, s, a, k).value.original, value))
         else SlotThere(db, s, a, k)
  }

  lemma WrittenLater(db: Database, s: State, s1: State, t: State, owner: Address, key: U256, value: U256)
    requires SameSlots(db, s, s1) && Written(db, s1, t, owner, key, value)
    ensures Written(db, s, t, owner, key, value)
  {
  }

  // ---------------------------------------------------------------- operations that leave all slots

  /** Accounts that differ in neither storage nor the created flag, and new ones as fetched. */
  lemma SlotsKept(db: Database, s: State, t: State)
    requires forall x | x in s :: x in t && t[x].storage == s[x].storage && t[x].created == s[x].created
    requires forall x | x in t && x !in s ::
               Fetch(db, x).DbOk? && t[x].storage == map[] && !t[x].created
    ensures SameSlots(db, s, t)
  {
    forall a: Address, key: U256
      ensures SlotThere(db, t, a, key) == SlotThere(db, s, a, key)
    {
    }
  }

  lemma LoadKeepsSlots(db: Database, js: ValidJState, a: Address)
    ensures SameSlots(db, js.state, LoadAccount(js, db, a).0.state)
  {
    SlotsKept(db, js.state, LoadAccount(js, db, a).0.state);
  }

  lemma LoadCodeKeepsSlots(db: Database, js: ValidJState, a: Address)
    requires CodeReadable(db, js.state, a)
    ensures SameSlots(db, js.state, LoadCode(js, db, a).0.state)
  {
    LoadCodeAnswers(js, db, a);
    SlotsKept(db, js.state, LoadCode(js, db, a).0.state);
  }

  lemma TouchKeepsSlots(db: Database, js: ValidJState, a: Address)
    ensures SameSlots(db, js.state, Touch(js, a).state)
  {
    SlotsKept(db, js.state, Touch(js, a).state);
  }

  lemma PayKeepsSlots(db: Database, js: ValidJState, from: Address, to: Address, value: U256)
    requires from in js.state && to in js.state && Pay(js, from, to, value).1.None?
    ensures SameSlots(db, js.state, Pay(js, from, to, value).0.state)
  {
    var js1 := Touch(js, from);
    var js2 := Touch(js1, to);
    PayIsMove(js, from, to, value);
    TouchKeepsSlots(db, js, from);
    TouchKeepsSlots(db, js1, to);
    SameSlotsTrans(db, js.state, js1.state, js2.state);
    MoveKeepsSlots(db, js2.state, from, to, value);
    SameSlotsTrans(db, js.state, js2.state, Moved(js2.state, from, to, value));
  }

  lemma MoveKeepsSlots(db: Database, s: State, from: Address, to: Address, value: U256)
    requires from in s && to in s
    ensures SameSlots(db, s, Moved(s, from, to, value))
  {
    SlotsKept(db, s, Moved(s, from, to, value));
  }

  lemma TransferKeepsSlots(db: Database, js: ValidJState, from: Address, to: Address, value: U256)
    requires Transfer(js, db, from, to, value).1.None?
    ensures SameSlots(db, js.state, Transfer(js, db, from, to, value).0.state)
  {
    var js1 := LoadAccount(js, db, from).0;
    var js2 := LoadAccount(js1, db, to).0;
    LoadKeepsSlots(db, js, from);
    LoadKeepsSlots(db, js1, to);
    SameSlotsTrans(db, js.state, js1.state, js2.state);
    PayKeepsSlots(db, js2, from, to, value);
    SameSlotsTrans(db, js.state, js2.state, Pay(js2, from, to, value).0.state);
  }

  lemma EnterCallKeepsSlots(db: Database, js: ValidJState, inputs: CallInputs)
    requires EnterCall(db, js, inputs).1.None?
    ensures SameSlots(db, js.state, EnterCall(db, js, inputs).0.state)
  {
    var js1 := if inputs.value == 0 then Touch(LoadAccountExist(js, db, inputs.contextAddress).0,
                                               inputs.contextAddress) else js;
    if inputs.value == 0 {
      var js0 := LoadAccount(js, db, inputs.contextAddress).0;
      LoadKeepsSlots(db, js, inputs.contextAddress);
      TouchKeepsSlots(db, js0, inputs.contextAddress);
      SameSlotsTrans(db, js.state, js0.state, js1.state);
    }
    TransferKeepsSlots(db, js1, inputs.source, inputs.target, inputs.value);
    SameSlotsTrans(db, js.state, js1.state, EnterCall(db, js, inputs).0.state);
  }

  lemma SstoreWrites(db: Database, js: ValidJState, owner: Address, key: U256, value: U256)
    requires owner in js.state
    ensures Written(db, js.state, Sstore(js, db, owner, key, value).0.state, owner, key, value)
  {
    SstoreAnswers(js, db, owner, key, value);
  }

  // ---------------------------------------------------------------- a callee that writes

  /** A callee that writes one slot and ends well. */
  predicate Writes(callee: Callee, key: U256, value: U256) {
    callee.hasCode && callee.body == [OpSstore(key, value)] && callee.exit.IsOk()
  }

  lemma OneStore(cfg: Config, db: Database, js: ValidJState, self: Address, key: U256, value: U256)
    requires self in js.state
    ensures RunOps(cfg, db, js, self, [OpSstore(key, value)]) == Some(Sstore(js, db, self, key, value).0)
  {
    var body := [OpSstore(key, value)];
    var js1 := Sstore(js, db, self, key, value).0;
    assert body[1..] == [];
    assert RunOp(cfg, db, js, self, body[0]) == Some(js1);
    assert RunOps(cfg, db, js1, self, body[1..]) == Some(js1);
  }

  lemma WriterRuns(cfg: Config, db: Database, js: ValidJState, inputs: CallInputs, callee: Callee, key: U256,
                   value: U256)
    requires Writes(callee, key, value) && !IsPrecompile(inputs.contract, js.numOfPrecompiles)
    requires inputs.contextAddress in js.state
    ensures var ran := RunCallee(cfg, db, js, inputs, callee);
            && ran.Some? && ran.value.result == callee.exit
            && ran.value.js == Sstore(js, db, inputs.contextAddress, key, value).0
  {
    OneStore(cfg, db, js, inputs.contextAddress, key, value);
  }

  lemma WriterFinishes(cfg: Config, db: Database, js: ValidJState, cp: JournalCheckpoint, inputs: CallInputs,
                       callee: Callee, ran: Outcome)
    requires RunCallee(cfg, db, js, inputs, callee) == Some(ran) && ran.result.IsOk() && ran.js.depth > 0
    ensures FinishCall(cfg, db, js, None, cp, inputs, callee) == Some(ran.(js := Commit(ran.js)))
  {
  }

  /** The frame of a call that is entered. */
  lemma WriterFrame(cfg: Config, db: Database, js: ValidJState, inputs: CallInputs, callee: Callee, key: U256,
                    value: U256)
    requires Writes(callee, key, value) && !IsPrecompile(inputs.contract, js.numOfPrecompiles)
    requires ContextLoaded(js, inputs) && inputs.contract in js.state && TotalSupply(db, js.state) < TWO_256
    requires TransferEnd(db, js.state, inputs.source, inputs.target, inputs.value).None?
    ensures var r := CallFrame(cfg, db, js, inputs, callee);
            r.Some? && Written(db, js.state, r.value.js.state, inputs.contextAddress, key, value)
  {
    var (cp, js1) := Checkpoint(js);
    var (js2, error) := EnterCall(db, js1, inputs);
    EnterCallPays(db, js1, inputs);
    EnterCallTracked(db, js1, inputs);
    EnterCallKeepsSlots(db, js1, inputs);
    WriterRuns(cfg, db, js2, inputs, callee, key, value);
    var ran := RunCallee(cfg, db, js2, inputs, callee).value;
    WriterFinishes(cfg, db, js2, cp, inputs, callee, ran);
    SstoreWrites(db, js2, inputs.contextAddress, key, value);
    WrittenLater(db, js.state, js2.state, ran.js.state, inputs.contextAddress, key, value);
  }

  lemma WriterCall(cfg: Config, db: Database, js: ValidJState, inputs: CallInputs, callee: Callee, key: U256,
                   value: U256)
    requires Writes(callee, key, value) && !IsPrecompile(inputs.contract, js.numOfPrecompiles)
    requires ContextLoaded(js, inputs) && TotalSupply(db, js.state) < TWO_256
    requires CodeReadable(db, js.state, inputs.contract) && js.depth <= CALL_STACK_LIMIT
    requires TransferEnd(db, js.state, inputs.source, inputs.target, inputs.value).None?
    ensures var r := CallInner(cfg, db, js, inputs, callee);
            r.Some? && Written(db, js.state, r.value.js.state, inputs.contextAddress, key, value)
  {
    var js1 := LoadCode(js, db, inputs.contract).0;
    LoadCodeAnswers(js, db, inputs.contract);
    TrackedLoadCode(db, js, inputs.contract);
    LoadCodeKeepsSlots(db, js, inputs.contract);
    SameSupply(db, js.state, js1.state);
    SameTransferEnd(db, js.state, js1.state, inputs.source, inputs.target, inputs.value);
    WriterFrame(cfg, db, js1, inputs, callee, key, value);
    WrittenLater(db, js.state, js1.state, CallFrame(cfg, db, js1, inputs, callee).value.js.state,
                 inputs.contextAddress, key, value);
  }

  /** Whether a call opcode of `self` gets to run its callee. */
  predicate Enters(db: Database, js: ValidJState, self: Address, op: HostOp)
    requires op.OpCall?
  {
    && CodeReadable(db, js.state, op.to) && js.depth <= CALL_STACK_LIMIT
    && (op.scheme in {Call, CallCode} ==> op.value <= BalanceOf(db, js.state, self))
  }

  /**
    A callee that writes a slot writes its caller's storage if it was called by
    CALLCODE or DELEGATECALL, and its own if not; no other slot of any account
    changes.
   */
  lemma WritesItsOwner(cfg: Config, db: Database, js: ValidJState, self: Address, op: HostOp, key: U256, value: U256)
    requires op.OpCall? && Writes(op.callee, key, value) && !IsPrecompile(op.to, js.numOfPrecompiles)
    requires self in js.state && TotalSupply(db, js.state) < TWO_256 && Enters(db, js, self, op)
    ensures var r := RunOp(cfg, db, js, self, op);
            && r.Some?
            && Written(db, js.state, r.value.state, if op.scheme in {CallCode, DelegateCall} then self else op.to, key,
                       value)
  {
    var inputs := CallInputsOf(self, op.scheme, op.to, op.value, op.gasLimit);
    var js1 := LoadAccountExist(js, db, op.to).0;
    LoadAnswers(js, db, op.to);
    LoadKeepsSlots(db, js, op.to);
    SameSupply(db, js.state, js1.state);
    EntersLoaded(db, js, js1, self, op);
    WriterCall(cfg, db, js1, inputs, op.callee, key, value);
    var r := CallInner(cfg, db, js1, inputs, op.callee);
    OpcodeIsCall(cfg, db, js, js1, self, op, inputs, r.value);
    WrittenLater(db, js.state, js1.state, r.value.js.state, inputs.contextAddress, key, value);
  }

  lemma EntersLoaded(db: Database, js: ValidJState, js1: ValidJState, self: Address, op: HostOp)
    requires op.OpCall? && self in js.state && Enters(db, js, self, op) && js1 == LoadAccount(js, db, op.to).0
    ensures var inputs := CallInputsOf(self, op.scheme, op.to, op.value, op.gasLimit);
            && ContextLoaded(js1, inputs) && CodeReadable(db, js1.state, op.to) && js1.depth <= CALL_STACK_LIMIT
            && TransferEnd(db, js1.state, inputs.source, inputs.target, inputs.value).None?
  {
  }

  // ---------------------------------------------------------------- init code that writes

  /** From `s` to `t`, all slots of `a` became zero and no others changed. */
  ghost predicate Zeroed(db: Database, s: State, t: State, a: Address) {
    forall x: Address, k: U256 ::
      SlotThere(db, t, x, k) == if x == a then DbOk(StorageSlot(0, 0)) else SlotThere(db, s, x, k)
  }

  /** From `s` to `t`, `a` was created with all slots zero but one, and no others changed. */
  ghost predicate CreatedWriting(db: Database, s: State, t: State, a: Address, key: U256, value: U256) {
    forall x: Address, k: U256 ::
      SlotThere(db, t, x, k)
      == if x == a then DbOk(StorageSlot(0, if k == key then value else 0)) else SlotThere(db, s, x, k)
  }

  lemma ZeroedThenWritten(db: Database, s: State, s1: State, t: State, t1: State, u: State, a: Address, key: U256,
                          value: U256)
    requires SameSlots(db, s, s1) && Zeroed(db, s1, t, a) && Written(db, t, t1, a, key, value) && SameSlots(db, t1, u)
    ensures CreatedWriting(db, s, u, a, key, value)
  {
  }

  lemma NonceKeepsSlots(db: Database, js: ValidJState, a: Address)
    requires a in js.state
    ensures SameSlots(db, js.state, IncNonce(js, a).0.state)
  {
    NonceCounted(js, a);
    SlotsKept(db, js.state, IncNonce(js, a).0.state);
  }

  lemma PrepareKeepsSlots(db: Database, js: ValidJState, inputs: CreateInputs)
    requires PrepareCreate(db, js, inputs).1.None?
    ensures SameSlots(db, js.state, PrepareCreate(db, js, inputs).0.state)
  {
    var js1 := LoadAccount(js, db, inputs.caller).0;
    var js2 := IncNonce(js1, inputs.caller).0;
    var js3 := LoadAccount(js2, db, inputs.created).0;
    LoadKeepsSlots(db, js, inputs.caller);
    NonceKeepsSlots(db, js1, inputs.caller);
    LoadKeepsSlots(db, js2, inputs.created);
    SameSlotsTrans(db, js.state, js1.state, js2.state);
    SameSlotsTrans(db, js.state, js2.state, js3.state);
  }

  lemma CreateAccountZeroes(db: Database, js: ValidJState, isSpuriousDragon: bool, caller: Address, a: Address,
                            balance: U256)
    requires a in js.state && caller in js.state && a != caller
    requires !Collides(a, js.state[a], js.numOfPrecompiles) && js.state[a].info.balance + balance < TWO_256
    ensures Zeroed(db, js.state, CreateAccount(js, isSpuriousDragon, caller, a, balance).0.state, a)
  {
    var js1 := Touch(PutAccount(js, a, MarkCreated(js.state[a])), a);
    var js2 := FirstNonce(js1, isSpuriousDragon, a);
    FreshMark(js, isSpuriousDragon, a, js1, js2);
    CreatedIsMove(js, isSpuriousDragon, caller, a, balance, js1, js2);
    MovedFresh(js2.state, isSpuriousDragon, caller, a, balance);
    FreshIsZeroed(db, js.state, js2.state, Moved(js2.state, caller, a, balance), caller, a);
  }

  lemma FreshIsZeroed(db: Database, s: State, s1: State, t: State, caller: Address, a: Address)
    requires a in s && caller in s && a in s1 && s1 == s[a := s1[a]] && t.Keys == s1.Keys && a != caller
    requires t[a].created && forall k | k in t[a].storage :: t[a].storage[k] == StorageSlot(0, 0)
    requires t[caller].storage == s1[caller].storage && t[caller].created == s1[caller].created
    requires forall x | x in s1 && x != a && x != caller :: t[x] == s1[x]
    ensures Zeroed(db, s, t, a)
  {
  }

  lemma SetCodeKeepsSlots(db: Database, js: ValidJState, a: Address, code: Bytecode)
    requires a in js.state
    ensures SameSlots(db, js.state, SetCode(js, a, code).state)
  {
    SlotsKept(db, js.state, SetCode(js, a, code).state);
  }

  lemma InitFrameIs(cfg: Config, db: Database, js: ValidJState, inputs: CreateInputs, callee: Callee, js2: ValidJState,
                    js3: ValidJState)
    requires inputs.caller in js.state && inputs.created in js.state
    requires CreateAccount(Checkpoint(js).1, cfg.Enabled(SPURIOUS_DRAGON), inputs.caller, inputs.created, inputs.value)
             == (js2, None)
    requires RunOps(cfg, db, js2, inputs.created, callee.body) == Some(js3)
    ensures CreateFrame(cfg, db, js, inputs, callee) == FinishCreate(cfg, js3, Checkpoint(js).0, inputs, callee)
  {
  }

  /** The frame of a create that does not collide and whose code is accepted. */
  lemma WriterInitFrame(cfg: Config, db: Database, js: ValidJState, inputs: CreateInputs, callee: Callee, key: U256,
                        value: U256)
    requires inputs.caller in js.state && inputs.created in js.state && callee.body == [OpSstore(key, value)]
    requires inputs.created != inputs.caller && TotalSupply(db, js.state) < TWO_256
    requires inputs.value <= js.state[inputs.caller].info.balance
    requires !Collides(inputs.created, js.state[inputs.created], js.numOfPrecompiles)
    requires Verdict(cfg, inputs, callee).result.IsOk()
    ensures var r := CreateFrame(cfg, db, js, inputs, callee);
            r.Some? && CreatedWriting(db, js.state, r.value.js.state, inputs.created, key, value)
  {
    var js1 := Checkpoint(js).1;
    var isSpuriousDragon := cfg.Enabled(SPURIOUS_DRAGON);
    var js2 := CreateAccount(js1, isSpuriousDragon, inputs.caller, inputs.created, inputs.value).0;
    TwoBalancesWithinSupply(db, js.state, inputs.caller, inputs.created);
    CreateAccountPays(db, js1, isSpuriousDragon, inputs.caller, inputs.created, inputs.value);
    CreateAccountZeroes(db, js1, isSpuriousDragon, inputs.caller, inputs.created, inputs.value);
    OneStore(cfg, db, js2, inputs.created, key, value);
    SstoreWrites(db, js2, inputs.created, key, value);
    var js3 := Sstore(js2, db, inputs.created, key, value).0;
    InitFrameIs(cfg, db, js, inputs, callee, js2, js3);
    var end := Verdict(cfg, inputs, callee);
    FinishCreateIs(cfg, js3, Checkpoint(js).0, inputs, callee, end, Some(Commit(js3)));
    var code := Bytecode(end.output, if end.output == [] then KECCAK_EMPTY else callee.outputHash);
    SetCodeKeepsSlots(db, Commit(js3), inputs.created, code);
    assert SameSlots(db, js.state, js1.state);
    ZeroedThenWritten(db, js.state, js1.state, js2.state, js3.state, SetCode(Commit(js3), inputs.created, code).state,
                      inputs.created, key, value);
  }

  /**
    Init code that writes a slot writes the created account's storage, all other
    slots of which are zero, whatever the database holds; no slot of any other
    account changes.
   */
  lemma InitWritesItsOwner(cfg: Config, db: Database, js: ValidJState, inputs: CreateInputs, callee: Callee, key: U256,
                           value: U256)
    requires callee.body == [OpSstore(key, value)] && TotalSupply(db, js.state) < TWO_256
    requires CreateRefusal(db, js, inputs).None? && inputs.created != inputs.caller
    requires !Collides(inputs.created, Found(db, js.state, inputs.created), js.numOfPrecompiles)
    requires Verdict(cfg, inputs, callee).result.IsOk()
    ensures var r := CreateInner(cfg, db, js, inputs, callee);
            r.Some? && CreatedWriting(db, js.state, r.value.js.state, inputs.created, key, value)
  {
    var js1 := PrepareCreate(db, js, inputs).0;
    PrepareCounts(db, js, inputs);
    EnoughForCreate(db, js, inputs);
    PrepareCreateTracked(db, js, inputs);
    PrepareKeepsSlots(db, js, inputs);
    SameSupply(db, js.state, js1.state);
    WriterInitFrame(cfg, db, js1, inputs, callee, key, value);
  }
}
