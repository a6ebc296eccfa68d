/**
  The journal refines a stack of full snapshots. `Snap` runs the same operations
  with the plainest way to roll back, a copy of the whole journaled state kept
  at each checkpoint, and no journal is read. On runs without creates the two
  agree throughout: after every operation the journaled run shows the restored
  view of the snapshot run, with the same logs and depth.
 */
module Snapshots {
  import opened Words
  import opened Accounts
  import opened InstructionResults
  import opened GasMeter
  import opened Journal
  import opened Rollback
  import opened Supply
  import opened Tracking
  import opened Evm
  import opened EvmRuns

  predicate CreateFree(body: seq<HostOp>)
    decreases body
  {
    forall op | op in body :: CreateFreeOp(op)
  }

  predicate CreateFreeOp(op: HostOp)
    decreases op
  {
    match op
    case OpCreate(_, _, _, _) => false
    case OpCall(_, _, _, _, callee) => CreateFree(callee.body)
    case _ => true
  }

  // ---------------------------------------------------------------- the snapshot machine

  /** Commit keeps the state, failure puts the saved copy back. */
  function SnapClose(js: ValidJState, saved: ValidJState, ok: bool): ValidJState {
    if ok then js.(depth := saved.depth) else saved
  }

  function SnapOps(cfg: Config, db: Database, js: ValidJState, self: Address, body: seq<HostOp>): (r: ValidJState)
    ensures js.state.Keys <= r.state.Keys
    decreases body
  {
    if body == [] then js else SnapOps(cfg, db, SnapOp(cfg, db, js, self, body[0]), self, body[1..])
  }

  function SnapOp(cfg: Config, db: Database, js: ValidJState, self: Address, op: HostOp): (r: ValidJState)
    ensures js.state.Keys <= r.state.Keys
    decreases op
  {
    if op.OpCall? then
      SnapFrom(cfg, db, js, CallInputsOf(self, op.scheme, op.to, op.value, op.gasLimit), op.callee)
    else if op.OpCreate? then js
    else match PlainOp(db, js, self, op)
      case None => js
      case Some(js1) => js1
  }

  function SnapFrom(cfg: Config, db: Database, js: ValidJState, inputs: CallInputs, callee: Callee): (r: ValidJState)
    ensures js.state.Keys <= r.state.Keys
    decreases callee, 3
  {
    var (js1, loaded) := LoadAccountExist(js, db, inputs.contract);
    if loaded.DbErr? then js1 else SnapLoaded(cfg, db, js1, inputs, callee)
  }

  function SnapLoaded(cfg: Config, db: Database, js: ValidJState, inputs: CallInputs, callee: Callee): (r: ValidJState)
    ensures js.state.Keys <= r.state.Keys
    decreases callee, 2
  {
    var (js1, ready) := LoadCode(js, db, inputs.contract);
    if ready.DbErr? || js1.depth > CALL_STACK_LIMIT then js1 else SnapCall(cfg, db, js1, inputs, callee)
  }

  /** The frame is counted; the copy to go back to is the caller's business. */
  function SnapOpen(js: ValidJState): (r: ValidJState) {
    js.(depth := js.depth + 1)
  }

  function SnapCall(cfg: Config, db: Database, js: ValidJState, inputs: CallInputs, callee: Callee): (r: ValidJState)
    ensures js.state.Keys <= r.state.Keys
    decreases callee, 1
  {
    SnapFinish(cfg, db, EnterCall(db, SnapOpen(js), inputs).0, EnterCall(db, SnapOpen(js), inputs).1, js, inputs,
               callee)
  }

  /** The end of a call entered in `js`, with the copy `saved` to go back to. */
  function SnapFinish(cfg: Config, db: Database, js: ValidJState, error: Option<InstructionResult>, saved: ValidJState,
                      inputs: CallInputs, callee: Callee): (r: ValidJState)
    requires saved.state.Keys <= js.state.Keys
    ensures saved.state.Keys <= r.state.Keys
    decreases callee, 0
  {
    if error.Some? then SnapClose(js, saved, false)
    else if IsPrecompile(inputs.contract, js.numOfPrecompiles) then
      SnapClose(js, saved, CallPrecompile(cfg, NewMeter(inputs.gasLimit), callee.precompile).0.IsOk())
    else if callee.hasCode then
      SnapClose(SnapOps(cfg, db, js, inputs.contextAddress, callee.body), saved, callee.exit.IsOk())
    else
      SnapClose(js, saved, true)
  }

  // ---------------------------------------------------------------- the simulation relation

  ghost predicate NoCreated(s: State) {
    forall a | a in s :: !s[a].created
  }

  /** `live` shows what `snap` holds. */
  ghost predicate Sim(db: Database, snap: ValidJState, live: ValidJState) {
    && Restored(db, !snap.isBeforeSpuriousDragon, snap.state, live.state)
    && NoCreated(live.state)
    && snap.logs == live.logs
    && snap.depth == live.depth
    && snap.isBeforeSpuriousDragon == live.isBeforeSpuriousDragon
    && snap.numOfPrecompiles == live.numOfPrecompiles
  }

  /** Accounts that show each other, put at the same address. */
  lemma SimPut(db: Database, snap: ValidJState, live: ValidJState, a: Address, acc: Account, acc': Account)
    requires Sim(db, snap, live)
    requires RestoredAt(db, !snap.isBeforeSpuriousDragon, a, acc, acc') && !acc'.created
    ensures Sim(db, PutAccount(snap, a, acc), PutAccount(live, a, acc'))
  {
    var sd := !snap.isBeforeSpuriousDragon;
    var s, r := snap.state[a := acc], live.state[a := acc'];
    forall x | x in s
      ensures x in r && RestoredAt(db, sd, x, s[x], r[x])
    {
      if x != a {
        assert RestoredAt(db, sd, x, snap.state[x], live.state[x]);
      }
    }
  }

  /** The relation looks at neither journal. */
  lemma SimJournals(db: Database, snap: ValidJState, live: ValidJState, snap': ValidJState, live': ValidJState)
    requires Sim(db, snap, live)
    requires snap'.(journal := snap.journal) == snap && live'.(journal := live.journal) == live
    ensures Sim(db, snap', live')
  {
  }

  /** What the relation says about one account that both hold. */
  lemma SimAccount(db: Database, snap: ValidJState, live: ValidJState, a: Address)
    requires Sim(db, snap, live) && a in snap.state
    ensures a in live.state
    ensures RestoredAt(db, !snap.isBeforeSpuriousDragon, a, snap.state[a], live.state[a])
    ensures snap.state[a].info.balance == live.state[a].info.balance
    ensures snap.state[a].selfDestructed == live.state[a].selfDestructed
    ensures snap.state[a].storage == live.state[a].storage
    ensures !snap.state[a].created && !live.state[a].created
  {
    assert RestoredAt(db, !snap.isBeforeSpuriousDragon, a, snap.state[a], live.state[a]);
  }

  lemma TouchState(js: ValidJState, a: Address)
    requires a in js.state
    ensures Touch(js, a).(journal := js.journal) == PutAccount(js, a, js.state[a].(touched := true))
  {
    assert Touch(js, a).state == js.state[a := js.state[a].(touched := true)];
  }

  lemma SimTouch(db: Database, snap: ValidJState, live: ValidJState, a: Address)
    requires Sim(db, snap, live)
    ensures Sim(db, Touch(snap, a), Touch(live, a))
  {
    if a in snap.state {
      SimAccount(db, snap, live, a);
      TouchState(snap, a);
      TouchState(live, a);
      SimPut(db, snap, live, a, snap.state[a].(touched := true), live.state[a].(touched := true));
      SimJournals(db, PutAccount(snap, a, snap.state[a].(touched := true)),
                  PutAccount(live, a, live.state[a].(touched := true)),
                  Touch(snap, a), Touch(live, a));
    } else if a in live.state {
      SimTouchLeftover(db, snap, live, a);
    }
  }

  lemma SimTouchLeftover(db: Database, snap: ValidJState, live: ValidJState, a: Address)
    requires Sim(db, snap, live) && a !in snap.state && a in live.state
    ensures Sim(db, snap, Touch(live, a))
  {
    var sd := !snap.isBeforeSpuriousDragon;
    assert Leftover(db, sd, a, live.state[a]);
    var r := Touch(live, a).state;
    forall x | x in r && x !in snap.state
      ensures Leftover(db, sd, x, r[x])
    {
      assert Leftover(db, sd, x, live.state[x]);
    }
  }

  lemma FetchNotCreated(db: Database, a: Address)
    requires Fetch(db, a).DbOk?
    ensures !Fetch(db, a).value.created
  {
  }

  lemma SimLoad(db: Database, snap: ValidJState, live: ValidJState, a: Address)
    requires Sim(db, snap, live)
    ensures Sim(db, LoadAccount(snap, db, a).0, LoadAccount(live, db, a).0)
    ensures LoadAccount(snap, db, a).1.DbOk? == LoadAccount(live, db, a).1.DbOk?
  {
    if a in snap.state {
      SimAccount(db, snap, live, a);
    } else if a in live.state {
      assert Leftover(db, !snap.isBeforeSpuriousDragon, a, live.state[a]);
      var snap1 := PutAccount(snap, a, Fetch(db, a).value);
      SimPut(db, snap, live, a, Fetch(db, a).value, live.state[a]);
      assert PutAccount(live, a, live.state[a]) == live;
      SimJournals(db, snap1, live, LoadAccount(snap, db, a).0, live);
    } else if Fetch(db, a).DbOk? {
      var acc := Fetch(db, a).value;
      FetchNotCreated(db, a);
      SimPut(db, snap, live, a, acc, acc);
      SimJournals(db, PutAccount(snap, a, acc), PutAccount(live, a, acc), LoadAccount(snap, db, a).0,
                  LoadAccount(live, db, a).0);
    }
  }

  /** The same code put into the cache of an account that both hold. */
  lemma SimCode(db: Database, snap: ValidJState, live: ValidJState, a: Address, code: Bytecode)
    requires Sim(db, snap, live) && a in snap.state && a in live.state
    ensures Sim(db, PutAccount(snap, a, WithCode(snap.state[a], code)),
                PutAccount(live, a, WithCode(live.state[a], code)))
  {
    SimAccount(db, snap, live, a);
    SimPut(db, snap, live, a, WithCode(snap.state[a], code), WithCode(live.state[a], code));
  }

  /** The code that loading finds with an account or reads for it. */
  function LoadedCode(db: Database, acc: Account): DbResult<Bytecode> {
    if acc.info.code.Some? then DbOk(acc.info.code.value) else ReadCode(db, acc.info.codeHash)
  }

  lemma CacheCodeShape(db: Database, js: ValidJState, a: Address)
    requires a in js.state
    ensures CacheCode(js, db, a)
         == match LoadedCode(db, js.state[a])
            case DbErr => (js, false)
            case DbOk(code) => (PutAccount(js, a, WithCode(js.state[a], code)), true)
  {
    if js.state[a].info.code.Some? {
      assert js.state == js.state[a := WithCode(js.state[a], js.state[a].info.code.value)];
    }
  }

  /** What is cached in one of them only is what reading would give. */
  lemma SimLoadedCode(db: Database, snap: ValidJState, live: ValidJState, a: Address)
    requires Sim(db, snap, live) && a in snap.state && a in live.state
    ensures LoadedCode(db, snap.state[a]) == LoadedCode(db, live.state[a])
  {
    SimAccount(db, snap, live, a);
  }

  lemma SimCacheCode(db: Database, snap: ValidJState, live: ValidJState, a: Address)
    requires Sim(db, snap, live) && a in snap.state && a in live.state
    ensures Sim(db, CacheCode(snap, db, a).0, CacheCode(live, db, a).0)
    ensures CacheCode(snap, db, a).1 == CacheCode(live, db, a).1
  {
    CacheCodeShape(db, snap, a);
    CacheCodeShape(db, live, a);
    SimLoadedCode(db, snap, live, a);
    var code := LoadedCode(db, snap.state[a]);
    if code.DbOk? {
      SimCode(db, snap, live, a, code.value);
    }
  }

  lemma SimLoadCode(db: Database, snap: ValidJState, live: ValidJState, a: Address)
    requires Sim(db, snap, live)
    ensures Sim(db, LoadCode(snap, db, a).0, LoadCode(live, db, a).0)
    ensures LoadCode(snap, db, a).1.DbOk? == LoadCode(live, db, a).1.DbOk?
    ensures LoadAccount(snap, db, a).1 == LoadAccount(live, db, a).1 ==>
              LoadCode(snap, db, a).1 == LoadCode(live, db, a).1
  {
    SimLoad(db, snap, live, a);
    var snap1, live1 := LoadAccount(snap, db, a).0, LoadAccount(live, db, a).0;
    if a in snap1.state {
      SimCacheCode(db, snap1, live1, a);
    }
  }

  /** The same storage given to an account that both hold. */
  lemma SimStorage(db: Database, snap: ValidJState, live: ValidJState, a: Address, storage: Storage)
    requires Sim(db, snap, live) && a in snap.state && a in live.state
    ensures Sim(db, PutAccount(snap, a, snap.state[a].(storage := storage)),
                PutAccount(live, a, live.state[a].(storage := storage)))
  {
    SimAccount(db, snap, live, a);
    SimPut(db, snap, live, a, snap.state[a].(storage := storage), live.state[a].(storage := storage));
  }

  /** The storage of an account after a slot was read. */
  function Warmed(db: Database, a: Address, storage: Storage, key: U256): Storage {
    if key in storage then storage
    else match db.slot(a, key)
      case DbErr => storage
      case DbOk(v) => storage[key := StorageSlot(v, v)]
  }

  lemma SloadShape(db: Database, js: ValidJState, a: Address, key: U256)
    requires a in js.state && !js.state[a].created
    ensures Sload(js, db, a, key).0.(journal := js.journal)
         == PutAccount(js, a, js.state[a].(storage := Warmed(db, a, js.state[a].storage, key)))
    ensures var r := Sload(js, db, a, key).1;
            if key in Warmed(db, a, js.state[a].storage, key)
            then r.DbOk? && r.value.0 == Warmed(db, a, js.state[a].storage, key)[key].present
            else r == DbErr
  {
    assert Sload(js, db, a, key).0.state == js.state[a :=
                                                     js.state[a].(storage := Warmed(db, a, js.state[a].storage, key))];
  }

  lemma SimSload(db: Database, snap: ValidJState, live: ValidJState, a: Address, key: U256)
    requires Sim(db, snap, live) && a in snap.state && a in live.state
    ensures Sim(db, Sload(snap, db, a, key).0, Sload(live, db, a, key).0)
  {
    SimAccount(db, snap, live, a);
    SloadShape(db, snap, a, key);
    SloadShape(db, live, a, key);
    var storage := Warmed(db, a, snap.state[a].storage, key);
    SimStorage(db, snap, live, a, storage);
    SimJournals(db, PutAccount(snap, a, snap.state[a].(storage := storage)),
                PutAccount(live, a, live.state[a].(storage := storage)),
                Sload(snap, db, a, key).0, Sload(live, db, a, key).0);
  }

  /** The storage of an account after a slot was written. */
  function Stored(db: Database, a: Address, storage: Storage, key: U256, value: U256): Storage {
    var warmed := Warmed(db, a, storage, key);
    if key in warmed then warmed[key := warmed[key].(present := value)] else warmed
  }

  lemma SstoreShape(db: Database, js: ValidJState, a: Address, key: U256, value: U256)
    requires a in js.state && !js.state[a].created
    ensures Sstore(js, db, a, key, value).0.(journal := js.journal)
         == PutAccount(js, a, js.state[a].(storage := Stored(db, a, js.state[a].storage, key, value)))
  {
    SloadShape(db, js, a, key);
    var warmed := Warmed(db, a, js.state[a].storage, key);
    var js1 := Sload(js, db, a, key).0;
    assert js1.state[a].storage == warmed;
    if key in warmed && warmed[key].present == value {
      assert warmed[key := warmed[key].(present := value)] == warmed;
    }
    assert Sstore(js, db, a, key, value).0.state
      == js.state[a := js.state[a].(storage := Stored(db, a, js.state[a].storage, key, value))];
  }

  lemma SimSstore(db: Database, snap: ValidJState, live: ValidJState, a: Address, key: U256, value: U256)
    requires Sim(db, snap, live) && a in snap.state && a in live.state
    ensures Sim(db, Sstore(snap, db, a, key, value).0, Sstore(live, db, a, key, value).0)
  {
    SimAccount(db, snap, live, a);
    SstoreShape(db, snap, a, key, value);
    SstoreShape(db, live, a, key, value);
    var storage := Stored(db, a, snap.state[a].storage, key, value);
    SimStorage(db, snap, live, a, storage);
    SimJournals(db, PutAccount(snap, a, snap.state[a].(storage := storage)),
                PutAccount(live, a, live.state[a].(storage := storage)),
                Sstore(snap, db, a, key, value).0, Sstore(live, db, a, key, value).0);
  }

  /** The same balance and destroyed flag given to an account that both hold. */
  lemma SimFunds(db: Database, snap: ValidJState, live: ValidJState, a: Address, balance: U256, destroyed: bool)
    requires Sim(db, snap, live) && a in snap.state && a in live.state
    ensures Sim(db, PutAccount(snap, a, WithBalance(snap.state[a], balance).(selfDestructed := destroyed)),
                PutAccount(live, a, WithBalance(live.state[a], balance).(selfDestructed := destroyed)))
  {
    SimAccount(db, snap, live, a);
    SimPut(db, snap, live, a, WithBalance(snap.state[a], balance).(selfDestructed := destroyed),
           WithBalance(live.state[a], balance).(selfDestructed := destroyed));
  }

  // ---------------------------------------------------------------- payments

  lemma SimDebit(db: Database, snap: ValidJState, live: ValidJState, a: Address, balance: U256)
    requires Sim(db, snap, live) && a in snap.state && a in live.state
    ensures Sim(db, PutAccount(snap, a, WithBalance(snap.state[a], balance)),
                PutAccount(live, a, WithBalance(live.state[a], balance)))
  {
    SimAccount(db, snap, live, a);
    SimFunds(db, snap, live, a, balance, snap.state[a].selfDestructed);
  }

  lemma SimMoved(db: Database, snap: ValidJState, live: ValidJState, from: Address, to: Address, balance: U256)
    requires Sim(db, snap, live)
    requires from in snap.state && to in snap.state && from in live.state && to in live.state
    ensures Sim(db, snap.(state := Moved(snap.state, from, to, balance)),
                live.(state := Moved(live.state, from, to, balance)))
  {
    SimAccount(db, snap, live, from);
    var left := WrappingSub(snap.state[from].info.balance, balance);
    SimDebit(db, snap, live, from, left);
    var snap1 := PutAccount(snap, from, WithBalance(snap.state[from], left));
    var live1 := PutAccount(live, from, WithBalance(live.state[from], left));
    SimAccount(db, snap1, live1, to);
    SimDebit(db, snap1, live1, to, WrappingAdd(snap1.state[to].info.balance, balance));
  }

  lemma SameSupplyShown(db: Database, snap: ValidJState, live: ValidJState)
    requires Sim(db, snap, live)
    ensures TotalSupply(db, live.state) == TotalSupply(db, snap.state)
  {
    RestoredSupply(db, !snap.isBeforeSpuriousDragon, snap.state, live.state);
  }

  lemma SimPay(db: Database, snap: ValidJState, live: ValidJState, from: Address, to: Address, balance: U256)
    requires Sim(db, snap, live) && TotalSupply(db, live.state) < TWO_256
    requires from in snap.state && to in snap.state && from in live.state && to in live.state
    ensures Sim(db, Pay(snap, from, to, balance).0, Pay(live, from, to, balance).0)
    ensures Pay(snap, from, to, balance).1 == Pay(live, from, to, balance).1
  {
    SameSupplyShown(db, snap, live);
    PayNeverOverflows(db, snap, from, to, balance);
    PayNeverOverflows(db, live, from, to, balance);
    SimTouch(db, snap, live, from);
    SimAccount(db, Touch(snap, from), Touch(live, from), from);
    if balance <= Touch(snap, from).state[from].info.balance {
      PaidShape(snap, from, to, balance);
      PaidShape(live, from, to, balance);
      SimPaid(db, snap, live, from, to, balance, Pay(snap, from, to, balance).0, Pay(live, from, to, balance).0);
    }
  }

  lemma PaidShape(js: ValidJState, from: Address, to: Address, balance: U256)
    requires from in js.state && to in js.state && Pay(js, from, to, balance).1.None?
    ensures var js1 := Touch(Touch(js, from), to);
            Pay(js, from, to, balance).0.(journal := js1.journal) == js1.(state := Moved(js1.state, from, to, balance))
  {
    PayIsMove(js, from, to, balance);
  }

  /** The shape of a payment carries the relation over. */
  lemma SimPaid(db: Database, snap: ValidJState, live: ValidJState, from: Address, to: Address, balance: U256,
                snap': ValidJState, live': ValidJState)
    requires Sim(db, snap, live)
    requires from in snap.state && to in snap.state && from in live.state && to in live.state
    requires var js1 := Touch(Touch(snap, from), to);
             snap'.(journal := js1.journal) == js1.(state := Moved(js1.state, from, to, balance))
    requires var js1 := Touch(Touch(live, from), to);
             live'.(journal := js1.journal) == js1.(state := Moved(js1.state, from, to, balance))
    ensures Sim(db, snap', live')
  {
    var snap1, live1 := Touch(snap, from), Touch(live, from);
    var snap2, live2 := Touch(snap1, to), Touch(live1, to);
    SimTouch(db, snap, live, from);
    SimTouch(db, snap1, live1, to);
    SimMoved(db, snap2, live2, from, to, balance);
    SimJournals(db, snap2.(state := Moved(snap2.state, from, to, balance)),
                live2.(state := Moved(live2.state, from, to, balance)),
                snap', live');
  }

  lemma SimTransfer(db: Database, snap: ValidJState, live: ValidJState, from: Address, to: Address, balance: U256)
    requires Sim(db, snap, live) && TotalSupply(db, live.state) < TWO_256
    ensures Sim(db, Transfer(snap, db, from, to, balance).0, Transfer(live, db, from, to, balance).0)
    ensures Transfer(snap, db, from, to, balance).1 == Transfer(live, db, from, to, balance).1
  {
    var snap1, live1 := LoadAccount(snap, db, from).0, LoadAccount(live, db, from).0;
    var snap2, live2 := LoadAccount(snap1, db, to).0, LoadAccount(live1, db, to).0;
    SimLoad(db, snap, live, from);
    SimLoad(db, snap1, live1, to);
    TrackedLoadAccount(db, live, from);
    TrackedLoadAccount(db, live1, to);
    if from in snap1.state && to in snap2.state {
      SimPay(db, snap2, live2, from, to, balance);
    }
  }

  lemma SimDestroy(db: Database, snap: ValidJState, live: ValidJState, a: Address, target: Address)
    requires Sim(db, snap, live)
    requires a in snap.state && target in snap.state && a in live.state && target in live.state
    ensures Sim(db, Destroy(snap, a, target), Destroy(live, a, target))
  {
    SimAccount(db, snap, live, a);
    var balance := snap.state[a].info.balance;
    SimFunds(db, snap, live, a, 0, true);
    var snap1 := PutAccount(snap, a, WithBalance(snap.state[a], 0).(selfDestructed := true));
    var live1 := PutAccount(live, a, WithBalance(live.state[a], 0).(selfDestructed := true));
    if a == target {
      SimJournals(db, snap1, live1, Destroy(snap, a, target), Destroy(live, a, target));
    } else {
      var snap2, live2 := Touch(snap1, target), Touch(live1, target);
      SimTouch(db, snap1, live1, target);
      SimAccount(db, snap2, live2, target);
      var total := WrappingAdd(snap2.state[target].info.balance, balance);
      SimDebit(db, snap2, live2, target, total);
      SimJournals(db, PutAccount(snap2, target, WithBalance(snap2.state[target], total)),
                  PutAccount(live2, target, WithBalance(live2.state[target], total)),
                  Destroy(snap, a, target), Destroy(live, a, target));
    }
  }

  lemma SimSelfDestruct(db: Database, snap: ValidJState, live: ValidJState, a: Address, target: Address)
    requires Sim(db, snap, live) && a in snap.state && a in live.state
    ensures Sim(db, SelfDestructAccount(snap, db, a, target).0, SelfDestructAccount(live, db, a, target).0)
  {
    SimLoad(db, snap, live, target);
    var snap1, live1 := LoadAccount(snap, db, target).0, LoadAccount(live, db, target).0;
    if target in snap1.state {
      SimDestroy(db, snap1, live1, a, target);
    }
  }

  lemma SimEnterCall(db: Database, snap: ValidJState, live: ValidJState, inputs: CallInputs)
    requires Sim(db, snap, live) && TotalSupply(db, live.state) < TWO_256
    ensures Sim(db, EnterCall(db, snap, inputs).0, EnterCall(db, live, inputs).0)
    ensures EnterCall(db, snap, inputs).1 == EnterCall(db, live, inputs).1
  {
    if inputs.value == 0 {
      var snap1, live1 := LoadAccountExist(snap, db, inputs.contextAddress).0,
          LoadAccountExist(live, db, inputs.contextAddress).0;
      SimLoad(db, snap, live, inputs.contextAddress);
      SimTouch(db, snap1, live1, inputs.contextAddress);
      TrackedLoadAccount(db, live, inputs.contextAddress);
      TrackedTouch(db, live1, inputs.contextAddress);
      SimTransfer(db, Touch(snap1, inputs.contextAddress), Touch(live1, inputs.contextAddress), inputs.source,
                  inputs.target, inputs.value);
    } else {
      SimTransfer(db, snap, live, inputs.source, inputs.target, inputs.value);
    }
  }

  // ---------------------------------------------------------------- runs

  /** Undoing does not mark accounts created. */
  lemma {:induction false} UndoKeepsUnmarked(entries: Entries, s: State, isSpuriousDragon: bool)
    requires NoCreated(s) && UndoAll(entries, s, isSpuriousDragon).Some?
    ensures NoCreated(UndoAll(entries, s, isSpuriousDragon).value)
    decreases |entries|
  {
    if entries != [] {
      var n := |entries| - 1;
      UndoOneKeepsUnmarked(entries[n], s, isSpuriousDragon);
      UndoKeepsUnmarked(entries[..n], Undo(entries[n], s, isSpuriousDragon).value, isSpuriousDragon);
    }
  }

  lemma UndoOneKeepsUnmarked(e: JournalEntry, s: State, isSpuriousDragon: bool)
    requires NoCreated(s) && Undo(e, s, isSpuriousDragon).Some?
    ensures NoCreated(Undo(e, s, isSpuriousDragon).value)
  {
  }

  /** A closed frame shows what the snapshot machine keeps or puts back. */
  lemma SimClose(db: Database, snap: ValidJState, live: ValidJState, snap': ValidJState, live': ValidJState, ok: bool)
    requires Sim(db, snap, live) && Sim(db, snap', live')
    requires Ran(db, Checkpoint(live).1, Some(live'))
    ensures CloseFrame(live', Checkpoint(live).0, ok).Some?
    ensures Sim(db, SnapClose(snap', snap, ok), CloseFrame(live', Checkpoint(live).0, ok).value)
  {
    ClosedFrame(db, live, live', ok);
    var closed := CloseFrame(live', Checkpoint(live).0, ok).value;
    if !ok {
      RestoredTransitive(db, !snap.isBeforeSpuriousDragon, snap.state, live.state, closed.state);
      UndoKeepsUnmarked(Flatten(live'.journal[|live.journal|..]), live'.state, !live'.isBeforeSpuriousDragon);
    }
  }

  /**
    The refinement. From states that show each other, any create-free run of
    operations and nested frames leads to states that show each other.
   */
  lemma {:induction false} JournalRefinesSnapshots(
    cfg: Config, db: Database, snap: ValidJState, live: ValidJState, self: Address, body: seq<HostOp>)
    requires Sim(db, snap, live) && CreateFree(body)
    requires self in snap.state && self in live.state && TotalSupply(db, live.state) < TWO_256
    ensures RunOps(cfg, db, live, self, body).Some?
    ensures Sim(db, SnapOps(cfg, db, snap, self, body), RunOps(cfg, db, live, self, body).value)
    decreases body
  {
    if body != [] {
      SimOp(cfg, db, snap, live, self, body[0]);
      var snap1, live1 := SnapOp(cfg, db, snap, self, body[0]), RunOp(cfg, db, live, self, body[0]).value;
      RunOpTracked(cfg, db, live, self, body[0]);
      SmallerSupply(db, live, Some(live1));
      JournalRefinesSnapshots(cfg, db, snap1, live1, self, body[1..]);
    }
  }

  /** The two runs of an operation both go through, to states that show each other. */
  ghost predicate BothRan(db: Database, snap: Option<ValidJState>, live: Option<ValidJState>) {
    snap.Some? && live.Some? && Sim(db, snap.value, live.value)
  }

  lemma SimLoadOp(db: Database, snap: ValidJState, live: ValidJState, self: Address, op: HostOp)
    requires op.OpBalance? || op.OpLoadAccount? || op.OpLoadCode? || op.OpLog?
    requires Sim(db, snap, live)
    ensures BothRan(db, PlainOp(db, snap, self, op), PlainOp(db, live, self, op))
  {
    match op
    case OpBalance(a) => SimLoad(db, snap, live, a);
    case OpLoadAccount(a) => SimLoad(db, snap, live, a);
    case OpLoadCode(a) => SimLoadCode(db, snap, live, a);
    case OpLog(log) =>
  }

  lemma BothRanTo(db: Database, snap: Option<ValidJState>, live: Option<ValidJState>, snap': ValidJState,
                  live': ValidJState)
    requires Sim(db, snap', live') && snap == Some(snap') && live == Some(live')
    ensures BothRan(db, snap, live)
  {
  }

  lemma SimSloadOp(db: Database, snap: ValidJState, live: ValidJState, self: Address, key: U256)
    requires Sim(db, snap, live) && self in snap.state && self in live.state
    ensures BothRan(db, PlainOp(db, snap, self, OpSload(key)), PlainOp(db, live, self, OpSload(key)))
  {
    SimSload(db, snap, live, self, key);
    BothRanTo(db, PlainOp(db, snap, self, OpSload(key)), PlainOp(db, live, self, OpSload(key)),
              Sload(snap, db, self, key).0, Sload(live, db, self, key).0);
  }

  lemma SimSstoreOp(db: Database, snap: ValidJState, live: ValidJState, self: Address, key: U256, value: U256)
    requires Sim(db, snap, live) && self in snap.state && self in live.state
    ensures BothRan(db, PlainOp(db, snap, self, OpSstore(key, value)), PlainOp(db, live, self, OpSstore(key, value)))
  {
    SimSstore(db, snap, live, self, key, value);
    BothRanTo(db, PlainOp(db, snap, self, OpSstore(key, value)), PlainOp(db, live, self, OpSstore(key, value)),
              Sstore(snap, db, self, key, value).0, Sstore(live, db, self, key, value).0);
  }

  lemma SimSelfDestructOp(db: Database, snap: ValidJState, live: ValidJState, self: Address, target: Address)
    requires Sim(db, snap, live) && self in snap.state && self in live.state
    ensures BothRan(db, PlainOp(db, snap, self, OpSelfDestruct(target)),
                    PlainOp(db, live, self, OpSelfDestruct(target)))
  {
    SimSelfDestruct(db, snap, live, self, target);
    BothRanTo(db, PlainOp(db, snap, self, OpSelfDestruct(target)), PlainOp(db, live, self, OpSelfDestruct(target)),
              SelfDestructAccount(snap, db, self, target).0, SelfDestructAccount(live, db, self, target).0);
  }

  lemma SimOwnOp(db: Database, snap: ValidJState, live: ValidJState, self: Address, op: HostOp)
    requires op.OpSload? || op.OpSstore? || op.OpSelfDestruct?
    requires Sim(db, snap, live) && self in snap.state && self in live.state
    ensures BothRan(db, PlainOp(db, snap, self, op), PlainOp(db, live, self, op))
  {
    match op
    case OpSload(key) => SimSloadOp(db, snap, live, self, key);
    case OpSstore(key, value) => SimSstoreOp(db, snap, live, self, key, value);
    case OpSelfDestruct(target) => SimSelfDestructOp(db, snap, live, self, target);
  }

  lemma SimPlainOp(db: Database, snap: ValidJState, live: ValidJState, self: Address, op: HostOp)
    requires !op.OpCall? && !op.OpCreate?
    requires Sim(db, snap, live) && self in snap.state && self in live.state
    ensures BothRan(db, PlainOp(db, snap, self, op), PlainOp(db, live, self, op))
  {
    if op.OpSload? || op.OpSstore? || op.OpSelfDestruct? {
      SimOwnOp(db, snap, live, self, op);
    } else {
      SimLoadOp(db, snap, live, self, op);
    }
  }

  lemma PlainIs(cfg: Config, db: Database, js: ValidJState, self: Address, op: HostOp)
    requires !op.OpCall? && !op.OpCreate? && PlainOp(db, js, self, op).Some?
    ensures RunOp(cfg, db, js, self, op) == PlainOp(db, js, self, op)
    ensures SnapOp(cfg, db, js, self, op) == PlainOp(db, js, self, op).value
  {
  }

  lemma {:induction false} SimOp(cfg: Config, db: Database, snap: ValidJState, live: ValidJState, self: Address,
                                 op: HostOp)
    requires Sim(db, snap, live) && CreateFreeOp(op)
    requires self in snap.state && self in live.state && TotalSupply(db, live.state) < TWO_256
    ensures RunOp(cfg, db, live, self, op).Some?
    ensures Sim(db, SnapOp(cfg, db, snap, self, op), RunOp(cfg, db, live, self, op).value)
    decreases op
  {
    if op.OpCall? {
      SimFrom(cfg, db, snap, live, CallInputsOf(self, op.scheme, op.to, op.value, op.gasLimit), op.callee);
    } else {
      SimPlainOp(db, snap, live, self, op);
      PlainIs(cfg, db, snap, self, op);
      PlainIs(cfg, db, live, self, op);
    }
  }

  lemma {:induction false} SimFrom(cfg: Config, db: Database, snap: ValidJState, live: ValidJState,
                                   inputs: CallInputs, callee: Callee)
    requires Sim(db, snap, live) && CreateFree(callee.body)
    requires ContextLoaded(snap, inputs) && ContextLoaded(live, inputs) && TotalSupply(db, live.state) < TWO_256
    ensures CallFrom(cfg, db, live, inputs, callee).Some?
    ensures Sim(db, SnapFrom(cfg, db, snap, inputs, callee), CallFrom(cfg, db, live, inputs, callee).value)
    decreases callee, 4
  {
    SimLoad(db, snap, live, inputs.contract);
    var snap1, live1 := LoadAccountExist(snap, db, inputs.contract).0, LoadAccountExist(live, db, inputs.contract).0;
    TrackedLoadAccount(db, live, inputs.contract);
    if inputs.contract in live1.state {
      SimLoadedCall(cfg, db, snap1, live1, inputs, callee);
    }
  }

  /** Runs that end in states that show each other, under the names the machines give them. */
  lemma SimIs(db: Database, snap: ValidJState, live: ValidJState, snap': ValidJState, live': Option<Outcome>)
    requires Sim(db, snap, live) && snap' == snap && live'.Some? && live'.value.js == live
    ensures Sim(db, snap', live'.value.js)
  {
  }

  /** A call of a loaded contract, from the load of its code on. */
  lemma {:induction false} SimLoadedCall(cfg: Config, db: Database, snap: ValidJState, live: ValidJState,
                                         inputs: CallInputs, callee: Callee)
    requires Sim(db, snap, live) && CreateFree(callee.body)
    requires inputs.contract in snap.state && inputs.contract in live.state
    requires ContextLoaded(snap, inputs) && ContextLoaded(live, inputs) && TotalSupply(db, live.state) < TWO_256
    ensures CallInner(cfg, db, live, inputs, callee).Some?
    ensures Sim(db, SnapLoaded(cfg, db, snap, inputs, callee), CallInner(cfg, db, live, inputs, callee).value.js)
    decreases callee, 3
  {
    SimLoadCode(db, snap, live, inputs.contract);
    TrackedLoadCode(db, live, inputs.contract);
    var snap1, live1 := LoadCode(snap, db, inputs.contract).0, LoadCode(live, db, inputs.contract).0;
    if LoadCode(live, db, inputs.contract).1.DbErr? || live1.depth > CALL_STACK_LIMIT {
      SimIs(db, snap1, live1, SnapLoaded(cfg, db, snap, inputs, callee), CallInner(cfg, db, live, inputs, callee));
    } else {
      SimReadyCall(cfg, db, snap1, live1, inputs, callee);
      SimIs(db, SnapCall(cfg, db, snap1, inputs, callee), CallFrame(cfg, db, live1, inputs, callee).value.js,
            SnapLoaded(cfg, db, snap, inputs, callee), CallInner(cfg, db, live, inputs, callee));
    }
  }

  /** A call that opens a frame. */
  lemma {:induction false} SimReadyCall(cfg: Config, db: Database, snap: ValidJState, live: ValidJState,
                                        inputs: CallInputs, callee: Callee)
    requires Sim(db, snap, live) && CreateFree(callee.body)
    requires inputs.contract in snap.state && inputs.contract in live.state
    requires ContextLoaded(snap, inputs) && ContextLoaded(live, inputs) && TotalSupply(db, live.state) < TWO_256
    ensures CallFrame(cfg, db, live, inputs, callee).Some?
    ensures Sim(db, SnapCall(cfg, db, snap, inputs, callee), CallFrame(cfg, db, live, inputs, callee).value.js)
    decreases callee, 2
  {
    var snap1, live1, error := SimEntered(cfg, db, snap, live, inputs, callee);
    SnapCallIs(cfg, db, snap, inputs, callee, snap1, error);
    CallFrameIs(cfg, db, live, inputs, callee, live1, error);
  }

  /** The entry of a call: both machines end it alike, ready to run the callee. */
  lemma SimEntry(db: Database, snap: ValidJState, live: ValidJState, inputs: CallInputs)
    returns (snap1: ValidJState, live1: ValidJState, error: Option<InstructionResult>)
    requires Sim(db, snap, live) && inputs.contract in snap.state && inputs.contract in live.state
    requires ContextLoaded(snap, inputs) && ContextLoaded(live, inputs) && TotalSupply(db, live.state) < TWO_256
    ensures EnterCall(db, SnapOpen(snap), inputs).0 == snap1 && EnterCall(db, SnapOpen(snap), inputs).1 == error
    ensures EnterCall(db, Checkpoint(live).1, inputs).0 == live1 && EnterCall(db, Checkpoint(live).1, inputs).1 == error
    ensures Sim(db, snap1, live1)
    ensures Ran(db, Checkpoint(live).1, Some(live1)) && TotalSupply(db, live1.state) < TWO_256
    ensures snap.state.Keys <= snap1.state.Keys
    ensures error.None? ==> inputs.contextAddress in snap1.state && inputs.contextAddress in live1.state
  {
    var snap0, live0 := SnapOpen(snap), Checkpoint(live).1;
    SimEnterCall(db, snap0, live0, inputs);
    EnterCallTracked(db, live0, inputs);
    snap1, error := EnterCall(db, snap0, inputs).0, EnterCall(db, snap0, inputs).1;
    live1 := EnterCall(db, live0, inputs).0;
    SmallerSupply(db, live0, Some(live1));
  }

  lemma CallFrameIs(cfg: Config, db: Database, js: ValidJState, inputs: CallInputs, callee: Callee,
                    js1: ValidJState, error: Option<InstructionResult>)
    requires EnterCall(db, Checkpoint(js).1, inputs).0 == js1 && EnterCall(db, Checkpoint(js).1, inputs).1 == error
    ensures CallFrame(cfg, db, js, inputs, callee) == FinishCall(cfg, db, js1, error, Checkpoint(js).0, inputs, callee)
  {
  }

  lemma SnapCallIs(cfg: Config, db: Database, js: ValidJState, inputs: CallInputs, callee: Callee,
                   js1: ValidJState, error: Option<InstructionResult>)
    requires EnterCall(db, SnapOpen(js), inputs).0 == js1 && EnterCall(db, SnapOpen(js), inputs).1 == error
    requires js.state.Keys <= js1.state.Keys
    ensures SnapCall(cfg, db, js, inputs, callee) == SnapFinish(cfg, db, js1, error, js, inputs, callee)
  {
  }

  lemma {:induction false} SimEntered(cfg: Config, db: Database, snap: ValidJState, live: ValidJState,
                                      inputs: CallInputs, callee: Callee)
    returns (snap1: ValidJState, live1: ValidJState, error: Option<InstructionResult>)
    requires Sim(db, snap, live) && CreateFree(callee.body)
    requires inputs.contract in snap.state && inputs.contract in live.state
    requires ContextLoaded(snap, inputs) && ContextLoaded(live, inputs) && TotalSupply(db, live.state) < TWO_256
    ensures EnterCall(db, SnapOpen(snap), inputs).0 == snap1 && EnterCall(db, SnapOpen(snap), inputs).1 == error
    ensures EnterCall(db, Checkpoint(live).1, inputs).0 == live1 && EnterCall(db, Checkpoint(live).1, inputs).1 == error
    ensures snap.state.Keys <= snap1.state.Keys
    ensures FinishCall(cfg, db, live1, error, Checkpoint(live).0, inputs, callee).Some?
    ensures Sim(db, SnapFinish(cfg, db, snap1, error, snap, inputs, callee),
                FinishCall(cfg, db, live1, error, Checkpoint(live).0, inputs, callee).value.js)
    decreases callee, 1
  {
    snap1, live1, error := SimEntry(db, snap, live, inputs);
    SimFinish(cfg, db, snap, live, snap1, live1, error, inputs, callee);
  }

  lemma {:induction false} SimFinish(cfg: Config, db: Database, snap: ValidJState, live: ValidJState,
                                     snap1: ValidJState, live1: ValidJState,
                                     error: Option<InstructionResult>, inputs: CallInputs, callee: Callee)
    requires Sim(db, snap, live) && Sim(db, snap1, live1) && CreateFree(callee.body)
    requires Ran(db, Checkpoint(live).1, Some(live1)) && TotalSupply(db, live1.state) < TWO_256
    requires snap.state.Keys <= snap1.state.Keys
    requires error.None? ==> inputs.contextAddress in snap1.state && inputs.contextAddress in live1.state
    ensures FinishCall(cfg, db, live1, error, Checkpoint(live).0, inputs, callee).Some?
    ensures Sim(db, SnapFinish(cfg, db, snap1, error, snap, inputs, callee),
                FinishCall(cfg, db, live1, error, Checkpoint(live).0, inputs, callee).value.js)
    decreases callee, 0
  {
    var self := inputs.contextAddress;
    if error.Some? {
      SimClose(db, snap, live, snap1, live1, false);
    } else if !IsPrecompile(inputs.contract, live1.numOfPrecompiles) && callee.hasCode {
      JournalRefinesSnapshots(cfg, db, snap1, live1, self, callee.body);
      RunOpsTracked(cfg, db, live1, self, callee.body);
      var live2 := RunOps(cfg, db, live1, self, callee.body);
      RanTrans(db, Checkpoint(live).1, live1, live2);
      SimClose(db, snap, live, SnapOps(cfg, db, snap1, self, callee.body), live2.value, callee.exit.IsOk());
    } else {
      SimClose(db, snap, live, snap1, live1, RunCallee(cfg, db, live1, inputs, callee).value.result.IsOk());
    }
  }
}
