/**
  `JournaledState` as the object of the source: its methods update accounts,
  logs, depth and journal in place, and each is proved to compute the operation
  of `Journal` on the value of the object.
 */
module JournaledStates {
  import opened Words
  import opened Accounts
  import opened InstructionResults
  import opened Journal
  import opened Rollback
  import opened Tracking
  import opened Frames

  class JournaledState {
    var state: State
    var logs: seq<Log>
    var depth: nat
    var journal: seq<Entries>
    const isBeforeSpuriousDragon: bool
    const numOfPrecompiles: nat

    ghost predicate Valid()
      reads this
    {
      journal != []
    }

    function Value(): (js: ValidJState)
      requires Valid()
      reads this
    {
      JState(state, logs, depth, journal, isBeforeSpuriousDragon, numOfPrecompiles)
    }

    constructor (numOfPrecompiles: nat)
      ensures Valid() && Value() == New(numOfPrecompiles)
    {
      state, logs, depth, journal := map[], [], 0, [[]];
      this.isBeforeSpuriousDragon := false;
      this.numOfPrecompiles := numOfPrecompiles;
    }

    constructor Legacy(numOfPrecompiles: nat)
      ensures Valid() && Value() == NewLegacy(numOfPrecompiles)
    {
      state, logs, depth, journal := map[], [], 0, [[]];
      this.isBeforeSpuriousDragon := true;
      this.numOfPrecompiles := numOfPrecompiles;
    }

    method PushEntry(e: JournalEntry)
      requires Valid()
      modifies this`journal
      ensures Valid() && Value() == Push(old(Value()), e)
    {
      var n := |journal| - 1;
      journal := journal[..n] + [journal[n] + [e]];
    }

    method TouchAccount(a: Address)
      requires Valid()
      modifies this`state, this`journal
      ensures Valid() && Value() == Touch(old(Value()), a)
    {
      if a in state && !state[a].touched {
        PushEntry(AccountTouched(a));
        state := state[a := state[a].(touched := true)];
      }
    }

    method Load(db: Database, a: Address) returns (isCold: DbResult<bool>)
      requires Valid()
      modifies this`state, this`journal
      ensures Valid() && (Value(), isCold) == LoadAccount(old(Value()), db, a)
    {
      if a in state {
        return DbOk(false);
      }
      match Fetch(db, a)
      case DbErr => return DbErr;
      case DbOk(acc) =>
        PushEntry(AccountLoaded(a));
        state := state[a := acc];
        return DbOk(!IsPrecompile(a, numOfPrecompiles));
    }

    method LoadExist(db: Database, a: Address) returns (r: DbResult<(bool, bool)>)
      requires Valid()
      modifies this`state, this`journal
      ensures Valid() && (Value(), r) == LoadAccountExist(old(Value()), db, a)
    {
      var isCold := Load(db, a);
      match isCold
      case DbErr => return DbErr;
      case DbOk(cold) =>
        var acc := state[a];
        var exist := if isBeforeSpuriousDragon then !acc.loadedAsNotExisting || acc.touched else !acc.info.IsEmpty();
        return DbOk((cold, exist));
    }

    method LoadWithCode(db: Database, a: Address) returns (isCold: DbResult<bool>)
      requires Valid()
      modifies this`state, this`journal
      ensures Valid() && (Value(), isCold) == LoadCode(old(Value()), db, a)
    {
      isCold := Load(db, a);
      if isCold.DbErr? {
        return;
      }
      var acc := state[a];
      if acc.info.code.None? {
        if acc.info.codeHash == KECCAK_EMPTY {
          state := state[a := acc.(info := acc.info.(code := Some(EMPTY_BYTECODE)))];
        } else {
          match db.codeByHash(acc.info.codeHash)
          case DbErr => return DbErr;
          case DbOk(code) => state := state[a := acc.(info := acc.info.(code := Some(code)))];
        }
      }
    }

    /** Unjournaled load with preset slots. */
    method InitialLoad(db: Database, a: Address, slots: seq<U256>) returns (ok: bool)
      requires Valid()
      modifies this`state
      ensures Valid() && (Value(), ok) == InitialAccountLoad(old(Value()), db, a, slots)
    {
      if a in state {
        return true;
      }
      match Fetch(db, a)
      case DbErr => return false;
      case DbOk(acc) =>
        var storage: Storage := map[];
        for i := 0 to |slots|
          invariant FetchSlots(db, a, slots[..i]) == DbOk(storage)
        {
          assert slots[..i + 1][..i] == slots[..i];
          match db.slot(a, slots[i])
          case DbErr =>
            SlotsFail(db, a, slots, i + 1);
            return false;
          case DbOk(v) => storage := storage[slots[i] := StorageSlot(v, v)];
        }
        assert slots[..|slots|] == slots;
        state := state[a := acc.(storage := storage)];
        return true;
    }

    method SetAccountCode(a: Address, code: Bytecode)
      requires Valid() && a in state
      modifies this`state, this`journal
      ensures Valid() && Value() == SetCode(old(Value()), a, code)
    {
      TouchAccount(a);
      PushEntry(CodeChange(a, code));
      state := state[a := state[a].(info := state[a].info.(codeHash := code.hash, code := Some(code)))];
    }

    method IncrementNonce(a: Address) returns (nonce: Option<U64>)
      requires Valid() && a in state
      modifies this`state, this`journal
      ensures Valid() && (Value(), nonce) == IncNonce(old(Value()), a)
    {
      if state[a].info.nonce == U64_MAX {
        return None;
      }
      TouchAccount(a);
      PushEntry(NonceChange(a));
      state := state[a := WithNonce(state[a], state[a].info.nonce + 1)];
      return Some(state[a].info.nonce);
    }

    method TransferBalance(db: Database, from: Address, to: Address, balance: U256)
        returns (error: Option<InstructionResult>)
      requires Valid()
      modifies this`state, this`journal
      ensures Valid() && (Value(), error) == Transfer(old(Value()), db, from, to, balance)
    {
      var fromLoad := Load(db, from);
      if fromLoad.DbErr? {
        return Some(FatalExternalError);
      }
      var toLoad := Load(db, to);
      if toLoad.DbErr? {
        return Some(FatalExternalError);
      }
      error := PayLoaded(from, to, balance);
    }

    /** Debit and credit; the debit of an overflowing payment is not taken back. */
    method PayLoaded(from: Address, to: Address, balance: U256) returns (error: Option<InstructionResult>)
      requires Valid() && from in state && to in state
      modifies this`state, this`journal
      ensures Valid() && (Value(), error) == Pay(old(Value()), from, to, balance)
    {
      TouchAccount(from);
      if state[from].info.balance < balance {
        return Some(OutOfFund);
      }
      state := state[from := WithBalance(state[from], state[from].info.balance - balance)];
      error := CreditLoaded(from, to, balance);
    }

    method CreditLoaded(from: Address, to: Address, balance: U256) returns (error: Option<InstructionResult>)
      requires Valid() && to in state
      modifies this`state, this`journal
      ensures Valid() && Value() == Credit(old(Value()), from, to, balance).0
      ensures error == Credit(old(Value()), from, to, balance).1
    {
      TouchAccount(to);
      if state[to].info.balance + balance >= TWO_256 {
        return Some(OverflowPayment);
      }
      state := state[to := WithBalance(state[to], state[to].info.balance + balance)];
      PushEntry(BalanceTransfer(from, to, balance));
      return None;
    }

    method LoadSlot(db: Database, a: Address, key: U256) returns (r: DbResult<(U256, bool)>)
      requires Valid() && a in state
      modifies this`state, this`journal
      ensures Valid() && (Value(), r) == Sload(old(Value()), db, a, key)
    {
      var acc := state[a];
      if key in acc.storage {
        return DbOk((acc.storage[key].present, false));
      }
      var value: U256 := 0;
      if !acc.created {
        match db.slot(a, key)
        case DbErr => return DbErr;
        case DbOk(v) => value := v;
      }
      PushEntry(StorageChange(a, key, None));
      state := state[a := acc.(storage := acc.storage[key := StorageSlot(value, value)])];
      return DbOk((value, true));
    }

    method StoreSlot(db: Database, a: Address, key: U256, value: U256) returns (r: DbResult<(U256, U256, U256, bool)>)
      requires Valid() && a in state
      modifies this`state, this`journal
      ensures Valid() && (Value(), r) == Sstore(old(Value()), db, a, key, value)
    {
      var loaded := LoadSlot(db, a, key);
      match loaded
      case DbErr => return DbErr;
      case DbOk((present, isCold)) =>
        var acc := state[a];
        var slot := acc.storage[key];
        if present != value {
          PushEntry(StorageChange(a, key, Some(present)));
          state := state[a := acc.(storage := acc.storage[key := slot.(present := value)])];
        }
        return DbOk((slot.original, present, value, isCold));
    }

    method SelfDestruct(db: Database, a: Address, target: Address) returns (r: DbResult<SelfDestructResult>)
      requires Valid() && a in state
      modifies this`state, this`journal
      ensures Valid() && (Value(), r) == SelfDestructAccount(old(Value()), db, a, target)
    {
      var loaded := LoadExist(db, target);
      match loaded
      case DbErr => return DbErr;
      case DbOk((isCold, targetExists)) =>
        var acc := state[a];
        var balance := acc.info.balance;
        state := state[a := WithBalance(acc, 0).(selfDestructed := true)];
        if a != target {
          TouchAccount(target);
          state := state[target := WithBalance(state[target], WrappingAdd(state[target].info.balance, balance))];
        }
        PushEntry(AccountDestroyed(a, target, acc.selfDestructed, balance));
        return DbOk(SelfDestructResult(balance != 0, targetExists, isCold, acc.selfDestructed));
    }

    method AddLog(log: Log)
      requires Valid()
      modifies this`logs
      ensures Valid() && Value() == PushLog(old(Value()), log)
    {
      logs := logs + [log];
    }

    method OpenCheckpoint() returns (cp: JournalCheckpoint)
      requires Valid()
      modifies this`depth, this`journal
      ensures Valid() && (cp, Value()) == Checkpoint(old(Value()))
    {
      cp := JournalCheckpoint(|logs|, |journal|);
      depth := depth + 1;
      journal := journal + [[]];
    }

    method CommitCheckpoint()
      requires Valid() && depth > 0
      modifies this`depth
      ensures Valid() && Value() == Commit(old(Value()))
    {
      depth := depth - 1;
    }

    /** Undoes one vector of entries, the newest first. */
    method JournalRevert(entries: Entries)
      requires UndoAll(entries, state, !isBeforeSpuriousDragon).Some?
      modifies this`state
      ensures state == UndoAll(entries, old(state), !isBeforeSpuriousDragon).value
    {
      var i := |entries|;
      assert entries[..i] == entries;
      while i > 0
        invariant 0 <= i <= |entries|
        invariant UndoAll(entries[..i], state, !isBeforeSpuriousDragon)
               == UndoAll(entries, old(state), !isBeforeSpuriousDragon)
      {
        assert entries[..i][..i - 1] == entries[..i - 1];
        i := i - 1;
        UndoEntry(entries[i]);
      }
    }

    method UndoEntry(e: JournalEntry)
      requires Undo(e, state, !isBeforeSpuriousDragon).Some?
      modifies this`state
      ensures Undo(e, old(state), !isBeforeSpuriousDragon) == Some(state)
    {
      match e
      case AccountLoaded(a) =>
        if isBeforeSpuriousDragon || a != PRECOMPILE3 {
          state := state - {a};
        }
      case AccountTouched(a) =>
        if isBeforeSpuriousDragon || a != PRECOMPILE3 {
          state := state[a := state[a].(touched := false)];
        }
      case AccountDestroyed(a, target, wasDestroyed, hadBalance) =>
        var acc := state[a].(selfDestructed := wasDestroyed);
        state := state[a := WithBalance(acc, WrappingAdd(acc.info.balance, hadBalance))];
        if a != target {
          state := state[target := WithBalance(state[target], WrappingSub(state[target].info.balance, hadBalance))];
        }
      case BalanceTransfer(from, to, balance) =>
        state := state[from := WithBalance(state[from], WrappingAdd(state[from].info.balance, balance))];
        state := state[to := WithBalance(state[to], WrappingSub(state[to].info.balance, balance))];
      case NonceChange(a) =>
        state := state[a := WithNonce(state[a], state[a].info.nonce - 1)];
      case StorageChange(a, key, hadValue) =>
        var storage := state[a].storage;
        match hadValue {
          case Some(value) => storage := storage[key := storage[key].(present := value)];
          case None => storage := storage - {key};
        }
        state := state[a := state[a].(storage := storage)];
      case CodeChange(a, hadCode) =>
        state := state[a := state[a].(info := state[a].info.(codeHash := hadCode.hash, code := Some(hadCode)))];
    }

    /** Undoes the vectors made since the checkpoint, the newest first. */
    method RevertCheckpoint(cp: JournalCheckpoint)
      requires Valid() && CanRevert(Value(), cp)
      modifies this
      ensures Valid() && Value() == RevertTo(old(Value()), cp)
    {
      depth := depth - 1;
      var k := |journal|;
      assert journal[cp.journalI..k] == journal[cp.journalI..];
      while k > cp.journalI
        invariant cp.journalI <= k <= |journal|
        invariant journal == old(journal) && logs == old(logs) && depth == old(depth) - 1
        invariant UndoAll(Flatten(journal[cp.journalI..k]), state, !isBeforeSpuriousDragon)
               == UndoAll(Flatten(old(journal)[cp.journalI..]), old(state), !isBeforeSpuriousDragon)
      {
        k := k - 1;
        FlattenOneMore(journal, cp.journalI, k);
        UndoAllConcat(Flatten(journal[cp.journalI..k]), journal[k], state, !isBeforeSpuriousDragon);
        JournalRevert(journal[k]);
      }
      logs := logs[..Min(cp.logI, |logs|)];
      journal := journal[..cp.journalI];
    }

    /**
      Opens the frame of a create and moves the endowment; on a collision or an
      overflow the frame is reverted again.
     */
    method CreateAccountCheckpoint(isSpuriousDragon: bool, caller: Address, a: Address, balance: U256)
      returns (cp: JournalCheckpoint, error: Option<InstructionResult>)
      requires Valid() && a in state && caller in state
      modifies this
      ensures Valid() && cp == Checkpoint(old(Value())).0
      ensures error == CreateAccount(Checkpoint(old(Value())).1, isSpuriousDragon, caller, a, balance).1
      ensures var js := CreateAccount(Checkpoint(old(Value())).1, isSpuriousDragon, caller, a, balance).0;
              if error.None? then Value() == js else CanRevert(js, cp) && Value() == RevertTo(js, cp)
    {
      ghost var before := Value();
      cp := OpenCheckpoint();
      if AccountCollision(a, state[a], numOfPrecompiles) {
        FailedCreateReverts(before, isSpuriousDragon, caller, a, balance);
        RevertCheckpoint(cp);
        return cp, Some(CreateCollision);
      }
      state := state[a := MarkCreated(state[a])];
      TouchAccount(a);
      if state[a].info.balance + balance >= TWO_256 {
        FailedCreateReverts(before, isSpuriousDragon, caller, a, balance);
        RevertCheckpoint(cp);
        return cp, Some(OverflowPayment);
      }
      EndowCreated(isSpuriousDragon, caller, a, balance);
      error := None;
    }

    method EndowCreated(isSpuriousDragon: bool, caller: Address, a: Address, balance: U256)
      requires Valid() && a in state && caller in state
      requires state[a].info.balance + balance < TWO_256
      modifies this`state, this`journal
      ensures Valid() && Value() == Endow(old(Value()), isSpuriousDragon, caller, a, balance).0
      ensures Endow(old(Value()), isSpuriousDragon, caller, a, balance).1.None?
    {
      ghost var js := Value();
      CreditCreated(a, balance);
      EndowIs(js, isSpuriousDragon, caller, a, balance, Value());
      CountFirstNonce(isSpuriousDragon, a);
      PayForCreated(caller, a, balance);
    }

    method CreditCreated(a: Address, balance: U256)
      requires Valid() && a in state && state[a].info.balance + balance < TWO_256
      modifies this`state
      ensures Valid()
      ensures var js := old(Value());
              Value() == PutAccount(js, a, WithBalance(js.state[a], js.state[a].info.balance + balance))
    {
      state := state[a := WithBalance(state[a], state[a].info.balance + balance)];
    }

    method CountFirstNonce(isSpuriousDragon: bool, a: Address)
      requires Valid() && a in state
      modifies this`state, this`journal
      ensures Valid() && Value() == FirstNonce(old(Value()), isSpuriousDragon, a)
    {
      if isSpuriousDragon {
        state := state[a := WithNonce(state[a], 1)];
        PushEntry(NonceChange(a));
      }
    }

    method PayForCreated(caller: Address, a: Address, balance: U256)
      requires Valid() && caller in state
      modifies this`state, this`journal
      ensures Valid() && Value() == DebitCreator(old(Value()), caller, a, balance)
    {
      state := state[caller := WithBalance(state[caller], WrappingSub(state[caller].info.balance, balance))];
      PushEntry(BalanceTransfer(caller, a, balance));
    }
  }

  /** A create that is refused can be taken back. */
  lemma FailedCreateReverts(js: ValidJState, isSpuriousDragon: bool, caller: Address, a: Address, balance: U256)
    requires a in js.state && caller in js.state
    requires CreateAccount(Checkpoint(js).1, isSpuriousDragon, caller, a, balance).1.Some?
    ensures CanRevert(CreateAccount(Checkpoint(js).1, isSpuriousDragon, caller, a, balance).0, Checkpoint(js).0)
  {
    var db := Database(_ => DbErr, _ => DbErr, (_, _) => DbErr);
    var js1 := Checkpoint(js).1;
    TrackedCreateFails(db, js1, isSpuriousDragon, caller, a, balance);
    RevertedFrame(db, js, CreateAccount(js1, isSpuriousDragon, caller, a, balance).0);
  }

  /** A failing slot read fails every longer preset. */
  lemma EndowIs(js: ValidJState, isSpuriousDragon: bool, caller: Address, a: Address, balance: U256, js1: ValidJState)
    requires a in js.state && caller in js.state && js.state[a].info.balance + balance < TWO_256
    requires js1 == PutAccount(js, a, WithBalance(js.state[a], js.state[a].info.balance + balance))
    ensures var r := Endow(js, isSpuriousDragon, caller, a, balance);
            r.0 == DebitCreator(FirstNonce(js1, isSpuriousDragon, a), caller, a, balance) && r.1.None?
  {
  }

  lemma {:induction false} SlotsFail(db: Database, a: Address, slots: seq<U256>, n: nat)
    requires n <= |slots| && FetchSlots(db, a, slots[..n]).DbErr?
    ensures FetchSlots(db, a, slots).DbErr?
    decreases |slots| - n
  {
    if n < |slots| {
      assert slots[..n + 1][..n] == slots[..n];
      SlotsFail(db, a, slots, n + 1);
    } else {
      assert slots[..n] == slots;
    }
  }
}
