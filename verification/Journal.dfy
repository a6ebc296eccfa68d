/**
  The journaled state as a value: every operation of journaled_state.rs as a
  function from the state before to the state after. `JournaledStates` holds
  the class that performs them in place.
 */
module Journal {
  import opened Words
  import opened Accounts
  import opened InstructionResults

  datatype JournalEntry =
    | AccountLoaded(address: Address)
    | AccountDestroyed(address: Address, target: Address, wasDestroyed: bool, hadBalance: U256)
    | AccountTouched(address: Address)
    | BalanceTransfer(from: Address, to: Address, balance: U256)
    | NonceChange(address: Address)
    | StorageChange(address: Address, key: U256, hadValue: Option<U256>)
    | CodeChange(address: Address, hadCode: Bytecode)

  type Entries = seq<JournalEntry>

  datatype Log = Log(address: Address, topics: seq<B256>, data: Bytes)

  /** `journal` always has a last vector, the one new entries go to. */
  datatype JState = JState(
    state: State,
    logs: seq<Log>,
    depth: nat,
    journal: seq<Entries>,
    isBeforeSpuriousDragon: bool,
    numOfPrecompiles: nat)
  {
    predicate Valid() {
      journal != []
    }
  }

  type ValidJState = js: JState | js.Valid() witness JState(map[], [], 0, [[]], false, 0)

  datatype JournalCheckpoint = JournalCheckpoint(logI: nat, journalI: nat)

  datatype SelfDestructResult = SelfDestructResult(hadValue: bool, targetExists: bool, isCold: bool,
                                                   previouslyDestroyed: bool)

  const PRECOMPILE3: Address := 3

  function New(numOfPrecompiles: nat): ValidJState {
    JState(map[], [], 0, [[]], false, numOfPrecompiles)
  }

  function NewLegacy(numOfPrecompiles: nat): ValidJState {
    New(numOfPrecompiles).(isBeforeSpuriousDragon := true)
  }

  /** The test of `is_precompile`, on the 20 bytes read as a number. */
  predicate IsPrecompile(a: Address, numOfPrecompiles: nat) {
    if a >= 0x1_0000 then false
    else (if a == 0 then 0xffff else a - 1) < numOfPrecompiles % 0x1_0000
  }

  // ---------------------------------------------------------------- helpers

  function Push(js: ValidJState, e: JournalEntry): ValidJState {
    var n := |js.journal| - 1;
    js.(journal := js.journal[..n] + [js.journal[n] + [e]])
  }

  function PutAccount(js: ValidJState, a: Address, acc: Account): ValidJState {
    js.(state := js.state[a := acc])
  }

  function WithBalance(acc: Account, balance: U256): Account {
    acc.(info := acc.info.(balance := balance))
  }

  function WithNonce(acc: Account, nonce: U64): Account {
    acc.(info := acc.info.(nonce := nonce))
  }

  function WithCode(acc: Account, code: Bytecode): Account {
    acc.(info := acc.info.(code := Some(code)))
  }

  // ---------------------------------------------------------------- operations

  function Touch(js: ValidJState, a: Address): (r: ValidJState)
    ensures r.state.Keys == js.state.Keys
    ensures r.depth == js.depth
  {
    if a in js.state && !js.state[a].touched then
      PutAccount(Push(js, AccountTouched(a)), a, js.state[a].(touched := true))
    else
      js
  }

  /** The flag is `is_cold`. */
  function LoadAccount(js: ValidJState, db: Database, a: Address): (r: (ValidJState, DbResult<bool>))
    ensures js.state.Keys <= r.0.state.Keys
    ensures r.0.depth == js.depth
    ensures r.1.DbOk? <==> a in r.0.state
  {
    if a in js.state then (js, DbOk(false))
    else match Fetch(db, a)
      case DbErr => (js, DbErr)
      case DbOk(acc) =>
        (PutAccount(Push(js, AccountLoaded(a)), a, acc), DbOk(!IsPrecompile(a, js.numOfPrecompiles)))
  }

  /** The flags are `is_cold` and `exists`. */
  function LoadAccountExist(js: ValidJState, db: Database, a: Address): (r: (ValidJState, DbResult<(bool, bool)>))
    ensures js.state.Keys <= r.0.state.Keys
    ensures r.0.depth == js.depth
    ensures r.1.DbOk? <==> a in r.0.state
  {
    var (js1, isCold) := LoadAccount(js, db, a);
    match isCold
    case DbErr => (js1, DbErr)
    case DbOk(cold) =>
      var acc := js1.state[a];
      (js1, DbOk((cold, if js.isBeforeSpuriousDragon then !acc.loadedAsNotExisting || acc.touched
                        else !acc.info.IsEmpty())))
  }

  function LoadCode(js: ValidJState, db: Database, a: Address): (r: (ValidJState, DbResult<bool>))
    ensures js.state.Keys <= r.0.state.Keys
    ensures r.0.depth == js.depth
    ensures r.1.DbOk? ==> a in r.0.state
  {
    var (js1, isCold) := LoadAccount(js, db, a);
    if isCold.DbErr? then (js1, isCold)
    else
      var (js2, ok) := CacheCode(js1, db, a);
      (js2, if ok then isCold else DbErr)
  }

  /** Reads the code of a loaded account unless it is cached. */
  function CacheCode(js: ValidJState, db: Database, a: Address): (r: (ValidJState, bool))
    requires a in js.state
    ensures r.0.state.Keys == js.state.Keys
    ensures r.0.depth == js.depth
  {
    var acc := js.state[a];
    if acc.info.code.Some? then (js, true)
    else match ReadCode(db, acc.info.codeHash)
      case DbErr => (js, false)
      case DbOk(code) => (PutAccount(js, a, WithCode(acc, code)), true)
  }

  /** Storage preset by `initial_account_load`, or nothing when a read fails. */
  function FetchSlots(db: Database, a: Address, slots: seq<U256>): DbResult<Storage> {
    if slots == [] then DbOk(map[])
    else
      var n := |slots| - 1;
      match FetchSlots(db, a, slots[..n])
      case DbErr => DbErr
      case DbOk(storage) =>
        match db.slot(a, slots[n])
        case DbErr => DbErr
        case DbOk(v) => DbOk(storage[slots[n] := StorageSlot(v, v)])
  }

  /** Unjournaled load. */
  function InitialAccountLoad(js: ValidJState, db: Database, a: Address, slots: seq<U256>): (r: (ValidJState, bool))
    ensures js.state.Keys <= r.0.state.Keys
    ensures r.1 ==> a in r.0.state
  {
    if a in js.state then (js, true)
    else match Fetch(db, a)
      case DbErr => (js, false)
      case DbOk(acc) =>
        match FetchSlots(db, a, slots)
        case DbErr => (js, false)
        case DbOk(storage) => (PutAccount(js, a, acc.(storage := storage)), true)
  }

  function SetCode(js: ValidJState, a: Address, code: Bytecode): (r: ValidJState)
    requires a in js.state
    ensures r.state.Keys == js.state.Keys
    ensures r.depth == js.depth
  {
    var js1 := Push(Touch(js, a), CodeChange(a, code));
    var acc := js1.state[a];
    PutAccount(js1, a, acc.(info := acc.info.(codeHash := code.hash, code := Some(code))))
  }

  function IncNonce(js: ValidJState, a: Address): (r: (ValidJState, Option<U64>))
    requires a in js.state
    ensures r.0.state.Keys == js.state.Keys
    ensures r.0.depth == js.depth
  {
    if js.state[a].info.nonce == U64_MAX then (js, None)
    else
      var js1 := Push(Touch(js, a), NonceChange(a));
      var nonce := js1.state[a].info.nonce + 1;
      (PutAccount(js1, a, WithNonce(js1.state[a], nonce)), Some(nonce))
  }

  /** Debit, then credit, of two loaded accounts; the option holds the error, if there is one. */
  function Pay(js: ValidJState, from: Address, to: Address,
               balance: U256): (r: (ValidJState, Option<InstructionResult>))
    requires from in js.state && to in js.state
    ensures r.0.state.Keys == js.state.Keys
    ensures r.0.depth == js.depth
  {
    var js1 := Touch(js, from);
    var payer := js1.state[from];
    if payer.info.balance < balance then (js1, Some(OutOfFund))
    else
      Credit(PutAccount(js1, from, WithBalance(payer, payer.info.balance - balance)), from, to, balance)
  }

  /** The second half of a payment, the payer being debited. */
  function Credit(js: ValidJState, from: Address, to: Address, balance: U256)
    : (r: (ValidJState, Option<InstructionResult>))
    requires to in js.state
    ensures r.0.state.Keys == js.state.Keys
    ensures r.0.depth == js.depth
  {
    var js1 := Touch(js, to);
    var payee := js1.state[to];
    if payee.info.balance + balance >= TWO_256 then (js1, Some(OverflowPayment))
    else
      var js2 := PutAccount(js1, to, WithBalance(payee, payee.info.balance + balance));
      (Push(js2, BalanceTransfer(from, to, balance)), None)
  }

  function Transfer(js: ValidJState, db: Database, from: Address, to: Address, balance: U256)
    : (r: (ValidJState, Option<InstructionResult>))
    ensures js.state.Keys <= r.0.state.Keys
    ensures r.0.depth == js.depth
    ensures r.1.None? ==> from in r.0.state && to in r.0.state
  {
    var (js1, r1) := LoadAccount(js, db, from);
    if r1.DbErr? then (js1, Some(FatalExternalError))
    else
      var (js2, r2) := LoadAccount(js1, db, to);
      if r2.DbErr? then (js2, Some(FatalExternalError)) else Pay(js2, from, to, balance)
  }

  /** The result is the value read and `is_cold`. */
  function Sload(js: ValidJState, db: Database, a: Address, key: U256): (r: (ValidJState, DbResult<(U256, bool)>))
    requires a in js.state
    ensures r.0.state.Keys == js.state.Keys
    ensures r.0.depth == js.depth
    ensures r.1.DbOk? ==> key in r.0.state[a].storage && r.0.state[a].storage[key].present == r.1.value.0
  {
    var acc := js.state[a];
    if key in acc.storage then (js, DbOk((acc.storage[key].present, false)))
    else
      match if acc.created then DbOk(0) else db.slot(a, key)
      case DbErr => (js, DbErr)
      case DbOk(v) =>
        (PutAccount(Push(js, StorageChange(a, key, None)), a, acc.(storage := acc.storage[key := StorageSlot(v, v)])),
         DbOk((v, true)))
  }

  /** The result is the slot's original, previous and new value, and `is_cold`. */
  function Sstore(js: ValidJState, db: Database, a: Address, key: U256, value: U256)
    : (r: (ValidJState, DbResult<(U256, U256, U256, bool)>))
    requires a in js.state
    ensures r.0.state.Keys == js.state.Keys
    ensures r.0.depth == js.depth
  {
    var (js1, loaded) := Sload(js, db, a, key);
    match loaded
    case DbErr => (js1, DbErr)
    case DbOk((present, isCold)) =>
      var acc := js1.state[a];
      var slot := acc.storage[key];
      if present == value then (js1, DbOk((slot.original, present, value, isCold)))
      else
        (PutAccount(Push(js1, StorageChange(a, key, Some(present))), a,
                    acc.(storage := acc.storage[key := slot.(present := value)])),
         DbOk((slot.original, present, value, isCold)))
  }

  /** Empties `a` into the loaded account `target` and flags it. */
  function Destroy(js: ValidJState, a: Address, target: Address): (r: ValidJState)
    requires a in js.state && target in js.state
    ensures r.state.Keys == js.state.Keys
    ensures r.depth == js.depth
  {
    var acc := js.state[a];
    var balance := acc.info.balance;
    var js1 := PutAccount(js, a, WithBalance(acc, 0).(selfDestructed := true));
    var js3 :=
      if a != target then
        var js2 := Touch(js1, target);
        PutAccount(js2, target, WithBalance(js2.state[target], WrappingAdd(js2.state[target].info.balance, balance)))
      else
        js1;
    Push(js3, AccountDestroyed(a, target, acc.selfDestructed, balance))
  }

  function SelfDestructAccount(js: ValidJState, db: Database, a: Address, target: Address)
    : (r: (ValidJState, DbResult<SelfDestructResult>))
    requires a in js.state
    ensures js.state.Keys <= r.0.state.Keys
    ensures r.0.depth == js.depth
  {
    var (js1, loaded) := LoadAccountExist(js, db, target);
    match loaded
    case DbErr => (js1, DbErr)
    case DbOk((isCold, targetExists)) =>
      var acc := js1.state[a];
      (Destroy(js1, a, target),
       DbOk(SelfDestructResult(acc.info.balance != 0, targetExists, isCold, acc.selfDestructed)))
  }

  function PushLog(js: ValidJState, log: Log): ValidJState {
    js.(logs := js.logs + [log])
  }

  // ---------------------------------------------------------------- checkpoints

  function Checkpoint(js: ValidJState): (JournalCheckpoint, ValidJState) {
    (JournalCheckpoint(|js.logs|, |js.journal|), js.(depth := js.depth + 1, journal := js.journal + [[]]))
  }

  function Commit(js: ValidJState): ValidJState
    requires js.depth > 0
  {
    js.(depth := js.depth - 1)
  }

  /**
    Undoes one entry. `None` stands for the panics of the source: an account or
    a slot that is not there, or a nonce decremented below zero.
   */
  function Undo(e: JournalEntry, s: State, isSpuriousDragon: bool): Option<State> {
    match e
    case AccountLoaded(a) =>
      if isSpuriousDragon && a == PRECOMPILE3 then Some(s) else Some(s - {a})
    case AccountTouched(a) =>
      if isSpuriousDragon && a == PRECOMPILE3 then Some(s)
      else if a !in s then None
      else Some(s[a := s[a].(touched := false)])
    case AccountDestroyed(a, target, wasDestroyed, hadBalance) =>
      if a !in s then None
      else
        var acc := s[a];
        var s1 := s[a := WithBalance(acc, WrappingAdd(acc.info.balance, hadBalance)).(selfDestructed := wasDestroyed)];
        if a == target then Some(s1)
        else if target !in s1 then None
        else Some(s1[target := WithBalance(s1[target], WrappingSub(s1[target].info.balance, hadBalance))])
    case BalanceTransfer(from, to, balance) =>
      if from !in s || to !in s then None
      else
        var s1 := s[from := WithBalance(s[from], WrappingAdd(s[from].info.balance, balance))];
        Some(s1[to := WithBalance(s1[to], WrappingSub(s1[to].info.balance, balance))])
    case NonceChange(a) =>
      if a !in s || s[a].info.nonce == 0 then None
      else Some(s[a := WithNonce(s[a], s[a].info.nonce - 1)])
    case StorageChange(a, key, hadValue) =>
      if a !in s then None
      else
        var storage := s[a].storage;
        if hadValue.None? then Some(s[a := s[a].(storage := storage - {key})])
        else if key !in storage then None
        else Some(s[a := s[a].(storage := storage[key := storage[key].(present := hadValue.value)])])
    case CodeChange(a, hadCode) =>
      if a !in s then None
      else Some(s[a := s[a].(info := s[a].info.(codeHash := hadCode.hash, code := Some(hadCode)))])
  }

  /** Undoes all entries, the newest first. */
  function UndoAll(entries: Entries, s: State, isSpuriousDragon: bool): Option<State> {
    if entries == [] then Some(s)
    else
      var n := |entries| - 1;
      var s1 :- Undo(entries[n], s, isSpuriousDragon);
      UndoAll(entries[..n], s1, isSpuriousDragon)
  }

  /** The journal's entries in the order they were made. */
  function Flatten(journal: seq<Entries>): Entries {
    if journal == [] then []
    else Flatten(journal[..|journal| - 1]) + journal[|journal| - 1]
  }

  /** Whether the checkpoint can be reverted to: the indices are in range and no undo panics. */
  predicate CanRevert(js: ValidJState, cp: JournalCheckpoint) {
    && js.depth > 0
    && 1 <= cp.journalI <= |js.journal|
    && UndoAll(Flatten(js.journal[cp.journalI..]), js.state, !js.isBeforeSpuriousDragon).Some?
  }

  function RevertTo(js: ValidJState, cp: JournalCheckpoint): ValidJState
    requires CanRevert(js, cp)
  {
    js.(depth := js.depth - 1,
        state := UndoAll(Flatten(js.journal[cp.journalI..]), js.state, !js.isBeforeSpuriousDragon).value,
        logs := js.logs[..Min(cp.logI, |js.logs|)],
        journal := js.journal[..cp.journalI])
  }

  // ---------------------------------------------------------------- account creation

  predicate AccountCollision(a: Address, acc: Account, numOfPrecompiles: nat) {
    acc.info.codeHash != KECCAK_EMPTY || acc.info.nonce != 0 || IsPrecompile(a, numOfPrecompiles)
  }

  /** Marks `acc` created, drops its code and zeroes its slots; none of this is journaled. */
  function MarkCreated(acc: Account): Account {
    acc.(created := true,
         info := acc.info.(code := None),
         storage := map k | k in acc.storage :: StorageSlot(0, 0))
  }

  /** Moves the endowment to the created account, and gives it its first nonce. */
  function Endow(js: ValidJState, isSpuriousDragon: bool, caller: Address, a: Address, balance: U256)
    : (r: (ValidJState, Option<InstructionResult>))
    requires a in js.state && caller in js.state
    ensures r.0.state.Keys == js.state.Keys
    ensures r.0.depth == js.depth
  {
    var acc := js.state[a];
    if acc.info.balance + balance >= TWO_256 then (js, Some(OverflowPayment))
    else
      var js1 := PutAccount(js, a, WithBalance(acc, acc.info.balance + balance));
      (DebitCreator(FirstNonce(js1, isSpuriousDragon, a), caller, a, balance), None)
  }

  /** A contract starts with nonce 1, since Spurious Dragon. */
  function FirstNonce(js: ValidJState, isSpuriousDragon: bool, a: Address): (r: ValidJState)
    requires a in js.state
    ensures r.state.Keys == js.state.Keys && r.depth == js.depth
  {
    if isSpuriousDragon then Push(PutAccount(js, a, WithNonce(js.state[a], 1)), NonceChange(a)) else js
  }

  function DebitCreator(js: ValidJState, caller: Address, a: Address, balance: U256): (r: ValidJState)
    requires caller in js.state
    ensures r.state.Keys == js.state.Keys && r.depth == js.depth
  {
    var payer := js.state[caller];
    Push(PutAccount(js, caller, WithBalance(payer, WrappingSub(payer.info.balance, balance))),
         BalanceTransfer(caller, a, balance))
  }

  /** The body of `create_account_checkpoint` between its checkpoint and the revert of a failure. */
  function CreateAccount(js: ValidJState, isSpuriousDragon: bool, caller: Address, a: Address, balance: U256)
    : (r: (ValidJState, Option<InstructionResult>))
    requires a in js.state && caller in js.state
    ensures r.0.state.Keys == js.state.Keys
    ensures r.0.depth == js.depth
  {
    if AccountCollision(a, js.state[a], js.numOfPrecompiles) then (js, Some(CreateCollision))
    else Endow(Touch(PutAccount(js, a, MarkCreated(js.state[a])), a), isSpuriousDragon, caller, a, balance)
  }
}
