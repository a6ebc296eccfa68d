/** Accounts, storage slots and the database interface (primitives/src/state.rs and db.rs). */
module Accounts {
  import opened Words

  /** Hash of the empty code. */
  const KECCAK_EMPTY: B256 := 0xc5d2460186f7233c927e7db2dcc703c0e500b653ca82273b7bfad8045d85a470

  /** Code with the hash the source stores beside it. */
  datatype Bytecode = Bytecode(bytes: Bytes, hash: B256)

  const EMPTY_BYTECODE := Bytecode([], KECCAK_EMPTY)

  datatype AccountInfo = AccountInfo(balance: U256, nonce: U64, codeHash: B256, code: Option<Bytecode>) {
    predicate IsEmpty() {
      balance == 0 && nonce == 0 && (codeHash == KECCAK_EMPTY || codeHash == 0)
    }
  }

  const DEFAULT_INFO := AccountInfo(0, 0, KECCAK_EMPTY, Some(EMPTY_BYTECODE))

  datatype StorageSlot = StorageSlot(original: U256, present: U256)

  type Storage = map<U256, StorageSlot>

  /** An account of the journaled state; the four status bits are separate flags. */
  datatype Account = Account(
    info: AccountInfo,
    storage: Storage,
    created: bool,
    selfDestructed: bool,
    touched: bool,
    loadedAsNotExisting: bool)

  type State = map<Address, Account>

  function FromInfo(info: AccountInfo): Account {
    Account(info, map[], false, false, false, false)
  }

  function NewNotExisting(): Account {
    Account(DEFAULT_INFO, map[], false, false, false, true)
  }

  datatype DbResult<+T> = DbOk(value: T) | DbErr

  /** The database, as the fixed functions it answers with. */
  datatype Database = Database(
    basic: Address -> DbResult<Option<AccountInfo>>,
    codeByHash: B256 -> DbResult<Bytecode>,
    slot: (Address, U256) -> DbResult<U256>)

  /** The code with this hash; the empty code is not asked for. */
  function ReadCode(db: Database, hash: B256): DbResult<Bytecode> {
    if hash == KECCAK_EMPTY then DbOk(EMPTY_BYTECODE) else db.codeByHash(hash)
  }

  /** The account a load brings in when the state does not hold `a` yet. */
  function Fetch(db: Database, a: Address): DbResult<Account> {
    match db.basic(a)
    case DbErr => DbErr
    case DbOk(None) => DbOk(NewNotExisting())
    case DbOk(Some(info)) => DbOk(FromInfo(info))
  }

  /** Balance of `a` in the loaded accounts, or in the database while it is not loaded. */
  function BalanceOf(db: Database, s: State, a: Address): U256 {
    if a in s then s[a].info.balance
    else match Fetch(db, a)
      case DbErr => 0
      case DbOk(acc) => acc.info.balance
  }
}
