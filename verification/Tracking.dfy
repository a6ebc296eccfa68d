/**
  Every journal operation, and every sequence of them, is `Tracked`: what it
  appended to the journal undoes it, it only adds accounts, and it destroys no
  ether but what selfdestruct-to-self entries of the journal account for.
 */
module Tracking {
  import opened Words
  import opened Accounts
  import opened InstructionResults
  import opened Journal
  import opened Rollback
  import opened Supply

  // ---------------------------------------------------------------- growing the journal

  lemma LastOf(all: seq<Entries>, head: seq<Entries>, last: Entries)
    requires all == head + [last]
    ensures Flatten(all) == Flatten(head) + last
  {
    assert all[..|all| - 1] == head;
  }

  lemma {:induction false} FlattenConcat(j: seq<Entries>, k: seq<Entries>)
    ensures Flatten(j + k) == Flatten(j) + Flatten(k)
    decreases |k|
  {
    if k == [] {
      assert j + k == j;
    } else {
      var n := |k| - 1;
      FlattenConcat(j, k[..n]);
      LastOf(j + k, j + k[..n], k[n]);
      AssociateSeqs(Flatten(j), Flatten(k[..n]), k[n]);
    }
  }

  /** The vectors from `i` on, one more of them. */
  lemma FlattenOneMore(journal: seq<Entries>, i: nat, k: nat)
    requires i <= k < |journal|
    ensures Flatten(journal[i..k + 1]) == Flatten(journal[i..k]) + journal[k]
  {
    var all, head := journal[i..k + 1], journal[i..k];
    assert all == head + [journal[k]];
    LastOf(all, head, journal[k]);
  }

  lemma FlattenSingle(es: Entries)
    ensures Flatten([es]) == es
  {
    assert [es][..0] == [];
    assert Flatten([es]) == Flatten([]) + es;
  }

  /** The journal from the last vector of `js` on. */
  function Tail(js: ValidJState, js': ValidJState): Entries
    requires |js'.journal| >= |js.journal|
  {
    Flatten(js'.journal[|js.journal| - 1..])
  }

  /** `js'` has the journal of `js`, extended in its last vector or by further vectors. */
  ghost predicate Continues(js: ValidJState, js': ValidJState) {
    var n := |js.journal| - 1;
    && |js'.journal| > n
    && js'.journal[..n] == js.journal[..n]
    && js.journal[n] <= Tail(js, js')
    && js.logs <= js'.logs
    && js'.isBeforeSpuriousDragon == js.isBeforeSpuriousDragon
    && js'.numOfPrecompiles == js.numOfPrecompiles
  }

  /** The entries made between `js` and `js'`, oldest first. */
  ghost function NewEntries(js: ValidJState, js': ValidJState): Entries
    requires Continues(js, js')
  {
    Tail(js, js')[|js.journal[|js.journal| - 1]|..]
  }

  lemma TailSplit(a: ValidJState, b: ValidJState, c: ValidJState)
    requires |a.journal| <= |b.journal| <= |c.journal|
    requires b.journal[..|b.journal| - 1] == c.journal[..|b.journal| - 1]
    ensures Tail(a, c) == Flatten(b.journal[|a.journal| - 1..|b.journal| - 1]) + Tail(b, c)
  {
    var n, m := |a.journal| - 1, |b.journal| - 1;
    assert c.journal[n..m] == c.journal[..m][n..];
    assert c.journal[n..] == b.journal[n..m] + c.journal[m..];
    FlattenConcat(b.journal[n..m], c.journal[m..]);
  }

  lemma OwnTail(b: ValidJState)
    ensures Tail(b, b) == b.journal[|b.journal| - 1]
  {
    assert b.journal[|b.journal| - 1..] == [b.journal[|b.journal| - 1]];
    FlattenSingle(b.journal[|b.journal| - 1]);
  }

  lemma ContinuesTrans(a: ValidJState, b: ValidJState, c: ValidJState)
    requires Continues(a, b) && Continues(b, c)
    ensures Continues(a, c) && NewEntries(a, c) == NewEntries(a, b) + NewEntries(b, c)
  {
    var n, m := |a.journal| - 1, |b.journal| - 1;
    assert c.journal[..n] == c.journal[..m][..n];
    assert b.journal[..n] == b.journal[..m][..n];
    TailSplit(a, b, c);
    TailSplit(a, b, b);
    OwnTail(b);
    var committed := Flatten(b.journal[n..m]);
    assert Tail(a, c) == Tail(a, b) + NewEntries(b, c);
  }

  lemma ContinuesSame(js: ValidJState, js': ValidJState)
    requires js'.journal == js.journal && js.logs <= js'.logs
    requires js'.isBeforeSpuriousDragon == js.isBeforeSpuriousDragon && js'.numOfPrecompiles == js.numOfPrecompiles
    ensures Continues(js, js') && NewEntries(js, js') == []
  {
    var n := |js.journal| - 1;
    assert js.journal[n..] == [js.journal[n]];
    FlattenSingle(js.journal[n]);
  }

  lemma ContinuesPush(js: ValidJState, e: JournalEntry, state: State)
    ensures Continues(js, Push(js, e).(state := state)) && NewEntries(js, Push(js, e).(state := state)) == [e]
  {
    var n := |js.journal| - 1;
    assert Push(js, e).journal[n..] == [js.journal[n] + [e]];
    FlattenSingle(js.journal[n] + [e]);
  }

  // ---------------------------------------------------------------- tracked steps

  ghost predicate Grows(s: State, t: State) {
    forall a | a in s :: a in t && (s[a].created ==> t[a].created)
  }

  ghost predicate Tracked(db: Database, js: ValidJState, js': ValidJState) {
    && Continues(js, js')
    && Recovers(db, !js.isBeforeSpuriousDragon, js.state, NewEntries(js, js'), js'.state)
    && Grows(js.state, js'.state)
    && TotalSupply(db, js'.state) + Burned(NewEntries(js, js')) == TotalSupply(db, js.state)
  }

  lemma RestoredGrows(db: Database, isSpuriousDragon: bool, s: State, u: State)
    requires Restored(db, isSpuriousDragon, s, u)
    ensures Grows(s, u)
  {
    forall a | a in s
      ensures a in u && (s[a].created ==> u[a].created)
    {
      assert RestoredAt(db, isSpuriousDragon, a, s[a], u[a]);
    }
  }

  /** A change that leaves the restored view alone and the journal as it is. */
  lemma TrackedSilent(db: Database, js: ValidJState, js': ValidJState)
    requires js'.journal == js.journal && js.logs <= js'.logs
    requires js'.isBeforeSpuriousDragon == js.isBeforeSpuriousDragon && js'.numOfPrecompiles == js.numOfPrecompiles
    requires Restored(db, !js.isBeforeSpuriousDragon, js.state, js'.state)
    ensures Tracked(db, js, js')
  {
    ContinuesSame(js, js');
    RecoversSilent(db, !js.isBeforeSpuriousDragon, js.state, js'.state);
    RestoredGrows(db, !js.isBeforeSpuriousDragon, js.state, js'.state);
    RestoredSupply(db, !js.isBeforeSpuriousDragon, js.state, js'.state);
  }

  lemma TrackedReflexive(db: Database, js: ValidJState)
    ensures Tracked(db, js, js)
  {
    RestoredReflexive(db, !js.isBeforeSpuriousDragon, js.state);
    TrackedSilent(db, js, js);
  }

  /** One change with its journal entry. */
  lemma TrackedPush(db: Database, js: ValidJState, e: JournalEntry, state: State)
    requires Recovers(db, !js.isBeforeSpuriousDragon, js.state, [e], state)
    requires Grows(js.state, state)
    requires TotalSupply(db, state) + Burned([e]) == TotalSupply(db, js.state)
    ensures Tracked(db, js, Push(js, e).(state := state))
  {
    ContinuesPush(js, e, state);
  }

  lemma TrackedTrans(db: Database, a: ValidJState, b: ValidJState, c: ValidJState)
    requires Tracked(db, a, b) && Tracked(db, b, c)
    ensures Tracked(db, a, c)
  {
    ContinuesTrans(a, b, c);
    RecoversTrans(db, !a.isBeforeSpuriousDragon, a.state, NewEntries(a, b), b.state, NewEntries(b, c), c.state);
    BurnedConcat(NewEntries(a, b), NewEntries(b, c));
  }

  // ---------------------------------------------------------------- the operations

  lemma TrackedTouch(db: Database, js: ValidJState, a: Address)
    ensures Tracked(db, js, Touch(js, a))
  {
    if a in js.state && !js.state[a].touched {
      var state := js.state[a := js.state[a].(touched := true)];
      RecoversTouch(db, !js.isBeforeSpuriousDragon, js.state, a);
      BurnedSingle(AccountTouched(a));
      SupplyAfterOne(db, js.state, state, a);
      TrackedPush(db, js, AccountTouched(a), state);
    } else {
      TrackedReflexive(db, js);
    }
  }

  lemma TrackedLoadAccount(db: Database, js: ValidJState, a: Address)
    ensures Tracked(db, js, LoadAccount(js, db, a).0)
  {
    if a !in js.state && Fetch(db, a).DbOk? {
      var state := js.state[a := Fetch(db, a).value];
      RecoversLoad(db, !js.isBeforeSpuriousDragon, js.state, a);
      BurnedSingle(AccountLoaded(a));
      SupplyAfterOne(db, js.state, state, a);
      TrackedPush(db, js, AccountLoaded(a), state);
    } else {
      TrackedReflexive(db, js);
    }
  }

  /** What is cached is not part of the restored view, as long as it is the account's code. */
  lemma RestoredWithCode(db: Database, isSpuriousDragon: bool, s: State, a: Address, code: Bytecode)
    requires a in s && s[a].info.code.None? && ReadCode(db, s[a].info.codeHash) == DbOk(code)
    ensures Restored(db, isSpuriousDragon, s, s[a := WithCode(s[a], code)])
  {
  }

  lemma TrackedCacheCode(db: Database, js: ValidJState, a: Address)
    requires a in js.state
    ensures Tracked(db, js, CacheCode(js, db, a).0)
  {
    var code := ReadCode(db, js.state[a].info.codeHash);
    if js.state[a].info.code.Some? || code.DbErr? {
      TrackedReflexive(db, js);
    } else {
      RestoredWithCode(db, !js.isBeforeSpuriousDragon, js.state, a, code.value);
      TrackedSilent(db, js, PutAccount(js, a, WithCode(js.state[a], code.value)));
    }
  }

  lemma TrackedLoadCode(db: Database, js: ValidJState, a: Address)
    ensures Tracked(db, js, LoadCode(js, db, a).0)
  {
    var (js1, isCold) := LoadAccount(js, db, a);
    TrackedLoadAccount(db, js, a);
    if isCold.DbOk? {
      TrackedCacheCode(db, js1, a);
      TrackedTrans(db, js, js1, CacheCode(js1, db, a).0);
    }
  }

  /** A nonce increment with its journal entry. */
  lemma TrackedNonce(db: Database, js: ValidJState, a: Address)
    requires a in js.state && js.state[a].info.nonce < U64_MAX
    ensures Tracked(db, js, Push(js, NonceChange(a)).(state :=
                                                      js.state[a :=
                                                        WithNonce(js.state[a], js.state[a].info.nonce + 1)]))
  {
    var state := js.state[a := WithNonce(js.state[a], js.state[a].info.nonce + 1)];
    RecoversNonce(db, !js.isBeforeSpuriousDragon, js.state, a);
    BurnedSingle(NonceChange(a));
    SupplyAfterOne(db, js.state, state, a);
    TrackedPush(db, js, NonceChange(a), state);
  }

  lemma IncNonceShape(js: ValidJState, a: Address)
    requires a in js.state && js.state[a].info.nonce < U64_MAX
    ensures var js1 := Touch(js, a);
            && js1.state[a].info.nonce < U64_MAX
            && IncNonce(js, a).0
               == Push(js1, NonceChange(a)).(state :=
                                             js1.state[a := WithNonce(js1.state[a], js1.state[a].info.nonce + 1)])
  {
  }

  /** Touching an account and counting its nonce. */
  lemma TrackedTouchedNonce(db: Database, js: ValidJState, a: Address, js1: ValidJState, js2: ValidJState)
    requires js1 == Touch(js, a) && a in js1.state && js1.state[a].info.nonce < U64_MAX
    requires js2 == Push(js1, NonceChange(a)).(state :=
                                               js1.state[a := WithNonce(js1.state[a], js1.state[a].info.nonce + 1)])
    ensures Tracked(db, js, js2)
  {
    TrackedTouch(db, js, a);
    TrackedNonce(db, js1, a);
    TrackedTrans(db, js, js1, js2);
  }

  lemma TrackedIncNonce(db: Database, js: ValidJState, a: Address)
    requires a in js.state
    ensures Tracked(db, js, IncNonce(js, a).0)
  {
    if js.state[a].info.nonce == U64_MAX {
      TrackedReflexive(db, js);
    } else {
      IncNonceShape(js, a);
      TrackedTouchedNonce(db, js, a, Touch(js, a), IncNonce(js, a).0);
    }
  }

  lemma TrackedSload(db: Database, js: ValidJState, a: Address, key: U256)
    requires a in js.state
    ensures Tracked(db, js, Sload(js, db, a, key).0)
  {
    var js' := Sload(js, db, a, key).0;
    if js' == js {
      TrackedReflexive(db, js);
    } else {
      RecoversSlotLoad(db, !js.isBeforeSpuriousDragon, js.state, a, key, js'.state[a].storage[key]);
      BurnedSingle(StorageChange(a, key, None));
      SupplyAfterOne(db, js.state, js'.state, a);
      TrackedPush(db, js, StorageChange(a, key, None), js'.state);
    }
  }

  lemma TrackedSstore(db: Database, js: ValidJState, a: Address, key: U256, value: U256)
    requires a in js.state
    ensures Tracked(db, js, Sstore(js, db, a, key, value).0)
  {
    var js1 := Sload(js, db, a, key).0;
    var js' := Sstore(js, db, a, key, value).0;
    TrackedSload(db, js, a, key);
    if js' != js1 {
      var e := StorageChange(a, key, Some(js1.state[a].storage[key].present));
      RecoversSlotWrite(db, !js.isBeforeSpuriousDragon, js1.state, a, key, value);
      BurnedSingle(e);
      SupplyAfterOne(db, js1.state, js'.state, a);
      TrackedPush(db, js1, e, js'.state);
      TrackedTrans(db, js, js1, js');
    }
  }

  lemma TrackedPushLog(db: Database, js: ValidJState, log: Log)
    ensures Tracked(db, js, PushLog(js, log))
  {
    RestoredReflexive(db, !js.isBeforeSpuriousDragon, js.state);
    TrackedSilent(db, js, PushLog(js, log));
  }

  lemma TrackedSetCode(db: Database, js: ValidJState, a: Address, code: Bytecode)
    requires a in js.state && js.state[a].created
    ensures Tracked(db, js, SetCode(js, a, code))
  {
    var js1 := Touch(js, a);
    var js' := SetCode(js, a, code);
    TrackedTouch(db, js, a);
    RecoversCode(db, !js.isBeforeSpuriousDragon, js1.state, a, code);
    BurnedSingle(CodeChange(a, code));
    SupplyAfterOne(db, js1.state, js'.state, a);
    TrackedPush(db, js1, CodeChange(a, code), js'.state);
    TrackedTrans(db, js, js1, js');
  }

  /** A payment with its journal entry; no money is lost on the way. */
  lemma TrackedMove(db: Database, js: ValidJState, from: Address, to: Address, balance: U256)
    requires from in js.state && to in js.state && balance <= js.state[from].info.balance
    requires TotalSupply(db, js.state) < TWO_256
    ensures Tracked(db, js, Push(js, BalanceTransfer(from, to, balance)).(state := Moved(js.state, from, to, balance)))
  {
    RecoversMove(db, !js.isBeforeSpuriousDragon, js.state, from, to, balance);
    BurnedSingle(BalanceTransfer(from, to, balance));
    MovedSupply(db, js.state, from, to, balance);
    TrackedPush(db, js, BalanceTransfer(from, to, balance), Moved(js.state, from, to, balance));
  }

  // ---------------------------------------------------------------- transfer

  /** The payer is debited before the payee is touched; the order does not matter. */
  lemma DebitThenTouch(js: ValidJState, from: Address, to: Address, acc: Account)
    requires from in js.state && to in js.state && acc.touched && js.state[from].touched
    ensures Touch(PutAccount(js, from, acc), to) == PutAccount(Touch(js, to), from, acc)
  {
    assert Touch(PutAccount(js, from, acc), to).state == PutAccount(Touch(js, to), from, acc).state;
  }

  /** The debited payer and the credited payee, when both are touched already. */
  lemma DebitCredit(s: State, from: Address, to: Address, balance: U256)
    requires from in s && to in s && balance <= s[from].info.balance
    requires var s1 := s[from := WithBalance(s[from], s[from].info.balance - balance)];
             s1[to].info.balance + balance < TWO_256
    ensures var s1 := s[from := WithBalance(s[from], s[from].info.balance - balance)];
            s1[to := WithBalance(s1[to], s1[to].info.balance + balance)] == Moved(s, from, to, balance)
  {
  }

  lemma TouchKeepsFunds(js: ValidJState, a: Address, b: Address)
    requires a in js.state && b in js.state && js.state[a].touched
    ensures Touch(js, b).state[a] == js.state[a]
  {
  }

  /** A payment of what the payer has, from its debit on. */
  lemma PayIsCredit(js: ValidJState, from: Address, to: Address, balance: U256, js1: ValidJState, js2: ValidJState)
    requires from in js.state && to in js.state && js1 == Touch(js, from) && balance <= js1.state[from].info.balance
    requires js2 == PutAccount(js1, from, WithBalance(js1.state[from], js1.state[from].info.balance - balance))
    ensures Pay(js, from, to, balance) == Credit(js2, from, to, balance)
  {
  }

  /** A credit that goes through, the payee being touched by it. */
  lemma CreditIs(js: ValidJState, from: Address, to: Address, balance: U256, js1: ValidJState)
    requires to in js.state && js1 == Touch(js, to) && Credit(js, from, to, balance).1.None?
    ensures js1.state[to].info.balance + balance < TWO_256
    ensures Credit(js, from, to, balance).0
         == Push(js1, BalanceTransfer(from, to, balance)).(state :=
              js1.state[to := WithBalance(js1.state[to], js1.state[to].info.balance + balance)])
  {
  }

  lemma UncreditedIs(js: ValidJState, from: Address, to: Address, balance: U256)
    requires to in js.state && Credit(js, from, to, balance).1.Some?
    ensures Credit(js, from, to, balance).0 == Touch(js, to)
  {
  }

  lemma PushedInstead(js: ValidJState, js1: ValidJState, e: JournalEntry, state: State)
    requires js1 == js.(state := js1.state)
    ensures Push(js1, e).(state := state) == Push(js, e).(state := state)
  {
  }

  /** The credit of a debited payment ends in the move. */
  lemma CreditedIs(js: ValidJState, from: Address, to: Address, balance: U256, js1: ValidJState, js2: ValidJState)
    requires from in js.state && to in js.state && js.state[from].touched && balance <= js.state[from].info.balance
    requires js1 == PutAccount(js, from, WithBalance(js.state[from], js.state[from].info.balance - balance))
    requires js2 == Touch(js, to) && Credit(js1, from, to, balance).1.None?
    ensures Credit(js1, from, to, balance).0
         == Push(js2, BalanceTransfer(from, to, balance)).(state := Moved(js2.state, from, to, balance))
  {
    var js3 := Touch(js1, to);
    TouchKeepsFunds(js, from, to);
    DebitThenTouch(js, from, to, WithBalance(js.state[from], js.state[from].info.balance - balance));
    CreditIs(js1, from, to, balance, js3);
    DebitCredit(js2.state, from, to, balance);
    PushedInstead(js2, js3, BalanceTransfer(from, to, balance), Moved(js2.state, from, to, balance));
  }

  lemma PaidEnough(js: ValidJState, from: Address, to: Address, balance: U256, js1: ValidJState)
    requires from in js.state && to in js.state && js1 == Touch(js, from) && Pay(js, from, to, balance).1.None?
    ensures js1.state[from].touched && balance <= js1.state[from].info.balance
  {
  }

  /** A payment that goes through touches both accounts and moves the balance. */
  lemma PayIsMove(js: ValidJState, from: Address, to: Address, balance: U256)
    requires from in js.state && to in js.state && Pay(js, from, to, balance).1.None?
    ensures var js1 := Touch(Touch(js, from), to);
            && balance <= js1.state[from].info.balance
            && Pay(js, from, to, balance).0 ==
              Push(js1, BalanceTransfer(from, to, balance)).(state := Moved(js1.state, from, to, balance))
  {
    var js1 := Touch(js, from);
    PaidEnough(js, from, to, balance, js1);
    var js2 := PutAccount(js1, from, WithBalance(js1.state[from], js1.state[from].info.balance - balance));
    PayIsCredit(js, from, to, balance, js1, js2);
    TouchKeepsFunds(js1, from, to);
    CreditedIs(js1, from, to, balance, js2, Touch(js1, to));
  }

  /** The overflow of the payee's balance needs more ether than exists. */
  lemma PayNeverOverflows(db: Database, js: ValidJState, from: Address, to: Address, balance: U256)
    requires from in js.state && to in js.state
    requires TotalSupply(db, js.state) < TWO_256
    ensures Pay(js, from, to, balance).1 != Some(OverflowPayment)
  {
    if Pay(js, from, to, balance).1 == Some(OverflowPayment) {
      var js1 := Touch(js, from);
      var payer := js1.state[from];
      DebitThenTouch(js1, from, to, WithBalance(payer, payer.info.balance - balance));
      if from != to {
        TwoBalancesWithinSupply(db, js.state, from, to);
      }
    }
  }

  lemma TrackedPay(db: Database, js: ValidJState, from: Address, to: Address, balance: U256)
    requires from in js.state && to in js.state
    requires TotalSupply(db, js.state) < TWO_256
    ensures Tracked(db, js, Pay(js, from, to, balance).0)
  {
    PayNeverOverflows(db, js, from, to, balance);
    TrackedTouch(db, js, from);
    if Pay(js, from, to, balance).1.None? {
      var js1 := Touch(js, from);
      var js2 := Touch(js1, to);
      PayIsMove(js, from, to, balance);
      TrackedTouch(db, js1, to);
      TrackedTrans(db, js, js1, js2);
      TrackedMove(db, js2, from, to, balance);
      TrackedTrans(db, js, js2, Pay(js, from, to, balance).0);
    }
  }

  /** With less than 2^256 wei in existence, no transfer reports an overflowing payment. */
  lemma TransferNeverOverflows(db: Database, js: ValidJState, from: Address, to: Address, balance: U256)
    requires TotalSupply(db, js.state) < TWO_256
    ensures Transfer(js, db, from, to, balance).1 != Some(OverflowPayment)
  {
    var js1 := LoadAccount(js, db, from).0;
    var js2 := LoadAccount(js1, db, to).0;
    TrackedLoadAccount(db, js, from);
    TrackedLoadAccount(db, js1, to);
    if from in js1.state && to in js2.state {
      PayNeverOverflows(db, js2, from, to, balance);
    }
  }

  lemma TrackedTransfer(db: Database, js: ValidJState, from: Address, to: Address, balance: U256)
    requires TotalSupply(db, js.state) < TWO_256
    ensures Tracked(db, js, Transfer(js, db, from, to, balance).0)
  {
    var js1 := LoadAccount(js, db, from).0;
    var js2 := LoadAccount(js1, db, to).0;
    TrackedLoadAccount(db, js, from);
    TrackedLoadAccount(db, js1, to);
    TrackedTrans(db, js, js1, js2);
    if from in js1.state && to in js2.state {
      TrackedPay(db, js2, from, to, balance);
      TrackedTrans(db, js, js2, Pay(js2, from, to, balance).0);
    }
  }

  // ---------------------------------------------------------------- selfdestruct

  lemma PutThenTouch(js: ValidJState, a: Address, acc: Account, target: Address)
    requires a in js.state && target in js.state && a != target
    ensures Touch(PutAccount(js, a, acc), target) == PutAccount(Touch(js, target), a, acc)
  {
    assert Touch(PutAccount(js, a, acc), target).state == PutAccount(Touch(js, target), a, acc).state;
  }

  lemma TouchKeepsOther(js: ValidJState, a: Address, b: Address)
    requires a in js.state && b in js.state && a != b
    ensures Touch(js, b).state[a] == js.state[a] && Touch(js, b).state[b].info == js.state[b].info
  {
  }

  lemma DestroyIsDestroyed(js: ValidJState, a: Address, target: Address)
    requires a in js.state && target in js.state
    ensures var js1 := if a == target then js else Touch(js, target);
            var e := AccountDestroyed(a, target, js1.state[a].selfDestructed, js1.state[a].info.balance);
            Destroy(js, a, target) == Push(js1, e).(state := Destroyed(js1.state, a, target))
  {
    if a != target {
      var acc := WithBalance(js.state[a], 0).(selfDestructed := true);
      PutThenTouch(js, a, acc, target);
      TouchKeepsOther(js, a, target);
    }
  }

  lemma TrackedDestroyed(db: Database, js: ValidJState, a: Address, target: Address)
    requires a in js.state && target in js.state
    requires TotalSupply(db, js.state) < TWO_256
    ensures var e := AccountDestroyed(a, target, js.state[a].selfDestructed, js.state[a].info.balance);
            Tracked(db, js, Push(js, e).(state := Destroyed(js.state, a, target)))
  {
    var e := AccountDestroyed(a, target, js.state[a].selfDestructed, js.state[a].info.balance);
    RecoversDestroy(db, !js.isBeforeSpuriousDragon, js.state, a, target);
    BurnedSingle(e);
    DestroyedSupply(db, js.state, a, target);
    TrackedPush(db, js, e, Destroyed(js.state, a, target));
  }

  lemma TrackedDestroy(db: Database, js: ValidJState, a: Address, target: Address)
    requires a in js.state && target in js.state
    requires TotalSupply(db, js.state) < TWO_256
    ensures Tracked(db, js, Destroy(js, a, target))
  {
    DestroyIsDestroyed(js, a, target);
    if a == target {
      TrackedDestroyed(db, js, a, target);
    } else {
      var js1 := Touch(js, target);
      TrackedTouch(db, js, target);
      TrackedDestroyed(db, js1, a, target);
      TrackedTrans(db, js, js1, Destroy(js, a, target));
    }
  }

  lemma TrackedSelfDestruct(db: Database, js: ValidJState, a: Address, target: Address)
    requires a in js.state
    requires TotalSupply(db, js.state) < TWO_256
    ensures Tracked(db, js, SelfDestructAccount(js, db, a, target).0)
  {
    var js1 := LoadAccount(js, db, target).0;
    TrackedLoadAccount(db, js, target);
    if target in js1.state {
      TrackedDestroy(db, js1, a, target);
      TrackedTrans(db, js, js1, Destroy(js1, a, target));
    }
  }

  // ---------------------------------------------------------------- account creation

  lemma RestoredMarkCreated(db: Database, isSpuriousDragon: bool, s: State, a: Address)
    requires a in s && s[a].info.nonce == 0
    ensures Restored(db, isSpuriousDragon, s, s[a := MarkCreated(s[a])])
  {
    assert MarkCreated(s[a]).storage.Keys == s[a].storage.Keys;
  }

  /** Crediting first and debiting then is a move as well. */
  lemma CreditDebit(s: State, caller: Address, a: Address, balance: U256)
    requires a in s && caller in s && s[a].info.balance + balance < TWO_256
    ensures var s1 := s[a := WithBalance(s[a], s[a].info.balance + balance)];
            s1[caller := WithBalance(s1[caller], WrappingSub(s1[caller].info.balance, balance))]
            == Moved(s, caller, a, balance)
  {
  }

  /** The nonce between credit and debit may as well come first. */
  lemma EndowedIs(js: ValidJState, isSpuriousDragon: bool, caller: Address, a: Address, balance: U256)
    requires a in js.state && caller in js.state && Endow(js, isSpuriousDragon, caller, a, balance).1.None?
    ensures var js1 := FirstNonce(js, isSpuriousDragon, a);
            var s1 := js1.state[a := WithBalance(js1.state[a], js1.state[a].info.balance + balance)];
            Endow(js, isSpuriousDragon, caller, a, balance).0
            == Push(js1, BalanceTransfer(caller, a, balance)).(state :=
                 s1[caller := WithBalance(s1[caller], WrappingSub(s1[caller].info.balance, balance))])
  {
    var acc := js.state[a];
    var paid := WithBalance(acc, acc.info.balance + balance);
    assert WithNonce(paid, 1) == WithBalance(WithNonce(acc, 1), acc.info.balance + balance);
    assert js.state[a := paid][a := WithNonce(paid, 1)] == js.state[a := WithNonce(acc, 1)][a := WithNonce(paid, 1)];
  }

  /** The credit comes before the nonce and the debit; the end is a nonce change and a move. */
  lemma EndowIsMove(js: ValidJState, isSpuriousDragon: bool, caller: Address, a: Address, balance: U256)
    requires a in js.state && caller in js.state
    requires Endow(js, isSpuriousDragon, caller, a, balance).1.None?
    ensures var js1 := FirstNonce(js, isSpuriousDragon, a);
            Endow(js, isSpuriousDragon, caller, a, balance).0
            == Push(js1, BalanceTransfer(caller, a, balance)).(state := Moved(js1.state, caller, a, balance))
  {
    var js1 := FirstNonce(js, isSpuriousDragon, a);
    EndowedIs(js, isSpuriousDragon, caller, a, balance);
    CreditDebit(js1.state, caller, a, balance);
  }

  lemma TrackedEndow(db: Database, js: ValidJState, isSpuriousDragon: bool, caller: Address, a: Address, balance: U256)
    requires a in js.state && caller in js.state
    requires balance <= js.state[caller].info.balance && js.state[a].info.nonce == 0
    requires TotalSupply(db, js.state) < TWO_256
    ensures Tracked(db, js, Endow(js, isSpuriousDragon, caller, a, balance).0)
  {
    var r := Endow(js, isSpuriousDragon, caller, a, balance);
    if r.1.Some? {
      TrackedReflexive(db, js);
    } else {
      EndowIsMove(js, isSpuriousDragon, caller, a, balance);
      var js1 := FirstNonce(js, isSpuriousDragon, a);
      TrackedFirstNonce(db, js, isSpuriousDragon, caller, a);
      TrackedMove(db, js1, caller, a, balance);
      TrackedTrans(db, js, js1, r.0);
    }
  }

  lemma TrackedFirstNonce(db: Database, js: ValidJState, isSpuriousDragon: bool, caller: Address, a: Address)
    requires a in js.state && caller in js.state && js.state[a].info.nonce == 0
    ensures var js1 := FirstNonce(js, isSpuriousDragon, a);
            && Tracked(db, js, js1) && TotalSupply(db, js1.state) == TotalSupply(db, js.state)
            && js1.state[caller].info.balance == js.state[caller].info.balance
  {
    if isSpuriousDragon {
      TrackedNonce(db, js, a);
      SupplyAfterOne(db, js.state, FirstNonce(js, true, a).state, a);
    } else {
      TrackedReflexive(db, js);
    }
  }

  /** A collision changes nothing; an overflowing endowment leaves a marked and touched account. */
  lemma TrackedCreateFails(db: Database, js: ValidJState, isSpuriousDragon: bool, caller: Address, a: Address,
                           balance: U256)
    requires a in js.state && caller in js.state
    requires CreateAccount(js, isSpuriousDragon, caller, a, balance).1.Some?
    ensures Tracked(db, js, CreateAccount(js, isSpuriousDragon, caller, a, balance).0)
  {
    if AccountCollision(a, js.state[a], js.numOfPrecompiles) {
      TrackedReflexive(db, js);
    } else {
      TrackedMark(db, js, a);
      FailedIs(js, isSpuriousDragon, caller, a, balance);
    }
  }

  lemma FailedIs(js: ValidJState, isSpuriousDragon: bool, caller: Address, a: Address, balance: U256)
    requires a in js.state && caller in js.state && !AccountCollision(a, js.state[a], js.numOfPrecompiles)
    requires CreateAccount(js, isSpuriousDragon, caller, a, balance).1.Some?
    ensures CreateAccount(js, isSpuriousDragon, caller, a, balance).0
         == Touch(PutAccount(js, a, MarkCreated(js.state[a])), a)
  {
  }

  lemma TrackedMark(db: Database, js: ValidJState, a: Address)
    requires a in js.state && js.state[a].info.nonce == 0
    ensures Tracked(db, js, Touch(PutAccount(js, a, MarkCreated(js.state[a])), a))
  {
    var js1 := PutAccount(js, a, MarkCreated(js.state[a]));
    RestoredMarkCreated(db, !js.isBeforeSpuriousDragon, js.state, a);
    TrackedSilent(db, js, js1);
    TrackedTouch(db, js1, a);
    TrackedTrans(db, js, js1, Touch(js1, a));
  }

  lemma TrackedCreateAccount(db: Database, js: ValidJState, isSpuriousDragon: bool, caller: Address, a: Address,
                             balance: U256)
    requires a in js.state && caller in js.state
    requires balance <= js.state[caller].info.balance
    requires TotalSupply(db, js.state) < TWO_256
    ensures Tracked(db, js, CreateAccount(js, isSpuriousDragon, caller, a, balance).0)
  {
    if AccountCollision(a, js.state[a], js.numOfPrecompiles) {
      TrackedReflexive(db, js);
    } else {
      var js1 := PutAccount(js, a, MarkCreated(js.state[a]));
      var js2 := Touch(js1, a);
      RestoredMarkCreated(db, !js.isBeforeSpuriousDragon, js.state, a);
      TrackedSilent(db, js, js1);
      TrackedTouch(db, js1, a);
      TrackedTrans(db, js, js1, js2);
      TrackedEndow(db, js2, isSpuriousDragon, caller, a, balance);
      TrackedTrans(db, js, js2, Endow(js2, isSpuriousDragon, caller, a, balance).0);
    }
  }
}
