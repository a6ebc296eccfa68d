/**
  What a revert restores. `Restored(s, u)` says that `u` is the state `s` again,
  for a caller that cannot see what code is cached: the same accounts with the
  same balances, nonces, flags and warm slots; the same slot values, unless the
  account carries the unjournaled Created flag and has nonce 0, as an account
  has whose creation was undone; and the same code, unless it carries the flag.
  After Spurious Dragon account 0x03 may stay loaded or touched.

  `Recovers(s, es, s')` says that undoing `es` takes everything that is restored
  to `s'` back to something restored to `s`, without a panic; it is closed under
  composition, which is what makes the argument work for nested frames.
 */
module Rollback {
  import opened Words
  import opened Accounts
  import opened Journal

  // ---------------------------------------------------------------- the restored view

  ghost predicate SameAccount(db: Database, a: Account, b: Account) {
    && a.info.balance == b.info.balance
    && a.info.nonce == b.info.nonce
    && a.selfDestructed == b.selfDestructed
    && a.touched == b.touched
    && a.loadedAsNotExisting == b.loadedAsNotExisting
    && a.storage.Keys == b.storage.Keys
    && (a.created ==> b.created)
    && (!b.created || a.info.nonce != 0 ==> a.storage == b.storage)
    && (!b.created ==> a.info.codeHash == b.info.codeHash && CodeShown(db, a, b))
  }

  /** `b` has the code of `a`, or has cached what reading the code of `a` gives. */
  ghost predicate CodeShown(db: Database, a: Account, b: Account) {
    b.info.code == a.info.code || (a.info.code.None? && b.info.code.Some?
                                   && ReadCode(db, a.info.codeHash) == DbOk(b.info.code.value))
  }

  ghost predicate SameUpToTouch(db: Database, a: Account, b: Account) {
    (a.touched ==> b.touched) && SameAccount(db, a.(touched := b.touched), b)
  }

  /** The account that a revert leaves loaded and touched. */
  ghost predicate Exempt(isSpuriousDragon: bool, a: Address) {
    isSpuriousDragon && a == PRECOMPILE3
  }

  ghost predicate Leftover(db: Database, isSpuriousDragon: bool, a: Address, acc: Account) {
    Exempt(isSpuriousDragon, a) && Fetch(db, a).DbOk? && SameUpToTouch(db, Fetch(db, a).value, acc)
  }

  ghost predicate RestoredAt(db: Database, isSpuriousDragon: bool, a: Address, before: Account, after: Account) {
    if Exempt(isSpuriousDragon, a) then SameUpToTouch(db, before, after) else SameAccount(db, before, after)
  }

  ghost predicate Restored(db: Database, isSpuriousDragon: bool, s: State, u: State) {
    && (forall a | a in s :: a in u && RestoredAt(db, isSpuriousDragon, a, s[a], u[a]))
    && (forall a | a in u && a !in s :: Leftover(db, isSpuriousDragon, a, u[a]))
  }

  lemma RestoredReflexive(db: Database, isSpuriousDragon: bool, s: State)
    ensures Restored(db, isSpuriousDragon, s, s)
  {
  }

  lemma RestoredTransitive(db: Database, isSpuriousDragon: bool, s: State, t: State, u: State)
    requires Restored(db, isSpuriousDragon, s, t) && Restored(db, isSpuriousDragon, t, u)
    ensures Restored(db, isSpuriousDragon, s, u)
  {
    forall a | a in u && a !in s
      ensures Leftover(db, isSpuriousDragon, a, u[a])
    {
      if a in t {
        assert Leftover(db, isSpuriousDragon, a, t[a]);
      }
    }
  }

  /** Undoing `es` from `u` neither panics nor ends anywhere but in `s`. */
  ghost predicate UndoesTo(db: Database, isSpuriousDragon: bool, u: State, es: Entries, s: State) {
    var r := UndoAll(es, u, isSpuriousDragon);
    r.Some? && Restored(db, isSpuriousDragon, s, r.value)
  }

  ghost predicate Recovers(db: Database, isSpuriousDragon: bool, s: State, es: Entries, s': State) {
    forall u: State | Restored(db, isSpuriousDragon, s', u) :: UndoesTo(db, isSpuriousDragon, u, es, s)
  }

  lemma {:induction false} UndoAllConcat(es: Entries, fs: Entries, s: State, isSpuriousDragon: bool)
    ensures UndoAll(es + fs, s, isSpuriousDragon) ==
            (var r := UndoAll(fs, s, isSpuriousDragon);
             if r.None? then None else UndoAll(es, r.value, isSpuriousDragon))
    decreases |fs|
  {
    if fs == [] {
      assert es + fs == es;
    } else {
      var n := |fs| - 1;
      assert (es + fs)[..|es + fs| - 1] == es + fs[..n];
      var r := Undo(fs[n], s, isSpuriousDragon);
      if r.Some? {
        UndoAllConcat(es, fs[..n], r.value, isSpuriousDragon);
      }
    }
  }

  lemma RecoversAt(db: Database, isSpuriousDragon: bool, s: State, es: Entries, s': State, u: State) returns (r: State)
    requires Recovers(db, isSpuriousDragon, s, es, s') && Restored(db, isSpuriousDragon, s', u)
    ensures UndoAll(es, u, isSpuriousDragon) == Some(r) && Restored(db, isSpuriousDragon, s, r)
  {
    assert UndoesTo(db, isSpuriousDragon, u, es, s);
    r := UndoAll(es, u, isSpuriousDragon).value;
  }

  lemma UndoesToConcat(db: Database, isSpuriousDragon: bool, u: State, fs: Entries, r: State, es: Entries, q: State,
                       s: State)
    requires UndoAll(fs, u, isSpuriousDragon) == Some(r) && UndoAll(es, r, isSpuriousDragon) == Some(q)
    requires Restored(db, isSpuriousDragon, s, q)
    ensures UndoesTo(db, isSpuriousDragon, u, es + fs, s)
  {
    UndoAllConcat(es, fs, u, isSpuriousDragon);
  }

  lemma RecoversTransAt(db: Database, isSpuriousDragon: bool, s: State, es: Entries, t: State, fs: Entries, s': State,
                        u: State)
    requires Recovers(db, isSpuriousDragon, s, es, t) && Recovers(db, isSpuriousDragon, t, fs, s')
    requires Restored(db, isSpuriousDragon, s', u)
    ensures UndoesTo(db, isSpuriousDragon, u, es + fs, s)
  {
    var r := RecoversAt(db, isSpuriousDragon, t, fs, s', u);
    var q := RecoversAt(db, isSpuriousDragon, s, es, t, r);
    UndoesToConcat(db, isSpuriousDragon, u, fs, r, es, q, s);
  }

  lemma RecoversTrans(db: Database, isSpuriousDragon: bool, s: State, es: Entries, t: State, fs: Entries, s': State)
    requires Recovers(db, isSpuriousDragon, s, es, t) && Recovers(db, isSpuriousDragon, t, fs, s')
    ensures Recovers(db, isSpuriousDragon, s, es + fs, s')
  {
    forall u: State | Restored(db, isSpuriousDragon, s', u)
      ensures UndoesTo(db, isSpuriousDragon, u, es + fs, s)
    {
      RecoversTransAt(db, isSpuriousDragon, s, es, t, fs, s', u);
    }
  }

  lemma UndoAllSingle(e: JournalEntry, s: State, isSpuriousDragon: bool)
    ensures UndoAll([e], s, isSpuriousDragon) == Undo(e, s, isSpuriousDragon)
  {
    assert [e][..0] == [];
    var r := Undo(e, s, isSpuriousDragon);
    if r.Some? {
      assert UndoAll([], r.value, isSpuriousDragon) == r;
    }
  }

  /** A silent change is recovered by undoing nothing. */
  lemma RecoversSilent(db: Database, isSpuriousDragon: bool, s: State, s': State)
    requires Restored(db, isSpuriousDragon, s, s')
    ensures Recovers(db, isSpuriousDragon, s, [], s')
  {
    forall u: State | Restored(db, isSpuriousDragon, s', u)
      ensures UndoesTo(db, isSpuriousDragon, u, [], s)
    {
      RestoredTransitive(db, isSpuriousDragon, s, s', u);
    }
  }

  // ---------------------------------------------------------------- one lemma for each kind of entry

  lemma RecoversLoad(db: Database, isSpuriousDragon: bool, s: State, a: Address)
    requires a !in s && Fetch(db, a).DbOk?
    ensures Recovers(db, isSpuriousDragon, s, [AccountLoaded(a)], s[a := Fetch(db, a).value])
  {
    var s' := s[a := Fetch(db, a).value];
    forall u: State | Restored(db, isSpuriousDragon, s', u)
      ensures UndoesTo(db, isSpuriousDragon, u, [AccountLoaded(a)], s)
    {
      UndoAllSingle(AccountLoaded(a), u, isSpuriousDragon);
      assert RestoredAt(db, isSpuriousDragon, a, s'[a], u[a]);
    }
  }

  /** When one account was changed and is back, everything is back. */
  lemma RestoredByOne(db: Database, isSpuriousDragon: bool, s: State, s': State, a: Address, u: State, r: State)
    requires Restored(db, isSpuriousDragon, s', u)
    requires a in s && a in s' && a in u && a in r
    requires s == s'[a := s[a]] && r == u[a := r[a]]
    requires RestoredAt(db, isSpuriousDragon, a, s[a], r[a])
    ensures Restored(db, isSpuriousDragon, s, r)
  {
    forall x | x in s
      ensures x in r && RestoredAt(db, isSpuriousDragon, x, s[x], r[x])
    {
      if x != a {
        assert RestoredAt(db, isSpuriousDragon, x, s'[x], u[x]);
      }
    }
  }

  lemma RecoversTouch(db: Database, isSpuriousDragon: bool, s: State, a: Address)
    requires a in s && !s[a].touched
    ensures Recovers(db, isSpuriousDragon, s, [AccountTouched(a)],
                     s[a := s[a].(touched := true)])
  {
    var s' := s[a := s[a].(touched := true)];
    forall u: State | Restored(db, isSpuriousDragon, s', u)
      ensures UndoesTo(db, isSpuriousDragon, u, [AccountTouched(a)], s)
    {
      UndoAllSingle(AccountTouched(a), u, isSpuriousDragon);
      assert a in u && RestoredAt(db, isSpuriousDragon, a, s'[a], u[a]);
      var r := Undo(AccountTouched(a), u, isSpuriousDragon).value;
      RestoredByOne(db, isSpuriousDragon, s, s', a, u, r);
    }
  }

  lemma RecoversNonce(db: Database, isSpuriousDragon: bool, s: State, a: Address)
    requires a in s && s[a].info.nonce < U64_MAX
    ensures Recovers(db, isSpuriousDragon, s, [NonceChange(a)],
                     s[a := WithNonce(s[a], s[a].info.nonce + 1)])
  {
    var s' := s[a := WithNonce(s[a], s[a].info.nonce + 1)];
    forall u: State | Restored(db, isSpuriousDragon, s', u)
      ensures UndoesTo(db, isSpuriousDragon, u, [NonceChange(a)], s)
    {
      UndoAllSingle(NonceChange(a), u, isSpuriousDragon);
      assert a in u && RestoredAt(db, isSpuriousDragon, a, s'[a], u[a]);
      var r := Undo(NonceChange(a), u, isSpuriousDragon).value;
      RestoredByOne(db, isSpuriousDragon, s, s', a, u, r);
    }
  }

  /** Removing a slot from an account that shows the one it was loaded into. */
  lemma SlotRemoved(db: Database, isSpuriousDragon: bool, a: Address, before: Account, now: Account, key: U256,
                    slot: StorageSlot)
    requires key !in before.storage
    requires RestoredAt(db, isSpuriousDragon, a, before.(storage := before.storage[key := slot]), now)
    ensures RestoredAt(db, isSpuriousDragon, a, before, now.(storage := now.storage - {key}))
  {
    assert before.storage[key := slot] - {key} == before.storage;
    var storage: Storage := now.storage - {key};
    assert storage.Keys == before.storage.Keys;
  }

  /** Putting the old value back into an account that shows the one it was overwritten in. */
  lemma SlotReset(db: Database, isSpuriousDragon: bool, a: Address, before: Account, now: Account, key: U256,
                  value: U256)
    requires key in before.storage
    requires RestoredAt(db, isSpuriousDragon, a,
                        before.(storage := before.storage[key := before.storage[key].(present := value)]), now)
    ensures key in now.storage
    ensures RestoredAt(db, isSpuriousDragon, a, before,
                       now.(storage := now.storage[key := now.storage[key].(present := before.storage[key].present)]))
  {
    var after := before.storage[key := before.storage[key].(present := value)];
    assert after[key := after[key].(present := before.storage[key].present)] == before.storage;
    assert key in after.Keys;
  }

  lemma RecoversSlotLoad(db: Database, isSpuriousDragon: bool, s: State, a: Address, key: U256, slot: StorageSlot)
    requires a in s && key !in s[a].storage
    ensures Recovers(db, isSpuriousDragon, s, [StorageChange(a, key, None)],
                     s[a := s[a].(storage := s[a].storage[key := slot])])
  {
    var s' := s[a := s[a].(storage := s[a].storage[key := slot])];
    forall u: State | Restored(db, isSpuriousDragon, s', u)
      ensures UndoesTo(db, isSpuriousDragon, u, [StorageChange(a, key, None)], s)
    {
      assert a in u && RestoredAt(db, isSpuriousDragon, a, s'[a], u[a]);
      SlotRemoved(db, isSpuriousDragon, a, s[a], u[a], key, slot);
      UndoAllSingle(StorageChange(a, key, None), u, isSpuriousDragon);
      RestoredByOne(db, isSpuriousDragon, s, s', a, u, u[a := u[a].(storage := u[a].storage - {key})]);
    }
  }

  lemma RecoversSlotWrite(db: Database, isSpuriousDragon: bool, s: State, a: Address, key: U256, value: U256)
    requires a in s && key in s[a].storage
    ensures Recovers(db, isSpuriousDragon, s, [StorageChange(a, key, Some(s[a].storage[key].present))],
                     s[a := s[a].(storage := s[a].storage[key := s[a].storage[key].(present := value)])])
  {
    var s' := s[a := s[a].(storage := s[a].storage[key := s[a].storage[key].(present := value)])];
    forall u: State | Restored(db, isSpuriousDragon, s', u)
      ensures UndoesTo(db, isSpuriousDragon, u, [StorageChange(a, key, Some(s[a].storage[key].present))], s)
    {
      SlotWriteBack(db, isSpuriousDragon, s, a, key, value, s', u);
    }
  }

  lemma SlotWriteBack(db: Database, isSpuriousDragon: bool, s: State, a: Address, key: U256, value: U256, s': State,
                      u: State)
    requires a in s && key in s[a].storage
    requires s' == s[a := s[a].(storage := s[a].storage[key := s[a].storage[key].(present := value)])]
    requires Restored(db, isSpuriousDragon, s', u)
    ensures UndoesTo(db, isSpuriousDragon, u, [StorageChange(a, key, Some(s[a].storage[key].present))], s)
  {
    assert a in u && RestoredAt(db, isSpuriousDragon, a, s'[a], u[a]);
    SlotReset(db, isSpuriousDragon, a, s[a], u[a], key, value);
    UndoAllSingle(StorageChange(a, key, Some(s[a].storage[key].present)), u, isSpuriousDragon);
    var r := u[a := u[a].(storage := u[a].storage[key := u[a].storage[key].(present := s[a].storage[key].present)])];
    RestoredByOne(db, isSpuriousDragon, s, s', a, u, r);
  }

  lemma RecoversCode(db: Database, isSpuriousDragon: bool, s: State, a: Address, code: Bytecode)
    requires a in s && s[a].created
    ensures Recovers(db, isSpuriousDragon, s, [CodeChange(a, code)],
                     s[a := s[a].(info := s[a].info.(codeHash := code.hash, code := Some(code)))])
  {
    var s' := s[a := s[a].(info := s[a].info.(codeHash := code.hash, code := Some(code)))];
    forall u: State | Restored(db, isSpuriousDragon, s', u)
      ensures UndoesTo(db, isSpuriousDragon, u, [CodeChange(a, code)], s)
    {
      UndoAllSingle(CodeChange(a, code), u, isSpuriousDragon);
      assert a in u && RestoredAt(db, isSpuriousDragon, a, s'[a], u[a]);
      var r := Undo(CodeChange(a, code), u, isSpuriousDragon).value;
      RestoredByOne(db, isSpuriousDragon, s, s', a, u, r);
    }
  }

  /** `balance` moves from one account to another, or stays where it is. */
  function Moved(s: State, from: Address, to: Address, balance: U256): State
    requires from in s && to in s
  {
    var s1 := s[from := WithBalance(s[from], WrappingSub(s[from].info.balance, balance))];
    s1[to := WithBalance(s1[to], WrappingAdd(s1[to].info.balance, balance))]
  }

  lemma RecoversMove(db: Database, isSpuriousDragon: bool, s: State, from: Address, to: Address, balance: U256)
    requires from in s && to in s
    ensures Recovers(db, isSpuriousDragon, s, [BalanceTransfer(from, to, balance)], Moved(s, from, to, balance))
  {
    forall u: State | Restored(db, isSpuriousDragon, Moved(s, from, to, balance), u)
      ensures UndoesTo(db, isSpuriousDragon, u, [BalanceTransfer(from, to, balance)], s)
    {
      UndoAllSingle(BalanceTransfer(from, to, balance), u, isSpuriousDragon);
      MoveBack(db, isSpuriousDragon, s, from, to, balance, u);
    }
  }

  /** The account with the balance and the destroyed flag of another. */
  function Reset(acc: Account, before: Account): Account {
    WithBalance(acc, before.info.balance).(selfDestructed := before.selfDestructed)
  }

  lemma RestoredFunds(db: Database, isSpuriousDragon: bool, s: State, u: State, a: Address)
    requires Restored(db, isSpuriousDragon, s, u) && a in s
    ensures a in u && u[a].info.balance == s[a].info.balance && u[a].selfDestructed == s[a].selfDestructed
  {
    assert RestoredAt(db, isSpuriousDragon, a, s[a], u[a]);
  }

  /** When only balances and destroyed flags of two accounts were changed and are back, everything is back. */
  lemma RestoredByTwo(db: Database, isSpuriousDragon: bool, s: State, s': State, a: Address, b: Address, u: State,
                      r: State)
    requires a in s && b in s && a in s' && b in s' && a in u && b in u
    requires Restored(db, isSpuriousDragon, s', u)
    requires s == s'[a := Reset(s'[a], s[a])][b := Reset(s'[b], s[b])]
    requires r == u[a := Reset(u[a], s[a])][b := Reset(u[b], s[b])]
    ensures Restored(db, isSpuriousDragon, s, r)
  {
    forall x | x in s
      ensures x in r && RestoredAt(db, isSpuriousDragon, x, s[x], r[x])
    {
      assert RestoredAt(db, isSpuriousDragon, x, s'[x], u[x]);
    }
  }

  /** Undoing a move from a state with the moved balances gives back the balances before it. */
  /** Wrapping arithmetic takes back what it did. */
  lemma ThereAndBack(x: U256, v: U256)
    ensures WrappingAdd(WrappingSub(x, v), v) == x && WrappingSub(WrappingAdd(x, v), v) == x
  {
  }

  lemma UndoneMove(s: State, from: Address, to: Address, balance: U256, u: State, r: State)
    requires from in s && to in s && from in u && to in u
    requires u[from].info.balance == Moved(s, from, to, balance)[from].info.balance
    requires u[to].info.balance == Moved(s, from, to, balance)[to].info.balance
    requires Undo(BalanceTransfer(from, to, balance), u, true) == Some(r)
    requires u[from].selfDestructed == s[from].selfDestructed && u[to].selfDestructed == s[to].selfDestructed
    ensures r == u[from := Reset(u[from], s[from])][to := Reset(u[to], s[to])]
  {
    ThereAndBack(s[from].info.balance, balance);
    ThereAndBack(s[to].info.balance, balance);
    var u1 := u[from := WithBalance(u[from], WrappingAdd(u[from].info.balance, balance))];
    assert r == u1[to := WithBalance(u1[to], WrappingSub(u1[to].info.balance, balance))];
    if from != to {
      assert r[from].info.balance == s[from].info.balance && r[to].info.balance == s[to].info.balance;
    }
  }

  lemma MovedResets(s: State, from: Address, to: Address, balance: U256)
    requires from in s && to in s
    ensures var s' := Moved(s, from, to, balance);
            s == s'[from := Reset(s'[from], s[from])][to := Reset(s'[to], s[to])]
            && s'[from].selfDestructed == s[from].selfDestructed && s'[to].selfDestructed == s[to].selfDestructed
  {
  }

  lemma MoveBack(db: Database, isSpuriousDragon: bool, s: State, from: Address, to: Address, balance: U256, u: State)
    requires from in s && to in s
    requires Restored(db, isSpuriousDragon, Moved(s, from, to, balance), u)
    ensures from in u && to in u
    ensures Restored(db, isSpuriousDragon, s, Undo(BalanceTransfer(from, to, balance), u, isSpuriousDragon).value)
  {
    var s' := Moved(s, from, to, balance);
    RestoredFunds(db, isSpuriousDragon, s', u, from);
    RestoredFunds(db, isSpuriousDragon, s', u, to);
    MovedResets(s, from, to, balance);
    var r := Undo(BalanceTransfer(from, to, balance), u, isSpuriousDragon).value;
    UndoneMove(s, from, to, balance, u, r);
    RestoredByTwo(db, isSpuriousDragon, s, s', from, to, u, r);
  }

  /** The account is emptied into `target` and flagged; with `target` itself the balance is lost. */
  function Destroyed(s: State, a: Address, target: Address): State
    requires a in s && target in s
  {
    var s1 := s[a := WithBalance(s[a], 0).(selfDestructed := true)];
    if a == target then s1
    else s1[target := WithBalance(s1[target], WrappingAdd(s1[target].info.balance, s[a].info.balance))]
  }

  lemma RecoversDestroy(db: Database, isSpuriousDragon: bool, s: State, a: Address, target: Address)
    requires a in s && target in s
    ensures Recovers(db, isSpuriousDragon, s,
                     [AccountDestroyed(a, target, s[a].selfDestructed, s[a].info.balance)], Destroyed(s, a, target))
  {
    var e := AccountDestroyed(a, target, s[a].selfDestructed, s[a].info.balance);
    forall u: State | Restored(db, isSpuriousDragon, Destroyed(s, a, target), u)
      ensures UndoesTo(db, isSpuriousDragon, u, [e], s)
    {
      UndoAllSingle(e, u, isSpuriousDragon);
      DestroyBack(db, isSpuriousDragon, s, a, target, u);
    }
  }

  lemma UndoneDestroy(s: State, a: Address, target: Address, u: State, r: State)
    requires a in s && target in s && a in u && target in u
    requires u[a].info.balance == Destroyed(s, a, target)[a].info.balance
    requires u[target].info.balance == Destroyed(s, a, target)[target].info.balance
    requires a != target ==> u[target].selfDestructed == s[target].selfDestructed
    requires Undo(AccountDestroyed(a, target, s[a].selfDestructed, s[a].info.balance), u, true) == Some(r)
    ensures r == u[a := Reset(u[a], s[a])][target := Reset(u[target], s[target])]
  {
  }

  lemma DestroyedResets(s: State, a: Address, target: Address)
    requires a in s && target in s
    ensures var s' := Destroyed(s, a, target);
            s == s'[a := Reset(s'[a], s[a])][target := Reset(s'[target], s[target])]
            && (a != target ==> s'[target].selfDestructed == s[target].selfDestructed)
  {
  }

  lemma DestroyBack(db: Database, isSpuriousDragon: bool, s: State, a: Address, target: Address, u: State)
    requires a in s && target in s
    requires Restored(db, isSpuriousDragon, Destroyed(s, a, target), u)
    ensures a in u && target in u
    ensures Restored(db, isSpuriousDragon, s,
                     Undo(AccountDestroyed(a, target, s[a].selfDestructed, s[a].info.balance), u,
                          isSpuriousDragon).value)
  {
    var s' := Destroyed(s, a, target);
    RestoredFunds(db, isSpuriousDragon, s', u, a);
    RestoredFunds(db, isSpuriousDragon, s', u, target);
    DestroyedResets(s, a, target);
    var r := Undo(AccountDestroyed(a, target, s[a].selfDestructed, s[a].info.balance), u, isSpuriousDragon).value;
    UndoneDestroy(s, a, target, u, r);
    RestoredByTwo(db, isSpuriousDragon, s, s', a, target, u, r);
  }
}
