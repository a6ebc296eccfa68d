/**
  Where a revert does not give back what was there, and exactly when: the debit
  of a refused overflowing payment, which is not journaled; code hashes, since
  `set_code` journals the new code; and the slots and the Created flag of an
  account whose creation is undone.
 */
module Limits {
  import opened Words
  import opened Accounts
  import opened InstructionResults
  import opened Journal
  import opened Rollback
  import opened Supply
  import opened Tracking
  import opened Frames

  // ---------------------------------------------------------------- the unjournaled debit

  /** The payer can pay, but the payee cannot hold the payment. */
  predicate Unholdable(s: State, from: Address, to: Address, balance: U256)
    requires from in s && to in s
  {
    from != to && balance <= s[from].info.balance && s[to].info.balance + balance >= TWO_256
  }

  lemma PayRefusesUnholdable(js: ValidJState, from: Address, to: Address, balance: U256)
    requires from in js.state && to in js.state
    ensures Pay(js, from, to, balance).1 == Some(OverflowPayment) <==> Unholdable(js.state, from, to, balance)
  {
  }

  predicate OnlyTouches(es: Entries) {
    forall e | e in es :: e.AccountTouched?
  }

  lemma {:induction false} UndoTouchesKeepsBalances(es: Entries, s: State, isSpuriousDragon: bool)
    requires OnlyTouches(es) && UndoAll(es, s, isSpuriousDragon).Some?
    ensures forall a | a in s :: var r := UndoAll(es, s, isSpuriousDragon).value;
                                 a in r && r[a].info.balance == s[a].info.balance
    decreases |es|
  {
    if es != [] {
      var n := |es| - 1;
      assert es[n] in es;
      UndoTouchesKeepsBalances(es[..n], Undo(es[n], s, isSpuriousDragon).value, isSpuriousDragon);
    }
  }

  lemma TouchEntries(js: ValidJState, a: Address)
    ensures Continues(js, Touch(js, a)) && OnlyTouches(NewEntries(js, Touch(js, a)))
  {
    if a in js.state && !js.state[a].touched {
      ContinuesPush(js, AccountTouched(a), Touch(js, a).state);
    } else {
      ContinuesSame(js, js);
    }
  }

  lemma TwoTouches(js: ValidJState, a: Address, b: Address)
    ensures var js2 := Touch(Touch(js, a), b);
            Continues(js, js2) && OnlyTouches(NewEntries(js, js2))
  {
    var js1 := Touch(js, a);
    TouchEntries(js, a);
    TouchEntries(js1, b);
    ContinuesTrans(js, js1, Touch(js1, b));
  }

  /** A refused payment leaves the payer debited and only touches in the journal. */
  lemma RefusedPayment(js: ValidJState, from: Address, to: Address, balance: U256)
    requires from in js.state && to in js.state && Unholdable(js.state, from, to, balance)
    ensures var js' := Pay(js, from, to, balance).0;
            && Continues(js, js') && OnlyTouches(NewEntries(js, js'))
            && js'.state[from].info.balance == js.state[from].info.balance - balance
  {
    var touched := Touch(Touch(js, from), to);
    TwoTouches(js, from, to);
    var js1 := Touch(js, from);
    var payer := js1.state[from];
    TouchKeepsFunds(js1, from, to);
    var js2 := PutAccount(js1, from, WithBalance(payer, payer.info.balance - balance));
    DebitThenTouch(js1, from, to, WithBalance(payer, payer.info.balance - balance));
    PayIsCredit(js, from, to, balance, js1, js2);
    UncreditedIs(js2, from, to, balance);
    assert Pay(js, from, to, balance).0 == PutAccount(touched, from, WithBalance(payer, payer.info.balance - balance));
  }

  lemma RefusedPaymentLost(db: Database, js: ValidJState, from: Address, to: Address, balance: U256)
    requires from in js.state && to in js.state && Unholdable(js.state, from, to, balance)
    ensures var js' := Pay(js, from, to, balance).0;
            Continues(js, js') && !Recovers(db, !js.isBeforeSpuriousDragon, js.state, NewEntries(js, js'), js'.state)
  {
    var sd := !js.isBeforeSpuriousDragon;
    var js' := Pay(js, from, to, balance).0;
    RefusedPayment(js, from, to, balance);
    var es := NewEntries(js, js');
    RestoredReflexive(db, sd, js'.state);
    if Recovers(db, sd, js.state, es, js'.state) {
      var r := RecoversAt(db, sd, js.state, es, js'.state, js'.state);
      UndoTouchesKeepsBalances(es, js'.state, sd);
      RestoredFunds(db, sd, js.state, r, from);
      assert false;
    }
  }

  lemma PaidRecovers(db: Database, js: ValidJState, from: Address, to: Address, balance: U256)
    requires from in js.state && to in js.state && Pay(js, from, to, balance).1.None?
    ensures var js' := Pay(js, from, to, balance).0;
            Continues(js, js') && Recovers(db, !js.isBeforeSpuriousDragon, js.state, NewEntries(js, js'), js'.state)
  {
    var sd := !js.isBeforeSpuriousDragon;
    var js1 := Touch(js, from);
    var js2 := Touch(js1, to);
    var e := BalanceTransfer(from, to, balance);
    TrackedTouch(db, js, from);
    TrackedTouch(db, js1, to);
    TrackedTrans(db, js, js1, js2);
    PayIsMove(js, from, to, balance);
    ContinuesPush(js2, e, Moved(js2.state, from, to, balance));
    RecoversMove(db, sd, js2.state, from, to, balance);
    var js' := Pay(js, from, to, balance).0;
    ContinuesTrans(js, js2, js');
    RecoversTrans(db, sd, js.state, NewEntries(js, js2), js2.state, [e], js'.state);
  }

  lemma ShortPaymentRecovers(db: Database, js: ValidJState, from: Address, to: Address, balance: U256)
    requires from in js.state && to in js.state && js.state[from].info.balance < balance
    ensures var js' := Pay(js, from, to, balance).0;
            Continues(js, js') && Recovers(db, !js.isBeforeSpuriousDragon, js.state, NewEntries(js, js'), js'.state)
  {
    TrackedTouch(db, js, from);
  }

  /**
    The journal of a payment recovers the state before it unless the payment is
    the one that is debited and then refused. No bound on the supply is needed.
   */
  lemma PayRecoversExactly(db: Database, js: ValidJState, from: Address, to: Address, balance: U256)
    requires from in js.state && to in js.state
    ensures var js' := Pay(js, from, to, balance).0;
            && Continues(js, js')
            && (Recovers(db, !js.isBeforeSpuriousDragon, js.state, NewEntries(js, js'), js'.state)
                <==> !Unholdable(js.state, from, to, balance))
  {
    PayRefusesUnholdable(js, from, to, balance);
    if Unholdable(js.state, from, to, balance) {
      RefusedPaymentLost(db, js, from, to, balance);
    } else if js.state[from].info.balance < balance {
      ShortPaymentRecovers(db, js, from, to, balance);
    } else {
      PaidRecovers(db, js, from, to, balance);
    }
  }

  /** One such payment: a single unit sent to an account that holds the largest balance. */
  lemma DebitLostExample()
    ensures var s := map[1 := WithBalance(NewNotExisting(), 1), 2 := WithBalance(NewNotExisting(), TWO_256 - 1)];
            var js := New(0).(state := s);
            var (js', error) := Pay(js, 1, 2, 1);
            error == Some(OverflowPayment) && js'.state[1].info.balance == 0
  {
    var js: ValidJState := New(0).(state := map[1 := WithBalance(NewNotExisting(), 1),
                                                2 := WithBalance(NewNotExisting(), TWO_256 - 1)]);
    PayRefusesUnholdable(js, 1, 2, 1);
    RefusedPayment(js, 1, 2, 1);
  }

  // ---------------------------------------------------------------- arithmetic of the undo

  /**
    Undoing a payment adds and subtracts exactly, but for a payment to the payer
    itself of more than the payer's balance leaves room for, whose sum wraps.
   */
  lemma UndoneMoveExact(db: Database, isSpuriousDragon: bool, s: State, from: Address, to: Address, balance: U256,
                        u: State)
    requires from in s && to in s && balance <= s[from].info.balance && TotalSupply(db, s) < TWO_256
    requires Restored(db, isSpuriousDragon, Moved(s, from, to, balance), u)
    ensures from in u && to in u
    ensures u[from].info.balance + balance < TWO_256 <==> from != to || s[from].info.balance + balance < TWO_256
    ensures from != to ==> balance <= u[to].info.balance
  {
    MovedSupply(db, s, from, to, balance);
    RestoredFunds(db, isSpuriousDragon, Moved(s, from, to, balance), u, from);
    RestoredFunds(db, isSpuriousDragon, Moved(s, from, to, balance), u, to);
  }

  /** Undoing a selfdestruct always adds and subtracts exactly. */
  lemma UndoneDestroyExact(db: Database, isSpuriousDragon: bool, s: State, a: Address, target: Address, u: State)
    requires a in s && target in s && TotalSupply(db, s) < TWO_256
    requires Restored(db, isSpuriousDragon, Destroyed(s, a, target), u)
    ensures a in u && target in u
    ensures u[a].info.balance + s[a].info.balance < TWO_256
    ensures a != target ==> s[a].info.balance <= u[target].info.balance
  {
    RestoredFunds(db, isSpuriousDragon, Destroyed(s, a, target), u, a);
    RestoredFunds(db, isSpuriousDragon, Destroyed(s, a, target), u, target);
    if a != target {
      TwoBalancesWithinSupply(db, s, a, target);
    }
  }

  const EMPTY_DB := Database(_ => DbOk(None), _ => DbErr, (_, _) => DbErr)

  lemma {:induction false} NothingSupplied(n: nat)
    requires n <= TWO_160
    ensures SupplyUpTo(EMPTY_DB, map[], n) == 0
  {
    if n > 0 {
      NothingSupplied(n - 1);
    }
  }

  /** Such a payment: half of what a word can count, from an account to itself. */
  lemma UndoneMoveWraps()
    ensures var half: U256 := 0x8000000000000000_0000000000000000_0000000000000000_0000000000000000;
            var s: State := map[1 := WithBalance(NewNotExisting(), half)];
            && TotalSupply(EMPTY_DB, s) < TWO_256
            && Moved(s, 1, 1, half) == s
            && s[1].info.balance + half == TWO_256
            && Undo(BalanceTransfer(1, 1, half), s, true) == Some(s)
  {
    var half: U256 := 0x8000000000000000_0000000000000000_0000000000000000_0000000000000000;
    var s: State := map[1 := WithBalance(NewNotExisting(), half)];
    NothingSupplied(TWO_160);
    SupplyAfterOne(EMPTY_DB, map[], s, 1);
  }

  // ---------------------------------------------------------------- code hashes

  predicate ChangesCode(e: JournalEntry, a: Address) {
    e.CodeChange? && e.address == a
  }

  /** The hash `a` is left with when `es` are undone: that of its first code change, if there is one. */
  function HashAfterUndo(es: Entries, a: Address, hash: B256): B256 {
    if es == [] then hash
    else if ChangesCode(es[0], a) then es[0].hadCode.hash
    else HashAfterUndo(es[1..], a, hash)
  }

  lemma {:induction false} HashAfterLast(es: Entries, e: JournalEntry, a: Address, hash: B256)
    ensures HashAfterUndo(es + [e], a, hash) == HashAfterUndo(es, a, if ChangesCode(e, a) then e.hadCode.hash else hash)
  {
    if es == [] {
      assert [e][1..] == [];
    } else {
      assert (es + [e])[1..] == es[1..] + [e];
      HashAfterLast(es[1..], e, a, hash);
    }
  }

  lemma UndoOneHash(e: JournalEntry, s: State, a: Address, isSpuriousDragon: bool)
    requires Undo(e, s, isSpuriousDragon).Some? && a in Undo(e, s, isSpuriousDragon).value
    ensures a in s
    ensures Undo(e, s, isSpuriousDragon).value[a].info.codeHash == if ChangesCode(e, a) then e.hadCode.hash
            else s[a].info.codeHash
  {
  }

  /** Undoing never brings an account in, and leaves each with the hash its first code change wrote. */
  lemma {:induction false} UndoLeavesFirstHash(es: Entries, s: State, a: Address, isSpuriousDragon: bool)
    requires UndoAll(es, s, isSpuriousDragon).Some? && a in UndoAll(es, s, isSpuriousDragon).value
    ensures a in s
    ensures UndoAll(es, s, isSpuriousDragon).value[a].info.codeHash == HashAfterUndo(es, a, s[a].info.codeHash)
    decreases |es|
  {
    if es != [] {
      var n := |es| - 1;
      assert es == es[..n] + [es[n]];
      var s1 := Undo(es[n], s, isSpuriousDragon).value;
      UndoLeavesFirstHash(es[..n], s1, a, isSpuriousDragon);
      UndoOneHash(es[n], s, a, isSpuriousDragon);
      HashAfterLast(es[..n], es[n], a, s[a].info.codeHash);
    }
  }

  /**
    A reverted frame leaves an account its old code hash exactly when the frame's first code change
    wrote that hash.
   */
  lemma RevertedFrameHash(db: Database, js: ValidJState, js': ValidJState, a: Address)
    requires Tracked(db, Checkpoint(js).1, js') && js'.depth == js.depth + 1 && a in js.state
    ensures CanRevert(js', Checkpoint(js).0)
    ensures var r := RevertTo(js', Checkpoint(js).0);
            && a in r.state && a in js'.state
            && (r.state[a].info.codeHash == js.state[a].info.codeHash <==>
                  HashAfterUndo(NewEntries(Checkpoint(js).1, js'), a, js'.state[a].info.codeHash)
                  == js.state[a].info.codeHash)
  {
    RevertedFrame(db, js, js');
    FrameEntries(js, js');
    UndoLeavesFirstHash(NewEntries(Checkpoint(js).1, js'), js'.state, a, !js'.isBeforeSpuriousDragon);
  }

  lemma SetCodeEntries(js: ValidJState, a: Address, code: Bytecode)
    requires a in js.state
    ensures var js' := SetCode(js, a, code);
            Continues(js, js') && HashAfterUndo(NewEntries(js, js'), a, js'.state[a].info.codeHash) == code.hash
  {
    var js1 := Touch(js, a);
    var js' := SetCode(js, a, code);
    TouchEntries(js, a);
    ContinuesPush(js1, CodeChange(a, code), js'.state);
    ContinuesTrans(js, js1, js');
    HashAfterLast(NewEntries(js, js1), CodeChange(a, code), a, js'.state[a].info.codeHash);
    FirstHashOfTouches(NewEntries(js, js1), a, code.hash);
  }

  lemma {:induction false} FirstHashOfTouches(es: Entries, a: Address, hash: B256)
    requires OnlyTouches(es)
    ensures HashAfterUndo(es, a, hash) == hash
  {
    if es != [] {
      assert es[0] in es && forall e | e in es[1..] :: e in es;
      FirstHashOfTouches(es[1..], a, hash);
    }
  }

  /** Deploying code in a frame that reverts: the code stays, so the hash is restored only when it did not change. */
  lemma SetCodeSurvivesRevert(db: Database, js: ValidJState, a: Address, code: Bytecode)
    requires a in js.state && js.state[a].created
    ensures var cp := Checkpoint(js).0;
            var js' := SetCode(Checkpoint(js).1, a, code);
            && CanRevert(js', cp)
            && a in RevertTo(js', cp).state
            && RevertTo(js', cp).state[a].info.codeHash == code.hash
            && (RevertTo(js', cp).state[a].info.codeHash == js.state[a].info.codeHash
                <==> code.hash == js.state[a].info.codeHash)
  {
    var js1 := Checkpoint(js).1;
    var js' := SetCode(js1, a, code);
    TrackedSetCode(db, js1, a, code);
    SetCodeEntries(js1, a, code);
    RevertedFrameHash(db, js, js', a);
    FrameEntries(js, js');
    UndoLeavesFirstHash(NewEntries(js1, js'), js'.state, a, !js'.isBeforeSpuriousDragon);
  }

  // ---------------------------------------------------------------- undone creations

  /** Entries whose undoing touches neither slots nor the Created flag nor the set of accounts. */
  predicate SlotFree(es: Entries) {
    forall e | e in es :: e.AccountTouched? || e.NonceChange? || e.BalanceTransfer?
  }

  lemma UndoOneKeepsSlots(e: JournalEntry, s: State, isSpuriousDragon: bool)
    requires SlotFree([e]) && Undo(e, s, isSpuriousDragon).Some?
    ensures forall a | a in s :: var r := Undo(e, s, isSpuriousDragon).value;
                                 a in r && r[a].storage == s[a].storage && r[a].created == s[a].created
  {
    assert e in [e];
  }

  lemma {:induction false} UndoKeepsSlots(es: Entries, s: State, isSpuriousDragon: bool)
    requires SlotFree(es) && UndoAll(es, s, isSpuriousDragon).Some?
    ensures forall a | a in s :: var r := UndoAll(es, s, isSpuriousDragon).value;
                                 a in r && r[a].storage == s[a].storage && r[a].created == s[a].created
    decreases |es|
  {
    if es != [] {
      var n := |es| - 1;
      var s1 := Undo(es[n], s, isSpuriousDragon).value;
      assert es[n] in es && forall e | e in es[..n] :: e in es;
      UndoOneKeepsSlots(es[n], s, isSpuriousDragon);
      UndoKeepsSlots(es[..n], s1, isSpuriousDragon);
    }
  }

  lemma EndowKeepsSlots(js: ValidJState, isSpuriousDragon: bool, caller: Address, a: Address, balance: U256)
    requires a in js.state && caller in js.state
    ensures var acc := Endow(js, isSpuriousDragon, caller, a, balance).0.state[a];
            acc.storage == js.state[a].storage && acc.created == js.state[a].created
  {
  }

  /** The journal after an endowment that went through. */
  lemma EndowJournal(js: ValidJState, isSpuriousDragon: bool, caller: Address, a: Address, balance: U256)
    requires a in js.state && caller in js.state && js.state[a].info.balance + balance < TWO_256
    ensures var js' := Endow(js, isSpuriousDragon, caller, a, balance).0;
            var js1 := if isSpuriousDragon then Push(js, NonceChange(a)) else js;
            js' == Push(js1, BalanceTransfer(caller, a, balance)).(state := js'.state)
  {
  }

  lemma EndowEntries(js: ValidJState, isSpuriousDragon: bool, caller: Address, a: Address, balance: U256)
    requires a in js.state && caller in js.state
    ensures var js' := Endow(js, isSpuriousDragon, caller, a, balance).0;
            Continues(js, js') && SlotFree(NewEntries(js, js'))
  {
    if js.state[a].info.balance + balance >= TWO_256 {
      ContinuesSame(js, js);
    } else {
      var js' := Endow(js, isSpuriousDragon, caller, a, balance).0;
      EndowJournal(js, isSpuriousDragon, caller, a, balance);
      PushedEntries(js, isSpuriousDragon, caller, a, balance, js');
    }
  }

  lemma PushedEntries(js: ValidJState, isSpuriousDragon: bool, caller: Address, a: Address, balance: U256,
                      js': ValidJState)
    requires var js1 := if isSpuriousDragon then Push(js, NonceChange(a)) else js;
             js' == Push(js1, BalanceTransfer(caller, a, balance)).(state := js'.state)
    ensures Continues(js, js') && SlotFree(NewEntries(js, js'))
  {
    if isSpuriousDragon {
      var js1 := Push(js, NonceChange(a));
      ContinuesPush(js, NonceChange(a), js.state);
      ContinuesPush(js1, BalanceTransfer(caller, a, balance), js'.state);
      ContinuesTrans(js, js1, js');
    } else {
      ContinuesPush(js, BalanceTransfer(caller, a, balance), js'.state);
    }
  }

  lemma CreateEntries(js: ValidJState, isSpuriousDragon: bool, caller: Address, a: Address, balance: U256)
    requires a in js.state && caller in js.state && !AccountCollision(a, js.state[a], js.numOfPrecompiles)
    ensures var js' := CreateAccount(js, isSpuriousDragon, caller, a, balance).0;
            && Continues(js, js') && SlotFree(NewEntries(js, js'))
            && js'.state[a].storage == MarkCreated(js.state[a]).storage && js'.state[a].created
  {
    var js0 := PutAccount(js, a, MarkCreated(js.state[a]));
    var js1 := Touch(js0, a);
    var js' := CreateAccount(js, isSpuriousDragon, caller, a, balance).0;
    ContinuesSame(js, js0);
    TouchEntries(js0, a);
    ContinuesTrans(js, js0, js1);
    EndowEntries(js1, isSpuriousDragon, caller, a, balance);
    EndowKeepsSlots(js1, isSpuriousDragon, caller, a, balance);
    ContinuesTrans(js, js1, js');
  }

  predicate AllSlotsZero(storage: Storage) {
    forall k | k in storage :: storage[k] == StorageSlot(0, 0)
  }

  /**
    The revert of a creation leaves the account marked created, and its slots as
    they were exactly when they were all zero.
   */
  lemma RevertedCreation(db: Database, js: ValidJState, isSpuriousDragon: bool, caller: Address, a: Address,
                         balance: U256)
    requires a in js.state && caller in js.state && balance <= js.state[caller].info.balance
    requires TotalSupply(db, js.state) < TWO_256 && !AccountCollision(a, js.state[a], js.numOfPrecompiles)
    ensures var cp := Checkpoint(js).0;
            var js' := CreateAccount(Checkpoint(js).1, isSpuriousDragon, caller, a, balance).0;
            && CanRevert(js', cp)
            && a in RevertTo(js', cp).state
            && RevertTo(js', cp).state[a].created
            && (RevertTo(js', cp).state[a].storage == js.state[a].storage <==> AllSlotsZero(js.state[a].storage))
  {
    var js1 := Checkpoint(js).1;
    var js' := CreateAccount(js1, isSpuriousDragon, caller, a, balance).0;
    TrackedCreateAccount(db, js1, isSpuriousDragon, caller, a, balance);
    RevertedFrame(db, js, js');
    FrameEntries(js, js');
    CreateEntries(js1, isSpuriousDragon, caller, a, balance);
    UndoKeepsSlots(NewEntries(js1, js'), js'.state, !js'.isBeforeSpuriousDragon);
    ZeroedSlots(js.state[a]);
  }

  lemma ZeroedSlots(acc: Account)
    ensures MarkCreated(acc).storage == acc.storage <==> AllSlotsZero(acc.storage)
  {
    if MarkCreated(acc).storage == acc.storage {
      forall k | k in acc.storage
        ensures acc.storage[k] == StorageSlot(0, 0)
      {
        assert MarkCreated(acc).storage[k] == StorageSlot(0, 0);
      }
    }
  }
}
