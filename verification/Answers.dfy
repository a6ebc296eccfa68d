/**
  What the operations of the journaled state answer and change, said of the
  nonces, balances and slots that are there before: those of loaded accounts and
  slots, and the database's for the others.
 */
module Answers {
  import opened Words
  import opened Accounts
  import opened Journal
  import opened Rollback
  import opened Supply
  import opened Tracking

  // ---------------------------------------------------------------- what is there

  /** The account is loaded or can be. */
  predicate Readable(db: Database, s: State, a: Address) {
    a in s || Fetch(db, a).DbOk?
  }

  /** The account as a load would find it. */
  function Found(db: Database, s: State, a: Address): Account
    requires Readable(db, s, a)
  {
    if a in s then s[a] else Fetch(db, a).value
  }

  function NonceOf(db: Database, s: State, a: Address): U64
    requires Readable(db, s, a)
  {
    Found(db, s, a).info.nonce
  }

  /** The slot as a load would find it; every slot of a created account is zero before it is written. */
  function SlotOf(db: Database, s: State, a: Address, key: U256): DbResult<StorageSlot>
    requires a in s
  {
    if key in s[a].storage then DbOk(s[a].storage[key])
    else if s[a].created then DbOk(StorageSlot(0, 0))
    else match db.slot(a, key)
      case DbErr => DbErr
      case DbOk(v) => DbOk(StorageSlot(v, v))
  }

  ghost predicate SameBalances(db: Database, s: State, t: State) {
    forall x: Address :: BalanceOf(db, t, x) == BalanceOf(db, s, x)
  }

  lemma SameBalancesTrans(db: Database, s: State, t: State, u: State)
    requires SameBalances(db, s, t) && SameBalances(db, t, u)
    ensures SameBalances(db, s, u)
  {
  }

  lemma RestoredBalances(db: Database, isSpuriousDragon: bool, s: State, u: State)
    requires Restored(db, isSpuriousDragon, s, u)
    ensures SameBalances(db, s, u)
  {
    forall x: Address
      ensures BalanceOf(db, u, x) == BalanceOf(db, s, x)
    {
      if x in s {
        assert RestoredAt(db, isSpuriousDragon, x, s[x], u[x]);
      } else if x in u {
        assert Leftover(db, isSpuriousDragon, x, u[x]);
      }
    }
  }

  // ---------------------------------------------------------------- loads

  /** The precompiles are the addresses from 1 on, as many as there are. */
  lemma PrecompilesAre(a: Address, numOfPrecompiles: nat)
    requires numOfPrecompiles < 0xffff
    ensures IsPrecompile(a, numOfPrecompiles) <==> 1 <= a <= numOfPrecompiles
  {
  }

  /** A load answers cold for what was not loaded and is no precompile, finds the account, and changes no other. */
  lemma LoadAnswers(js: ValidJState, db: Database, a: Address)
    ensures var r := LoadAccount(js, db, a);
            && (r.1.DbOk? <==> Readable(db, js.state, a))
            && (r.1.DbOk? ==>
                  && (r.1.value <==> a !in js.state && !IsPrecompile(a, js.numOfPrecompiles))
                  && r.0.state == js.state[a := Found(db, js.state, a)])
            && (r.1.DbErr? ==> r.0 == js)
            && SameBalances(db, js.state, r.0.state)
  {
    if a in js.state {
      assert js.state == js.state[a := js.state[a]];
    }
  }

  /** What is loaded stays as it was found. */
  lemma LoadKeeps(js: ValidJState, db: Database, a: Address, x: Address)
    ensures var s := LoadAccount(js, db, a).0.state;
            && (Readable(db, s, x) <==> Readable(db, js.state, x))
            && (Readable(db, s, x) ==> Found(db, s, x) == Found(db, js.state, x))
  {
  }

  /**
    Whether an account exists: since Spurious Dragon, if it holds anything, a
    nonce or code; before, if the database knew it or something touched it.
   */
  lemma ExistAnswers(js: ValidJState, db: Database, a: Address)
    ensures var r := LoadAccountExist(js, db, a);
            && (r.1.DbOk? <==> Readable(db, js.state, a))
            && (r.1.DbOk? ==>
                  var acc := Found(db, js.state, a);
                  && (r.1.value.0 <==> a !in js.state && !IsPrecompile(a, js.numOfPrecompiles))
                  && (!js.isBeforeSpuriousDragon ==>
                        (r.1.value.1 <==> BalanceOf(db, js.state, a) != 0 || acc.info.nonce != 0
                                          || (acc.info.codeHash != KECCAK_EMPTY && acc.info.codeHash != 0)))
                  && (js.isBeforeSpuriousDragon && a !in js.state ==> (r.1.value.1 <==> db.basic(a).value.Some?))
                  && (js.isBeforeSpuriousDragon && a in js.state ==>
                        (r.1.value.1 <==> acc.touched || !acc.loadedAsNotExisting)))
            && r.0 == LoadAccount(js, db, a).0
  {
  }

  // ---------------------------------------------------------------- nonces

  /** Counting a nonce adds one to it, marks the account, and changes nothing else; the largest is refused. */
  lemma NonceCounted(js: ValidJState, a: Address)
    requires a in js.state
    ensures var r := IncNonce(js, a);
            if js.state[a].info.nonce < U64_MAX then
              && r.1 == Some(js.state[a].info.nonce + 1)
              && r.0.state == js.state[a := WithNonce(js.state[a], js.state[a].info.nonce + 1).(touched := true)]
            else
              r == (js, None)
  {
    var r := IncNonce(js, a);
    if js.state[a].info.nonce < U64_MAX {
      assert r.0.state[a] == WithNonce(js.state[a], js.state[a].info.nonce + 1).(touched := true);
    }
  }

  // ---------------------------------------------------------------- slots

  /** Reading answers the present value, cold exactly if it was not loaded, and adds the slot as it was found. */
  lemma SloadAnswers(js: ValidJState, db: Database, a: Address, key: U256)
    requires a in js.state
    ensures var r, slot := Sload(js, db, a, key), SlotOf(db, js.state, a, key);
            && (slot.DbErr? ==> r == (js, DbErr))
            && (slot.DbOk? ==>
                  && r.1 == DbOk((slot.value.present, key !in js.state[a].storage))
                  && r.0.state == js.state[a := js.state[a].(storage := js.state[a].storage[key := slot.value])])
  {
    var acc := js.state[a];
    if key in acc.storage {
      assert acc.storage[key := acc.storage[key]] == acc.storage;
      assert js.state[a := acc] == js.state;
    }
  }

  /**
    Writing answers the slot's original and present value, the value written, and
    cold exactly if it was not loaded; then the slot shows the value, its original
    untouched, and nothing else has changed.
   */
  lemma SstoreAnswers(js: ValidJState, db: Database, a: Address, key: U256, value: U256)
    requires a in js.state
    ensures var r, slot := Sstore(js, db, a, key, value), SlotOf(db, js.state, a, key);
            && (slot.DbErr? ==> r == (js, DbErr))
            && (slot.DbOk? ==>
                  && r.1 == DbOk((slot.value.original, slot.value.present, value, key !in js.state[a].storage))
                  && r.0.state[a].storage
                     == js.state[a].storage[key := StorageSlot(slot.value.original, value)]
                  && r.0.state == js.state[a := js.state[a].(storage := r.0.state[a].storage)]
                  && SlotOf(db, r.0.state, a, key) == DbOk(StorageSlot(slot.value.original, value))
                  && forall k | k != key :: SlotOf(db, r.0.state, a, k) == SlotOf(db, js.state, a, k))
  {
    SloadAnswers(js, db, a, key);
    var slot := SlotOf(db, js.state, a, key);
    if slot.DbOk? {
      SlotWritten(js.state, a, key, slot.value, value);
    }
  }

  /** Loading a slot and then writing it is writing it at once. */
  lemma SlotWritten(s: State, a: Address, key: U256, slot: StorageSlot, value: U256)
    requires a in s
    ensures var s1 := s[a := s[a].(storage := s[a].storage[key := slot])];
            var written := s[a].storage[key := StorageSlot(slot.original, value)];
            && s1[a].storage[key := slot.(present := value)] == written
            && s1[a := s1[a].(storage := written)] == s[a := s[a].(storage := written)]
            && (slot.present == value ==> s1[a].storage == written)
  {
  }

  // ---------------------------------------------------------------- selfdestructs

  /**
    A selfdestruct empties the account into its target, and its answer tells
    what was there: a balance, a target that exists, a cold one, a flag set before.
   */
  lemma SelfDestructAnswers(js: ValidJState, db: Database, a: Address, target: Address)
    requires a in js.state && TotalSupply(db, js.state) < TWO_256
    ensures var r := SelfDestructAccount(js, db, a, target);
            && (r.1.DbOk? <==> Readable(db, js.state, target))
            && (r.1.DbErr? ==> r.0 == js)
            && (r.1.DbOk? ==>
                  && r.1.value.hadValue == (BalanceOf(db, js.state, a) != 0)
                  && r.1.value.isCold == (target !in js.state && !IsPrecompile(target, js.numOfPrecompiles))
                  && r.1.value.targetExists == LoadAccountExist(js, db, target).1.value.1
                  && r.1.value.previouslyDestroyed == js.state[a].selfDestructed
                  && r.0.state[a].selfDestructed
                  && forall x: Address ::
                       BalanceOf(db, r.0.state, x)
                       == if x == a then 0
                          else BalanceOf(db, js.state, x) + if x == target then BalanceOf(db, js.state, a) else 0)
  {
    ExistAnswers(js, db, target);
    LoadAnswers(js, db, target);
    if Readable(db, js.state, target) {
      var js1 := LoadAccount(js, db, target).0;
      SameSupply(db, js.state, js1.state);
      DestroyMoves(db, js1, a, target);
    }
  }

  lemma DestroyMoves(db: Database, js: ValidJState, a: Address, target: Address)
    requires a in js.state && target in js.state && TotalSupply(db, js.state) < TWO_256
    ensures var s := Destroy(js, a, target).state;
            && a in s && s[a].selfDestructed
            && forall x: Address ::
                 BalanceOf(db, s, x)
                 == if x == a then 0
                    else BalanceOf(db, js.state, x) + if x == target then BalanceOf(db, js.state, a) else 0
  {
    DestroyIsDestroyed(js, a, target);
    if a != target {
      TwoBalancesWithinSupply(db, js.state, a, target);
    }
  }
}
