/** The ether in existence: balances of loaded accounts and of the accounts still in the database. */
module Supply {
  import opened Words
  import opened Accounts
  import opened Journal
  import opened Rollback

  /** Sum of the balances of the addresses below `n`. */
  ghost function SupplyUpTo(db: Database, s: State, n: nat): nat
    requires n <= TWO_160
  {
    if n == 0 then 0 else SupplyUpTo(db, s, n - 1) + BalanceOf(db, s, n - 1)
  }

  ghost function TotalSupply(db: Database, s: State): nat {
    SupplyUpTo(db, s, TWO_160)
  }

  /** Ether that selfdestructs into the account itself destroyed. */
  function Burned(es: Entries): nat {
    if es == [] then 0
    else
      var e := es[|es| - 1];
      Burned(es[..|es| - 1]) + if e.AccountDestroyed? && e.address == e.target then e.hadBalance else 0
  }

  lemma {:induction false} BurnedConcat(es: Entries, fs: Entries)
    ensures Burned(es + fs) == Burned(es) + Burned(fs)
    decreases |fs|
  {
    if fs == [] {
      assert es + fs == es;
    } else {
      assert (es + fs)[..|es + fs| - 1] == es + fs[..|fs| - 1];
      BurnedConcat(es, fs[..|fs| - 1]);
    }
  }

  lemma BurnedSingle(e: JournalEntry)
    ensures Burned([e]) == if e.AccountDestroyed? && e.address == e.target then e.hadBalance else 0
  {
    assert [e][..0] == [];
  }

  function DeltaAt(before: int, after: int, present: bool): int {
    if present then after - before else 0
  }

  /** Only the balances of `a` and `b` differ. */
  lemma {:induction false} SupplyDelta(db: Database, s: State, t: State, a: Address, b: Address, n: nat)
    requires n <= TWO_160 && a != b
    requires forall x: Address | x != a && x != b :: BalanceOf(db, s, x) == BalanceOf(db, t, x)
    ensures SupplyUpTo(db, t, n) == SupplyUpTo(db, s, n)
                                    + DeltaAt(BalanceOf(db, s, a), BalanceOf(db, t, a), a < n)
                                    + DeltaAt(BalanceOf(db, s, b), BalanceOf(db, t, b), b < n)
  {
    if n > 0 {
      SupplyDelta(db, s, t, a, b, n - 1);
    }
  }

  lemma {:induction false} SupplyAtLeast(db: Database, s: State, a: Address, b: Address, n: nat)
    requires n <= TWO_160 && a != b
    ensures (if a < n then BalanceOf(db, s, a) else 0) + (if b < n then BalanceOf(db, s, b) else 0)
            <= SupplyUpTo(db, s, n)
  {
    if n > 0 {
      SupplyAtLeast(db, s, a, b, n - 1);
    }
  }

  lemma {:induction false} SameSupplyUpTo(db: Database, s: State, t: State, n: nat)
    requires n <= TWO_160
    requires forall x: Address :: BalanceOf(db, s, x) == BalanceOf(db, t, x)
    ensures SupplyUpTo(db, s, n) == SupplyUpTo(db, t, n)
  {
    if n > 0 {
      SameSupplyUpTo(db, s, t, n - 1);
    }
  }

  /** An address other than `a`. */
  function Other(a: Address): (b: Address)
    ensures b != a
  {
    if a == 0 then 1 else 0
  }

  lemma SupplyAfterOne(db: Database, s: State, t: State, a: Address)
    requires forall x: Address | x != a :: BalanceOf(db, s, x) == BalanceOf(db, t, x)
    ensures TotalSupply(db, t) == TotalSupply(db, s) + BalanceOf(db, t, a) - BalanceOf(db, s, a)
  {
    SupplyDelta(db, s, t, a, Other(a), TWO_160);
  }

  lemma BalanceWithinSupply(db: Database, s: State, a: Address)
    ensures BalanceOf(db, s, a) <= TotalSupply(db, s)
  {
    SupplyAtLeast(db, s, a, Other(a), TWO_160);
  }

  /** Two accounts never hold more than all the ether. */
  lemma TwoBalancesWithinSupply(db: Database, s: State, a: Address, b: Address)
    requires a != b
    ensures BalanceOf(db, s, a) + BalanceOf(db, s, b) <= TotalSupply(db, s)
  {
    SupplyAtLeast(db, s, a, b, TWO_160);
  }

  lemma SameSupply(db: Database, s: State, t: State)
    requires forall x: Address :: BalanceOf(db, s, x) == BalanceOf(db, t, x)
    ensures TotalSupply(db, s) == TotalSupply(db, t)
  {
    SameSupplyUpTo(db, s, t, TWO_160);
  }

  /** A restored state holds the same ether. */
  lemma RestoredSupply(db: Database, isSpuriousDragon: bool, s: State, u: State)
    requires Restored(db, isSpuriousDragon, s, u)
    ensures TotalSupply(db, u) == TotalSupply(db, s)
  {
    forall x: Address
      ensures BalanceOf(db, s, x) == BalanceOf(db, u, x)
    {
      if x in s {
        assert RestoredAt(db, isSpuriousDragon, x, s[x], u[x]);
      } else if x in u {
        assert Leftover(db, isSpuriousDragon, x, u[x]);
      }
    }
    SameSupply(db, s, u);
  }

  /** A move within the bound conserves the supply, and neither the credit nor the debit wraps. */
  lemma MovedSupply(db: Database, s: State, from: Address, to: Address, balance: U256)
    requires from in s && to in s && balance <= s[from].info.balance
    requires TotalSupply(db, s) < TWO_256
    ensures TotalSupply(db, Moved(s, from, to, balance)) == TotalSupply(db, s)
    ensures from != to ==> Moved(s, from, to, balance)[to].info.balance == s[to].info.balance + balance
    ensures from != to ==> Moved(s, from, to, balance)[from].info.balance == s[from].info.balance - balance
    ensures from == to ==> Moved(s, from, to, balance) == s
  {
    if from != to {
      TwoBalancesWithinSupply(db, s, from, to);
      SupplyDelta(db, s, Moved(s, from, to, balance), from, to, TWO_160);
    } else {
      assert Moved(s, from, to, balance) == s;
    }
  }

  lemma DestroyedSupply(db: Database, s: State, a: Address, target: Address)
    requires a in s && target in s
    requires TotalSupply(db, s) < TWO_256
    ensures TotalSupply(db, Destroyed(s, a, target)) + (if a == target then s[a].info.balance else 0)
            == TotalSupply(db, s)
  {
    if a != target {
      TwoBalancesWithinSupply(db, s, a, target);
      SupplyDelta(db, s, Destroyed(s, a, target), a, target, TWO_160);
    } else {
      SupplyAfterOne(db, s, Destroyed(s, a, target), a);
    }
  }
}
