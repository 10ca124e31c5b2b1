/** Per-account balance maps of the lending pool and their sums. The pool
    keeps one map per balance kind (deposit, borrow, collateral); an account
    without an entry reads as zero, as the contract's `unwrap_or(0)` does. */
module Ledger {

  type Address = string

  /** A balance read: the stored entry, or zero for an account never written. */
  function BalanceOf(m: map<Address, int>, a: Address): int {
    if a in m then m[a] else 0
  }

  ghost predicate NonNegative(m: map<Address, int>) {
    forall a :: a in m ==> m[a] >= 0
  }

  /** The sum of all balances in a map. */
  ghost function Sum(m: map<Address, int>): int
    decreases |m|
  {
    if m == map[] then 0
    else
      var k :| k in m;
      assert |m - {k}| < |m| by { assert (m - {k}).Keys == m.Keys - {k}; }
      m[k] + Sum(m - {k})
  }

  /** Any entry may be taken out of the sum first, whichever one the
      definition happens to pick. */
  lemma {:induction false} SumRemove(m: map<Address, int>, k: Address)
    requires k in m
    ensures Sum(m) == m[k] + Sum(m - {k})
    decreases |m|
  {
    var j :| j in m && Sum(m) == m[j] + Sum(m - {j});
    if j != k {
      assert (m - {j}).Keys == m.Keys - {j};
      assert (m - {k}).Keys == m.Keys - {k};
      SumRemove(m - {j}, k);
      SumRemove(m - {k}, j);
      assert (m - {j}) - {k} == (m - {k}) - {j};
    }
  }

  /** Overwriting one account's balance changes the sum by exactly the
      difference between the new and the old balance (an absent account
      counting as zero). */
  lemma SumUpdate(m: map<Address, int>, k: Address, v: int)
    ensures Sum(m[k := v]) == Sum(m) - BalanceOf(m, k) + v
  {
    SumRemove(m[k := v], k);
    assert m[k := v] - {k} == m - {k};
    if k in m {
      SumRemove(m, k);
    } else {
      assert m - {k} == m;
    }
  }

  /** A map of non-negative balances has a non-negative sum. */
  lemma {:induction false} SumNonNegative(m: map<Address, int>)
    requires NonNegative(m)
    ensures Sum(m) >= 0
    decreases |m|
  {
    if m != map[] {
      var k :| k in m;
      SumRemove(m, k);
      assert (m - {k}).Keys == m.Keys - {k};
      SumNonNegative(m - {k});
    }
  }
}
