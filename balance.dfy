/** The balance ledger (`BalanceService`): an append-only table of balance
    rows. The current balance is the newest row's balance; every operation
    reads it and appends one row. */
module Balances {
  import opened Wrappers
  import opened Sorting

  /** A `balance_history` row. Rows are kept in insertion order; the newest
      row is the last one. */
  datatype BalanceEntry = BalanceEntry(
    balance: int,
    changeAmount: int,
    changeType: string,
    relatedId: Option<int>,
    description: string)

  const Manual: string := "manual"

  /** `getCurrentBalance()`: the newest row's balance, 0 for an empty ledger. */
  function CurrentOf(entries: seq<BalanceEntry>): int
  {
    if entries == [] then 0 else entries[|entries| - 1].balance
  }

  function Change(e: BalanceEntry): int { e.changeAmount }

  /** Every row's balance is the balance before it plus its change. */
  predicate Chained(entries: seq<BalanceEntry>)
  {
    forall k :: 0 <= k < |entries| ==> entries[k].balance == CurrentOf(entries[..k]) + entries[k].changeAmount
  }

  /** A row that records `change` on top of the current balance. */
  predicate Follows(entries: seq<BalanceEntry>, e: BalanceEntry)
  {
    e.balance == CurrentOf(entries) + e.changeAmount
  }

  /** Appending a row that follows the ledger keeps it chained, and the new
      current balance is that row's balance. */
  lemma ChainedAppend(entries: seq<BalanceEntry>, e: BalanceEntry)
    requires Chained(entries) && Follows(entries, e)
    ensures Chained(entries + [e]) && CurrentOf(entries + [e]) == e.balance
  {
    var next := entries + [e];
    forall k | 0 <= k < |next| ensures next[k].balance == CurrentOf(next[..k]) + next[k].changeAmount {
      if k < |entries| {
        assert next[..k] == entries[..k];
      } else {
        assert next[..k] == entries;
      }
    }
  }

  /** In a chained ledger the current balance is the sum of all changes. */
  lemma {:induction false} BalanceIsSumOfChanges(entries: seq<BalanceEntry>)
    requires Chained(entries)
    ensures CurrentOf(entries) == SumOf(entries, Change)
    decreases |entries|
  {
    if entries != [] {
      var init := entries[..|entries| - 1];
      assert Chained(init) by {
        forall k | 0 <= k < |init| ensures init[k].balance == CurrentOf(init[..k]) + init[k].changeAmount {
          assert init[..k] == entries[..k];
        }
      }
      BalanceIsSumOfChanges(init);
    }
  }

  /** The ledger as the service sees it through its table. */
  class BalanceService {
    var entries: seq<BalanceEntry>

    constructor ()
      ensures entries == []
    {
      entries := [];
    }

    /** `getCurrentBalance()` */
    method CurrentBalance() returns (b: int)
      ensures b == CurrentOf(entries)
    {
      if entries == [] {
        b := 0;
      } else {
        b := entries[|entries| - 1].balance;
      }
    }

    /** `updateBalance(newBalance, description)`: a manual row whose change is
        the difference to the current balance. */
    method UpdateBalance(newBalance: int, description: string) returns (h: BalanceEntry)
      modifies this
      ensures h == BalanceEntry(newBalance, newBalance - CurrentOf(old(entries)), Manual, None, description)
      ensures entries == old(entries) + [h]
      ensures Follows(old(entries), h) && CurrentOf(entries) == newBalance
      ensures Chained(old(entries)) ==> Chained(entries)
    {
      var current := CurrentBalance();
      h := BalanceEntry(newBalance, newBalance - current, Manual, None, description);
      if Chained(entries) { ChainedAppend(entries, h); }
      entries := entries + [h];
    }

    /** `addBalance(amount, changeType, relatedId, description)` */
    method AddBalance(amount: int, changeType: string, relatedId: Option<int>, description: string)
      returns (h: BalanceEntry)
      modifies this
      ensures h == BalanceEntry(CurrentOf(old(entries)) + amount, amount, changeType, relatedId, description)
      ensures entries == old(entries) + [h]
      ensures Follows(old(entries), h) && CurrentOf(entries) == CurrentOf(old(entries)) + amount
      ensures Chained(old(entries)) ==> Chained(entries)
    {
      var current := CurrentBalance();
      h := BalanceEntry(current + amount, amount, changeType, relatedId, description);
      if Chained(entries) { ChainedAppend(entries, h); }
      entries := entries + [h];
    }

    /** `deductBalance(amount, changeType, relatedId, description)` */
    method DeductBalance(amount: int, changeType: string, relatedId: Option<int>, description: string)
      returns (h: BalanceEntry)
      modifies this
      ensures h == BalanceEntry(CurrentOf(old(entries)) - amount, -amount, changeType, relatedId, description)
      ensures entries == old(entries) + [h]
      ensures Follows(old(entries), h) && CurrentOf(entries) == CurrentOf(old(entries)) - amount
      ensures Chained(old(entries)) ==> Chained(entries)
    {
      var current := CurrentBalance();
      h := BalanceEntry(current - amount, -amount, changeType, relatedId, description);
      if Chained(entries) { ChainedAppend(entries, h); }
      entries := entries + [h];
    }
  }

  /** Adding an amount and then deducting it leaves a chained ledger at the
      balance it started from. */
  lemma AddThenDeduct(entries: seq<BalanceEntry>, a: int, t: string, id: Option<int>, d: string)
    requires Chained(entries)
    ensures var e1 := BalanceEntry(CurrentOf(entries) + a, a, t, id, d);
      var e2 := BalanceEntry(CurrentOf(entries + [e1]) - a, -a, t, id, d);
      Chained(entries + [e1] + [e2]) && CurrentOf(entries + [e1] + [e2]) == CurrentOf(entries)
  {
    var e1 := BalanceEntry(CurrentOf(entries) + a, a, t, id, d);
    var mid := entries + [e1];
    ChainedAppend(entries, e1);
    var e2 := BalanceEntry(CurrentOf(mid) - a, -a, t, id, d);
    assert Follows(mid, e2);
    ChainedAppend(mid, e2);
    assert mid + [e2] == entries + [e1] + [e2];
  }
}
