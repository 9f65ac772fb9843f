/**
 * What both stores keep about a balance change: whose balance, by how much, why and on
 * whose command. A balance is read from a table that may lack the user, who then has 0.
 */
module Ledger {
  type UserId = int

  datatype Entry = Entry(userId: UserId, amount: int, reason: string, authorId: UserId)

  /** A table lookup with the default the code uses for a missing user. */
  function BalanceIn(balances: map<UserId, int>, u: UserId): int {
    if u in balances then balances[u] else 0
  }

  /** The sum of the amounts of `u`'s entries. */
  function Total(history: seq<Entry>, u: UserId): int
    decreases |history|
  {
    if history == [] then 0
    else
      var last := history[|history| - 1];
      Total(history[..|history| - 1], u) + (if last.userId == u then last.amount else 0)
  }

  /** Appending one entry changes the total of its user only, and by its amount. */
  lemma TotalAppend(history: seq<Entry>, e: Entry, u: UserId)
    ensures Total(history + [e], u) == Total(history, u) + (if e.userId == u then e.amount else 0)
  {
    assert (history + [e])[..|history|] == history;
  }

  /** A user no entry mentions has total 0. */
  lemma {:induction false} TotalOfUntouched(history: seq<Entry>, u: UserId)
    requires forall i :: 0 <= i < |history| ==> history[i].userId != u
    ensures Total(history, u) == 0
    decreases |history|
  {
    if history != [] {
      TotalOfUntouched(history[..|history| - 1], u);
    }
  }

  /** Every balance is the total of the entries recorded for its user. */
  ghost predicate BalancesAreTotals(balances: map<UserId, int>, history: seq<Entry>) {
    forall u :: BalanceIn(balances, u) == Total(history, u)
  }

  /** Adding `amount` to one balance and recording it keeps balances equal to totals. */
  lemma CreditKeepsTotals(balances: map<UserId, int>, history: seq<Entry>, e: Entry)
    requires BalancesAreTotals(balances, history)
    ensures BalancesAreTotals(balances[e.userId := BalanceIn(balances, e.userId) + e.amount], history + [e])
  {
    forall u ensures BalanceIn(balances[e.userId := BalanceIn(balances, e.userId) + e.amount], u) == Total(history + [e], u) {
      TotalAppend(history, e, u);
    }
  }

  function Min(a: int, b: int): int {
    if a <= b then a else b
  }

  /**
   * The last `n` elements, or all of them when there are fewer. For `n >= 1` this is Python's
   * `xs[-n:]`; for `n == 0` it is empty, whereas `xs[-0:]` would be the whole list.
   */
  function Recent<T>(xs: seq<T>, n: nat): (r: seq<T>)
    ensures |r| == Min(n, |xs|)
    ensures r == xs[|xs| - |r|..]
  {
    if |xs| <= n then xs else xs[|xs| - n..]
  }

  function Reverse<T>(xs: seq<T>): (r: seq<T>)
    ensures |r| == |xs|
    ensures forall k :: 0 <= k < |xs| ==> r[k] == xs[|xs| - 1 - k]
    decreases |xs|
  {
    if xs == [] then [] else [xs[|xs| - 1]] + Reverse(xs[..|xs| - 1])
  }
}
