/**
 * The logical content of the SQLite store: the `users`, `roles` and `history` tables as a
 * map, a map and a sequence, and each query of the store as an operation on them.
 *
 * The writers are methods of `Database` whose new tables are given by the pure table
 * functions below (`Credited`, `KeyGranted`, `KeyRevoked`, `RoleSet`); the readers are
 * functions. `history` rows are only ever appended, so the `AUTOINCREMENT` id of a row is
 * its position plus one.
 */
module Store {
  import opened Wrappers
  import opened Text
  import opened Ledger

  /** A `users` row: the balance, and the key flag that `grant_key` and `has_key` use. */
  datatype UserRow = UserRow(balance: int, hasKey: bool)

  /** A `roles` row; both columns may be `NULL`. */
  datatype RoleRow = RoleRow(role: Option<string>, description: Option<string>)

  /** A `history` row with its id. */
  datatype HistoryRow = HistoryRow(id: nat, entry: Entry)

  /** A row of the leaderboard query. */
  datatype TopRow = TopRow(userId: UserId, balance: int)

  /** `SELECT balance FROM users WHERE user_id = ?`, 0 without a row. */
  function BalanceOf(users: map<UserId, UserRow>, u: UserId): int {
    if u in users then users[u].balance else 0
  }

  /** The `users` table after `change_balance`: an update of an existing row or the insert of a new one. */
  function Credited(users: map<UserId, UserRow>, u: UserId, amount: int): (r: map<UserId, UserRow>)
    ensures r.Keys == users.Keys + {u}
    ensures r[u].balance == BalanceOf(users, u) + amount
    ensures r[u].hasKey == (u in users && users[u].hasKey)
    ensures forall v :: v in users && v != u ==> r[v] == users[v]
  {
    if u in users then users[u := users[u].(balance := users[u].balance + amount)]
    else users[u := UserRow(amount, false)]
  }

  /** The `users` table after `grant_key`: an upsert setting the flag, a new row having balance 0. */
  function KeyGranted(users: map<UserId, UserRow>, u: UserId): (r: map<UserId, UserRow>)
    ensures r.Keys == users.Keys + {u}
    ensures r[u] == UserRow(BalanceOf(users, u), true)
    ensures forall v :: v in users && v != u ==> r[v] == users[v]
  {
    if u in users then users[u := users[u].(hasKey := true)] else users[u := UserRow(0, true)]
  }

  /** The `users` table after `revoke_key`: an `UPDATE`, which touches no row when there is none. */
  function KeyRevoked(users: map<UserId, UserRow>, u: UserId): (r: map<UserId, UserRow>)
    ensures r.Keys == users.Keys
    ensures u in users ==> r[u] == UserRow(users[u].balance, false)
    ensures forall v :: v in users && v != u ==> r[v] == users[v]
  {
    if u in users then users[u := users[u].(hasKey := false)] else users
  }

  /** `has_key`: a row whose flag is set. */
  predicate HasKeyIn(users: map<UserId, UserRow>, u: UserId) {
    u in users && users[u].hasKey
  }

  /** The `roles` table after `set_role`: an upsert replacing both columns. */
  function RoleSet(roles: map<UserId, RoleRow>, u: UserId, role: string, description: string): (r: map<UserId, RoleRow>)
    ensures r.Keys == roles.Keys + {u}
    ensures r[u] == RoleRow(Some(role), Some(description))
    ensures forall v :: v in roles && v != u ==> r[v] == roles[v]
  {
    roles[u := RoleRow(Some(role), Some(description))]
  }

  /** `role IS NOT NULL AND TRIM(role) != ''`. */
  predicate Listed(row: RoleRow) {
    row.role.Some? && SqlTrim(row.role.value) != []
  }

  /** The `history` entries without their ids. */
  function Entries(history: seq<HistoryRow>): (es: seq<Entry>)
    ensures |es| == |history|
    ensures forall i :: 0 <= i < |history| ==> es[i] == history[i].entry
  {
    seq(|history|, i requires 0 <= i < |history| => history[i].entry)
  }

  lemma EntriesAppend(history: seq<HistoryRow>, row: HistoryRow)
    ensures Entries(history + [row]) == Entries(history) + [row.entry]
  {
    assert forall i :: 0 <= i < |history| ==> (history + [row])[i] == history[i];
  }

  /** Nothing is ever deleted from `history`, so each id is the row's position plus one. */
  predicate IdsAreRowNumbers(history: seq<HistoryRow>) {
    forall i :: 0 <= i < |history| ==> history[i].id == i + 1
  }

  /** Each balance is the sum of its user's history amounts. */
  ghost predicate TotalsHold(users: map<UserId, UserRow>, history: seq<HistoryRow>) {
    forall u :: BalanceOf(users, u) == Total(Entries(history), u)
  }

  lemma CreditedKeepsTotals(users: map<UserId, UserRow>, history: seq<HistoryRow>, row: HistoryRow)
    requires TotalsHold(users, history)
    ensures TotalsHold(Credited(users, row.entry.userId, row.entry.amount), history + [row])
  {
    EntriesAppend(history, row);
    var r := Credited(users, row.entry.userId, row.entry.amount);
    forall u ensures BalanceOf(r, u) == Total(Entries(history + [row]), u) {
      TotalAppend(Entries(history), row.entry, u);
    }
  }

  /** A key flag change leaves every balance as it was. */
  lemma KeysKeepBalances(users: map<UserId, UserRow>, u: UserId, v: UserId)
    ensures BalanceOf(KeyGranted(users, u), v) == BalanceOf(users, v)
    ensures BalanceOf(KeyRevoked(users, u), v) == BalanceOf(users, v)
  {
  }

  /** Listing a user before another: a higher balance first; equal balances by id. */
  predicate Ahead(users: map<UserId, UserRow>, u: UserId, v: UserId)
    requires u in users && v in users
  {
    users[u].balance > users[v].balance || (users[u].balance == users[v].balance && u <= v)
  }

  /** `Ahead` orders any two users one way or the other, and passes along a chain. */
  lemma AheadTotal(users: map<UserId, UserRow>, u: UserId, v: UserId, w: UserId)
    requires u in users && v in users && w in users
    ensures Ahead(users, u, v) || Ahead(users, v, u)
    ensures Ahead(users, u, v) && Ahead(users, v, w) ==> Ahead(users, u, w)
  {
  }

  /** Some member of a non-empty set. */
  lemma Pick(s: set<UserId>) returns (x: UserId)
    requires s != {}
    ensures x in s
  {
    if forall y :: y !in s {
      assert false;
    }
    x :| x in s;
  }

  /** Every non-empty set of users has one that is ahead of all the others. */
  lemma {:induction false} HighestExists(users: map<UserId, UserRow>, s: set<UserId>)
    requires s != {} && s <= users.Keys
    ensures exists u :: u in s && forall v :: v in s ==> Ahead(users, u, v)
    decreases |s|
  {
    var x := Pick(s);
    var rest := s - {x};
    if rest == {} {
      forall v | v in s ensures Ahead(users, x, v) {
        assert v !in rest;
      }
    } else {
      HighestExists(users, rest);
      var m :| m in rest && forall v :: v in rest ==> Ahead(users, m, v);
      if Ahead(users, m, x) {
        assert forall v :: v in s ==> Ahead(users, m, v);
      } else {
        forall v | v in s ensures Ahead(users, x, v) {
          if v != x {
            AheadTotal(users, x, m, v);
          }
        }
      }
    }
  }

  /**
   * `r` lists each user of `s` exactly once, from the highest balance down; the order
   * among equal balances is left open.
   */
  predicate Ranking(users: map<UserId, UserRow>, s: set<UserId>, r: seq<UserId>)
    requires s <= users.Keys
  {
    && |r| == |s|
    && (forall i :: 0 <= i < |r| ==> r[i] in s)
    && (forall v :: v in s ==> v in r)
    && (forall i, j :: 0 <= i < j < |r| ==> r[i] != r[j])
    && (forall i, j :: 0 <= i < j < |r| ==> users[r[i]].balance >= users[r[j]].balance)
  }

  /** A user ahead of all of `s`, followed by a ranking of the rest, ranks `s`. */
  lemma RankingCons(users: map<UserId, UserRow>, s: set<UserId>, u: UserId, rest: seq<UserId>)
    requires s <= users.Keys && u in s && forall v :: v in s ==> Ahead(users, u, v)
    requires Ranking(users, s - {u}, rest)
    ensures Ranking(users, s, [u] + rest)
  {
    var r := [u] + rest;
    assert |s - {u}| == |s| - 1;
    forall i | 0 <= i < |r| ensures r[i] in s {
      if i > 0 { assert r[i] == rest[i - 1]; }
    }
    forall v | v in s ensures v in r {
      if v != u { assert v in s - {u}; }
    }
    forall i, j | 0 <= i < j < |r| ensures r[i] != r[j] && users[r[i]].balance >= users[r[j]].balance {
      assert r[j] == rest[j - 1] && rest[j - 1] in s - {u};
      if i > 0 { assert r[i] == rest[i - 1]; }
    }
  }

  /** The users of `s` from the highest balance down, equal balances by id. */
  function Ranked(users: map<UserId, UserRow>, s: set<UserId>): (r: seq<UserId>)
    requires s <= users.Keys
    ensures Ranking(users, s, r)
    decreases |s|
  {
    if s == {} then []
    else
      HighestExists(users, s);
      var u :| u in s && forall v :: v in s ==> Ahead(users, u, v);
      var rest := Ranked(users, s - {u});
      RankingCons(users, s, u, rest);
      [u] + rest
  }

  /** The users with a positive balance. */
  function Positive(users: map<UserId, UserRow>): (s: set<UserId>)
    ensures s <= users.Keys
    ensures forall u :: u in s <==> u in users && users[u].balance > 0
  {
    set u | u in users && users[u].balance > 0
  }

  /** SQL's `LIMIT n` on `count` rows: a negative limit is no limit. */
  function Limited(limit: int, count: nat): (n: nat)
    ensures n <= count
    ensures limit >= 0 ==> n == Min(limit, count)
    ensures limit < 0 ==> n == count
  {
    if limit < 0 || limit > count then count else limit
  }

  /** The first `n` users of `ranked` with their balances. */
  function TopRows(users: map<UserId, UserRow>, ranked: seq<UserId>, n: nat): (top: seq<TopRow>)
    requires n <= |ranked| && forall i :: 0 <= i < |ranked| ==> ranked[i] in users
    ensures |top| == n
    ensures forall i :: 0 <= i < n ==> top[i] == TopRow(ranked[i], users[ranked[i]].balance)
  {
    seq(n, i requires 0 <= i < n => TopRow(ranked[i], users[ranked[i]].balance))
  }

  /** A prefix of a ranking lists distinct users of `s`, from the highest balance down. */
  lemma TopRowsOrdered(users: map<UserId, UserRow>, s: set<UserId>, ranked: seq<UserId>, n: nat)
    requires s <= users.Keys && Ranking(users, s, ranked) && n <= |ranked|
    ensures var top := TopRows(users, ranked, n);
      && (forall i :: 0 <= i < n ==> top[i].userId in s && top[i].balance == users[top[i].userId].balance)
      && (forall i, j :: 0 <= i < j < n ==> top[i].userId != top[j].userId)
      && (forall i, j :: 0 <= i < j < n ==> top[i].balance >= top[j].balance)
  {
  }

  /** A user of `s` left out of a prefix of a ranking has no higher balance than any user in it. */
  lemma TopRowsLeaveOutLower(users: map<UserId, UserRow>, s: set<UserId>, ranked: seq<UserId>, n: nat)
    requires s <= users.Keys && Ranking(users, s, ranked) && n <= |ranked|
    ensures var top := TopRows(users, ranked, n);
      forall u :: u in s && (forall i :: 0 <= i < n ==> top[i].userId != u) ==>
        forall i :: 0 <= i < n ==> top[i].balance >= users[u].balance
  {
    var top := TopRows(users, ranked, n);
    forall u | u in s && (forall i :: 0 <= i < n ==> top[i].userId != u)
      ensures forall i :: 0 <= i < n ==> top[i].balance >= users[u].balance
    {
      var j :| 0 <= j < |ranked| && ranked[j] == u;
      assert j >= n;
    }
  }

  class Database {
    var users: map<UserId, UserRow>
    var roles: map<UserId, RoleRow>
    var history: seq<HistoryRow>

    ghost predicate Valid()
      reads this
    {
      IdsAreRowNumbers(history) && TotalsHold(users, history)
    }

    /** The tables as `init_db` leaves them the first time: empty. */
    constructor ()
      ensures Valid() && users == map[] && roles == map[] && history == []
    {
      users := map[];
      roles := map[];
      history := [];
    }

    /** `get_balance`: 0 for a user with no row; under the invariant, the sum of the user's history. */
    function GetBalance(u: UserId): (b: int)
      reads this
      ensures u !in users ==> b == 0
      ensures Valid() ==> b == Total(Entries(history), u)
    {
      BalanceOf(users, u)
    }

    /** `change_balance`: read the row, then update it or insert one, then append one history row. */
    method ChangeBalance(u: UserId, amount: int, reason: string, authorId: UserId)
      modifies this
      ensures users == Credited(old(users), u, amount)
      ensures history == old(history) + [HistoryRow(|old(history)| + 1, Entry(u, amount, reason, authorId))]
      ensures roles == old(roles)
      ensures old(Valid()) ==> Valid()
    {
      ghost var valid := Valid();
      ghost var before, was := users, history;
      if u in users {
        var newBalance := users[u].balance + amount;
        users := users[u := users[u].(balance := newBalance)];
      } else {
        users := users[u := UserRow(amount, false)];
      }
      var row := HistoryRow(|history| + 1, Entry(u, amount, reason, authorId));
      history := history + [row];
      if valid {
        CreditedKeepsTotals(before, was, row);
      }
    }

    /** `set_role`: an upsert of the user's role row. */
    method SetRole(u: UserId, role: string, description: string)
      modifies this
      ensures roles == RoleSet(old(roles), u, role, description)
      ensures users == old(users) && history == old(history)
    {
      roles := roles[u := RoleRow(Some(role), Some(description))];
    }

    /** `grant_key`: an upsert setting the key flag. */
    method GrantKey(u: UserId)
      modifies this
      ensures users == KeyGranted(old(users), u)
      ensures roles == old(roles) && history == old(history)
      ensures old(Valid()) ==> Valid()
    {
      if u in users {
        users := users[u := users[u].(hasKey := true)];
      } else {
        users := users[u := UserRow(0, true)];
      }
      forall v ensures BalanceOf(users, v) == BalanceOf(old(users), v) {
        KeysKeepBalances(old(users), u, v);
      }
    }

    /** `revoke_key`: an update clearing the key flag of an existing row. */
    method RevokeKey(u: UserId)
      modifies this
      ensures users == KeyRevoked(old(users), u)
      ensures roles == old(roles) && history == old(history)
      ensures old(Valid()) ==> Valid()
    {
      if u in users {
        users := users[u := users[u].(hasKey := false)];
      }
      forall v ensures BalanceOf(users, v) == BalanceOf(old(users), v) {
        KeysKeepBalances(old(users), u, v);
      }
    }

    /** `has_key`. */
    predicate HasKey(u: UserId)
      reads this
    {
      HasKeyIn(users, u)
    }

    /**
     * `get_last_history`: the newest rows first, at most `limit` of them (all of them for a
     * negative limit); under the invariant the ids strictly decrease.
     */
    function GetLastHistory(limit: int): (rows: seq<HistoryRow>)
      reads this
      ensures |rows| == Limited(limit, |history|)
      ensures forall k :: 0 <= k < |rows| ==> rows[k] == history[|history| - 1 - k]
      ensures Valid() ==> forall i, j :: 0 <= i < j < |rows| ==> rows[i].id > rows[j].id
    {
      Reverse(Recent(history, Limited(limit, |history|)))
    }

    /**
     * `get_top_users`: users with a positive balance, highest first, at most `limit` of them
     * (all of them for a negative limit), and no user left out has a higher balance than
     * one listed. The order among equal balances is not part of the contract.
     */
    function GetTopUsers(limit: int): (top: seq<TopRow>)
      reads this
      ensures |top| == Limited(limit, |Positive(users)|)
      ensures forall i :: 0 <= i < |top| ==> top[i].userId in users && top[i].balance == users[top[i].userId].balance
      ensures forall i :: 0 <= i < |top| ==> top[i].balance > 0
      ensures forall i, j :: 0 <= i < j < |top| ==> top[i].userId != top[j].userId
      ensures forall i, j :: 0 <= i < j < |top| ==> top[i].balance >= top[j].balance
      ensures forall u :: u in users && users[u].balance > 0 && (forall i :: 0 <= i < |top| ==> top[i].userId != u) ==>
                forall i :: 0 <= i < |top| ==> top[i].balance >= users[u].balance
    {
      var ranked := Ranked(users, Positive(users));
      var n := Limited(limit, |ranked|);
      TopRowsOrdered(users, Positive(users), ranked, n);
      TopRowsLeaveOutLower(users, Positive(users), ranked, n);
      TopRows(users, ranked, n)
    }

    /** `get_all_roles`: the user and role of every row whose role is not null and not blank. */
    function GetAllRoles(): (listed: map<UserId, string>)
      reads this
      ensures forall u :: u in listed ==> u in roles && Listed(roles[u]) && listed[u] == roles[u].role.value
      ensures forall u :: u in roles && Listed(roles[u]) ==> u in listed
    {
      map u | u in roles && Listed(roles[u]) :: roles[u].role.value
    }
  }
}
