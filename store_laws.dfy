/**
 * Laws of the store's table operations: what each writer does to the key flag and the
 * balances, which writes repeat harmlessly, and which roles `get_all_roles` lists.
 */
module StoreLaws {
  import opened Wrappers
  import opened Text
  import opened Ledger
  import opened Store

  /** After `grant_key` exactly the granted user and the users who had a key have one. */
  lemma GrantKeyFlags(users: map<UserId, UserRow>, u: UserId, v: UserId)
    ensures HasKeyIn(KeyGranted(users, u), v) <==> v == u || HasKeyIn(users, v)
  {
    if v != u && v in users {
      assert KeyGranted(users, u)[v] == users[v];
    }
  }

  /** After `revoke_key` exactly the users other than the revoked one who had a key have one. */
  lemma RevokeKeyFlags(users: map<UserId, UserRow>, u: UserId, v: UserId)
    ensures HasKeyIn(KeyRevoked(users, u), v) <==> v != u && HasKeyIn(users, v)
  {
    if v != u && v in users {
      assert KeyRevoked(users, u)[v] == users[v];
    }
  }

  /** A balance change leaves every key flag as it was. */
  lemma CreditKeepsFlags(users: map<UserId, UserRow>, u: UserId, amount: int, v: UserId)
    ensures HasKeyIn(Credited(users, u, amount), v) <==> HasKeyIn(users, v)
  {
    if v != u && v in users {
      assert Credited(users, u, amount)[v] == users[v];
    }
  }

  /** Granting a key twice is granting it once. */
  lemma GrantKeyIdempotent(users: map<UserId, UserRow>, u: UserId)
    ensures KeyGranted(KeyGranted(users, u), u) == KeyGranted(users, u)
  {
    var once := KeyGranted(users, u);
    assert once[u].balance == BalanceOf(users, u);
  }

  /** Revoking a key twice is revoking it once, and revoking from a user with no row changes nothing. */
  lemma RevokeKeyIdempotent(users: map<UserId, UserRow>, u: UserId)
    ensures KeyRevoked(KeyRevoked(users, u), u) == KeyRevoked(users, u)
    ensures u !in users ==> KeyRevoked(users, u) == users
  {
  }

  /** Setting the same role twice is setting it once. */
  lemma SetRoleIdempotent(roles: map<UserId, RoleRow>, u: UserId, role: string, description: string)
    ensures RoleSet(RoleSet(roles, u, role, description), u, role, description) == RoleSet(roles, u, role, description)
  {
  }

  /**
   * A change by `amount` followed by one by `-amount` restores every balance and key flag;
   * the only trace left is a row of balance 0 for a user who had none.
   */
  lemma CreditUndone(users: map<UserId, UserRow>, u: UserId, amount: int, v: UserId)
    ensures var back := Credited(Credited(users, u, amount), u, -amount);
      && BalanceOf(back, v) == BalanceOf(users, v)
      && (HasKeyIn(back, v) <==> HasKeyIn(users, v))
      && back.Keys == users.Keys + {u}
  {
    var once := Credited(users, u, amount);
    CreditKeepsFlags(users, u, amount, v);
    CreditKeepsFlags(once, u, -amount, v);
    if v != u && v in users {
      assert once[v] == users[v];
    }
  }

  /** A role row is listed exactly when its role is present and is not made of spaces only. */
  lemma ListedIff(row: RoleRow)
    ensures Listed(row) <==> row.role.Some? && !All(row.role.value, IsBlank)
  {
    if row.role.Some? {
      TrimEmptyIff(row.role.value, IsBlank);
    }
  }

  /** After `set_role` the user is listed exactly when the new role is not made of spaces only. */
  lemma SetRoleListed(roles: map<UserId, RoleRow>, u: UserId, role: string, description: string)
    ensures Listed(RoleSet(roles, u, role, description)[u]) <==> !All(role, IsBlank)
  {
    ListedIff(RoleSet(roles, u, role, description)[u]);
  }

  /** SQL's `TRIM` removes spaces only, so a role of a tab is still listed ... */
  lemma TabRoleListed(description: Option<string>)
    ensures Listed(RoleRow(Some("\t"), description))
  {
    ListedIff(RoleRow(Some("\t"), description));
    assert !IsBlank("\t"[0]);
  }

  /** ... while an empty role, or one of spaces, is not. */
  lemma SpaceRoleNotListed(spaces: nat, description: Option<string>)
    ensures !Listed(RoleRow(Some(seq(spaces, _ => ' ')), description))
  {
    ListedIff(RoleRow(Some(seq(spaces, _ => ' ')), description));
  }
}
