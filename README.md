# The Archivist: ledger, command dispatcher and store

The Archivist is a Telegram bot for a chat club whose members hold a balance of "noirs".
This project models its two logical cores and proves properties about them:

- **The in-memory ledger and the chat-command dispatcher** (`commands.py`). The code has
  two pieces of module state: a `users` map from user id to balance and an append-only
  `history` list. `change_balance` is the only operation that writes to them.
  - `handle_message` lower-cases and strips a message, then routes it:
    - a `вручить ` prefix goes to the grant handler, an `отнять ` prefix to the revoke handler;
    - the exact words `карман`, `прошлое` and `роли` are a balance query, a history query and a roles query;
    - anything else is ignored.
  - The grant and revoke handlers take their target from the replied-to message when there
    is one, and otherwise from an `@username` and a member lookup.
  - The handlers parse the amount with start-anchored regular expressions.
  - They refuse a malformed text before checking the amount, and an amount of zero before
    looking anything up.
- **The SQLite store** (`db.py`). Its `users`, `roles` and `history` tables are maps and a
  sequence held in a `Database` class. Writers are methods; readers are functions:
  - `change_balance` updates or inserts the user's row and appends a history row;
  - `set_role` and `grant_key` are upserts, and `revoke_key` is an update;
  - `get_last_history` returns the newest rows first, up to a limit;
  - `get_top_users` returns the positive balances, highest first, up to a limit;
  - `get_all_roles` returns the non-blank roles.

The modules:

- `Wrappers` declares `Option`.
- `Text` holds the character classes, lower-casing, stripping and digit strings.
- `Pattern` models `re.match` on the handlers' patterns. These patterns are made of literals
  and one-or-more runs of a class. A greedy scan is proved to find a match exactly when a
  backtracking matcher would. A match is unchanged by appended text that cannot continue its
  final run, and lower-casing the text changes only what a case-insensitive match captures.
- `Ledger` defines history entries and per-user totals.
- `Commands` holds the pure `Interpret`, which decides which single request a message is,
  and the class `MemoryStore`, which carries requests out.
- `CommandLaws` and `HandlerLaws` hold what the two handlers do with concrete and arbitrary texts.
- `CaseLaws` holds what the case and the surrounding form of a message change about its request.
- `Store` and `StoreLaws` model `db.py`.

Where the two differ, the model follows the code rather than the design its authors
describe elsewhere:

- a revoke has no lower bound, so a balance may go negative;
- no command checks who sent it;
- there is no transfer, wager, purge or role image.

## Model

| member | source | states |
|---|---|---|
| Commands.Normalize | commands.py:25 | `text.lower().strip()`; its laws are CaseLaws.NormalizeIdempotent, CaseLaws.NormalizeLower and HandlerLaws.SurroundingSpaceKeepsTexts |
| Commands.Classify | commands.py:28-40 | each route is taken exactly when its condition holds: the prefix `вручить ` (grant), the prefix `отнять ` (revoke), and the exact words `карман`, `прошлое`, `роли` |
| Commands.ParseAmountCommand | commands.py:46-113 | an accepted amount is positive; with a reply the target is the replied-to author and "not found" is impossible; without one the target is a directory answer, and "not found" means the directory knows no such name |
| Commands.Interpret | commands.py:21-40 | a message is ignored exactly when the bot sent it or its normalised text matches no route; grants and revokes come only from their routes and carry positive amounts; a reply targets its author, otherwise the target is a looked-up member; each query comes exactly from its word |
| Commands.ByReply | commands.py:48 | the pattern `word\s+(\d+)` (also at commands.py:85); GroupsOfPatterns, PatternsSeparated and CommandLaws.ReplyFormMatches state what it captures and matches |
| Commands.ByUsername | commands.py:64 | the pattern `word\s+@(\w+)\s+(\d+)` (also at commands.py:100); GroupsOfPatterns, PatternsSeparated and CommandLaws.NameFormMatches state what it captures and matches |
| Commands.PatternsSeparated | commands.py:48-65 | in both handler patterns no run's class can start the atom after it, with or without case folding |
| Commands.GroupsOfPatterns | commands.py:53-69 | the reply pattern captures one digit run; the username pattern captures a word run and then a digit run |
| Commands.HistoryReply | commands.py:119-130 | the reply is the empty-history reply exactly when the history is empty; otherwise it has min(5, length) lines, the k-th being the rendering of the corresponding entry among the last ones, oldest first |
| Commands.AmountText | commands.py:129 | the amount of a history line is non-empty; it starts with `+` exactly when the amount is positive, with `-` exactly when it is negative, is `0` exactly when it is zero, and otherwise the digits after the sign read back as the amount's magnitude |
| Commands.RenderEntry | commands.py:125-129 | one history line: user id, AmountText of the amount, reason and author, in the source's order |
| Commands.Outcome | commands.py:28-38 | what carrying out a request means: a grant or revoke changes exactly its target's balance by its amount and appends one entry; every other request leaves both collections as they were; each request gets its kind of reply |
| Commands.MemoryStore.constructor | commands.py:4-6 | both collections start empty and the totals invariant holds |
| Commands.MemoryStore.GetUserBalance | commands.py:8-9 | a user with no entry in `users` has 0; under the invariant a balance is the sum of the user's history amounts |
| Commands.MemoryStore.ChangeBalance | commands.py:11-19 | the target's balance (default 0) grows by `amount`, no other balance changes; exactly one entry with user, amount, reason and author is appended; the totals invariant is preserved |
| Commands.MemoryStore.ShowHistory | commands.py:119-130 | the loop over the last five entries builds exactly `HistoryReply(history)`, and no state changes |
| Commands.MemoryStore.HandleMessage | commands.py:21-40 | the message's request is carried out: a grant adds and a revoke subtracts exactly its amount from its target, with no lower bound, and each appends one entry; every other request changes nothing and gets its kind of reply; the invariant is preserved |
| Commands.MemoryStore.Perform | commands.py:28-38 | the same outcome, for a request already decided |
| Pattern.MatchStart | commands.py:49 | `re.match` as a greedy, start-anchored scan (also at commands.py:65, 86, 101); a match never ends past the text; MatchStartIsRegexMatch relates it to a backtracking match |
| Pattern.MatchStartIsRegexMatch | commands.py:48-49 | on a pattern whose runs are separated, the greedy scan finds a match exactly when a backtracking regular-expression match exists |
| Pattern.MatchStartIgnoresTail | commands.py:64-65 | a match stays the same match, with the same captures, when text is appended that cannot continue the final run |
| Pattern.MatchStartLower | commands.py:49 | under `re.IGNORECASE`, lower-casing the text gives the same match with every group lower-cased |
| Text.LowerAllIdempotent | commands.py:25 | lower-casing a lower-cased text changes nothing |
| Text.StripLower | commands.py:25 | stripping and lower-casing commute, so `text.lower().strip()` is also `text.strip().lower()` |
| Text.DigitsValue | commands.py:54 | `int()` on a run of decimal digits; Text.NatToString, Text.LeadingZeroIgnored and Text.DigitsZeroIff state its laws |
| Text.NatToString | commands.py:60 | the decimal rendering of a natural number is a non-empty digit run that reads back as the number, and starts with `0` only for 0 |
| Text.LeadingZeroIgnored | commands.py:54 | a leading `0` does not change what `int()` reads |
| Text.DigitsZeroIff | commands.py:55 | a digit run reads as 0 exactly when every digit is `0`, so `вручить 00` is refused as not positive |
| Ledger.CreditKeepsTotals | commands.py:11-19 | adding an amount to one balance and recording its entry keeps every balance equal to its user's history total |
| Ledger.TotalOfUntouched | commands.py:8-9 | a user that no entry mentions has a total of 0 |
| Ledger.Recent | commands.py:124 | the last min(n, length) elements, which is `xs[-n:]` for n ≥ 1; for n = 0 it is empty (as `LIMIT 0` at db.py:107 requires, while `xs[-0:]` is the whole list), and the history reply only uses n = 5 |
| Ledger.Reverse | db.py:107 | the same elements in the opposite order |
| CommandLaws.ReplyFormMatches | commands.py:48-49 | `word N` matches `word\s+(\d+)` and captures exactly the digits |
| CommandLaws.NameFormMatches | commands.py:64-65 | `word @name N` matches `word\s+@(\w+)\s+(\d+)` and captures exactly the name and the digits |
| CommandLaws.GrantByReplyText | commands.py:47-61 | `вручить N` sent in reply is a grant of N to the replied-to author, or is refused as not positive when N is 0 |
| CommandLaws.RevokeByReplyText | commands.py:84-97 | `отнять N` sent in reply is a revoke of N from the replied-to author, or is refused as not positive when N is 0 |
| CommandLaws.GrantRoundTrip | commands.py:48-59 | granting the decimal rendering of any positive n in reply grants exactly n |
| CommandLaws.RevokeRoundTrip | commands.py:85-95 | revoking the decimal rendering of any positive n in reply revokes exactly n |
| HandlerLaws.LastRunIsDigits | commands.py:48-65 | only a digit can continue either handler pattern's final run |
| HandlerLaws.ParseIgnoresTail | commands.py:47-69 | appending text that does not start with a digit to a matching text does not change the parse, because neither pattern is anchored at the end |
| HandlerLaws.UnmatchedGrantIsBadFormat | commands.py:47-68 | a routed grant whose stripped text does not match the pattern for its case is refused as a format error |
| HandlerLaws.UnmatchedRevokeIsBadFormat | commands.py:84-104 | a routed revoke whose normalised text does not match the pattern for its case is refused as a format error |
| HandlerLaws.MinusIsNoAmount | commands.py:48 | `\s+(\d+)` never matches a space followed by a minus sign |
| HandlerLaws.MinusSignIsBadFormat | commands.py:48-52 | `вручить -N` in reply is a format error, not a "must be positive" refusal |
| HandlerLaws.ReplyIgnoresDirectory | commands.py:47-61 | with a reply, the member directory is never consulted: any two directories give the same request |
| HandlerLaws.SurroundingSpaceKeepsTexts | commands.py:25 | whitespace around a text changes neither its normalised form nor its stripped form |
| HandlerLaws.SurroundingSpaceIgnored | commands.py:25 | whitespace around a message's text does not change the request |
| HandlerLaws.GrantByNameText | commands.py:63-79 | `вручить @name N` with no reply looks `name` up as written; the result is refused as not positive, refused as not found, or a grant of N to the member |
| HandlerLaws.RevokeByNameText | commands.py:99-115 | `отнять @name N` with no reply looks up the lower-cased name, because the revoke handler sees lower-cased text; the result is refused as not positive, refused as not found, or a revoke of N from the member |
| HandlerLaws.UnknownNameIsNotFound | commands.py:74-77 | a positive `@username` grant that names a user the directory does not know is refused, and the refusal names that user |
| CaseLaws.NormalizeIdempotent | commands.py:25 | normalising a normalised text changes nothing |
| CaseLaws.NormalizeLower | commands.py:25 | lower-casing a text before normalising it changes nothing |
| CaseLaws.RequestSeesNormalForm | commands.py:25-40 | two messages that are not grants and have the same normalised text are the same request: the router and the revoke handler see only the normalised text |
| CaseLaws.NormalFormIsSameRequest | commands.py:25-31 | a message that is not a grant is the same request when it is sent already normalised |
| CaseLaws.ReplyParseIgnoresCase | commands.py:47-54 | with a reply, lower-casing the text does not change the parse: the pattern matches case-insensitively and captures only digits |
| CaseLaws.CaseIgnoredUnlessNamed | commands.py:25-65 | lower-casing a message's text does not change its request when it is a reply or not a grant; HandlerLaws.GrantByNameText shows that a grant by `@username` passes the name on as written |
| Store.Credited | db.py:47-55 | the `users` table after `change_balance`: the user's row exists, its balance is the old one (0 without a row) plus the amount, its key flag is kept (false for a new row), and every other row is unchanged |
| Store.KeyGranted | db.py:85-88 | the `users` table after `grant_key`: the user's row exists with its balance kept (0 for a new row) and the flag set; every other row is unchanged |
| Store.KeyRevoked | db.py:93 | the `users` table after `revoke_key`: no row is created; an existing row keeps its balance and has the flag cleared; every other row is unchanged |
| Store.RoleSet | db.py:66-69 | the `roles` table after `set_role`: the user's row holds exactly the given role and description; every other row is unchanged |
| Store.CreditedKeepsTotals | db.py:45-60 | a balance update together with its history row keeps every balance equal to the user's history total |
| Store.HasKeyIn | db.py:96-100 | a user has a key exactly when its row exists and has the flag set; StoreLaws.GrantKeyFlags, StoreLaws.RevokeKeyFlags and StoreLaws.CreditKeepsFlags state how writers change it |
| Store.Listed | db.py:126 | `role IS NOT NULL AND TRIM(role) != ''`; StoreLaws.ListedIff states it in terms of spaces |
| Store.Positive | db.py:116 | exactly the users whose row has a positive balance |
| Store.Ranked | db.py:117 | the given users listed once each, in non-increasing balance order |
| Store.Limited | db.py:118 | the number of rows `LIMIT` lets through: all of them for a negative limit, otherwise min(limit, count) |
| Store.Database.constructor | db.py:6-35 | the tables start empty, and both invariants hold |
| Store.Database.GetBalance | db.py:39-43 | 0 for a user with no row; under the invariant, the sum of the user's history amounts |
| Store.Database.ChangeBalance | db.py:45-60 | `users` becomes `Credited` of the old table; exactly one history row with the next id and the given user, amount, reason and author is appended; roles are untouched; both invariants are preserved |
| Store.Database.SetRole | db.py:63-70 | `roles` becomes `RoleSet` of the old table; balances and history are untouched |
| Store.Database.GrantKey | db.py:82-89 | `users` becomes `KeyGranted` of the old table; nothing else changes and the invariants are preserved |
| Store.Database.RevokeKey | db.py:91-94 | `users` becomes `KeyRevoked` of the old table; nothing else changes and the invariants are preserved |
| Store.Database.HasKey | db.py:96-100 | `has_key` on the current `users` table: HasKeyIn of it |
| Store.Database.GetLastHistory | db.py:103-110 | min(limit, count) rows, all rows for a negative limit; row k is the k-th newest; under the invariant the ids strictly decrease |
| Store.Database.GetTopUsers | db.py:112-120 | Limited(limit, number of positive balances) rows; each row is a user with a positive balance, shown correctly; no user appears twice; balances never increase down the list; a positive user left out has a balance no higher than any listed one |
| Store.Database.GetAllRoles | db.py:122-128 | a user is listed exactly when it has a role row whose role is present and not blank after trimming spaces, and is listed with that role |
| StoreLaws.GrantKeyFlags | db.py:82-100 | after `grant_key(u)`, a user has a key exactly when it is u or already had one |
| StoreLaws.RevokeKeyFlags | db.py:91-100 | after `revoke_key(u)`, a user has a key exactly when it is not u and already had one |
| StoreLaws.CreditKeepsFlags | db.py:50-55 | a balance change leaves every key flag as it was |
| StoreLaws.GrantKeyIdempotent | db.py:85-88 | granting a key twice is the same as granting it once |
| StoreLaws.RevokeKeyIdempotent | db.py:93 | revoking a key twice is the same as revoking it once; revoking for a user with no row changes nothing |
| StoreLaws.SetRoleIdempotent | db.py:66-69 | setting the same role twice is the same as setting it once |
| StoreLaws.CreditUndone | db.py:45-60 | a change by `a` followed by one by `-a` restores every balance and key flag; in `users` the only trace is the user's row, while `history` keeps both rows |
| StoreLaws.ListedIff | db.py:126 | a role row is listed exactly when its role is present and is not made of spaces only |
| StoreLaws.SetRoleListed | db.py:63-70 | after `set_role`, the user is listed exactly when the new role is not made of spaces only |
| StoreLaws.TabRoleListed | db.py:126 | SQL's `TRIM` removes only spaces, so a role made of a tab is still listed |
| StoreLaws.SpaceRoleNotListed | db.py:126 | a role that is empty or made of spaces is not listed |

## Left out

- `bot.py`: loading the token, setting up the dispatcher and polling are process start-up. It also calls `handle_message` with two arguments against a one-parameter definition.
- The async plumbing (aiogram, aiosqlite), opening connections and `commit`: each operation is modelled as one atomic step.
- Concurrency: the source does not make `change_balance` atomic. It reads the balance (db.py:48-49) and then writes it (db.py:52, db.py:55), so two overlapping calls for one user can lose an update, after which a balance no longer equals its history total. Store.CreditedKeepsTotals and the invariant hold only for calls that do not overlap.
- Store.Credited: uses unbounded integers. SQLite stores a 64-bit INTEGER, and binding a balance outside that range at db.py:52 or db.py:55 raises `OverflowError` with nothing written; the model has no such failure.
- `init_db`'s `CREATE TABLE IF NOT EXISTS` statements: the tables start empty, as the constructor states.
- `get_role` (db.py:72-79): it reads the columns `role` and `role_description` of `users`, which the schema never creates.
- The `keys` table: no operation reads or writes it.
- The schema lacks two columns the code uses: `history.author_id` (db.py:27-33 against db.py:57) and `users.has_key` (db.py:86, db.py:98). The model gives history rows an author and users a key flag, as the code intends; it does not model the SQL errors those statements would raise against the schema as written.
- The `timestamp` column and `CURRENT_TIMESTAMP`: there is no clock.
- Store.Database.GetLastHistory: returns each row's id, and the timestamp is left out. The query selects the user, amount, reason, author and timestamp, not the id.
- Store.Database.GetTopUsers: fixes no order among equal balances, because SQL leaves that order unspecified. `Ranked` picks one order, but the contract does not promise it.
- The default arguments (`limit=5`, `limit=10`) are the caller's choice: both queries take the limit as a parameter.
- Reply wording and name rendering: replies are modelled by kind (`Reply`, `Failure`), and a history line by its fields.
- Lines are not joined with `"\n"`: the history reply keeps its lines as a sequence.
- `find_member_by_username` (commands.py:132-154) asks Telegram for the chat's administrators. It is a parameter, `lookup`: any function from names to optional user ids. The call to `get_chat_administrators` (commands.py:145) can raise, and the handler then ends with no reply and no change; `lookup` always answers.
- Unicode details: `str.lower()`, `str.strip()`, `\s`, `\w` and `\d` are modelled by concrete character predicates.
  - Whitespace is the ASCII whitespace Python recognises, U+001C..U+001F included. Non-ASCII whitespace such as U+0085, U+00A0 and U+2000..U+200A is not whitespace in the model.
  - `\w` covers ASCII and Cyrillic letters, digits and `_`; `\d` covers the ASCII digits only.
  - `Lower` lowers only A..Z, А..Я and Ѐ..Џ. Other capitals the model counts as letters, such as Ѣ (U+0462), stay unchanged, although Python lowers them.
  - The proofs use that the classes are disjoint, that lowering keeps each class and is idempotent, and that it fixes the command words, `@`, spaces and digits.
- `message.text` being `None` (a photo, a sticker): the model's messages always carry text.
- The aiogram bot identity: a message carries a flag for whether the bot itself sent it.
