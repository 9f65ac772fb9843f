/**
 * The in-memory ledger and the chat-command dispatcher.
 *
 * `Interpret` is the pure part of `handle_message`: from a message and the chat's member
 * directory it decides which single request the message is. `MemoryStore` holds the two
 * pieces of mutable state, the `users` balances and the append-only `history`, and
 * `HandleMessage` carries the request out on them, `ChangeBalance` being the only writer.
 */
module Commands {
  import opened Wrappers
  import opened Text
  import opened Pattern
  import opened Ledger

  const GrantWord := "вручить"
  const RevokeWord := "отнять"
  const BalanceWord := "карман"
  const HistoryWord := "прошлое"
  const RolesWord := "роли"
  /** The reason every command-initiated change is recorded with. */
  const NoReason := "без причины"
  /** How many entries the history reply shows. */
  const HistoryShown := 5

  /**
   * An incoming chat message: whether the bot itself sent it, its author, its text and,
   * when it answers another message, that message's author.
   */
  datatype Message = Message(fromBot: bool, authorId: UserId, text: string, replyTo: Option<UserId>)

  /** Why a recognised grant or revoke was not carried out. */
  datatype Failure = BadFormat | NotPositive | UserNotFound(username: string)

  datatype Request =
    | Ignored
    | Refused(failure: Failure)
    | Grant(target: UserId, amount: nat)
    | Revoke(target: UserId, amount: nat)
    | BalanceQuery
    | HistoryQuery
    | RolesQuery

  /** The reply the bot sends, by kind; the wording and name rendering are left out. */
  datatype Reply =
    | NoReply
    | Granted(target: UserId, amount: nat)
    | Revoked(target: UserId, amount: nat)
    | Failed(failure: Failure)
    | BalanceIs(balance: int)
    | HistoryEmpty
    | HistoryLines(lines: seq<string>)
    | RolesNotImplemented

  datatype Command = GrantCmd | RevokeCmd | BalanceCmd | HistoryCmd | RolesCmd | Unknown

  /** `text.lower().strip()`. */
  function Normalize(text: string): string {
    Strip(LowerAll(text))
  }

  /** The routing of `handle_message` on normalised text: two prefixes, then three exact phrases. */
  function Classify(t: string): (r: Command)
    ensures r == GrantCmd <==> StartsWith(t, GrantWord + " ")
    ensures r == RevokeCmd <==> StartsWith(t, RevokeWord + " ")
    ensures r == BalanceCmd <==> t == BalanceWord
    ensures r == HistoryCmd <==> t == HistoryWord
    ensures r == RolesCmd <==> t == RolesWord
  {
    assert (GrantWord + " ")[0] == 'в' && (RevokeWord + " ")[0] == 'о';
    assert StartsWith(t, GrantWord + " ") ==> t[0] == 'в' && t != HistoryWord;
    assert StartsWith(t, RevokeWord + " ") ==> t[0] == 'о' && t != HistoryWord;
    if StartsWith(t, GrantWord + " ") then GrantCmd
    else if StartsWith(t, RevokeWord + " ") then RevokeCmd
    else if t == BalanceWord then BalanceCmd
    else if t == HistoryWord then HistoryCmd
    else if t == RolesWord then RolesCmd
    else Unknown
  }

  /** `word\s+(\d+)`, used when the message is a reply. */
  function ByReply(word: string): seq<Atom> {
    [Lit(word), Plus(Space, false), Plus(Digit, true)]
  }

  /** `word\s+@(\w+)\s+(\d+)`, used otherwise. */
  function ByUsername(word: string): seq<Atom> {
    [Lit(word), Plus(Space, false), Lit("@"), Plus(Word, true), Plus(Space, false), Plus(Digit, true)]
  }

  lemma PatternsSeparated(word: string, ignoreCase: bool)
    requires word != []
    ensures Separated(ByReply(word), ignoreCase) && Separated(ByUsername(word), ignoreCase)
  {
    var p := ByUsername(word);
    forall i, c | 0 <= i < |p| - 1 && p[i].Plus? && InClass(c, p[i].cls)
      ensures !CanStartWith(p[i + 1], c, ignoreCase)
    {
      if i == 1 { assert Lower(c) == c && Lower('@') == '@'; }
    }
  }

  lemma GroupsOfPatterns(word: string)
    ensures GroupClasses(ByReply(word)) == [Digit]
    ensures GroupClasses(ByUsername(word)) == [Word, Digit]
  {
    var d, sp := Plus(Digit, true), Plus(Space, false);
    assert GroupClasses([d]) == [Digit] by { assert [d][1..] == []; }
    assert GroupClasses([sp, d]) == [Digit] by { assert [sp, d][1..] == [d]; }
    assert GroupClasses(ByReply(word)) == [Digit] by { assert ByReply(word)[1..] == [sp, d]; }
    var w := Plus(Word, true);
    assert GroupClasses([w, sp, d]) == [Word, Digit] by { assert [w, sp, d][1..] == [sp, d]; }
    assert GroupClasses([Lit("@"), w, sp, d]) == [Word, Digit] by { assert [Lit("@"), w, sp, d][1..] == [w, sp, d]; }
    assert GroupClasses([sp, Lit("@"), w, sp, d]) == [Word, Digit] by { assert [sp, Lit("@"), w, sp, d][1..] == [Lit("@"), w, sp, d]; }
    assert ByUsername(word)[1..] == [sp, Lit("@"), w, sp, d];
  }

  lemma DigitRun(g: string)
    requires RunOf(g, |g|, Digit)
    ensures All(g, IsDigit)
  {
    forall i | 0 <= i < |g| ensures IsDigit(g[i]) { assert InClass(g[i], Digit); }
  }

  datatype Parsed = Target(userId: UserId, amount: nat) | Rejected(failure: Failure)

  /**
   * The validation shared by `handle_vruchit` and `handle_otnyat`: the replied-to author is
   * the target when there is one, and the `@username` form is then never tried; otherwise
   * the username is looked up. A malformed text fails before the amount is checked, and the
   * amount is checked before the lookup.
   */
  function ParseAmountCommand(text: string, word: string, nameIgnoreCase: bool,
                              replyTo: Option<UserId>, lookup: string -> Option<UserId>): (r: Parsed)
    requires word != []
    ensures r.Target? ==> r.amount > 0
    ensures replyTo.Some? && r.Target? ==> r.userId == replyTo.value
    ensures replyTo.Some? && r.Rejected? ==> !r.failure.UserNotFound?
    ensures replyTo.None? && r.Target? ==> exists name :: lookup(name) == Some(r.userId)
    ensures replyTo.None? && r.Rejected? && r.failure.UserNotFound? ==> lookup(r.failure.username).None?
  {
    if replyTo.Some? then
      match MatchStart(text, ByReply(word), true)
      case None => Rejected(BadFormat)
      case Some(m) =>
        MatchStartGroups(text, ByReply(word), true);
        GroupsOfPatterns(word);
        DigitRun(m.groups[0]);
        var amount := DigitsValue(m.groups[0]);
        if amount <= 0 then Rejected(NotPositive) else Target(replyTo.value, amount)
    else
      match MatchStart(text, ByUsername(word), nameIgnoreCase)
      case None => Rejected(BadFormat)
      case Some(m) =>
        MatchStartGroups(text, ByUsername(word), nameIgnoreCase);
        GroupsOfPatterns(word);
        DigitRun(m.groups[1]);
        var name, amount := m.groups[0], DigitsValue(m.groups[1]);
        if amount <= 0 then Rejected(NotPositive)
        else match lookup(name)
          case None => Rejected(UserNotFound(name))
          case Some(id) => Target(id, amount)
  }

  /**
   * Which request a message is. The bot's own messages and unrecognised texts are ignored;
   * a grant parses the stripped text case-insensitively, a revoke parses the normalised text.
   */
  function Interpret(msg: Message, lookup: string -> Option<UserId>): (r: Request)
    ensures r == Ignored <==> msg.fromBot || Classify(Normalize(msg.text)) == Unknown
    ensures r.Grant? ==> Classify(Normalize(msg.text)) == GrantCmd && r.amount > 0
    ensures r.Revoke? ==> Classify(Normalize(msg.text)) == RevokeCmd && r.amount > 0
    ensures msg.replyTo.Some? && (r.Grant? || r.Revoke?) ==> r.target == msg.replyTo.value
    ensures msg.replyTo.None? && (r.Grant? || r.Revoke?) ==> exists name :: lookup(name) == Some(r.target)
    ensures r.BalanceQuery? <==> !msg.fromBot && Classify(Normalize(msg.text)) == BalanceCmd
    ensures r.HistoryQuery? <==> !msg.fromBot && Classify(Normalize(msg.text)) == HistoryCmd
    ensures r.RolesQuery? <==> !msg.fromBot && Classify(Normalize(msg.text)) == RolesCmd
  {
    if msg.fromBot then Ignored
    else
      var t := Normalize(msg.text);
      match Classify(t)
      case GrantCmd =>
        var p := ParseAmountCommand(Strip(msg.text), GrantWord, true, msg.replyTo, lookup);
        if p.Target? then Grant(p.userId, p.amount) else Refused(p.failure)
      case RevokeCmd =>
        var p := ParseAmountCommand(t, RevokeWord, false, msg.replyTo, lookup);
        if p.Target? then Revoke(p.userId, p.amount) else Refused(p.failure)
      case BalanceCmd => BalanceQuery
      case HistoryCmd => HistoryQuery
      case RolesCmd => RolesQuery
      case Unknown => Ignored
  }

  /**
   * `{'+' if amount>0 else ''}{amount}`: the sign says whether the amount was added or taken,
   * and the digits after it are its magnitude.
   */
  function AmountText(a: int): (r: string)
    ensures r != []
    ensures r[0] == '+' <==> a > 0
    ensures r[0] == '-' <==> a < 0
    ensures r == "0" <==> a == 0
    ensures a != 0 ==> All(r[1..], IsDigit) && DigitsValue(r[1..]) == if a > 0 then a else -a
  {
    if a > 0 then "+" + NatToString(a) else IntToString(a)
  }

  /** One line of the history reply. */
  function RenderEntry(e: Entry): string {
    Concat(["user_id=", IntToString(e.userId), " ", AmountText(e.amount),
            " — ", e.reason, " (от ", IntToString(e.authorId), ")"])
  }

  /** The history reply: empty, or one line per entry among the last five, oldest first. */
  function HistoryReply(history: seq<Entry>): (r: Reply)
    ensures r == HistoryEmpty <==> history == []
    ensures history != [] ==> r.HistoryLines? && |r.lines| == Min(HistoryShown, |history|)
    ensures r.HistoryLines? ==> forall k :: 0 <= k < |r.lines| ==> r.lines[k] == RenderEntry(history[|history| - |r.lines| + k])
  {
    if history == [] then HistoryEmpty
    else
      HistoryLines(RenderAll(Recent(history, HistoryShown)))
  }

  function RenderAll(entries: seq<Entry>): (lines: seq<string>)
    ensures |lines| == |entries|
    ensures forall k :: 0 <= k < |entries| ==> lines[k] == RenderEntry(entries[k])
  {
    seq(|entries|, k requires 0 <= k < |entries| => RenderEntry(entries[k]))
  }

  /**
   * What carrying out `req` on behalf of `authorId` does to the balances and the history,
   * and which reply it gives. Only a grant or a revoke changes state, each by one
   * balance change and one history entry; a revoke has no lower bound.
   */
  ghost predicate Outcome(req: Request, authorId: UserId, users: map<UserId, int>, history: seq<Entry>,
                          users': map<UserId, int>, history': seq<Entry>, reply: Reply)
  {
    && (req.Grant? ==>
          && users' == users[req.target := BalanceIn(users, req.target) + req.amount]
          && history' == history + [Entry(req.target, req.amount, NoReason, authorId)]
          && reply == Granted(req.target, req.amount))
    && (req.Revoke? ==>
          && users' == users[req.target := BalanceIn(users, req.target) - req.amount]
          && history' == history + [Entry(req.target, -(req.amount as int), NoReason, authorId)]
          && reply == Revoked(req.target, req.amount))
    && (!req.Grant? && !req.Revoke? ==> users' == users && history' == history)
    && (req.Ignored? ==> reply == NoReply)
    && (req.Refused? ==> reply == Failed(req.failure))
    && (req.BalanceQuery? ==> reply == BalanceIs(BalanceIn(users, authorId)))
    && (req.HistoryQuery? ==> reply == HistoryReply(history))
    && (req.RolesQuery? ==> reply == RolesNotImplemented)
  }

  /** The module-level `users` and `history` of the bot. */
  class MemoryStore {
    var users: map<UserId, int>
    var history: seq<Entry>

    /** Since `ChangeBalance` is the only writer, each balance is the sum of its user's entries. */
    ghost predicate Valid()
      reads this
    {
      BalancesAreTotals(users, history)
    }

    constructor ()
      ensures Valid() && users == map[] && history == []
    {
      users := map[];
      history := [];
    }

    /** `get_user_balance`: a never-touched user has 0. */
    function GetUserBalance(u: UserId): (b: int)
      reads this
      ensures Valid() ==> b == Total(history, u)
      ensures u !in users ==> b == 0
    {
      BalanceIn(users, u)
    }

    /** `change_balance`: adds `amount` to one balance and records exactly one entry. */
    method ChangeBalance(u: UserId, amount: int, reason: string, authorId: UserId)
      modifies this
      ensures users == old(users)[u := old(GetUserBalance(u)) + amount]
      ensures history == old(history) + [Entry(u, amount, reason, authorId)]
      ensures old(Valid()) ==> Valid()
    {
      ghost var before := users;
      ghost var was := history;
      ghost var valid := Valid();
      users := users[u := BalanceIn(users, u) + amount];
      history := history + [Entry(u, amount, reason, authorId)];
      if valid {
        CreditKeepsTotals(before, was, Entry(u, amount, reason, authorId));
      }
    }

    /** `show_history`: builds one line per entry among the last five. */
    method ShowHistory() returns (reply: Reply)
      ensures reply == HistoryReply(history)
    {
      if history == [] {
        return HistoryEmpty;
      }
      var recent := Recent(history, HistoryShown);
      var lines: seq<string> := [];
      for i := 0 to |recent|
        invariant |lines| == i
        invariant forall k :: 0 <= k < i ==> lines[k] == RenderEntry(recent[k])
      {
        lines := lines + [RenderEntry(recent[i])];
      }
      assert lines == RenderAll(recent);
      reply := HistoryLines(lines);
    }

    /**
     * `handle_message`: carries out the request the message is. Only a grant or a revoke
     * changes state, each by one call of `ChangeBalance`; a revoke has no lower bound.
     */
    method HandleMessage(msg: Message, lookup: string -> Option<UserId>) returns (reply: Reply)
      modifies this
      ensures Outcome(Interpret(msg, lookup), msg.authorId, old(users), old(history), users, history, reply)
      ensures old(Valid()) ==> Valid()
    {
      var req := Interpret(msg, lookup);
      reply := Perform(req, msg.authorId);
    }

    /** Carries out one request on behalf of `authorId`. */
    method Perform(req: Request, authorId: UserId) returns (reply: Reply)
      modifies this
      ensures Outcome(req, authorId, old(users), old(history), users, history, reply)
      ensures old(Valid()) ==> Valid()
    {
      match req
      case Grant(t, n) =>
        ChangeBalance(t, n, NoReason, authorId);
        reply := Granted(t, n);
      case Revoke(t, n) =>
        ChangeBalance(t, -(n as int), NoReason, authorId);
        reply := Revoked(t, n);
      case BalanceQuery =>
        reply := BalanceIs(GetUserBalance(authorId));
      case HistoryQuery =>
        reply := ShowHistory();
      case RolesQuery =>
        reply := RolesNotImplemented;
      case Refused(f) =>
        reply := Failed(f);
      case Ignored =>
        reply := NoReply;
    }
  }
}
