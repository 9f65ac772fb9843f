/**
 * What the case of a message and its surrounding form change about the request it is. A
 * revoke, a query or an ignored text depends on the normalised text alone. A grant parses
 * the stripped text case-insensitively, so with a reply its case is irrelevant too; without
 * one the `@username` keeps the case it was written in.
 */
module CaseLaws {
  import opened Wrappers
  import opened Text
  import opened Pattern
  import opened Ledger
  import opened Commands
  import opened CommandLaws

  /** `text.lower().strip()` is its own normal form. */
  lemma NormalizeIdempotent(text: string)
    ensures Normalize(Normalize(text)) == Normalize(text)
  {
    var u := LowerAll(text);
    var r := Strip(u);
    StripLower(u);
    LowerAllIdempotent(text);
    TrimShape(u, IsSpace);
    TrimKeepsTight(r, IsSpace);
  }

  /** Lower-casing a text first does not change its normal form. */
  lemma NormalizeLower(text: string)
    ensures Normalize(LowerAll(text)) == Normalize(text)
  {
    LowerAllIdempotent(text);
  }

  /** Every request other than a grant is decided by the normalised text alone. */
  lemma RequestSeesNormalForm(msg: Message, text: string, lookup: string -> Option<UserId>)
    requires Classify(Normalize(msg.text)) != GrantCmd && Normalize(text) == Normalize(msg.text)
    ensures Interpret(msg.(text := text), lookup) == Interpret(msg, lookup)
  {
    if !msg.fromBot && Classify(Normalize(msg.text)) == RevokeCmd {
      InterpretRevoke(msg, lookup);
      InterpretRevoke(msg.(text := text), lookup);
    }
  }

  /** Sending the normal form of a text that is not a grant makes no difference. */
  lemma NormalFormIsSameRequest(msg: Message, lookup: string -> Option<UserId>)
    requires Classify(Normalize(msg.text)) != GrantCmd
    ensures Interpret(msg.(text := Normalize(msg.text)), lookup) == Interpret(msg, lookup)
  {
    NormalizeIdempotent(msg.text);
    RequestSeesNormalForm(msg, Normalize(msg.text), lookup);
  }

  /** The reply form matches case-insensitively and captures only digits, which have no case. */
  lemma ReplyParseIgnoresCase(s: string, word: string, nameIgnoreCase: bool, target: UserId,
                              lookup: string -> Option<UserId>)
    requires word != []
    ensures ParseAmountCommand(LowerAll(s), word, nameIgnoreCase, Some(target), lookup)
         == ParseAmountCommand(s, word, nameIgnoreCase, Some(target), lookup)
  {
    MatchStartLower(s, ByReply(word));
    var r := MatchStart(s, ByReply(word), true);
    if r.Some? {
      MatchStartGroups(s, ByReply(word), true);
      GroupsOfPatterns(word);
      var g := r.value.groups[0];
      DigitRun(g);
      DigitsLower(g);
      assert MatchStart(LowerAll(s), ByReply(word), true).value.groups == [g];
    }
  }

  /**
   * Lower-casing a message changes nothing when it is a reply or not a grant; only a grant
   * by `@username` passes the name on in the case it was written in.
   */
  lemma CaseIgnoredUnlessNamed(msg: Message, lookup: string -> Option<UserId>)
    requires msg.replyTo.Some? || Classify(Normalize(msg.text)) != GrantCmd
    ensures Interpret(msg.(text := LowerAll(msg.text)), lookup) == Interpret(msg, lookup)
  {
    var lowered := msg.(text := LowerAll(msg.text));
    NormalizeLower(msg.text);
    if !msg.fromBot && Classify(Normalize(msg.text)) == GrantCmd {
      InterpretGrant(msg, lookup);
      InterpretGrant(lowered, lookup);
      StripLower(msg.text);
      ReplyParseIgnoresCase(Strip(msg.text), GrantWord, true, msg.replyTo.value, lookup);
    } else if !msg.fromBot {
      RequestSeesNormalForm(msg, LowerAll(msg.text), lookup);
    }
  }
}
