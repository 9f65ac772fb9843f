/**
 * Properties of the dispatcher: what the grant and revoke texts mean, as the handlers'
 * start-anchored patterns read them, and how the reply target is chosen.
 */
module CommandLaws {
  import opened Wrappers
  import opened Text
  import opened Pattern
  import opened Ledger
  import opened Commands

  lemma SameCharReflexive(s: string, w: string, ignoreCase: bool)
    requires StartsWith(s, w)
    ensures LitAt(s, w, ignoreCase)
  {
    forall i | 0 <= i < |w| ensures SameChar(s[i], w[i], ignoreCase) { assert s[i] == s[..|w|][i]; }
  }

  /** The two handler patterns, written as one part followed by the rest. */
  lemma PatternShapes(word: string)
    ensures ByReply(word) == [Lit(word)] + ([Plus(Space, false)] + [Plus(Digit, true)])
    ensures ByUsername(word)
         == [Lit(word)] + ([Plus(Space, false)] + ([Lit("@")] + ([Plus(Word, true)] + ([Plus(Space, false)] + [Plus(Digit, true)]))))
  {
  }

  /** A word at the front of a text is found there, and what follows it is the rest. */
  lemma AfterFirst(w: string, u: string, ignoreCase: bool)
    ensures LitAt(w + u, w, ignoreCase) && (w + u)[|w|..] == u
  {
    SameCharReflexive(w + u, w, ignoreCase);
  }

  /** `(\d+)` at the end of a pattern takes a whole digit string. */
  lemma DigitsMatch(digits: string, ignoreCase: bool)
    requires digits != [] && All(digits, IsDigit)
    ensures MatchStart(digits, [Plus(Digit, true)], ignoreCase) == Some(Captures([digits], |digits|))
  {
    assert [Plus(Digit, true)] == [Plus(Digit, true)] + [] && digits == digits + [];
    assert MatchStart([], [], ignoreCase) == Some(Captures([], 0));
    PlusThen(digits, [], Digit, true, [], ignoreCase, Captures([], 0));
    assert [digits] + [] == [digits];
  }

  /** `\s+(\d+)` on one space and a digit string. */
  lemma SpaceDigitsMatch(digits: string, ignoreCase: bool)
    requires digits != [] && All(digits, IsDigit)
    ensures MatchStart(" " + digits, [Plus(Space, false)] + [Plus(Digit, true)], ignoreCase)
         == Some(Captures([digits], 1 + |digits|))
  {
    DigitsMatch(digits, ignoreCase);
    PlusThen(" ", digits, Space, false, [Plus(Digit, true)], ignoreCase, Captures([digits], |digits|));
    assert [] + [digits] == [digits];
  }

  /** `word N` matches the reply pattern, capturing exactly the digits. */
  lemma ReplyFormMatches(word: string, digits: string, ignoreCase: bool)
    requires word != [] && digits != [] && All(digits, IsDigit)
    ensures MatchStart(word + " " + digits, ByReply(word), ignoreCase) == Some(Captures([digits], |word| + 1 + |digits|))
  {
    var s := word + " " + digits;
    PatternShapes(word);
    assert StartsWith(s, word) && s[|word|..] == " " + digits;
    SameCharReflexive(s, word, ignoreCase);
    SpaceDigitsMatch(digits, ignoreCase);
    LitThen(s, word, [Plus(Space, false)] + [Plus(Digit, true)], ignoreCase, Captures([digits], 1 + |digits|));
  }

  /** `(\w+)\s+(\d+)` on a name, one space and a digit string. */
  lemma NameDigitsMatch(name: string, digits: string, ignoreCase: bool)
    requires name != [] && All(name, IsWordChar) && digits != [] && All(digits, IsDigit)
    ensures MatchStart(name + (" " + digits), [Plus(Word, true)] + ([Plus(Space, false)] + [Plus(Digit, true)]), ignoreCase)
         == Some(Captures([name, digits], |name| + 1 + |digits|))
  {
    assert RunOf(name, |name|, Word) by {
      forall i | 0 <= i < |name| ensures InClass(name[i], Word) { assert IsWordChar(name[i]); }
    }
    SpaceDigitsMatch(digits, ignoreCase);
    PlusThen(name, " " + digits, Word, true, [Plus(Space, false)] + [Plus(Digit, true)], ignoreCase, Captures([digits], 1 + |digits|));
    assert [name] + [digits] == [name, digits];
  }

  /** `@`, then a text that matches the rest of the pattern. */
  lemma AtThen(u: string, rest: seq<Atom>, ignoreCase: bool, c: Captures)
    requires MatchStart(u, rest, ignoreCase) == Some(c)
    ensures MatchStart("@" + u, [Lit("@")] + rest, ignoreCase) == Some(Captures(c.groups, 1 + c.end))
  {
    AfterFirst("@", u, ignoreCase);
    LitThen("@" + u, "@", rest, ignoreCase, c);
  }

  /** `@(\w+)\s+(\d+)` on `@`, a name, one space and a digit string. */
  lemma AtNameDigitsMatch(name: string, digits: string, ignoreCase: bool)
    requires name != [] && All(name, IsWordChar) && digits != [] && All(digits, IsDigit)
    ensures MatchStart("@" + (name + (" " + digits)),
                       [Lit("@")] + ([Plus(Word, true)] + ([Plus(Space, false)] + [Plus(Digit, true)])), ignoreCase)
         == Some(Captures([name, digits], 1 + |name| + 1 + |digits|))
  {
    NameDigitsMatch(name, digits, ignoreCase);
    AtThen(name + (" " + digits), [Plus(Word, true)] + ([Plus(Space, false)] + [Plus(Digit, true)]), ignoreCase,
           Captures([name, digits], |name| + 1 + |digits|));
  }

  /** One space, then a text that does not start with a space and matches the rest of the pattern. */
  lemma SpaceThen(t: string, rest: seq<Atom>, ignoreCase: bool, c: Captures)
    requires t != [] && !IsSpace(t[0]) && MatchStart(t, rest, ignoreCase) == Some(c)
    ensures MatchStart(" " + t, [Plus(Space, false)] + rest, ignoreCase) == Some(Captures(c.groups, 1 + c.end))
  {
    PlusThen(" ", t, Space, false, rest, ignoreCase, c);
    assert [] + c.groups == c.groups;
  }

  /** `\s+@(\w+)\s+(\d+)` after the command word. */
  lemma AfterWordMatch(name: string, digits: string, ignoreCase: bool)
    requires name != [] && All(name, IsWordChar) && digits != [] && All(digits, IsDigit)
    ensures MatchStart(" " + ("@" + (name + (" " + digits))),
                       [Plus(Space, false)] + ([Lit("@")] + ([Plus(Word, true)] + ([Plus(Space, false)] + [Plus(Digit, true)]))), ignoreCase)
         == Some(Captures([name, digits], 2 + |name| + 1 + |digits|))
  {
    AtNameDigitsMatch(name, digits, ignoreCase);
    SpaceThen("@" + (name + (" " + digits)),
              [Lit("@")] + ([Plus(Word, true)] + ([Plus(Space, false)] + [Plus(Digit, true)])), ignoreCase,
              Captures([name, digits], 1 + |name| + 1 + |digits|));
  }

  /** `word @name N` matches the username pattern, capturing the name and the digits. */
  lemma NameFormMatches(word: string, name: string, digits: string, ignoreCase: bool)
    requires word != [] && name != [] && All(name, IsWordChar) && digits != [] && All(digits, IsDigit)
    ensures MatchStart(word + " @" + name + " " + digits, ByUsername(word), ignoreCase)
         == Some(Captures([name, digits], |word| + 2 + |name| + 1 + |digits|))
  {
    var s := word + " @" + name + " " + digits;
    PatternShapes(word);
    assert StartsWith(s, word) && s[|word|..] == " " + ("@" + (name + (" " + digits)));
    SameCharReflexive(s, word, ignoreCase);
    AfterWordMatch(name, digits, ignoreCase);
    LitThen(s, word, [Plus(Space, false)] + ([Lit("@")] + ([Plus(Word, true)] + ([Plus(Space, false)] + [Plus(Digit, true)]))),
            ignoreCase, Captures([name, digits], 2 + |name| + 1 + |digits|));
  }

  /** Lower-casing leaves a string alone when it leaves each of its characters alone. */
  lemma LowerAllFixed(s: string)
    requires forall i :: 0 <= i < |s| ==> Lower(s[i]) == s[i]
    ensures LowerAll(s) == s
  {
  }

  lemma WordsAreLower()
    ensures LowerAll(GrantWord) == GrantWord && LowerAll(RevokeWord) == RevokeWord
  {
    LowerAllFixed(GrantWord);
    LowerAllFixed(RevokeWord);
  }

  /** A text made of a command word, spaces, digits and other unchanged characters is already normal. */
  lemma TightTextIsNormal(s: string)
    requires s != [] && !IsSpace(s[0]) && !IsSpace(s[|s| - 1])
    requires LowerAll(s) == s
    ensures Strip(s) == s && Normalize(s) == s
  {
    TrimKeepsTight(s, IsSpace);
  }

  lemma DigitsLower(digits: string)
    requires All(digits, IsDigit)
    ensures LowerAll(digits) == digits
  {
    LowerAllFixed(digits);
  }

  /** A reply-form match hands its digits to the amount check, and the target is the replied-to author. */
  lemma ParseByReply(text: string, word: string, nameIgnoreCase: bool, target: UserId,
                     lookup: string -> Option<UserId>, digits: string, end: nat)
    requires word != [] && All(digits, IsDigit)
    requires MatchStart(text, ByReply(word), true) == Some(Captures([digits], end))
    ensures ParseAmountCommand(text, word, nameIgnoreCase, Some(target), lookup)
         == if DigitsValue(digits) == 0 then Rejected(NotPositive) else Target(target, DigitsValue(digits))
  {
  }

  /** A human's message routed to the grant handler is what that handler makes of its stripped text. */
  lemma InterpretGrant(msg: Message, lookup: string -> Option<UserId>)
    requires !msg.fromBot && Classify(Normalize(msg.text)) == GrantCmd
    ensures var p := ParseAmountCommand(Strip(msg.text), GrantWord, true, msg.replyTo, lookup);
      Interpret(msg, lookup) == if p.Target? then Grant(p.userId, p.amount) else Refused(p.failure)
  {
  }

  /** A human's message routed to the revoke handler is what that handler makes of its normalised text. */
  lemma InterpretRevoke(msg: Message, lookup: string -> Option<UserId>)
    requires !msg.fromBot && Classify(Normalize(msg.text)) == RevokeCmd
    ensures var p := ParseAmountCommand(Normalize(msg.text), RevokeWord, false, msg.replyTo, lookup);
      Interpret(msg, lookup) == if p.Target? then Revoke(p.userId, p.amount) else Refused(p.failure)
  {
  }

  /** A grant-routed reply whose stripped text matches the reply form is decided by the digits alone. */
  lemma GrantByReply(text: string, digits: string, e: nat, authorId: UserId, target: UserId, lookup: string -> Option<UserId>)
    requires All(digits, IsDigit)
    requires Classify(Normalize(text)) == GrantCmd
    requires MatchStart(Strip(text), ByReply(GrantWord), true) == Some(Captures([digits], e))
    ensures Interpret(Message(false, authorId, text, Some(target)), lookup)
         == if DigitsValue(digits) == 0 then Refused(NotPositive) else Grant(target, DigitsValue(digits))
  {
    ParseByReply(Strip(text), GrantWord, true, target, lookup, digits, e);
    InterpretGrant(Message(false, authorId, text, Some(target)), lookup);
  }

  /** A revoke-routed reply whose normalised text matches the reply form is decided by the digits alone. */
  lemma RevokeByReply(text: string, digits: string, e: nat, authorId: UserId, target: UserId, lookup: string -> Option<UserId>)
    requires All(digits, IsDigit)
    requires Classify(Normalize(text)) == RevokeCmd
    requires MatchStart(Normalize(text), ByReply(RevokeWord), true) == Some(Captures([digits], e))
    ensures Interpret(Message(false, authorId, text, Some(target)), lookup)
         == if DigitsValue(digits) == 0 then Refused(NotPositive) else Revoke(target, DigitsValue(digits))
  {
    ParseByReply(Normalize(text), RevokeWord, false, target, lookup, digits, e);
    InterpretRevoke(Message(false, authorId, text, Some(target)), lookup);
  }

  /** `вручить N` is already lower-case and stripped. */
  lemma GrantTextIsNormal(digits: string)
    requires digits != [] && All(digits, IsDigit)
    ensures var text := GrantWord + " " + digits;
      Strip(text) == text && Normalize(text) == text
  {
    var text := GrantWord + " " + digits;
    WordsAreLower();
    DigitsLower(digits);
    LowerAllAppend(GrantWord + " ", digits);
    LowerAllAppend(GrantWord, " ");
    TightTextIsNormal(text);
  }

  /** `отнять N` is already lower-case and stripped. */
  lemma RevokeTextIsNormal(digits: string)
    requires digits != [] && All(digits, IsDigit)
    ensures var text := RevokeWord + " " + digits;
      Strip(text) == text && Normalize(text) == text
  {
    var text := RevokeWord + " " + digits;
    WordsAreLower();
    DigitsLower(digits);
    LowerAllAppend(RevokeWord + " ", digits);
    LowerAllAppend(RevokeWord, " ");
    TightTextIsNormal(text);
  }

  /** `вручить N` is routed to the grant handler, whose reply pattern captures exactly the digits. */
  lemma GrantTextFacts(digits: string)
    requires digits != [] && All(digits, IsDigit)
    ensures var text := GrantWord + " " + digits;
      && Classify(Normalize(text)) == GrantCmd
      && MatchStart(Strip(text), ByReply(GrantWord), true) == Some(Captures([digits], |GrantWord| + 1 + |digits|))
  {
    GrantRouted(digits);
    GrantReplyMatches(digits);
  }

  lemma GrantRouted(digits: string)
    requires digits != [] && All(digits, IsDigit)
    ensures Classify(Normalize(GrantWord + " " + digits)) == GrantCmd
  {
    var text := GrantWord + " " + digits;
    assert Normalize(text) == text by { GrantTextIsNormal(digits); }
    assert StartsWith(text, GrantWord + " ");
  }

  lemma GrantReplyMatches(digits: string)
    requires digits != [] && All(digits, IsDigit)
    ensures MatchStart(Strip(GrantWord + " " + digits), ByReply(GrantWord), true)
         == Some(Captures([digits], |GrantWord| + 1 + |digits|))
  {
    assert Strip(GrantWord + " " + digits) == GrantWord + " " + digits by { GrantTextIsNormal(digits); }
    ReplyFormMatches(GrantWord, digits, true);
  }

  /** `отнять N` is routed to the revoke handler, whose reply pattern captures exactly the digits. */
  lemma RevokeTextFacts(digits: string)
    requires digits != [] && All(digits, IsDigit)
    ensures var text := RevokeWord + " " + digits;
      && Classify(Normalize(text)) == RevokeCmd
      && MatchStart(Normalize(text), ByReply(RevokeWord), true) == Some(Captures([digits], |RevokeWord| + 1 + |digits|))
  {
    RevokeRouted(digits);
    RevokeReplyMatches(digits);
  }

  lemma RevokeRouted(digits: string)
    requires digits != [] && All(digits, IsDigit)
    ensures Classify(Normalize(RevokeWord + " " + digits)) == RevokeCmd
  {
    var text := RevokeWord + " " + digits;
    assert Normalize(text) == text by { RevokeTextIsNormal(digits); }
    assert StartsWith(text, RevokeWord + " ");
  }

  lemma RevokeReplyMatches(digits: string)
    requires digits != [] && All(digits, IsDigit)
    ensures MatchStart(Normalize(RevokeWord + " " + digits), ByReply(RevokeWord), true)
         == Some(Captures([digits], |RevokeWord| + 1 + |digits|))
  {
    assert Normalize(RevokeWord + " " + digits) == RevokeWord + " " + digits by { RevokeTextIsNormal(digits); }
    ReplyFormMatches(RevokeWord, digits, true);
  }

  /** The text `вручить N` in reply to a message: a grant of N to that message's author, unless N is 0. */
  lemma GrantByReplyText(digits: string, authorId: UserId, target: UserId, lookup: string -> Option<UserId>)
    requires digits != [] && All(digits, IsDigit)
    ensures Interpret(Message(false, authorId, GrantWord + " " + digits, Some(target)), lookup)
         == if DigitsValue(digits) == 0 then Refused(NotPositive) else Grant(target, DigitsValue(digits))
  {
    GrantTextFacts(digits);
    GrantByReply(GrantWord + " " + digits, digits, |GrantWord| + 1 + |digits|, authorId, target, lookup);
  }

  /** The text `отнять N` in reply to a message: a revoke of N from that message's author, unless N is 0. */
  lemma RevokeByReplyText(digits: string, authorId: UserId, target: UserId, lookup: string -> Option<UserId>)
    requires digits != [] && All(digits, IsDigit)
    ensures Interpret(Message(false, authorId, RevokeWord + " " + digits, Some(target)), lookup)
         == if DigitsValue(digits) == 0 then Refused(NotPositive) else Revoke(target, DigitsValue(digits))
  {
    RevokeTextFacts(digits);
    RevokeByReply(RevokeWord + " " + digits, digits, |RevokeWord| + 1 + |digits|, authorId, target, lookup);
  }

  /** Granting a rendered positive number in reply grants exactly that number. */
  lemma GrantRoundTrip(n: nat, authorId: UserId, target: UserId, lookup: string -> Option<UserId>)
    requires n > 0
    ensures Interpret(Message(false, authorId, GrantWord + " " + NatToString(n), Some(target)), lookup) == Grant(target, n)
  {
    GrantByReplyText(NatToString(n), authorId, target, lookup);
  }

  /** Revoking a rendered positive number in reply revokes exactly that number. */
  lemma RevokeRoundTrip(n: nat, authorId: UserId, target: UserId, lookup: string -> Option<UserId>)
    requires n > 0
    ensures Interpret(Message(false, authorId, RevokeWord + " " + NatToString(n), Some(target)), lookup) == Revoke(target, n)
  {
    RevokeByReplyText(NatToString(n), authorId, target, lookup);
  }
}
