/**
 * Properties of the grant and revoke handlers that hold for every text: what happens when
 * the pattern does not match, what the text after a match and the space around a message
 * change, and how the target is found for the `@username` form.
 */
module HandlerLaws {
  import opened Wrappers
  import opened Text
  import opened Pattern
  import opened Ledger
  import opened Commands
  import opened CommandLaws

  /** Both patterns end in the digit run, so only a digit can continue a match. */
  lemma LastRunIsDigits(word: string, c: char)
    ensures ExtendsLast(ByReply(word), c) <==> IsDigit(c)
    ensures ExtendsLast(ByUsername(word), c) <==> IsDigit(c)
  {
  }

  /**
   * The handlers' patterns are anchored at the start only: appending text that does not
   * begin with a digit to a matching text changes nothing about the outcome of the parse.
   */
  lemma ParseIgnoresTail(s: string, t: string, word: string, nameIgnoreCase: bool,
                         replyTo: Option<UserId>, lookup: string -> Option<UserId>)
    requires word != []
    requires replyTo.Some? ==> MatchStart(s, ByReply(word), true).Some?
    requires replyTo.None? ==> MatchStart(s, ByUsername(word), nameIgnoreCase).Some?
    requires t == [] || !IsDigit(t[0])
    ensures ParseAmountCommand(s + t, word, nameIgnoreCase, replyTo, lookup)
         == ParseAmountCommand(s, word, nameIgnoreCase, replyTo, lookup)
  {
    PatternsSeparated(word, true);
    PatternsSeparated(word, nameIgnoreCase);
    if t != [] {
      LastRunIsDigits(word, t[0]);
    }
    if replyTo.Some? {
      MatchStartIgnoresTail(s, t, ByReply(word), true);
    } else {
      MatchStartIgnoresTail(s, t, ByUsername(word), nameIgnoreCase);
    }
  }

  /** A grant whose stripped text the handler's pattern does not match is refused as a format error. */
  lemma UnmatchedGrantIsBadFormat(msg: Message, lookup: string -> Option<UserId>)
    requires !msg.fromBot && Classify(Normalize(msg.text)) == GrantCmd
    requires msg.replyTo.Some? ==> MatchStart(Strip(msg.text), ByReply(GrantWord), true).None?
    requires msg.replyTo.None? ==> MatchStart(Strip(msg.text), ByUsername(GrantWord), true).None?
    ensures Interpret(msg, lookup) == Refused(BadFormat)
  {
    InterpretGrant(msg, lookup);
  }

  /** A revoke whose normalised text the handler's pattern does not match is refused as a format error. */
  lemma UnmatchedRevokeIsBadFormat(msg: Message, lookup: string -> Option<UserId>)
    requires !msg.fromBot && Classify(Normalize(msg.text)) == RevokeCmd
    requires msg.replyTo.Some? ==> MatchStart(Normalize(msg.text), ByReply(RevokeWord), true).None?
    requires msg.replyTo.None? ==> MatchStart(Normalize(msg.text), ByUsername(RevokeWord), false).None?
    ensures Interpret(msg, lookup) == Refused(BadFormat)
  {
    InterpretRevoke(msg, lookup);
  }

  /** `\s+(\d+)` does not match a space followed by a minus sign. */
  lemma MinusIsNoAmount(digits: string, ignoreCase: bool)
    ensures MatchStart(" -" + digits, [Plus(Space, false)] + [Plus(Digit, true)], ignoreCase).None?
  {
    assert " -" + digits == " " + ("-" + digits);
    assert ("-" + digits)[0] == '-';
    UnfoldPlus("-" + digits, [Plus(Digit, true)], ignoreCase);
    MatchPlusStep(" ", "-" + digits, Space, false, [Plus(Digit, true)], ignoreCase);
  }

  /** `вручить -N` in reply to a message: the minus sign is no part of an amount, so a format error. */
  lemma MinusSignIsBadFormat(digits: string, authorId: UserId, target: UserId, lookup: string -> Option<UserId>)
    requires digits != [] && All(digits, IsDigit)
    ensures Interpret(Message(false, authorId, GrantWord + " -" + digits, Some(target)), lookup) == Refused(BadFormat)
  {
    var text := GrantWord + " -" + digits;
    assert LowerAll(text) == text && Strip(text) == text by {
      WordsAreLower();
      DigitsLower(digits);
      LowerAllFixed(" -");
      LowerAllAppend(GrantWord + " -", digits);
      LowerAllAppend(GrantWord, " -");
      TightTextIsNormal(text);
    }
    assert Classify(Normalize(text)) == GrantCmd by {
      TightTextIsNormal(text);
      assert StartsWith(text, GrantWord + " ");
    }
    assert MatchStart(Strip(text), ByReply(GrantWord), true).None? by {
      PatternShapes(GrantWord);
      AfterFirst(GrantWord, " -" + digits, true);
      assert text == GrantWord + (" -" + digits);
      MatchLitStep(text, GrantWord, [Plus(Space, false)] + [Plus(Digit, true)], true);
      MinusIsNoAmount(digits, true);
    }
    UnmatchedGrantIsBadFormat(Message(false, authorId, text, Some(target)), lookup);
  }

  /** With a reply the member directory is never consulted: any two directories give the same request. */
  lemma ReplyIgnoresDirectory(msg: Message, lookup: string -> Option<UserId>, other: string -> Option<UserId>)
    requires msg.replyTo.Some?
    ensures Interpret(msg, lookup) == Interpret(msg, other)
  {
    if !msg.fromBot {
      var t := Normalize(msg.text);
      var c := Classify(t);
      if c == GrantCmd {
        InterpretGrant(msg, lookup);
        InterpretGrant(msg, other);
      } else if c == RevokeCmd {
        InterpretRevoke(msg, lookup);
        InterpretRevoke(msg, other);
      }
    }
  }

  /** Lower-casing a run of whitespace leaves whitespace. */
  lemma LowerKeepsSpace(a: string)
    requires All(a, IsSpace)
    ensures All(LowerAll(a), IsSpace)
  {
    forall i | 0 <= i < |a| ensures IsSpace(LowerAll(a)[i]) { assert IsSpace(a[i]); }
  }

  /** Whitespace around the text changes neither the normalised nor the stripped text. */
  lemma SurroundingSpaceKeepsTexts(a: string, t: string, b: string)
    requires All(a, IsSpace) && All(b, IsSpace)
    ensures Normalize(a + t + b) == Normalize(t)
    ensures Strip(a + t + b) == Strip(t)
  {
    TrimIgnoresSurrounding(a, t, b, IsSpace);
    LowerAllAppend(a + t, b);
    LowerAllAppend(a, t);
    LowerKeepsSpace(a);
    LowerKeepsSpace(b);
    TrimIgnoresSurrounding(LowerAll(a), LowerAll(t), LowerAll(b), IsSpace);
  }

  /** Whitespace around a message's text makes it no different a request. */
  lemma SurroundingSpaceIgnored(msg: Message, a: string, b: string, lookup: string -> Option<UserId>)
    requires All(a, IsSpace) && All(b, IsSpace)
    ensures Interpret(msg.(text := a + msg.text + b), lookup) == Interpret(msg, lookup)
  {
    var padded := msg.(text := a + msg.text + b);
    SurroundingSpaceKeepsTexts(a, msg.text, b);
    if !msg.fromBot {
      var c := Classify(Normalize(msg.text));
      if c == GrantCmd {
        InterpretGrant(msg, lookup);
        InterpretGrant(padded, lookup);
      } else if c == RevokeCmd {
        InterpretRevoke(msg, lookup);
        InterpretRevoke(padded, lookup);
      }
    }
  }

  /** Lower-casing keeps a user name a user name. */
  lemma LowerKeepsWordChars(name: string)
    requires All(name, IsWordChar)
    ensures All(LowerAll(name), IsWordChar)
  {
    forall i | 0 <= i < |name| ensures IsWordChar(LowerAll(name)[i]) { assert IsWordChar(name[i]); }
  }

  /**
   * A username-form match hands the name to the directory after the amount check: a zero
   * amount is refused before any lookup, and an unknown name is reported as not found.
   */
  lemma ParseByName(text: string, word: string, nameIgnoreCase: bool, lookup: string -> Option<UserId>,
                    name: string, digits: string)
    requires word != [] && All(digits, IsDigit)
    requires MatchStart(text, ByUsername(word), nameIgnoreCase).Some?
    requires MatchStart(text, ByUsername(word), nameIgnoreCase).value.groups == [name, digits]
    ensures ParseAmountCommand(text, word, nameIgnoreCase, None, lookup)
         == if DigitsValue(digits) == 0 then Rejected(NotPositive)
            else if lookup(name).None? then Rejected(UserNotFound(name))
            else Target(lookup(name).value, DigitsValue(digits))
  {
  }

  /** The request a username-form grant or revoke is, given the captured name and digits. */
  function ByNameRequest(grant: bool, name: string, digits: string, lookup: string -> Option<UserId>): Request
    requires All(digits, IsDigit)
  {
    if DigitsValue(digits) == 0 then Refused(NotPositive)
    else match lookup(name)
      case None => Refused(UserNotFound(name))
      case Some(id) => if grant then Grant(id, DigitsValue(digits)) else Revoke(id, DigitsValue(digits))
  }

  lemma GrantByName(text: string, name: string, digits: string, authorId: UserId, lookup: string -> Option<UserId>)
    requires All(digits, IsDigit)
    requires Classify(Normalize(text)) == GrantCmd
    requires MatchStart(Strip(text), ByUsername(GrantWord), true).Some?
    requires MatchStart(Strip(text), ByUsername(GrantWord), true).value.groups == [name, digits]
    ensures Interpret(Message(false, authorId, text, None), lookup) == ByNameRequest(true, name, digits, lookup)
  {
    ParseByName(Strip(text), GrantWord, true, lookup, name, digits);
    InterpretGrant(Message(false, authorId, text, None), lookup);
  }

  lemma RevokeByName(text: string, name: string, digits: string, authorId: UserId, lookup: string -> Option<UserId>)
    requires All(digits, IsDigit)
    requires Classify(Normalize(text)) == RevokeCmd
    requires MatchStart(Normalize(text), ByUsername(RevokeWord), false).Some?
    requires MatchStart(Normalize(text), ByUsername(RevokeWord), false).value.groups == [name, digits]
    ensures Interpret(Message(false, authorId, text, None), lookup) == ByNameRequest(false, name, digits, lookup)
  {
    ParseByName(Normalize(text), RevokeWord, false, lookup, name, digits);
    InterpretRevoke(Message(false, authorId, text, None), lookup);
  }

  /** Lower-casing `word @name N` lower-cases only the name when the word is already lower-case. */
  lemma LowerNameText(word: string, name: string, digits: string)
    requires LowerAll(word) == word && All(digits, IsDigit)
    ensures LowerAll(word + " @" + name + " " + digits) == word + " @" + LowerAll(name) + " " + digits
  {
    DigitsLower(digits);
    LowerAllFixed(" @");
    LowerAllFixed(" ");
    LowerAllAppend(word + " @" + name + " ", digits);
    LowerAllAppend(word + " @" + name, " ");
    LowerAllAppend(word + " @", name);
    LowerAllAppend(word, " @");
  }

  /** `word @name N` has no surrounding space to strip. */
  lemma NameTextStripped(word: string, name: string, digits: string)
    requires word != [] && !IsSpace(word[0]) && digits != [] && All(digits, IsDigit)
    ensures Strip(word + " @" + name + " " + digits) == word + " @" + name + " " + digits
  {
    var text := word + " @" + name + " " + digits;
    assert text[0] == word[0] && text[|text| - 1] == digits[|digits| - 1];
    TrimKeepsTight(text, IsSpace);
  }

  /** `word @name N` with a lower-case word normalises to the same text with the name lower-cased. */
  lemma NameTextNormalized(word: string, name: string, digits: string)
    requires word != [] && !IsSpace(word[0]) && LowerAll(word) == word
    requires digits != [] && All(digits, IsDigit)
    ensures Normalize(word + " @" + name + " " + digits) == word + " @" + LowerAll(name) + " " + digits
  {
    var lowered := word + " @" + LowerAll(name) + " " + digits;
    LowerNameText(word, name, digits);
    assert lowered[0] == word[0] && lowered[|lowered| - 1] == digits[|digits| - 1];
    TrimKeepsTight(lowered, IsSpace);
  }

  lemma GrantNameRouted(text: string, name: string, digits: string)
    requires text == GrantWord + " @" + name + " " + digits
    requires digits != [] && All(digits, IsDigit)
    ensures Classify(Normalize(text)) == GrantCmd
  {
    var lowered := GrantWord + " @" + LowerAll(name) + " " + digits;
    assert Normalize(text) == lowered by {
      WordsAreLower();
      NameTextNormalized(GrantWord, name, digits);
    }
    assert StartsWith(lowered, GrantWord + " ");
  }

  /** `word @name N` matches the username pattern as it stands, capturing the name and the digits. */
  lemma StrippedNameMatches(text: string, word: string, name: string, digits: string, ignoreCase: bool)
    requires text == word + " @" + name + " " + digits && word != [] && !IsSpace(word[0])
    requires name != [] && All(name, IsWordChar) && digits != [] && All(digits, IsDigit)
    ensures MatchStart(Strip(text), ByUsername(word), ignoreCase).Some?
    ensures MatchStart(Strip(text), ByUsername(word), ignoreCase).value.groups == [name, digits]
  {
    assert Strip(text) == text by {
      NameTextStripped(word, name, digits);
    }
    NameFormMatches(word, name, digits, ignoreCase);
  }

  /** `вручить @name N` with no reply: the name as written (any case) is looked up. */
  lemma GrantByNameText(text: string, name: string, digits: string, authorId: UserId, lookup: string -> Option<UserId>)
    requires text == GrantWord + " @" + name + " " + digits
    requires name != [] && All(name, IsWordChar) && digits != [] && All(digits, IsDigit)
    ensures Interpret(Message(false, authorId, text, None), lookup) == ByNameRequest(true, name, digits, lookup)
  {
    GrantNameRouted(text, name, digits);
    StrippedNameMatches(text, GrantWord, name, digits, true);
    GrantByName(text, name, digits, authorId, lookup);
  }

  lemma RevokeNameRouted(text: string, name: string, digits: string)
    requires text == RevokeWord + " @" + name + " " + digits
    requires digits != [] && All(digits, IsDigit)
    ensures Classify(Normalize(text)) == RevokeCmd
  {
    var lowered := RevokeWord + " @" + LowerAll(name) + " " + digits;
    assert Normalize(text) == lowered by {
      WordsAreLower();
      NameTextNormalized(RevokeWord, name, digits);
    }
    assert StartsWith(lowered, RevokeWord + " ");
  }

  /** A lower-case command word followed by `@name N` matches the username pattern on its normal form. */
  lemma LoweredNameMatches(text: string, word: string, name: string, lowered: string, digits: string, ignoreCase: bool)
    requires text == word + " @" + name + " " + digits && lowered == LowerAll(name)
    requires word != [] && !IsSpace(word[0]) && LowerAll(word) == word
    requires name != [] && All(name, IsWordChar) && digits != [] && All(digits, IsDigit)
    ensures MatchStart(Normalize(text), ByUsername(word), ignoreCase).Some?
    ensures MatchStart(Normalize(text), ByUsername(word), ignoreCase).value.groups == [lowered, digits]
  {
    assert Normalize(text) == word + " @" + lowered + " " + digits by {
      NameTextNormalized(word, name, digits);
    }
    assert lowered != [] && All(lowered, IsWordChar) by {
      LowerKeepsWordChars(name);
    }
    NameFormMatches(word, lowered, digits, ignoreCase);
  }

  /** `отнять @name N` with no reply: the handler sees lower-cased text, so the lower-cased name is looked up. */
  lemma RevokeByNameText(text: string, name: string, digits: string, authorId: UserId, lookup: string -> Option<UserId>)
    requires text == RevokeWord + " @" + name + " " + digits
    requires name != [] && All(name, IsWordChar) && digits != [] && All(digits, IsDigit)
    ensures Interpret(Message(false, authorId, text, None), lookup) == ByNameRequest(false, LowerAll(name), digits, lookup)
  {
    var lowered := LowerAll(name);
    RevokeNameRouted(text, name, digits);
    WordsAreLower();
    LoweredNameMatches(text, RevokeWord, name, lowered, digits, false);
    RevokeByName(text, lowered, digits, authorId, lookup);
  }

  /** An `@username` grant whose name the directory does not know is refused, naming the user. */
  lemma UnknownNameIsNotFound(text: string, name: string, digits: string, authorId: UserId, lookup: string -> Option<UserId>)
    requires text == GrantWord + " @" + name + " " + digits
    requires name != [] && All(name, IsWordChar) && digits != [] && All(digits, IsDigit)
    requires DigitsValue(digits) > 0 && lookup(name).None?
    ensures Interpret(Message(false, authorId, text, None), lookup) == Refused(UserNotFound(name))
  {
    GrantByNameText(text, name, digits, authorId, lookup);
  }
}
