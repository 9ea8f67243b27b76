/** Two command lines with one secret each, followed through all the passes, that are reported with a count of two. */
module CountedTwice {
  import opened Models
  import opened Redact
  import opened RedactEdits
  import opened Retakes

  /** Where no word begins with the first letter of a key, pass four finds nothing. */
  lemma {:induction false} NoKeysNoHits(u: Unicode, chars: string, i: nat)
    requires i <= |chars|
    requires forall j :: i <= j < |chars| && AtWordStart(u, chars, j) ==> chars[j] !in "pPuU"
    ensures Connections(u, chars, i) == Kept(chars[i..])
    decreases |chars| - i
  {
    hide AtWordStart, FirstKeyHit, ConnectionSpans, Connections;
    if i == |chars| {
      ConnectionsEnd(u, chars);
    } else {
      NoKeysNoHits(u, chars, i + 1);
      ConnectionsStep(u, chars, i);
      if AtWordStart(u, chars, i) {
        NoKeyNoHit(u, chars, i, 0);
      }
      assert chars[i..] == [chars[i]] + chars[i + 1..];
    }
  }

  lemma {:induction false} NoKeyNoHit(u: Unicode, chars: string, i: nat, k: nat)
    requires i < |chars| && k <= |CONNECTION_KEYS| && chars[i] !in "pPuU"
    ensures FirstKeyHit(u, chars, i, k).None?
    decreases |CONNECTION_KEYS| - k
  {
    if k < |CONNECTION_KEYS| {
      var key := CONNECTION_KEYS[k];
      assert key[0] == 'p' || key[0] == 'u';
      assert ToAsciiLower(chars[i]) != key[0];
      assert MatchEnd(chars, i, key, 0).None?;
      hide MatchEnd;
      NoKeyNoHit(u, chars, i, k + 1);
    }
  }

  lemma Fronts(a: string, b: string, c: string, d: string, e: string)
    ensures Kept(a).Then(Kept(b).Then(Redaction(c + d + e, 1))) == Redaction((a + b + c) + d + e, 1)
  {
  }

  lemma NamelessOn(chars: string, i: nat)
    requires i < |chars| && VocabularyHit(ASCII, chars, i).None?
    ensures Vocabulary(ASCII, chars, i) == Kept([chars[i]]).Then(Vocabulary(ASCII, chars, i + 1))
  {
    hide VocabularyHit;
  }

  lemma CutOn(chars: string, i: nat, s: Span)
    requires i < |chars| && VocabularyHit(ASCII, chars, i) == Some(s) && s.from < s.to
    ensures Vocabulary(ASCII, chars, i) == Kept(chars[i..s.from]).Then(CUT).Then(Vocabulary(ASCII, chars, s.to))
  {
    hide VocabularyHit;
  }

  // ------------------------------------------------------ a query, its key ending in a name

  lemma QueryIsNameless()
    ensures VocabularyHit(ASCII, "?xpwd=a", 0).None? && VocabularyHit(ASCII, "?xpwd=a", 1).None?
  {
    UntilIs("?xpwd=a", 0, NotWordChar(ASCII), 0);
    hide Until, IsVocabWord;
  }

  lemma QueryIsNamed()
    ensures NamedAt(ASCII, "?xpwd=a", 2, 5)
  {
    PwdIsAName();
    hide IsVocabWord;
    assert "?xpwd=a"[2..5] == "pwd";
  }

  lemma QuerySecret()
    ensures var chars := "?xpwd=a";
            SpaceAt(ASCII, chars, 5, 5) && SpaceAt(ASCII, chars, 6, 6) && TokenAt(ASCII, chars, 6, 7)
            && !InQuotes(chars, 6)
  {
    NoQuotesNoParity("?xpwd=a", 6);
    hide InQuotes;
  }

  lemma QueryFirstPass()
    ensures Vocabulary(ASCII, "?xpwd=a", 0) == Redaction("?xpwd=" + REDACTED, 1)
  {
    hide VocabularyHit, NamedAt, SpaceAt, TokenAt, InQuotes, Vocabulary;
    var chars := "?xpwd=a";
    QueryIsNameless();
    QueryIsNamed();
    QuerySecret();
    NamedTokenIsFound(ASCII, chars, 2, 5, 5, 6, 7);
    NamelessTail(ASCII, chars, 7);
    NamelessOn(chars, 0);
    NamelessOn(chars, 1);
    CutOn(chars, 2, Span(6, 7));
    assert chars[2..6] == "pwd=" && chars[7..] == [];
    CutBetween("pwd=", []);
    Fronts("?", "x", "pwd=", REDACTED, []);
    assert "?" + "x" + "pwd=" == "?xpwd=" && "?xpwd=" + REDACTED + [] == "?xpwd=" + REDACTED;
  }

  lemma QueryScan()
    ensures var chars := "?xpwd=" + REDACTED;
            && |chars| == 16 && chars[1..5] == "xpwd" && chars[5] == '=' && chars[0..6] == "?xpwd=" && chars[16..] == []
            && Until(chars, 0, Either('?', '&')) == 0 && Until(chars, 1, QueryStop(ASCII)) == 5
            && Until(chars, 6, SpaceOr(ASCII, '&')) == 16 && Until(chars, 16, Either('?', '&')) == 16
  {
    var chars := "?xpwd=" + REDACTED;
    UntilIs(chars, 0, Either('?', '&'), 0);
    UntilIs(chars, 1, QueryStop(ASCII), 5);
    UntilIs(chars, 6, SpaceOr(ASCII, '&'), 16);
    UntilIs(chars, 16, Either('?', '&'), 16);
  }

  /** `xpwd` holds a credential's name, so the query half of pass three takes the token once more. */
  lemma QueryThirdPass()
    ensures QueryValues(ASCII, "?xpwd=" + REDACTED, 0) == Redaction("?xpwd=" + REDACTED, 1)
  {
    hide Until, IsVocabKey, QueryValues, QueryStop;
    var chars := "?xpwd=" + REDACTED;
    QueryScan();
    HoldsPwd();
    assert IsCutKey(chars, 0, 5);
    QueryValuesStep(ASCII, chars, 0, 0, 5, 16);
    QueryEnds(ASCII, chars, 16);
    CutBetween("?xpwd=", []);
    assert "?xpwd=" + REDACTED + [] == "?xpwd=" + REDACTED;
  }

  lemma HoldsPwd()
    ensures IsVocabKey("xpwd")
  {
    assert VOCAB[2] == "pwd" && "xpwd" == "x" + "pwd";
    var name := Normalized("pwd");
    NormalizedConcat("x", "pwd");
    assert name[..|name|] == name;
    assert Contains(name, name);
    ContainsOnTheRight(Normalized("x"), name, name);
  }

  lemma NoKeysBehindTheQuery()
    ensures Connections(ASCII, "?xpwd=" + REDACTED, 0) == Kept("?xpwd=" + REDACTED)
  {
    var chars := "?xpwd=" + REDACTED;
    assert chars[0..] == chars;
    NoKeysNoHits(ASCII, chars, 0);
  }

  /** One secret in a query, counted by pass one and again by pass three. */
  lemma QueryIsCountedTwice()
    ensures CommandLine(ASCII, "?xpwd=a", false) == Redaction("?xpwd=" + REDACTED, 2)
  {
    hide Vocabulary, OpaqueRuns, UserInfo, QueryValues, Connections;
    var line := "?xpwd=" + REDACTED;
    assert |line| == 16;
    QueryFirstPass();
    ShortLinesHoldNoRuns(ASCII, line);
    SlashlessHoldsNoUserInfo(line);
    QueryThirdPass();
    NoKeysBehindTheQuery();
    assert line + [] == line;
  }

  lemma SlashlessHoldsNoUserInfo(text: string)
    requires '/' !in text
    ensures UserInfo(text, 0) == Kept(text)
  {
    NoSlashNoScheme(text, 0);
    assert text[0..] == text;
  }

  // ------------------------------------------------ user information that names itself

  lemma UserIsNameless()
    ensures VocabularyHit(ASCII, "://pwd=\"a\"@h", 0).None? && VocabularyHit(ASCII, "://pwd=\"a\"@h", 1).None?
  {
    var chars := "://pwd=\"a\"@h";
    UntilIs(chars, 0, NotWordChar(ASCII), 0);
    UntilIs(chars, 2, NotWordChar(ASCII), 2);
    hide Until, IsVocabWord;
  }

  lemma HostIsNameless()
    ensures forall j :: 10 <= j < 12 ==> VocabularyHit(ASCII, "://pwd=\"a\"@h", j).None?
  {
    var chars := "://pwd=\"a\"@h";
    UntilIs(chars, 10, NotWordChar(ASCII), 10);
    UntilIs(chars, 11, NotWordChar(ASCII), 12);
    OneLetterIsNoName(chars[11..12]);
    hide Until, IsVocabWord;
  }

  lemma UserIsNamed()
    ensures NameEnd(ASCII, "://pwd=\"a\"@h", 3) == Some(6)
  {
    PwdIsAName();
    hide IsVocabWord;
    UntilIs("://pwd=\"a\"@h", 3, NotWordChar(ASCII), 6);
    assert "://pwd=\"a\"@h"[3..6] == "pwd";
  }

  lemma UserSecret(spaced: bool)
    ensures ValueAfter(ASCII, "://pwd=\"a\"@h", 6, spaced) == Some(Span(7, 10))
  {
    var chars := "://pwd=\"a\"@h";
    UntilIs(chars, 6, NotSpace(ASCII), 6);
    UntilIs(chars, 7, NotSpace(ASCII), 7);
    UntilIs(chars, 8, Is('"'), 9);
    assert !InQuotes(chars, 7);
    hide Until, InQuotes;
    assert ValueEnd(ASCII, chars, 7, false) == 10;
  }

  lemma UserIsFound()
    ensures VocabularyHit(ASCII, "://pwd=\"a\"@h", 2) == Some(Span(7, 10))
  {
    hide NameEnd, ValueAfter, TakesSpacedValue;
    var chars := "://pwd=\"a\"@h";
    assert PrefixLength(chars, 2) == 1;
    UserIsNamed();
    UserSecret(TakesSpacedValue(1, chars[3..6]));
  }

  lemma UserFirstPass()
    ensures Vocabulary(ASCII, "://pwd=\"a\"@h", 0) == Redaction("://pwd=" + REDACTED + "@h", 1)
  {
    hide VocabularyHit, Vocabulary;
    var chars := "://pwd=\"a\"@h";
    UserIsNameless();
    HostIsNameless();
    UserIsFound();
    NamelessOn(chars, 0);
    NamelessOn(chars, 1);
    CutOn(chars, 2, Span(7, 10));
    NamelessTail(ASCII, chars, 10);
    assert chars[2..7] == "/pwd=" && chars[10..] == "@h";
    CutBetween("/pwd=", "@h");
    Fronts(":", "/", "/pwd=", REDACTED, "@h");
    assert ":" + "/" + "/pwd=" == "://pwd=";
  }

  lemma UserScan()
    ensures var chars := "://pwd=" + REDACTED + "@h";
            && |chars| == 19 && chars[0..3] == "://" && chars[18..] == "h" && '?' !in chars && '&' !in chars
            && SchemeEnd(chars, 0) == Some(3) && SchemeEnd(chars, 18).None?
            && Until(chars, 3, Is('@')) == 17 && Until(chars, 3, Is('/')) == 19
  {
    var chars := "://pwd=" + REDACTED + "@h";
    assert SchemeAt(chars, 0);
    UntilIs(chars, 3, Is('@'), 17);
    UntilIs(chars, 3, Is('/'), 19);
    assert SchemeEnd(chars, 19).None? && !SchemeAt(chars, 18);
  }

  /** An `@` behind the token and no slash between: the whole of it is user information. */
  lemma UserThirdPass()
    ensures UserInfo("://pwd=" + REDACTED + "@h", 0) == Redaction("://" + REDACTED + "@h", 1)
  {
    hide Until, SchemeEnd;
    var chars := "://pwd=" + REDACTED + "@h";
    UserScan();
    assert UserInfoAfter(chars, 0, 3) == (Kept("://").Then(CUT).Then(Kept("@")), 18);
    assert UserInfo(chars, 18) == Kept("h");
    hide UserInfo, UserInfoAfter;
    CutAndGoOn("://", "@", Kept("h"));
    assert "@" + "h" == "@h";
  }

  lemma NoKeysBehindTheUser()
    ensures Connections(ASCII, "://" + REDACTED + "@h", 0) == Kept("://" + REDACTED + "@h")
    ensures QueryValues(ASCII, "://" + REDACTED + "@h", 0) == Kept("://" + REDACTED + "@h")
  {
    var chars := "://" + REDACTED + "@h";
    assert chars[0..] == chars;
    NoKeysNoHits(ASCII, chars, 0);
    UntilIs(chars, 0, Either('?', '&'), |chars|);
  }

  /** One secret in an authority, counted by pass one and again by pass three. */
  lemma UserInfoIsCountedTwice()
    ensures CommandLine(ASCII, "://pwd=\"a\"@h", false) == Redaction("://" + REDACTED + "@h", 2)
  {
    hide Vocabulary, OpaqueRuns, UserInfo, QueryValues, Connections;
    var line := "://pwd=" + REDACTED + "@h";
    assert |line| == 19;
    UserFirstPass();
    ShortLinesHoldNoRuns(ASCII, line);
    UserThirdPass();
    NoKeysBehindTheUser();
    assert "://" + REDACTED + "@h" + [] == "://" + REDACTED + "@h";
  }
}
