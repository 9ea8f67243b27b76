/**
 * The whole redaction as one edit of the line it was given, and when its count is more than the number of spans that
 * went: when a later pass cuts a token that an earlier one has put there.
 */
module Retakes {
  import opened Models
  import opened Redact
  import opened RedactEdits

  // ------------------------------------------------------------------ cut spans

  /** Spans in order, apart, and from `i` on. */
  predicate Lie(chars: string, spans: seq<Span>, i: nat) {
    if spans == [] then i <= |chars|
    else i <= spans[0].from <= spans[0].to <= |chars| && Lie(chars, spans[1..], spans[0].to)
  }

  /** The text from `i` on with each span replaced by the token. */
  function Spliced(chars: string, spans: seq<Span>, i: nat): string
    requires Lie(chars, spans, i)
    decreases |spans|
  {
    if spans == [] then chars[i..]
    else chars[i..spans[0].from] + REDACTED + Spliced(chars, spans[1..], spans[0].to)
  }

  lemma SplicedFrom(chars: string, spans: seq<Span>, i: nat, j: nat)
    requires i <= j <= |chars| && Lie(chars, spans, j)
    ensures Lie(chars, spans, i) && Spliced(chars, spans, i) == chars[i..j] + Spliced(chars, spans, j)
  {
    if spans == [] {
      assert chars[i..] == chars[i..j] + chars[j..];
    } else {
      var from, rest := spans[0].from, Spliced(chars, spans[1..], spans[0].to);
      assert Lie(chars, spans, i) && Spliced(chars, spans, i) == chars[i..from] + REDACTED + rest;
      assert Spliced(chars, spans, j) == chars[j..from] + REDACTED + rest;
      hide Lie, Spliced;
      assert chars[i..from] == chars[i..j] + chars[j..from];
      Regroup(chars[i..j], chars[j..from], REDACTED, rest);
    }
  }

  lemma Regroup(a: string, b: string, c: string, d: string)
    ensures (a + b) + c + d == a + (b + c + d)
  {
  }

  lemma NothingSpliced(chars: string, i: nat)
    requires i <= |chars|
    ensures Lie(chars, [], i) && Spliced(chars, [], i) == chars[i..]
  {
  }

  lemma OneMoreSpan(chars: string, s: Span, rest: seq<Span>, i: nat)
    requires i <= s.from <= s.to <= |chars| && Lie(chars, rest, s.to)
    ensures Lie(chars, [s] + rest, i)
    ensures Spliced(chars, [s] + rest, i) == chars[i..s.from] + REDACTED + Spliced(chars, rest, s.to)
  {
    assert ([s] + rest)[1..] == rest;
  }

  /** The token that stands at `t` lies in one of the spans. */
  predicate Takes(spans: seq<Span>, t: nat) {
    exists s :: s in spans && s.from <= t && t + |REDACTED| <= s.to
  }

  lemma SpansStartFrom(chars: string, spans: seq<Span>, i: nat, s: Span)
    requires Lie(chars, spans, i) && s in spans
    ensures i <= s.from <= s.to <= |chars|
    decreases |spans|
  {
    if s != spans[0] {
      SpansStartFrom(chars, spans[1..], spans[0].to, s);
    }
  }

  // ------------------------------------------------------------ user information

  function UserInfoSpans(chars: string, i: nat): seq<Span>
    requires i <= |chars|
    decreases |chars| - i
  {
    match SchemeEnd(chars, i)
    case None => []
    case Some(start) =>
      var at, slash := Until(chars, start, Is('@')), Until(chars, start, Is('/'));
      if at < |chars| && at < slash then [Span(start, at)] + UserInfoSpans(chars, at + 1)
      else UserInfoSpans(chars, start)
  }

  /** A scheme's `://` ends at `start`. */
  predicate SchemeEndsAt(chars: string, start: nat) {
    3 <= start && SchemeAt(chars, start - 3)
  }

  /** An authority's user information: after `://`, up to an `@` that comes before any slash or other `@`. */
  predicate IsUserInfo(chars: string, s: Span) {
    && SchemeEndsAt(chars, s.from) && s.from <= s.to < |chars| && chars[s.to] == '@'
    && forall k :: s.from <= k < s.to ==> chars[k] != '@' && chars[k] != '/'
  }

  lemma {:induction false} SchemeEndIsFirst(chars: string, i: nat)
    requires i <= |chars|
    ensures SchemeEnd(chars, i).Some? ==>
              var e := SchemeEnd(chars, i).value;
              i + 3 <= e && SchemeEndsAt(chars, e) && forall k :: i <= k < e - 3 ==> !SchemeAt(chars, k)
    ensures SchemeEnd(chars, i).None? ==> forall k :: i <= k ==> !SchemeAt(chars, k)
    decreases |chars| - i
  {
    if i < |chars| && !SchemeAt(chars, i) {
      SchemeEndIsFirst(chars, i + 1);
    }
  }

  lemma UserInfoStep(chars: string, i: nat)
    requires i <= |chars|
    ensures SchemeEnd(chars, i).None? ==> UserInfoSpans(chars, i) == [] && UserInfo(chars, i) == Kept(chars[i..])
    ensures SchemeEnd(chars, i).Some? ==>
              var start := SchemeEnd(chars, i).value;
              var at, slash := Until(chars, start, Is('@')), Until(chars, start, Is('/'));
              if at < |chars| && at < slash then
                && UserInfoSpans(chars, i) == [Span(start, at)] + UserInfoSpans(chars, at + 1)
                && UserInfo(chars, i) == Kept(chars[i..start]).Then(CUT).Then(Kept("@")).Then(UserInfo(chars, at + 1))
              else
                && UserInfoSpans(chars, i) == UserInfoSpans(chars, start)
                && UserInfo(chars, i) == Kept(chars[i..start]).Then(UserInfo(chars, start))
  {
    hide Until, SchemeEnd;
  }

  lemma ReadsUserInfo(chars: string, start: nat, at: nat)
    requires SchemeEndsAt(chars, start) && start <= |chars|
    requires at == Until(chars, start, Is('@')) < |chars| && at < Until(chars, start, Is('/'))
    ensures IsUserInfo(chars, Span(start, at))
  {
    hide SchemeAt;
  }

  lemma {:induction false} UserInfoIsSpliced(chars: string, i: nat)
    requires i <= |chars|
    ensures var spans := UserInfoSpans(chars, i);
            && Lie(chars, spans, i) && UserInfo(chars, i) == Redaction(Spliced(chars, spans, i), |spans|)
            && forall s :: s in spans ==> IsUserInfo(chars, s)
    decreases |chars| - i
  {
    hide SchemeEndsAt, SchemeEnd, Until, Lie, Spliced, UserInfo, UserInfoSpans, IsUserInfo;
    UserInfoStep(chars, i);
    SchemeEndIsFirst(chars, i);
    match SchemeEnd(chars, i) {
      case None => NothingSpliced(chars, i);
      case Some(start) =>
        var at, slash := Until(chars, start, Is('@')), Until(chars, start, Is('/'));
        if at < |chars| && at < slash {
          var rest := UserInfoSpans(chars, at + 1);
          UserInfoIsSpliced(chars, at + 1);
          SplicedFrom(chars, rest, at, at + 1);
          assert chars[at..at + 1] == "@";
          ReadsUserInfo(chars, start, at);
          OneMoreSpan(chars, Span(start, at), rest, i);
          CutAndGoOn(chars[i..start], "@", UserInfo(chars, at + 1));
        } else {
          UserInfoIsSpliced(chars, start);
          SplicedFrom(chars, UserInfoSpans(chars, start), i, start);
        }
    }
  }

  lemma CutAndGoOn(before: string, after: string, rest: Redaction)
    ensures Kept(before).Then(CUT).Then(Kept(after)).Then(rest)
            == Redaction(before + REDACTED + (after + rest.text), rest.count + 1)
  {
  }

  /**
   * The first half of pass three takes a token again exactly when it stands in an authority with an `@` after it before
   * any slash.
   */
  lemma TakenByUserInfoIff(chars: string, t: nat)
    requires StandsAt(chars, t)
    ensures Takes(UserInfoSpans(chars, 0), t)
            <==> exists s :: IsUserInfo(chars, s) && s.from <= t && t + |REDACTED| <= s.to
  {
    UserInfoIsSpliced(chars, 0);
    if s :| IsUserInfo(chars, s) && s.from <= t && t + |REDACTED| <= s.to {
      UserInfoIsReached(chars, 0, s);
    }
  }

  /** A scheme found on the way to another ends well before it begins, and so does any user information it has. */
  lemma EarlierSchemes(chars: string, i: nat, start: nat, s: Span)
    requires IsUserInfo(chars, s) && i <= s.from - 3 && start <= |chars|
    requires i + 3 <= start && SchemeEndsAt(chars, start) && start <= s.from
    ensures var at, slash := Until(chars, start, Is('@')), Until(chars, start, Is('/'));
            if start == s.from then at == s.to < |chars| && at < slash
            else start <= s.from - 3 && (at < slash ==> at + 1 <= s.from - 3)
  {
    SchemeLetters(chars, start - 3);
    SchemeLetters(chars, s.from - 3);
    hide SchemeAt;
    var at, slash := Until(chars, start, Is('@')), Until(chars, start, Is('/'));
    if start == s.from {
      UntilIs(chars, start, Is('@'), s.to);
    } else {
      hide Until;
      assert slash <= s.from - 2;
    }
  }

  lemma {:induction false} UserInfoIsReached(chars: string, i: nat, s: Span)
    requires IsUserInfo(chars, s) && i <= s.from - 3
    ensures s in UserInfoSpans(chars, i)
    decreases |chars| - i
  {
    hide SchemeAt, SchemeEnd, Until, UserInfoSpans, UserInfo;
    SchemeEndIsFirst(chars, i);
    UserInfoStep(chars, i);
    assert SchemeAt(chars, s.from - 3);
    var start := SchemeEnd(chars, i).value;
    EarlierSchemes(chars, i, start, s);
    hide IsUserInfo;
    var at, slash := Until(chars, start, Is('@')), Until(chars, start, Is('/'));
    if start < s.from {
      UserInfoIsReached(chars, if at < |chars| && at < slash then at + 1 else start, s);
    }
  }

  lemma SchemeLetters(chars: string, i: nat)
    requires SchemeAt(chars, i)
    ensures chars[i] == ':' && chars[i + 1] == '/' && chars[i + 2] == '/'
  {
    assert chars[i] == chars[i..i + 3][0] && chars[i + 1] == chars[i..i + 3][1] && chars[i + 2] == chars[i..i + 3][2];
  }

  // --------------------------------------------------------------- query values

  /** White space is neither part of the token nor an equals sign: so it is in Unicode's tables. */
  predicate Usual(u: Unicode) {
    !u.isWhitespace('=') && forall c :: c in REDACTED ==> !u.isWhitespace(c)
  }

  function QueryStop(u: Unicode): char -> bool {
    SpaceOrEither(u, '=', '&')
  }

  function QuerySpans(u: Unicode, chars: string, i: nat): seq<Span>
    requires i <= |chars|
    decreases |chars| - i
  {
    var separator := Until(chars, i, Either('?', '&'));
    if separator == |chars| then []
    else
      var keyEnd := Until(chars, separator + 1, QueryStop(u));
      if IsCutKey(chars, separator, keyEnd) then
        var end := Until(chars, keyEnd + 1, SpaceOr(u, '&'));
        [Span(keyEnd + 1, end)] + QuerySpans(u, chars, end)
      else QuerySpans(u, chars, keyEnd)
  }

  predicate IsCutKey(chars: string, separator: nat, keyEnd: nat) {
    separator < keyEnd < |chars| && chars[keyEnd] == '=' && IsVocabKey(chars[separator + 1..keyEnd])
  }

  /** A key that holds a vocabulary word, from a `?` or `&` at `p` to its equals sign at `e`. */
  predicate IsQueryKey(u: Unicode, chars: string, p: nat, e: nat) {
    && IsCutKey(chars, p, e) && (chars[p] == '?' || chars[p] == '&')
    && forall k :: p < k < e ==> !QueryStop(u)(chars[k])
  }

  /** A stretch without space or `&`. */
  predicate Unbroken(u: Unicode, chars: string, from: nat, to: nat) {
    to <= |chars| && forall k :: from <= k < to ==> !SpaceOr(u, '&')(chars[k])
  }

  ghost predicate KeyEndsAt(u: Unicode, chars: string, e: nat) {
    exists p: nat :: IsQueryKey(u, chars, p, e)
  }

  ghost predicate IsQueryValue(u: Unicode, chars: string, s: Span) {
    && 0 < s.from <= s.to <= |chars| && chars[s.from - 1] == '='
    && Unbroken(u, chars, s.from, s.to) && (s.to < |chars| ==> SpaceOr(u, '&')(chars[s.to]))
    && KeyEndsAt(u, chars, s.from - 1)
  }

  /** Where the scan goes on after a key. */
  function QueryNext(u: Unicode, chars: string, separator: nat): (next: nat)
    requires separator < |chars|
    ensures separator < next <= |chars|
    ensures var keyEnd := Until(chars, separator + 1, QueryStop(u));
            keyEnd < next <==> IsCutKey(chars, separator, keyEnd)
  {
    var keyEnd := Until(chars, separator + 1, QueryStop(u));
    if IsCutKey(chars, separator, keyEnd) then Until(chars, keyEnd + 1, SpaceOr(u, '&')) else keyEnd
  }

  lemma QuerySpansStep(u: Unicode, chars: string, i: nat, separator: nat, keyEnd: nat, next: nat)
    requires i <= |chars| && separator == Until(chars, i, Either('?', '&')) && separator < |chars|
    requires keyEnd == Until(chars, separator + 1, QueryStop(u)) && next == QueryNext(u, chars, separator)
    ensures IsCutKey(chars, separator, keyEnd) ==>
              QuerySpans(u, chars, i) == [Span(keyEnd + 1, next)] + QuerySpans(u, chars, next)
    ensures !IsCutKey(chars, separator, keyEnd) ==> QuerySpans(u, chars, i) == QuerySpans(u, chars, next)
  {
    hide Until, IsCutKey;
  }

  lemma QueryValuesStep(u: Unicode, chars: string, i: nat, separator: nat, keyEnd: nat, next: nat)
    requires i <= |chars| && separator == Until(chars, i, Either('?', '&')) && separator < |chars|
    requires keyEnd == Until(chars, separator + 1, QueryStop(u)) && next == QueryNext(u, chars, separator)
    ensures IsCutKey(chars, separator, keyEnd) ==>
              QueryValues(u, chars, i) == Kept(chars[i..keyEnd + 1]).Then(CUT).Then(QueryValues(u, chars, next))
    ensures !IsCutKey(chars, separator, keyEnd) ==>
              QueryValues(u, chars, i) == Kept(chars[i..keyEnd]).Then(QueryValues(u, chars, next))
  {
    QueryPartIs(u, chars, i, separator, keyEnd, next);
    hide Until, IsCutKey, QueryValueAfter;
  }

  lemma QueryPartIs(u: Unicode, chars: string, i: nat, separator: nat, keyEnd: nat, next: nat)
    requires i <= separator < |chars|
    requires keyEnd == Until(chars, separator + 1, QueryStop(u)) && next == QueryNext(u, chars, separator)
    ensures QueryValueAfter(u, chars, i, separator)
            == if IsCutKey(chars, separator, keyEnd) then (Kept(chars[i..keyEnd + 1]).Then(CUT), next)
               else (Kept(chars[i..keyEnd]), next)
  {
    hide Until, IsVocabKey;
  }

  lemma QueryEnds(u: Unicode, chars: string, i: nat)
    requires i <= |chars| && Until(chars, i, Either('?', '&')) == |chars|
    ensures QuerySpans(u, chars, i) == [] && QueryValues(u, chars, i) == Kept(chars[i..])
  {
  }

  lemma {:induction false} QueryIsSpliced(u: Unicode, chars: string, i: nat)
    requires i <= |chars|
    ensures var spans := QuerySpans(u, chars, i);
            Lie(chars, spans, i) && QueryValues(u, chars, i) == Redaction(Spliced(chars, spans, i), |spans|)
    decreases |chars| - i
  {
    hide Until, Lie, Spliced, IsCutKey, QuerySpans, QueryValues, QueryStop;
    var separator := Until(chars, i, Either('?', '&'));
    if separator == |chars| {
      QueryEnds(u, chars, i);
      NothingSpliced(chars, i);
    } else {
      var keyEnd, next := Until(chars, separator + 1, QueryStop(u)), QueryNext(u, chars, separator);
      QuerySpansStep(u, chars, i, separator, keyEnd, next);
      QueryValuesStep(u, chars, i, separator, keyEnd, next);
      QueryIsSpliced(u, chars, next);
      var rest := QuerySpans(u, chars, next);
      if keyEnd < next {
        OneMoreSpan(chars, Span(keyEnd + 1, next), rest, i);
        CutAndStay(chars[i..keyEnd + 1], QueryValues(u, chars, next));
      } else {
        SplicedFrom(chars, rest, i, next);
      }
    }
  }

  lemma {:induction false} QuerySpansAreValues(u: Unicode, chars: string, i: nat)
    requires i <= |chars|
    ensures forall s :: s in QuerySpans(u, chars, i) ==> IsQueryValue(u, chars, s)
    decreases |chars| - i
  {
    hide Until, IsVocabKey, IsQueryValue, QuerySpans;
    var separator := Until(chars, i, Either('?', '&'));
    if separator == |chars| {
      QueryEnds(u, chars, i);
    } else {
      var keyEnd, next := Until(chars, separator + 1, QueryStop(u)), QueryNext(u, chars, separator);
      QuerySpansStep(u, chars, i, separator, keyEnd, next);
      QuerySpansAreValues(u, chars, next);
      if IsCutKey(chars, separator, keyEnd) {
        ReadsAValue(u, chars, separator, Span(keyEnd + 1, next));
      }
    }
  }

  lemma CutAndStay(before: string, rest: Redaction)
    ensures Kept(before).Then(CUT).Then(rest) == Redaction(before + REDACTED + rest.text, rest.count + 1)
  {
  }

  lemma ReadsAValue(u: Unicode, chars: string, p: nat, s: Span)
    requires 0 < s.from && IsQueryKey(u, chars, p, s.from - 1)
    requires s.to == Until(chars, s.from, SpaceOr(u, '&'))
    ensures IsQueryValue(u, chars, s)
  {
  }

  lemma {:induction false} NormalizedConcat(a: string, b: string)
    ensures Normalized(a + b) == Normalized(a) + Normalized(b)
  {
    if a == [] {
      assert a + b == b;
    } else {
      NormalizedConcat(a[1..], b);
      assert (a + b)[0] == a[0] && (a + b)[1..] == a[1..] + b;
      var first := if a[0] == '_' || a[0] == '-' then [] else [ToAsciiLower(a[0])];
      assert Normalized(a) == first + Normalized(a[1..]) && Normalized(a + b) == first + Normalized(a[1..] + b);
      hide Normalized;
      JoinsUp(first, Normalized(a[1..]), Normalized(b));
    }
  }

  lemma {:induction false} ContainsOnTheRight(a: string, b: string, t: string)
    requires Contains(b, t)
    ensures Contains(a + b, t)
  {
    if a == [] {
      assert a + b == b;
    } else {
      ContainsOnTheRight(a[1..], b, t);
      assert (a + b)[1..] == a[1..] + b;
      LongEnough(b, t);
    }
  }

  lemma {:induction false} LongEnough(b: string, t: string)
    requires Contains(b, t)
    ensures |t| <= |b|
  {
  }

  /** A longer key holds whatever a shorter one at its end does. */
  lemma LongerKeys(a: string, b: string)
    requires IsVocabKey(b)
    ensures IsVocabKey(a + b)
  {
    var v :| v in VOCAB && Contains(Normalized(b), Normalized(v));
    NormalizedConcat(a, b);
    ContainsOnTheRight(Normalized(a), Normalized(b), Normalized(v));
  }

  /**
   * From a key at `p` to its equals sign there is one key, and the scan that has come no farther finds it or a longer.
   */
  lemma KeyIsRead(u: Unicode, chars: string, first: nat, p: nat, e: nat)
    requires first <= p && IsQueryKey(u, chars, p, e) && p < Until(chars, first + 1, QueryStop(u))
    ensures Until(chars, first + 1, QueryStop(u)) == e && IsCutKey(chars, first, e)
  {
    hide IsVocabKey;
    assert QueryStop(u)('=');
    UntilIs(chars, first + 1, QueryStop(u), e);
    assert chars[first + 1..e] == chars[first + 1..p + 1] + chars[p + 1..e];
    LongerKeys(chars[first + 1..p + 1], chars[p + 1..e]);
  }

  /** The token that stands at `t` in the value of the key that ends at `e`. */
  ghost predicate InQueryValue(u: Unicode, chars: string, e: nat, t: nat) {
    KeyEndsAt(u, chars, e) && e < t && Unbroken(u, chars, e + 1, t + |REDACTED|)
  }

  lemma NoStopWithin(u: Unicode, chars: string, p: nat, e: nat, to: nat, k: nat)
    requires Usual(u) && IsQueryKey(u, chars, p, e) && Unbroken(u, chars, e + 1, to) && p < k < to
    ensures !SpaceOr(u, '&')(chars[k])
  {
    hide IsVocabKey;
  }

  /** A value that begins before a key and ends after it ends no sooner than that key's value. */
  lemma ValuesOverlap(u: Unicode, chars: string, from: nat, p: nat, e: nat, to: nat)
    requires Usual(u) && from <= p && IsQueryKey(u, chars, p, e) && Unbroken(u, chars, e + 1, to) && e < to
    requires p < Until(chars, from, SpaceOr(u, '&'))
    ensures to <= Until(chars, from, SpaceOr(u, '&'))
  {
    hide Until, IsVocabKey;
    var end := Until(chars, from, SpaceOr(u, '&'));
    if end < to {
      NoStopWithin(u, chars, p, e, to, end);
    }
  }

  lemma {:induction false} QueryValueIsReached(u: Unicode, chars: string, i: nat, p: nat, e: nat, t: nat)
    requires Usual(u) && i <= p <= |chars| && IsQueryKey(u, chars, p, e)
    requires e < t && Unbroken(u, chars, e + 1, t + |REDACTED|)
    ensures Takes(QuerySpans(u, chars, i), t)
    decreases |chars| - i
  {
    hide QuerySpans, Takes, IsCutKey, Until, Unbroken, IsQueryKey, QueryStop;
    var first := Until(chars, i, Either('?', '&'));
    SeparatorsAreFound(u, chars, i, p, e);
    var keyEnd, next := Until(chars, first + 1, QueryStop(u)), QueryNext(u, chars, first);
    QuerySpansStep(u, chars, i, first, keyEnd, next);
    if keyEnd > p {
      KeyIsRead(u, chars, first, p, e);
      ReachesOn(u, chars, e + 1, t + |REDACTED|);
      TakenFirst(Span(e + 1, next), QuerySpans(u, chars, next), t);
    } else if next <= p {
      QueryValueIsReached(u, chars, next, p, e, t);
      if IsCutKey(chars, first, keyEnd) {
        TakenLater(Span(keyEnd + 1, next), QuerySpans(u, chars, next), t);
      }
    } else {
      KeyIsNotAnEquals(u, chars, p, e, first, keyEnd);
      ValuesOverlap(u, chars, keyEnd + 1, p, e, t + |REDACTED|);
      TakenFirst(Span(keyEnd + 1, next), QuerySpans(u, chars, next), t);
    }
  }

  lemma SeparatorsAreFound(u: Unicode, chars: string, i: nat, p: nat, e: nat)
    requires i <= p && IsQueryKey(u, chars, p, e)
    ensures i <= Until(chars, i, Either('?', '&')) <= p < e < |chars|
  {
    hide IsVocabKey;
  }

  lemma KeyIsNotAnEquals(u: Unicode, chars: string, p: nat, e: nat, first: nat, at: nat)
    requires IsQueryKey(u, chars, p, e) && at <= p && IsCutKey(chars, first, at)
    ensures at + 1 <= p
  {
    hide IsVocabKey, QueryStop;
  }

  lemma ReachesOn(u: Unicode, chars: string, from: nat, to: nat)
    requires Unbroken(u, chars, from, to) && from <= to
    ensures to <= Until(chars, from, SpaceOr(u, '&'))
  {
  }

  lemma TakenFirst(s: Span, rest: seq<Span>, t: nat)
    requires s.from <= t && t + |REDACTED| <= s.to
    ensures Takes([s] + rest, t)
  {
    assert s in [s] + rest;
  }

  lemma TakenLater(s: Span, rest: seq<Span>, t: nat)
    requires Takes(rest, t)
    ensures Takes([s] + rest, t)
  {
    var r :| r in rest && r.from <= t && t + |REDACTED| <= r.to;
    assert r in [s] + rest;
  }

  /**
   * The second half of pass three takes a token again exactly when it stands in the value of a `?` or `&` key that
   * holds a vocabulary word, with no space and no `&` up to its end.
   */
  lemma TakenByQueryIff(u: Unicode, chars: string, t: nat)
    requires Usual(u) && StandsAt(chars, t)
    ensures Takes(QuerySpans(u, chars, 0), t) <==> exists e: nat :: InQueryValue(u, chars, e, t)
  {
    QuerySpansAreValues(u, chars, 0);
    hide QuerySpans, IsQueryKey;
    if Takes(QuerySpans(u, chars, 0), t) {
      var s :| s in QuerySpans(u, chars, 0) && s.from <= t && t + |REDACTED| <= s.to;
      assert IsQueryValue(u, chars, s);
      assert InQueryValue(u, chars, s.from - 1, t);
    }
    if e: nat :| InQueryValue(u, chars, e, t) {
      var p: nat :| IsQueryKey(u, chars, p, e);
      QueryValueIsReached(u, chars, 0, p, e, t);
    }
  }

  // --------------------------------------------------------- connection strings

  function ConnectionHit(u: Unicode, chars: string, i: nat): (hit: Option<Span>)
    requires i < |chars|
    ensures hit.Some? ==> i < hit.value.from < hit.value.to <= |chars|
  {
    if AtWordStart(u, chars, i) then FirstKeyHit(u, chars, i, 0) else None
  }

  function ConnectionSpans(u: Unicode, chars: string, i: nat): seq<Span>
    requires i <= |chars|
    decreases |chars| - i
  {
    if i == |chars| then []
    else
      var hit := ConnectionHit(u, chars, i);
      if hit.Some? then [hit.value] + ConnectionSpans(u, chars, hit.value.to) else ConnectionSpans(u, chars, i + 1)
  }

  /** A value of pass four: after an equals sign and perhaps space, and ended by what ends such values. */
  predicate IsConnectionValue(u: Unicode, chars: string, s: Span) {
    && 0 < s.from < s.to <= |chars| && (chars[s.from - 1] == '=' || u.isWhitespace(chars[s.from - 1]))
    && (s.to < |chars| ==> chars[s.to] == ';' || chars[s.to] == '"' || u.isWhitespace(chars[s.to]))
  }

  lemma KeyHitIsAValue(u: Unicode, chars: string, i: nat, key: string)
    requires i < |chars| && KeyHit(u, chars, i, key).Some?
    ensures IsConnectionValue(u, chars, KeyHit(u, chars, i, key).value)
  {
    hide MatchEnd, WholeWordEnds, InQuotes;
    var eq := Until(chars, i + |key|, NotSpace(u));
    var from := Until(chars, eq + 1, NotSpace(u));
    assert from == eq + 1 || !NotSpace(u)(chars[from - 1]);
    var inside := InQuotes(chars, from);
    var regionEnd := if inside then Until(chars, from, Is('"')) else |chars|;
    SemicolonIsFirst(chars, from, regionEnd, inside);
    hide Until, Semicolon;
  }

  lemma {:induction false} HitIsAValue(u: Unicode, chars: string, i: nat, k: nat)
    requires i < |chars| && k <= |CONNECTION_KEYS| && FirstKeyHit(u, chars, i, k).Some?
    ensures IsConnectionValue(u, chars, FirstKeyHit(u, chars, i, k).value)
    decreases |CONNECTION_KEYS| - k
  {
    hide KeyHit, IsConnectionValue;
    if KeyHit(u, chars, i, CONNECTION_KEYS[k]).Some? {
      KeyHitIsAValue(u, chars, i, CONNECTION_KEYS[k]);
    } else {
      HitIsAValue(u, chars, i, k + 1);
    }
  }

  lemma ConnectionsStep(u: Unicode, chars: string, i: nat)
    requires i < |chars|
    ensures var hit := ConnectionHit(u, chars, i);
            && (hit.Some? ==>
                  && ConnectionSpans(u, chars, i) == [hit.value] + ConnectionSpans(u, chars, hit.value.to)
                  && Connections(u, chars, i)
                     == Kept(chars[i..hit.value.from]).Then(CUT).Then(Connections(u, chars, hit.value.to)))
            && (hit.None? ==>
                  && ConnectionSpans(u, chars, i) == ConnectionSpans(u, chars, i + 1)
                  && Connections(u, chars, i) == Kept([chars[i]]).Then(Connections(u, chars, i + 1)))
  {
    hide FirstKeyHit;
  }

  lemma ConnectionsEnd(u: Unicode, chars: string)
    ensures ConnectionSpans(u, chars, |chars|) == [] && Connections(u, chars, |chars|) == Kept(chars[|chars|..])
  {
  }

  lemma ConnectionHitIsAValue(u: Unicode, chars: string, i: nat)
    requires i < |chars| && ConnectionHit(u, chars, i).Some?
    ensures IsConnectionValue(u, chars, ConnectionHit(u, chars, i).value)
  {
    hide IsConnectionValue, FirstKeyHit;
    HitIsAValue(u, chars, i, 0);
  }

  lemma {:induction false} ConnectionsAreSpliced(u: Unicode, chars: string, i: nat)
    requires i <= |chars|
    ensures var spans := ConnectionSpans(u, chars, i);
            && Lie(chars, spans, i) && Connections(u, chars, i) == Redaction(Spliced(chars, spans, i), |spans|)
            && forall s :: s in spans ==> IsConnectionValue(u, chars, s)
    decreases |chars| - i
  {
    hide ConnectionSpans, Connections, ConnectionHit, Lie, Spliced, IsConnectionValue, AtWordStart, FirstKeyHit;
    if i == |chars| {
      ConnectionsEnd(u, chars);
      NothingSpliced(chars, i);
    } else {
      ConnectionsStep(u, chars, i);
      var hit := ConnectionHit(u, chars, i);
      if hit.Some? {
        var rest := ConnectionSpans(u, chars, hit.value.to);
        ConnectionHitIsAValue(u, chars, i);
        ConnectionsAreSpliced(u, chars, hit.value.to);
        OneMoreSpan(chars, hit.value, rest, i);
        CutAndStay(chars[i..hit.value.from], Connections(u, chars, hit.value.to));
      } else {
        ConnectionsAreSpliced(u, chars, i + 1);
        SplicedFrom(chars, ConnectionSpans(u, chars, i + 1), i, i + 1);
        assert chars[i..i + 1] == [chars[i]];
      }
    }
  }

  /** The scan that stands at `i` comes to `j`: it goes from letter to letter, and past each value it cuts. */
  predicate ComesTo(u: Unicode, chars: string, i: nat, j: nat)
    requires i <= |chars|
    decreases |chars| - i
  {
    i == j || (i < |chars| &&
               var hit := ConnectionHit(u, chars, i);
               ComesTo(u, chars, if hit.Some? then hit.value.to else i + 1, j))
  }

  /**
   * One of pass four's keys stands at `j`, where a word begins, and the value behind it holds the token at `t` and
   * more.
   */
  predicate HoldsMore(u: Unicode, chars: string, j: nat, t: nat) {
    j < |chars| && var hit := ConnectionHit(u, chars, j);
                   hit.Some? && hit.value.from <= t && t + |REDACTED| <= hit.value.to
  }

  /**
   * Pass four takes a token again exactly when its scan comes to a key whose value holds the token, and is not the
   * token alone. TokenIsCountedAgainIff says when that is for a token right behind a key.
   */
  lemma {:induction false} TakenByConnectionsIff(u: Unicode, chars: string, i: nat, t: nat)
    requires i <= |chars|
    ensures Takes(ConnectionSpans(u, chars, i), t) <==> exists j :: ComesTo(u, chars, i, j) && HoldsMore(u, chars, j, t)
    decreases |chars| - i
  {
    hide ConnectionSpans, Connections, ConnectionHit, ComesTo, HoldsMore, Takes;
    if i == |chars| {
      ConnectionsEnd(u, chars);
      NothingTaken(t);
      forall j | ComesTo(u, chars, i, j)
        ensures !HoldsMore(u, chars, j, t)
      {
        ComesOn(u, chars, i, j);
        HoldsInside(u, chars, j, t);
      }
    } else {
      ConnectionsStep(u, chars, i);
      HoldsInside(u, chars, i, t);
      var hit := ConnectionHit(u, chars, i);
      var next := if hit.Some? then hit.value.to else i + 1;
      TakenByConnectionsIff(u, chars, next, t);
      if hit.Some? {
        TakenOneByOne(hit.value, ConnectionSpans(u, chars, next), t);
      }
      forall j
        ensures ComesTo(u, chars, i, j) <==> j == i || ComesTo(u, chars, next, j)
      {
        ComesOn(u, chars, i, j);
      }
    }
  }

  lemma NothingTaken(t: nat)
    ensures !Takes([], t)
  {
  }

  lemma ComesOn(u: Unicode, chars: string, i: nat, j: nat)
    requires i <= |chars|
    ensures i == |chars| ==> (ComesTo(u, chars, i, j) <==> j == i)
    ensures i < |chars| ==>
              var hit := ConnectionHit(u, chars, i);
              (ComesTo(u, chars, i, j) <==> j == i || ComesTo(u, chars, if hit.Some? then hit.value.to else i + 1, j))
  {
    hide ConnectionHit;
  }

  lemma HoldsInside(u: Unicode, chars: string, j: nat, t: nat)
    ensures HoldsMore(u, chars, j, t) <==>
              j < |chars| && ConnectionHit(u, chars, j).Some?
              && ConnectionHit(u, chars, j).value.from <= t && t + |REDACTED| <= ConnectionHit(u, chars, j).value.to
  {
    hide ConnectionHit;
  }

  lemma TakenOneByOne(s: Span, rest: seq<Span>, t: nat)
    ensures Takes([s] + rest, t) <==> (s.from <= t && t + |REDACTED| <= s.to) || Takes(rest, t)
  {
    if s.from <= t && t + |REDACTED| <= s.to {
      TakenFirst(s, rest, t);
    }
    if Takes(rest, t) {
      TakenLater(s, rest, t);
    }
  }

  // ---------------------------------------------------------------- opaque runs

  /** A run that pass two may cut. */
  predicate IsOpaqueRun(u: Unicode, chars: string, s: Span) {
    s.from <= s.to <= |chars| && MayCut(ForOpaqueRuns, u, chars[s.from..s.to])
  }

  lemma {:induction false} PiecesAreSpans(u: Unicode, pieces: seq<Piece>, chars: string, i: nat)
    returns (spans: seq<Span>)
    requires i <= |chars| && Original(pieces) == chars[i..]
    requires forall p :: p in pieces && p.Cut? ==> MayCut(ForOpaqueRuns, u, p.text)
    ensures Lie(chars, spans, i) && Spliced(chars, spans, i) == Rewritten(pieces) && |spans| == Cuts(pieces)
    ensures forall s :: s in spans ==> IsOpaqueRun(u, chars, s)
  {
    hide MayCut, Lie, Spliced;
    if pieces == [] {
      spans := [];
      NothingSpliced(chars, i);
    } else {
      var first, j := pieces[0], i + |pieces[0].text|;
      assert chars[i..j] == first.text by {
        assert chars[i..][..|first.text|] == chars[i..j];
      }
      assert Original(pieces[1..]) == chars[j..] by {
        assert chars[i..][|first.text|..] == chars[j..];
      }
      assert Rewritten(pieces) == (if first.Cut? then REDACTED else first.text) + Rewritten(pieces[1..]);
      hide Original, Rewritten;
      assert forall p :: p in pieces[1..] ==> p in pieces;
      var rest := PiecesAreSpans(u, pieces[1..], chars, j);
      if first.Cut? {
        spans := [Span(i, j)] + rest;
        OneMoreSpan(chars, Span(i, j), rest, i);
        assert chars[i..i] == [] && [] + REDACTED == REDACTED;
      } else {
        spans := rest;
        SplicedFrom(chars, rest, i, j);
      }
    }
  }

  lemma OpaqueRunsAreSpliced(u: Unicode, chars: string) returns (spans: seq<Span>)
    ensures Lie(chars, spans, 0) && OpaqueRuns(u, chars, 0) == Redaction(Spliced(chars, spans, 0), |spans|)
    ensures forall s :: s in spans ==> IsOpaqueRun(u, chars, s)
  {
    hide OpaqueRuns, MayCut, Lie, Spliced;
    OpaqueRunsAreAnEdit(u, chars, 0);
    assert chars[0..] == chars;
    var pieces :| Splits(ForOpaqueRuns, u, pieces, chars, OpaqueRuns(u, chars, 0));
    spans := PiecesAreSpans(u, pieces, chars, 0);
  }

  // ------------------------------------------------------------ no token is split

  /** No token has `x` strictly inside it. */
  predicate CleanAt(chars: string, x: nat) {
    forall t: nat :: t < x < t + |REDACTED| ==> !StandsAt(chars, t)
  }

  predicate IsClean(chars: string, s: Span) {
    CleanAt(chars, s.from) && CleanAt(chars, s.to)
  }

  lemma TokenLetters(chars: string, t: nat, j: nat)
    requires StandsAt(chars, t) && t <= j < t + |REDACTED|
    ensures chars[j] in REDACTED && chars[j] == REDACTED[j - t]
  {
    assert chars[j] == chars[t..t + |REDACTED|][j - t];
  }

  /** A foreign letter before or after `x` keeps tokens off it. */
  lemma CleanBeside(chars: string, x: nat)
    requires (0 < x <= |chars| && chars[x - 1] !in REDACTED) || x >= |chars| || chars[x] !in REDACTED
    ensures CleanAt(chars, x)
  {
    forall t: nat | t < x < t + |REDACTED|
      ensures !StandsAt(chars, t)
    {
      if StandsAt(chars, t) {
        TokenLetters(chars, t, x - 1);
        TokenLetters(chars, t, x);
      }
    }
  }

  lemma ForeignLetters(u: Unicode, c: char)
    requires Usual(u)
    ensures c == '/' || c == '@' || c == '=' || c == '&' || c == ';' || c == '"' || u.isWhitespace(c) ==> c !in REDACTED
  {
    assert forall d :: d in REDACTED ==> d != '/' && d != '@' && d != '=' && d != '&' && d != ';' && d != '"';
  }

  lemma UserInfoIsClean(u: Unicode, chars: string, s: Span)
    requires Usual(u) && IsUserInfo(chars, s)
    ensures IsClean(chars, s)
  {
    SchemeLetters(chars, s.from - 3);
    hide SchemeAt;
    ForeignLetters(u, '/');
    ForeignLetters(u, '@');
    CleanBeside(chars, s.from);
    CleanBeside(chars, s.to);
  }

  lemma QueryValueIsClean(u: Unicode, chars: string, s: Span)
    requires Usual(u) && IsQueryValue(u, chars, s)
    ensures IsClean(chars, s)
  {
    hide KeyEndsAt, Unbroken;
    ForeignLetters(u, '=');
    if s.to < |chars| {
      ForeignLetters(u, chars[s.to]);
    }
    CleanBeside(chars, s.from);
    CleanBeside(chars, s.to);
  }

  lemma ConnectionValueIsClean(u: Unicode, chars: string, s: Span)
    requires Usual(u) && IsConnectionValue(u, chars, s)
    ensures IsClean(chars, s)
  {
    ForeignLetters(u, chars[s.from - 1]);
    if s.to < |chars| {
      ForeignLetters(u, chars[s.to]);
    }
    CleanBeside(chars, s.from);
    CleanBeside(chars, s.to);
  }

  /** A run of twenty opaque letters neither begins nor ends inside a token, nor holds one. */
  lemma OpaqueRunIsClean(u: Unicode, chars: string, s: Span)
    requires IsOpaqueRun(u, chars, s)
    ensures IsClean(chars, s) && !exists t: nat :: s.from <= t && t + |REDACTED| <= s.to && StandsAt(chars, t)
  {
    hide LooksOpaque;
    var first, last := REDACTED[0], REDACTED[9];
    assert |REDACTED| == 10 && !IsOpaqueChar(first) && first != '%' && !IsOpaqueChar(last) && last != '%';
    forall j | s.from <= j < s.to
      ensures chars[j] != first && chars[j] != last
    {
      assert chars[j] == chars[s.from..s.to][j - s.from];
      assert chars[s.from..s.to][j - s.from] in chars[s.from..s.to];
    }
    forall t: nat | StandsAt(chars, t)
      ensures !(t < s.from < t + 10) && !(t < s.to < t + 10) && !(s.from <= t && t + 10 <= s.to)
    {
      TokenLetters(chars, t, t);
      TokenLetters(chars, t, t + 9);
    }
  }

  // ------------------------------------------------------------------------- cells

  /** Text part way through the passes: letters still as given, and tokens with what they hide of the line given. */
  datatype Cell = Plain(letter: char) | Token(hidden: string)

  function Shown(c: Cell): string {
    if c.Token? then REDACTED else [c.letter]
  }

  function Given(c: Cell): string {
    if c.Token? then c.hidden else [c.letter]
  }

  function ShownBy(cells: seq<Cell>): string {
    if cells == [] then [] else Shown(cells[0]) + ShownBy(cells[1..])
  }

  function GivenBy(cells: seq<Cell>): string {
    if cells == [] then [] else Given(cells[0]) + GivenBy(cells[1..])
  }

  function Tokens(cells: seq<Cell>): nat {
    if cells == [] then 0 else (if cells[0].Token? then 1 else 0) + Tokens(cells[1..])
  }

  lemma {:induction false} CellsJoin(a: seq<Cell>, b: seq<Cell>)
    ensures ShownBy(a + b) == ShownBy(a) + ShownBy(b) && GivenBy(a + b) == GivenBy(a) + GivenBy(b)
    ensures Tokens(a + b) == Tokens(a) + Tokens(b)
  {
    if a == [] {
      assert a + b == b;
    } else {
      CellsJoin(a[1..], b);
      assert (a + b)[0] == a[0] && (a + b)[1..] == a[1..] + b;
      Heads(a);
      Heads(a + b);
      hide ShownBy, GivenBy, Tokens;
      JoinsUp(Shown(a[0]), ShownBy(a[1..]), ShownBy(b));
      JoinsUp(Given(a[0]), GivenBy(a[1..]), GivenBy(b));
    }
  }

  lemma Heads(cells: seq<Cell>)
    requires cells != []
    ensures ShownBy(cells) == Shown(cells[0]) + ShownBy(cells[1..])
            && GivenBy(cells) == Given(cells[0]) + GivenBy(cells[1..])
    ensures Tokens(cells) == (if cells[0].Token? then 1 else 0) + Tokens(cells[1..])
  {
  }

  lemma OneCell(c: Cell)
    ensures ShownBy([c]) == Shown(c) && GivenBy([c]) == Given(c) && Tokens([c]) == if c.Token? then 1 else 0
  {
    assert [c][1..] == [] && Shown(c) + [] == Shown(c) && Given(c) + [] == Given(c);
  }

  function Letters(text: string): seq<Cell> {
    if text == [] then [] else [Plain(text[0])] + Letters(text[1..])
  }

  lemma {:induction false} LettersShowThemselves(text: string)
    ensures ShownBy(Letters(text)) == text && GivenBy(Letters(text)) == text && Tokens(Letters(text)) == 0
  {
    if text != [] {
      LettersShowThemselves(text[1..]);
      var rest := Letters(text[1..]);
      assert ([Plain(text[0])] + rest)[1..] == rest && text == [text[0]] + text[1..];
    }
  }

  function CellsOf(pieces: seq<Piece>): seq<Cell> {
    if pieces == [] then []
    else (if pieces[0].Cut? then [Token(pieces[0].text)] else Letters(pieces[0].text)) + CellsOf(pieces[1..])
  }

  lemma {:induction false} CellsOfPieces(pieces: seq<Piece>)
    ensures ShownBy(CellsOf(pieces)) == Rewritten(pieces) && GivenBy(CellsOf(pieces)) == Original(pieces)
    ensures Tokens(CellsOf(pieces)) == Cuts(pieces)
  {
    if pieces != [] {
      CellsOfPieces(pieces[1..]);
      var head := if pieces[0].Cut? then [Token(pieces[0].text)] else Letters(pieces[0].text);
      CellsJoin(head, CellsOf(pieces[1..]));
      LettersShowThemselves(pieces[0].text);
      OneCell(Token(pieces[0].text));
    }
  }

  function PiecesOf(cells: seq<Cell>): seq<Piece> {
    if cells == [] then []
    else [if cells[0].Token? then Cut(cells[0].hidden) else Keep([cells[0].letter])] + PiecesOf(cells[1..])
  }

  lemma {:induction false} PiecesOfCells(cells: seq<Cell>)
    ensures Original(PiecesOf(cells)) == GivenBy(cells) && Rewritten(PiecesOf(cells)) == ShownBy(cells)
    ensures Cuts(PiecesOf(cells)) == Tokens(cells)
  {
    if cells != [] {
      PiecesOfCells(cells[1..]);
      assert PiecesOf(cells)[1..] == PiecesOf(cells[1..]);
    }
  }

  // --------------------------------------------------------------- one pass on cells

  lemma NoBoundaryInside(cells: seq<Cell>, x: nat)
    requires cells != [] && 0 < x < |Shown(cells[0])| && x <= |ShownBy(cells)|
    ensures !CleanAt(ShownBy(cells), x)
  {
    Heads(cells);
    hide ShownBy;
    assert cells[0].Token? && ShownBy(cells)[0..0 + |REDACTED|] == REDACTED;
    assert StandsAt(ShownBy(cells), 0);
  }

  lemma {:induction false} BoundaryAt(cells: seq<Cell>, x: nat) returns (p: nat)
    requires x <= |ShownBy(cells)| && CleanAt(ShownBy(cells), x)
    ensures p <= |cells| && ShownBy(cells[..p]) == ShownBy(cells)[..x] && ShownBy(cells[p..]) == ShownBy(cells)[x..]
  {
    var text := ShownBy(cells);
    if x == 0 {
      p := 0;
      assert cells[0..] == cells;
    } else {
      Heads(cells);
      hide ShownBy, CleanAt, Shown;
      var first, rest := cells[0], cells[1..];
      var l := |Shown(first)|;
      if x < l {
        NoBoundaryInside(cells, x);
      }
      CleanLater(text, l, x);
      assert text[l..] == ShownBy(rest);
      var q := BoundaryAt(rest, x - l);
      p := q + 1;
      assert cells[..p][1..] == rest[..q] && cells[p..] == rest[q..];
      Heads(cells[..p]);
      assert text[..x] == Shown(first) + ShownBy(rest)[..x - l];
      assert text[x..] == ShownBy(rest)[x - l..];
    }
  }

  lemma CleanLater(text: string, l: nat, x: nat)
    requires l <= x && l <= |text| && CleanAt(text, x)
    ensures CleanAt(text[l..], x - l)
  {
    forall t: nat | t < x - l < t + |REDACTED|
      ensures !StandsAt(text[l..], t)
    {
      if StandsAt(text[l..], t) {
        assert text[l + t..l + t + |REDACTED|] == text[l..][t..t + |REDACTED|];
        assert StandsAt(text, l + t);
      }
    }
  }

  predicate RetakesAt(cells: seq<Cell>, spans: seq<Span>, i: nat, r: nat) {
    r < |cells| && cells[r].Token? && Takes(spans, i + |ShownBy(cells[..r])|)
  }

  /** Some token of the cells, which show from `i` on, lies in one of the spans. */
  ghost predicate Retakes(cells: seq<Cell>, spans: seq<Span>, i: nat) {
    exists r: nat :: RetakesAt(cells, spans, i, r)
  }

  lemma RetakesAtJoin(a: seq<Cell>, b: seq<Cell>, spans: seq<Span>, i: nat, r: nat)
    ensures r < |a| ==> RetakesAt(a + b, spans, i, r) == RetakesAt(a, spans, i, r)
    ensures r >= |a| ==> RetakesAt(a + b, spans, i, r) == RetakesAt(b, spans, i + |ShownBy(a)|, r - |a|)
  {
    hide Takes, ShownBy;
    if r < |a| {
      assert (a + b)[..r] == a[..r];
    } else if r < |a + b| {
      assert (a + b)[..r] == a + b[..r - |a|];
      CellsJoin(a, b[..r - |a|]);
    }
  }

  lemma RetakesJoin(a: seq<Cell>, b: seq<Cell>, spans: seq<Span>, i: nat)
    ensures Retakes(a + b, spans, i) <==> Retakes(a, spans, i) || Retakes(b, spans, i + |ShownBy(a)|)
  {
    var offset := i + |ShownBy(a)|;
    hide ShownBy, RetakesAt;
    if r: nat :| RetakesAt(a + b, spans, i, r) {
      RetakesAtJoin(a, b, spans, i, r);
    }
    if r: nat :| RetakesAt(a, spans, i, r) {
      WithinCells(a, spans, i, r);
      RetakesAtJoin(a, b, spans, i, r);
    }
    if r: nat :| RetakesAt(b, spans, offset, r) {
      RetakesAtJoin(a, b, spans, i, |a| + r);
      assert |a| + r - |a| == r;
    }
  }

  lemma WithinCells(cells: seq<Cell>, spans: seq<Span>, i: nat, r: nat)
    ensures RetakesAt(cells, spans, i, r) ==> r < |cells|
  {
  }

  lemma TokenFits(cells: seq<Cell>, r: nat)
    requires r < |cells| && cells[r].Token?
    ensures |ShownBy(cells[..r])| + |REDACTED| <= |ShownBy(cells)|
  {
    CellsJoin(cells[..r], cells[r..]);
    assert cells == cells[..r] + cells[r..];
    assert cells[r..][0] == cells[r];
  }

  lemma {:induction false} TokensAreThere(cells: seq<Cell>)
    ensures Tokens(cells) > 0 <==> exists r :: 0 <= r < |cells| && cells[r].Token?
  {
    if cells != [] {
      TokensAreThere(cells[1..]);
      if r :| 0 <= r < |cells| && cells[r].Token? {
        assert r > 0 ==> cells[1..][r - 1].Token?;
      }
      if q :| 0 <= q < |cells[1..]| && cells[1..][q].Token? {
        assert cells[q + 1].Token?;
      }
    }
  }

  /** Before the first span nothing is taken, within it every token, and after it what the others take. */
  lemma RetakesAroundASpan(chars: string, a: seq<Cell>, b: seq<Cell>, c: seq<Cell>, s: Span, rest: seq<Span>, i: nat)
    requires i <= s.from <= s.to && Lie(chars, rest, s.to)
    requires i + |ShownBy(a)| == s.from && s.from + |ShownBy(b)| == s.to
    ensures Retakes(a + b + c, [s] + rest, i) <==> Tokens(b) > 0 || Retakes(c, rest, s.to)
  {
    var spans := [s] + rest;
    RetakesJoin(a + b, c, spans, i);
    RetakesJoin(a, b, spans, i);
    CellsJoin(a, b);
    hide Retakes, ShownBy, Tokens, Lie;
    NoneBefore(chars, a, s, rest, i);
    AllWithin(b, s, rest);
    NoneOfIt(c, s, rest);
  }

  lemma NoneBefore(chars: string, a: seq<Cell>, s: Span, rest: seq<Span>, i: nat)
    requires i + |ShownBy(a)| == s.from <= s.to && Lie(chars, rest, s.to)
    ensures !Retakes(a, [s] + rest, i)
  {
    forall r: nat
      ensures !RetakesAt(a, [s] + rest, i, r)
    {
      if r < |a| && a[r].Token? {
        TokenFits(a, r);
        TakenOneByOne(s, rest, i + |ShownBy(a[..r])|);
        NothingBefore(chars, rest, s.to, i + |ShownBy(a[..r])|);
      }
    }
  }

  lemma AllWithin(b: seq<Cell>, s: Span, rest: seq<Span>)
    requires s.from + |ShownBy(b)| == s.to
    ensures Retakes(b, [s] + rest, s.from) <==> Tokens(b) > 0
  {
    TokensAreThere(b);
    if r :| 0 <= r < |b| && b[r].Token? {
      TokenFits(b, r);
      TakenFirst(s, rest, s.from + |ShownBy(b[..r])|);
      assert RetakesAt(b, [s] + rest, s.from, r);
    }
  }

  lemma NoneOfIt(c: seq<Cell>, s: Span, rest: seq<Span>)
    ensures Retakes(c, [s] + rest, s.to) <==> Retakes(c, rest, s.to)
  {
    forall r: nat
      ensures RetakesAt(c, [s] + rest, s.to, r) == RetakesAt(c, rest, s.to, r)
    {
      if r < |c| {
        TakenOneByOne(s, rest, s.to + |ShownBy(c[..r])|);
      }
    }
  }

  lemma NothingBefore(chars: string, spans: seq<Span>, from: nat, t: nat)
    requires Lie(chars, spans, from) && t < from
    ensures !Takes(spans, t)
  {
    hide Lie;
    forall s | s in spans
      ensures t < s.from
    {
      SpansStartFrom(chars, spans, from, s);
    }
  }

  /**
   * A pass on cells: each span goes into one token with all it hides, tokens among it. The line given is kept, and the
   * tokens afterwards are those before and the cuts, less the tokens that were taken again.
   */
  lemma {:induction false} Absorb(cells: seq<Cell>, chars: string, spans: seq<Span>, i: nat)
    returns (after: seq<Cell>, again: nat)
    requires Lie(chars, spans, i) && ShownBy(cells) == chars[i..] && forall s :: s in spans ==> IsClean(chars, s)
    ensures ShownBy(after) == Spliced(chars, spans, i) && GivenBy(after) == GivenBy(cells)
    ensures Tokens(after) + again == Tokens(cells) + |spans|
    ensures again > 0 <==> Retakes(cells, spans, i)
    decreases |spans|
  {
    if spans == [] {
      after, again := cells, 0;
    } else {
      hide Retakes, Tokens, ShownBy, GivenBy, IsClean;
      var s, rest := spans[0], spans[1..];
      var a, b, c := SplitAtSpan(cells, chars, s, i);
      var later, more := Absorb(c, chars, rest, s.to);
      AbsorbOne(cells, a, b, c, later);
      after, again := a + [Token(GivenBy(b))] + later, Tokens(b) + more;
      assert spans == [s] + rest;
      RetakesAroundASpan(chars, a, b, c, s, rest, i);
    }
  }

  lemma SplitAtSpan(cells: seq<Cell>, chars: string, s: Span, i: nat) returns (a: seq<Cell>, b: seq<Cell>, c: seq<Cell>)
    requires i <= s.from <= s.to <= |chars| && ShownBy(cells) == chars[i..] && IsClean(chars, s)
    ensures cells == a + b + c
    ensures ShownBy(a) == chars[i..s.from] && |ShownBy(b)| == s.to - s.from && ShownBy(c) == chars[s.to..]
  {
    hide CleanAt, ShownBy;
    CleanLater(chars, i, s.from);
    var p := BoundaryAt(cells, s.from - i);
    assert chars[i..][s.from - i..] == chars[s.from..] && chars[i..][..s.from - i] == chars[i..s.from];
    CleanLater(chars, s.from, s.to);
    var q := BoundaryAt(cells[p..], s.to - s.from);
    assert chars[s.from..][s.to - s.from..] == chars[s.to..];
    a, b, c := cells[..p], cells[p..][..q], cells[p..][q..];
  }

  lemma AbsorbOne(cells: seq<Cell>, a: seq<Cell>, b: seq<Cell>, c: seq<Cell>, later: seq<Cell>)
    requires cells == a + b + c && GivenBy(later) == GivenBy(c)
    ensures var after := a + [Token(GivenBy(b))] + later;
            && ShownBy(after) == ShownBy(a) + REDACTED + ShownBy(later) && GivenBy(after) == GivenBy(cells)
            && Tokens(after) == Tokens(a) + 1 + Tokens(later)
    ensures Tokens(cells) == Tokens(a) + Tokens(b) + Tokens(c)
  {
    hide ShownBy, GivenBy, Tokens;
    var t := Token(GivenBy(b));
    OneCell(t);
    CellsJoin(a, [t]);
    CellsJoin(a + [t], later);
    CellsJoin(a, b);
    CellsJoin(a + b, c);
  }

  // ------------------------------------------------------------------ the whole line

  /** The cells a pass finds, the spans it cuts, and how many tokens it takes again. */
  datatype Layer = Layer(cells: seq<Cell>, spans: seq<Span>, again: nat)

  ghost predicate IsLayer(l: Layer, chars: string, r: Redaction, after: seq<Cell>) {
    && ShownBy(l.cells) == chars && Lie(chars, l.spans, 0) && r == Redaction(Spliced(chars, l.spans, 0), |l.spans|)
    && ShownBy(after) == r.text && GivenBy(after) == GivenBy(l.cells)
    && Tokens(after) + l.again == Tokens(l.cells) + r.count
    && (l.again > 0 <==> Retakes(l.cells, l.spans, 0))
  }

  lemma LayerOf(cells: seq<Cell>, chars: string, spans: seq<Span>, r: Redaction) returns (l: Layer, after: seq<Cell>)
    requires ShownBy(cells) == chars && Lie(chars, spans, 0) && r == Redaction(Spliced(chars, spans, 0), |spans|)
    requires forall s :: s in spans ==> IsClean(chars, s)
    ensures l.cells == cells && l.spans == spans && IsLayer(l, chars, r, after)
  {
    hide Retakes, IsClean, Lie, Spliced, ShownBy, GivenBy, Tokens;
    assert chars[0..] == chars;
    var again;
    after, again := Absorb(cells, chars, spans, 0);
    l := Layer(cells, spans, again);
  }

  lemma TokenStands(cells: seq<Cell>, r: nat)
    requires r < |cells| && cells[r].Token?
    ensures StandsAt(ShownBy(cells), |ShownBy(cells[..r])|)
  {
    assert cells == cells[..r] + cells[r..] && cells[r..][0] == cells[r];
    CellsJoin(cells[..r], cells[r..]);
    assert ShownBy(cells[r..]) == REDACTED + ShownBy(cells[r..][1..]);
  }

  lemma RunsTakeNothingAgain(u: Unicode, cells: seq<Cell>, spans: seq<Span>)
    requires forall s :: s in spans ==> IsOpaqueRun(u, ShownBy(cells), s)
    ensures !Retakes(cells, spans, 0)
  {
    forall r: nat
      ensures !RetakesAt(cells, spans, 0, r)
    {
      if RetakesAt(cells, spans, 0, r) {
        var t := |ShownBy(cells[..r])|;
        var s :| s in spans && s.from <= t && t + |REDACTED| <= s.to;
        TokenStands(cells, r);
        OpaqueRunIsClean(u, ShownBy(cells), s);
      }
    }
  }

  lemma RunsLayer(u: Unicode, cells: seq<Cell>, chars: string) returns (l: Layer, after: seq<Cell>)
    requires ShownBy(cells) == chars
    ensures l.cells == cells && IsLayer(l, chars, OpaqueRuns(u, chars, 0), after) && l.again == 0
  {
    hide OpaqueRuns, ShownBy, Retakes, Lie, Spliced, IsOpaqueRun, IsClean;
    var spans := OpaqueRunsAreSpliced(u, chars);
    forall s | s in spans
      ensures IsClean(chars, s)
    {
      OpaqueRunIsClean(u, chars, s);
    }
    l, after := LayerOf(cells, chars, spans, OpaqueRuns(u, chars, 0));
    RunsTakeNothingAgain(u, cells, spans);
  }

  lemma UserInfoLayer(u: Unicode, cells: seq<Cell>, chars: string) returns (l: Layer, after: seq<Cell>)
    requires Usual(u) && ShownBy(cells) == chars
    ensures l.cells == cells && l.spans == UserInfoSpans(chars, 0) && IsLayer(l, chars, UserInfo(chars, 0), after)
  {
    hide UserInfo, UserInfoSpans, ShownBy, Retakes, Lie, Spliced, IsUserInfo, IsClean;
    UserInfoIsSpliced(chars, 0);
    forall s | s in UserInfoSpans(chars, 0)
      ensures IsClean(chars, s)
    {
      UserInfoIsClean(u, chars, s);
    }
    l, after := LayerOf(cells, chars, UserInfoSpans(chars, 0), UserInfo(chars, 0));
  }

  lemma QueryLayer(u: Unicode, cells: seq<Cell>, chars: string) returns (l: Layer, after: seq<Cell>)
    requires Usual(u) && ShownBy(cells) == chars
    ensures l.cells == cells && l.spans == QuerySpans(u, chars, 0) && IsLayer(l, chars, QueryValues(u, chars, 0), after)
  {
    hide QueryValues, QuerySpans, ShownBy, Retakes, Lie, Spliced, IsQueryValue, IsClean;
    QueryIsSpliced(u, chars, 0);
    QuerySpansAreValues(u, chars, 0);
    forall s | s in QuerySpans(u, chars, 0)
      ensures IsClean(chars, s)
    {
      QueryValueIsClean(u, chars, s);
    }
    l, after := LayerOf(cells, chars, QuerySpans(u, chars, 0), QueryValues(u, chars, 0));
  }

  lemma ConnectionsLayer(u: Unicode, cells: seq<Cell>, chars: string) returns (l: Layer, after: seq<Cell>)
    requires Usual(u) && ShownBy(cells) == chars
    ensures l.cells == cells && l.spans == ConnectionSpans(u, chars, 0)
    ensures IsLayer(l, chars, Connections(u, chars, 0), after)
  {
    hide Connections, ConnectionSpans, ShownBy, Retakes, Lie, Spliced, IsConnectionValue, IsClean;
    ConnectionsAreSpliced(u, chars, 0);
    forall s | s in ConnectionSpans(u, chars, 0)
      ensures IsClean(chars, s)
    {
      ConnectionValueIsClean(u, chars, s);
    }
    l, after := LayerOf(cells, chars, ConnectionSpans(u, chars, 0), Connections(u, chars, 0));
  }

  /** What the passes after the first find and cut, one on what the other leaves. */
  datatype Layers = Layers(runs: Layer, userInfo: Layer, query: Layer, connections: Layer, last: seq<Cell>)

  ghost predicate AreLayers(u: Unicode, text: string, l: Layers) {
    var vocabulary := Vocabulary(u, text, 0);
    var runs := OpaqueRuns(u, vocabulary.text, 0);
    var userInfo := UserInfo(runs.text, 0);
    var query := QueryValues(u, userInfo.text, 0);
    && GivenBy(l.runs.cells) == text && Tokens(l.runs.cells) == vocabulary.count
    && IsLayer(l.runs, vocabulary.text, runs, l.userInfo.cells)
    && IsLayer(l.userInfo, runs.text, userInfo, l.query.cells) && l.userInfo.spans == UserInfoSpans(runs.text, 0)
    && IsLayer(l.query, userInfo.text, query, l.connections.cells) && l.query.spans == QuerySpans(u, userInfo.text, 0)
    && IsLayer(l.connections, query.text, Connections(u, query.text, 0), l.last)
    && l.connections.spans == ConnectionSpans(u, query.text, 0)
  }

  lemma LayersOf(u: Unicode, text: string) returns (l: Layers)
    requires Usual(u)
    ensures AreLayers(u, text, l) && l.runs.again == 0
  {
    hide IsEdit, Vocabulary, OpaqueRuns, UserInfo, QueryValues, Connections, IsLayer, ShownBy, GivenBy, Tokens, MayCut;
    hide UserInfoSpans, QuerySpans, ConnectionSpans;
    var vocabulary := Vocabulary(u, text, 0);
    var cells := FirstCells(u, text);
    var runs, afterRuns := RunsLayer(u, cells, vocabulary.text);
    LayerShows(runs, vocabulary.text, OpaqueRuns(u, vocabulary.text, 0), afterRuns);
    var r1 := OpaqueRuns(u, vocabulary.text, 0);
    var userInfo, afterInfo := UserInfoLayer(u, afterRuns, r1.text);
    var r2 := UserInfo(r1.text, 0);
    LayerShows(userInfo, r1.text, r2, afterInfo);
    var query, afterQuery := QueryLayer(u, afterInfo, r2.text);
    var r3 := QueryValues(u, r2.text, 0);
    LayerShows(query, r2.text, r3, afterQuery);
    var connections, last := ConnectionsLayer(u, afterQuery, r3.text);
    l := Layers(runs, userInfo, query, connections, last);
  }

  lemma LayerShows(l: Layer, chars: string, r: Redaction, after: seq<Cell>)
    requires IsLayer(l, chars, r, after)
    ensures ShownBy(after) == r.text
  {
  }

  lemma FirstCells(u: Unicode, text: string) returns (cells: seq<Cell>)
    ensures var r := Vocabulary(u, text, 0);
            ShownBy(cells) == r.text && GivenBy(cells) == text && Tokens(cells) == r.count
  {
    hide Vocabulary, MayCut;
    VocabularyIsAnEdit(u, text, 0);
    assert text[0..] == text;
    var pieces :| Splits(ForVocabulary, u, pieces, text, Vocabulary(u, text, 0));
    CellsOfPieces(pieces);
    cells := CellsOf(pieces);
  }

  /**
   * The redaction of a line is one edit of that line: the tokens of the last cells stand for what they hide of it, and
   * everything else is as it was. The count is the number of those tokens and, besides, of the tokens that a later pass
   * took again; so it is the number of spans that went if and only if no later pass took one, and pass two never does.
   */
  lemma CommandLineIsOneEdit(u: Unicode, text: string) returns (l: Layers, pieces: seq<Piece>)
    requires Usual(u)
    ensures AreLayers(u, text, l) && l.runs.again == 0
    ensures Original(pieces) == text && Rewritten(pieces) == CommandLine(u, text, false).text
    ensures CommandLine(u, text, false).count
            == Cuts(pieces) + l.userInfo.again + l.query.again + l.connections.again
    ensures CommandLine(u, text, false).count == Cuts(pieces)
            <==> !Retakes(l.userInfo.cells, l.userInfo.spans, 0) && !Retakes(l.query.cells, l.query.spans, 0)
                 && !Retakes(l.connections.cells, l.connections.spans, 0)
  {
    hide Vocabulary, OpaqueRuns, UserInfo, QueryValues, Connections, ShownBy, GivenBy, Tokens, Retakes, Lie, Spliced;
    hide UserInfoSpans, QuerySpans, ConnectionSpans, Original, Rewritten, Cuts;
    l := LayersOf(u, text);
    pieces := PiecesOf(l.last);
    PiecesOfCells(l.last);
    assert CommandLine(u, text, false).text == ShownBy(l.last) + [] == ShownBy(l.last);
  }

  // --------------------------------------------------------- which tokens are taken

  ghost predicate InUserInfo(chars: string, t: nat) {
    exists s :: IsUserInfo(chars, s) && s.from <= t && t + |REDACTED| <= s.to
  }

  ghost predicate InAQueryValue(u: Unicode, chars: string, t: nat) {
    exists e: nat :: InQueryValue(u, chars, e, t)
  }

  ghost predicate InAConnectionValue(u: Unicode, chars: string, t: nat) {
    exists j :: ComesTo(u, chars, 0, j) && HoldsMore(u, chars, j, t)
  }

  /** Pass by pass, the tokens that are taken again are those that stand where the pass looks for values. */
  lemma TokenIsTakenAgainIff(u: Unicode, cells: seq<Cell>, r: nat)
    requires Usual(u) && r < |cells| && cells[r].Token?
    ensures var (chars, t) := (ShownBy(cells), |ShownBy(cells[..r])|);
            && (RetakesAt(cells, UserInfoSpans(chars, 0), 0, r) <==> InUserInfo(chars, t))
            && (RetakesAt(cells, QuerySpans(u, chars, 0), 0, r) <==> InAQueryValue(u, chars, t))
            && (RetakesAt(cells, ConnectionSpans(u, chars, 0), 0, r) <==> InAConnectionValue(u, chars, t))
  {
    hide UserInfoSpans, QuerySpans, ConnectionSpans, ShownBy, InQueryValue, IsUserInfo, StandsAt, ComesTo, HoldsMore;
    var chars, t := ShownBy(cells), |ShownBy(cells[..r])|;
    TokenStands(cells, r);
    TakenByUserInfoIff(chars, t);
    TakenByQueryIff(u, chars, t);
    TakenByConnectionsIff(u, chars, 0, t);
  }
}
