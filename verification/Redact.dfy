/** The four passes that redact a captured command line, as the scans they are. */
module Redact {
  import opened Models

  /** U+2039, "redacted", U+203A. */
  const REDACTED: string := "\U{2039}redacted\U{203A}"
  const TRUNCATED_MARKER: string := "\U{2026}[truncated]"
  const MIN_OPAQUE := 20

  const VOCAB: seq<string> :=
    ["password", "passwd", "pwd", "secret", "token", "apikey", "api-key", "x-api-key", "auth", "credential", "bearer",
     "cookie", "session"]

  const CONNECTION_KEYS: seq<string> := ["password", "pwd", "user id", "uid"]

  /** The Unicode character tables, whatever they say. */
  datatype Unicode = Unicode(isAlphanumeric: char -> bool, isWhitespace: char -> bool)

  /** Redacted text, and how many fields went. */
  datatype Redaction = Redaction(text: string, count: nat) {
    function Then(rest: Redaction): Redaction {
      Redaction(text + rest.text, count + rest.count)
    }
  }

  function Kept(text: string): Redaction {
    Redaction(text, 0)
  }

  lemma Onward(done: Redaction, part: Redaction, rest: Redaction)
    ensures done.Then(part.Then(rest)) == done.Then(part).Then(rest)
  {
    assert done.text + (part.text + rest.text) == (done.text + part.text) + rest.text;
  }

  lemma NothingMore(done: Redaction)
    ensures done.Then(Kept([])) == done && Kept([]).Then(done) == done
  {
    assert done.text + [] == done.text && [] + done.text == done.text;
  }

  const CUT := Redaction(REDACTED, 1)

  datatype Span = Span(from: nat, to: nat)

  // --------------------------------------------------------------- characters

  predicate IsAsciiLetter(c: char) {
    'a' <= c <= 'z' || 'A' <= c <= 'Z'
  }

  predicate IsAsciiDigit(c: char) {
    '0' <= c <= '9'
  }

  function ToAsciiLower(c: char): char {
    if 'A' <= c <= 'Z' then (c as int + 32) as char else c
  }

  function Lower(s: string): string {
    seq(|s|, i requires 0 <= i < |s| => ToAsciiLower(s[i]))
  }

  predicate IsOpaqueChar(c: char) {
    IsAsciiLetter(c) || IsAsciiDigit(c) || c in "+/=_-"
  }

  function NotSpace(u: Unicode): char -> bool {
    c => !u.isWhitespace(c)
  }

  function NotWordChar(u: Unicode): char -> bool {
    c => !(u.isAlphanumeric(c) || c == '-' || c == '_')
  }

  function Is(d: char): char -> bool {
    c => c == d
  }

  function SpaceOr(u: Unicode, d: char): char -> bool {
    c => u.isWhitespace(c) || c == d
  }

  function SpaceOrEither(u: Unicode, d: char, e: char): char -> bool {
    c => u.isWhitespace(c) || c == d || c == e
  }

  function Either(d: char, e: char): char -> bool {
    c => c == d || c == e
  }

  function NotOpaque(percentOpaque: bool): char -> bool {
    c => !(IsOpaqueChar(c) || (percentOpaque && c == '%'))
  }

  /** The first index from `start` on where the scan stops. */
  function Until(chars: string, start: nat, stop: char -> bool): (end: nat)
    requires start <= |chars|
    ensures start <= end <= |chars|
    ensures forall k :: start <= k < end ==> !stop(chars[k])
    ensures end < |chars| ==> stop(chars[end])
    decreases |chars| - start
  {
    if start == |chars| || stop(chars[start]) then start else Until(chars, start + 1, stop)
  }

  method Scan(chars: string, start: nat, stop: char -> bool) returns (end: nat)
    requires start <= |chars|
    ensures end == Until(chars, start, stop)
  {
    end := start;
    while end < |chars| && !stop(chars[end])
      invariant start <= end <= |chars| && Until(chars, start, stop) == Until(chars, end, stop)
    {
      end := end + 1;
    }
  }

  // -------------------------------------------------------------------- quotes

  function QuotesBefore(chars: string, n: nat): nat
    requires n <= |chars|
  {
    if n == 0 then 0 else QuotesBefore(chars, n - 1) + if chars[n - 1] == '"' then 1 else 0
  }

  /** Inside a double-quoted region, the quotes themselves excluded. */
  predicate InQuotes(chars: string, i: nat) {
    i < |chars| && chars[i] != '"' && QuotesBefore(chars, i) % 2 == 1
  }

  predicate AreQuotes(inQuotes: seq<bool>, chars: string) {
    |inQuotes| == |chars| && forall k :: 0 <= k < |chars| ==> inQuotes[k] == InQuotes(chars, k)
  }

  method ComputeInQuotes(chars: string) returns (result: seq<bool>)
    ensures AreQuotes(result, chars)
  {
    result := [];
    var inside := false;
    for i := 0 to |chars|
      invariant |result| == i && inside == (QuotesBefore(chars, i) % 2 == 1)
      invariant forall j :: 0 <= j < i ==> result[j] == InQuotes(chars, j)
    {
      if chars[i] == '"' {
        result := result + [false];
        inside := !inside;
      } else {
        result := result + [inside];
      }
    }
  }

  // ----------------------------------------------------------------- vocabulary

  function Normalized(key: string): string {
    if key == [] then []
    else (if key[0] == '_' || key[0] == '-' then [] else [ToAsciiLower(key[0])]) + Normalized(key[1..])
  }

  predicate IsVocabWord(word: string) {
    Normalized(word) != [] && exists v :: v in VOCAB && Normalized(v) == Normalized(word)
  }

  predicate Contains(s: string, t: string) {
    |t| <= |s| && (s[..|t|] == t || (s != [] && Contains(s[1..], t)))
  }

  predicate IsVocabKey(key: string) {
    exists v :: v in VOCAB && Contains(Normalized(key), Normalized(v))
  }

  /** Where a value ends: its closing quote, or the end of its token. */
  function ValueEnd(u: Unicode, chars: string, start: nat, inQuotes: bool): (end: nat)
    requires start <= |chars|
    ensures start <= end <= |chars|
  {
    if start == |chars| then start
    else if inQuotes then Until(chars, start, Is('"'))
    else if chars[start] == '"' || chars[start] == '\'' then
      var close := Until(chars, start + 1, Is(chars[start]));
      if close < |chars| then close + 1 else close
    else Until(chars, start, SpaceOr(u, '&'))
  }

  function PrefixLength(chars: string, i: nat): nat
    requires i < |chars|
  {
    if i + 1 < |chars| && chars[i] == '-' && chars[i + 1] == '-' then 2 else if chars[i] == '/' then 1 else 0
  }

  /** The end of a credential's name starting at `start`. */
  function NameEnd(u: Unicode, chars: string, start: nat): (end: Option<nat>)
    requires start <= |chars|
    ensures end.Some? ==> start < end.value <= |chars|
  {
    var end := Until(chars, start, NotWordChar(u));
    if end > start && IsVocabWord(chars[start..end]) then Some(end) else None
  }

  /** The value a name is followed by: after a separator, or, for a flag or a bearer token, after mere space. */
  function ValueAfter(u: Unicode, chars: string, nameEnd: nat, spaced: bool): (hit: Option<Span>)
    requires nameEnd <= |chars|
    ensures hit.Some? ==> nameEnd < hit.value.from <= hit.value.to <= |chars|
  {
    var next := Until(chars, nameEnd, NotSpace(u));
    if next < |chars| && (chars[next] == '=' || chars[next] == ':') then
      var from := Until(chars, next + 1, NotSpace(u));
      Some(Span(from, ValueEnd(u, chars, from, InQuotes(chars, from))))
    else if spaced && nameEnd < next < |chars| && ValueEnd(u, chars, next, InQuotes(chars, next)) > next then
      Some(Span(next, ValueEnd(u, chars, next, InQuotes(chars, next))))
    else None
  }

  predicate TakesSpacedValue(prefix: nat, name: string) {
    prefix == 2 || Lower(name) == "bearer"
  }

  /** The value to redact for a credential named at `i`, whose name and separator are kept. */
  function VocabularyHit(u: Unicode, chars: string, i: nat): (hit: Option<Span>)
    requires i < |chars|
    ensures hit.Some? ==> i < hit.value.from <= hit.value.to <= |chars|
  {
    var prefix := PrefixLength(chars, i);
    if prefix == 0 && i > 0 && (chars[i - 1] == '?' || chars[i - 1] == '&') then None
    else
      match NameEnd(u, chars, i + prefix)
      case None => None
      case Some(end) => ValueAfter(u, chars, end, TakesSpacedValue(prefix, chars[i + prefix..end]))
  }

  /** A kept stretch and the value after it, redacted unless it is empty. */
  function HitRedacted(chars: string, i: nat, hit: Span): Redaction
    requires i <= hit.from <= hit.to <= |chars|
  {
    if hit.to > hit.from then Kept(chars[i..hit.from]).Then(CUT) else Kept(chars[i..hit.from])
  }

  function Vocabulary(u: Unicode, chars: string, i: nat): Redaction
    requires i <= |chars|
    decreases |chars| - i
  {
    if i == |chars| then Kept([])
    else
      var (part, next) := VocabularyPart(u, chars, i);
      part.Then(Vocabulary(u, chars, next))
  }

  method ReadValue(u: Unicode, chars: string, start: nat, inQuotes: bool) returns (end: nat)
    requires start <= |chars|
    ensures end == ValueEnd(u, chars, start, inQuotes)
  {
    if start >= |chars| {
      return start;
    }
    if inQuotes {
      end := Scan(chars, start, Is('"'));
    } else if chars[start] == '"' || chars[start] == '\'' {
      end := Scan(chars, start + 1, Is(chars[start]));
      if end < |chars| {
        end := end + 1;
      }
    } else {
      end := Scan(chars, start, SpaceOr(u, '&'));
    }
  }

  method FindValueAfter(u: Unicode, chars: string, inQuotes: seq<bool>, nameEnd: nat, spaced: bool)
    returns (hit: Option<Span>)
    requires nameEnd <= |chars| && AreQuotes(inQuotes, chars)
    ensures hit == ValueAfter(u, chars, nameEnd, spaced)
  {
    hide ValueEnd, InQuotes, Until;
    var next := Scan(chars, nameEnd, NotSpace(u));
    if next < |chars| && (chars[next] == '=' || chars[next] == ':') {
      var from := Scan(chars, next + 1, NotSpace(u));
      var inQ := QuotedAt(inQuotes, chars, from);
      var to := ReadValue(u, chars, from, inQ);
      return Some(Span(from, to));
    }
    if spaced && nameEnd < next < |chars| {
      var inQ := QuotedAt(inQuotes, chars, next);
      var to := ReadValue(u, chars, next, inQ);
      if to > next {
        return Some(Span(next, to));
      }
    }
    return None;
  }

  method QuotedAt(inQuotes: seq<bool>, chars: string, i: nat) returns (r: bool)
    requires AreQuotes(inQuotes, chars)
    ensures r == InQuotes(chars, i)
  {
    r := i < |inQuotes| && inQuotes[i];
  }

  method FindVocabularyHit(u: Unicode, chars: string, inQuotes: seq<bool>, i: nat) returns (hit: Option<Span>)
    requires i < |chars| && AreQuotes(inQuotes, chars)
    ensures hit == VocabularyHit(u, chars, i)
  {
    hide ValueAfter, IsVocabWord, TakesSpacedValue, AreQuotes, Until;
    var prefix := PrefixLength(chars, i);
    if prefix == 0 && i > 0 && (chars[i - 1] == '?' || chars[i - 1] == '&') {
      return None;
    }
    var start := i + prefix;
    var end := Scan(chars, start, NotWordChar(u));
    if end == start || !IsVocabWord(chars[start..end]) {
      return None;
    }
    hit := FindValueAfter(u, chars, inQuotes, end, TakesSpacedValue(prefix, chars[start..end]));
  }

  /** What pass one does at `i`, and where it goes on. */
  function VocabularyPart(u: Unicode, chars: string, i: nat): (r: (Redaction, nat))
    requires i < |chars|
    ensures i < r.1 <= |chars|
  {
    match VocabularyHit(u, chars, i)
    case None => (Kept([chars[i]]), i + 1)
    case Some(hit) => (HitRedacted(chars, i, hit), hit.to)
  }

  method RedactVocabularyAt(u: Unicode, chars: string, inQuotes: seq<bool>, i: nat)
    returns (out: string, count: nat, next: nat)
    requires i < |chars| && AreQuotes(inQuotes, chars)
    ensures (Redaction(out, count), next) == VocabularyPart(u, chars, i)
  {
    hide VocabularyHit;
    var hit := FindVocabularyHit(u, chars, inQuotes, i);
    if hit.None? {
      return [chars[i]], 0, i + 1;
    }
    out, count := chars[i..hit.value.from], 0;
    if hit.value.to > hit.value.from {
      out := out + REDACTED;
      count := count + 1;
    }
    next := hit.value.to;
  }

  method RedactVocabulary(u: Unicode, chars: string) returns (out: string, count: nat)
    ensures Redaction(out, count) == Vocabulary(u, chars, 0)
  {
    hide VocabularyPart;
    var inQuotes := ComputeInQuotes(chars);
    out, count := [], 0;
    var i := 0;
    NothingMore(Vocabulary(u, chars, 0));
    while i < |chars|
      invariant i <= |chars|
      invariant Vocabulary(u, chars, 0) == Redaction(out, count).Then(Vocabulary(u, chars, i))
    {
      var more, extra, next := RedactVocabularyAt(u, chars, inQuotes, i);
      Onward(Redaction(out, count), Redaction(more, extra), Vocabulary(u, chars, next));
      out, count := out + more, count + extra;
      i := next;
    }
    NothingMore(Redaction(out, count));
  }

  // ---------------------------------------------------------------- opaque runs

  predicate LooksOpaque(token: string) {
    || (|token| >= MIN_OPAQUE && forall c :: c in token ==> IsAsciiDigit(c) || 'a' <= c <= 'f' || 'A' <= c <= 'F')
    || exists c :: c in token && IsAsciiLetter(c)
  }

  /** What the run scan does at `i`, and where it goes on. */
  function RunAt(word: string, i: nat, percentOpaque: bool): (r: (Redaction, nat))
    requires i < |word|
    ensures i < r.1 <= |word|
  {
    var end := Until(word, i, NotOpaque(percentOpaque));
    if end == i then (Kept([word[i]]), i + 1)
    else (if end - i >= MIN_OPAQUE && LooksOpaque(word[i..end]) then CUT else Kept(word[i..end]), end)
  }

  /** A word from `i` on, its long runs of opaque characters redacted. */
  function Runs(word: string, i: nat, percentOpaque: bool): Redaction
    requires i <= |word|
    decreases |word| - i
  {
    if i == |word| then Kept([])
    else
      var (part, next) := RunAt(word, i, percentOpaque);
      part.Then(Runs(word, next, percentOpaque))
  }

  function LastDot(segment: string, n: nat): (r: Option<nat>)
    requires n <= |segment|
    ensures r.Some? ==> r.value < n && segment[r.value] == '.'
  {
    if n == 0 then None else if segment[n - 1] == '.' then Some(n - 1) else LastDot(segment, n - 1)
  }

  predicate IsShortExtension(ext: string) {
    0 < |ext| <= 5 && forall c :: c in ext ==> IsAsciiLetter(c) || IsAsciiDigit(c)
  }

  function PathSegment(segment: string): Redaction {
    match LastDot(segment, |segment|)
    case Some(dot) =>
      if dot > 0 && IsShortExtension(segment[dot + 1..])
      then Runs(segment[..dot], 0, false).Then(Kept(segment[dot..]))
      else Runs(segment, 0, false)
    case None => Runs(segment, 0, false)
  }

  function QueryPair(pair: string): Redaction {
    var eq := Until(pair, 0, Is('='));
    if eq == |pair| then Runs(pair, 0, false)
    else if IsVocabKey(pair[..eq]) then Kept(pair)
    else Kept(pair[..eq + 1]).Then(Runs(pair[eq + 1..], 0, true))
  }

  function Part(text: string, separator: char): Redaction {
    if separator == '/' then PathSegment(text) else QueryPair(text)
  }

  /** The part that starts at `start`, redacted on its own, with the separator that ends it if one does. */
  function PartAt(text: string, start: nat, separator: char): (r: (Redaction, nat))
    requires start <= |text|
    ensures start <= r.1 <= |text|
  {
    var end := Until(text, start, Is(separator));
    var part := Part(text[start..end], separator);
    (if end == |text| then part else part.Then(Kept([separator])), end)
  }

  function Parts(text: string, start: nat, separator: char): Redaction
    requires start <= |text|
    decreases |text| - start
  {
    var (part, end) := PartAt(text, start, separator);
    if end == |text| then part else part.Then(Parts(text, end + 1, separator))
  }

  function Word(word: string): Redaction {
    if '\\' in word then Kept(word)
    else if '/' in word then
      var query := Until(word, 0, Is('?'));
      var path := Parts(word[..query], 0, '/');
      if query == |word| then path else path.Then(Kept("?")).Then(Parts(word[query + 1..], 0, '&'))
    else Runs(word, 0, false)
  }

  /** What pass two does at `i`: a space, or a whole word. */
  function WordAt(u: Unicode, chars: string, i: nat): (r: (Redaction, nat))
    requires i < |chars|
    ensures i < r.1 <= |chars|
  {
    if u.isWhitespace(chars[i]) then (Kept([chars[i]]), i + 1)
    else
      var end := Until(chars, i + 1, u.isWhitespace);
      (Word(chars[i..end]), end)
  }

  function OpaqueRuns(u: Unicode, chars: string, i: nat): Redaction
    requires i <= |chars|
    decreases |chars| - i
  {
    if i == |chars| then Kept([])
    else
      var (part, next) := WordAt(u, chars, i);
      part.Then(OpaqueRuns(u, chars, next))
  }

  method RedactRuns(word: string, percentOpaque: bool) returns (out: string, count: nat)
    ensures Redaction(out, count) == Runs(word, 0, percentOpaque)
  {
    hide LooksOpaque, NotOpaque;
    out, count := [], 0;
    var i := 0;
    NothingMore(Runs(word, 0, percentOpaque));
    while i < |word|
      invariant i <= |word|
      invariant Runs(word, 0, percentOpaque) == Redaction(out, count).Then(Runs(word, i, percentOpaque))
    {
      var (part, next) := RunAt(word, i, percentOpaque);
      Onward(Redaction(out, count), part, Runs(word, next, percentOpaque));
      var end := Scan(word, i, NotOpaque(percentOpaque));
      hide Until;
      if end == i {
        out := out + [word[i]];
        i := i + 1;
      } else {
        var token := word[i..end];
        if |token| >= MIN_OPAQUE && LooksOpaque(token) {
          out := out + REDACTED;
          count := count + 1;
        } else {
          out := out + token;
        }
        i := end;
      }
    }
    NothingMore(Redaction(out, count));
  }

  method RedactPathSegment(segment: string) returns (out: string, count: nat)
    ensures Redaction(out, count) == PathSegment(segment)
  {
    hide Runs, IsShortExtension;
    var dot: nat := |segment|;
    while dot > 0 && segment[dot - 1] != '.'
      invariant dot <= |segment| && LastDot(segment, |segment|) == LastDot(segment, dot)
    {
      dot := dot - 1;
    }
    if dot > 1 {
      var stem, ext := segment[..dot - 1], segment[dot..];
      if IsShortExtension(ext) {
        out, count := RedactRuns(stem, false);
        assert segment[dot - 1..] == ['.'] + ext;
        out := out + ['.'] + ext;
        return;
      }
    }
    out, count := RedactRuns(segment, false);
  }

  method RedactQueryPair(pair: string) returns (out: string, count: nat)
    ensures Redaction(out, count) == QueryPair(pair)
  {
    var eq := Scan(pair, 0, Is('='));
    if eq == |pair| {
      out, count := RedactRuns(pair, false);
    } else if IsVocabKey(pair[..eq]) {
      out, count := pair, 0;
    } else {
      out, count := RedactRuns(pair[eq + 1..], true);
      assert pair[..eq + 1] == pair[..eq] + ['='];
      out := pair[..eq] + ['='] + out;
    }
  }

  method RedactPartAt(text: string, start: nat, separator: char) returns (out: string, count: nat, end: nat)
    requires start <= |text|
    ensures (Redaction(out, count), end) == PartAt(text, start, separator)
  {
    hide PathSegment, QueryPair, Until;
    end := Scan(text, start, Is(separator));
    if separator == '/' {
      out, count := RedactPathSegment(text[start..end]);
    } else {
      out, count := RedactQueryPair(text[start..end]);
    }
    if end < |text| {
      out := out + [separator];
    }
  }

  method RedactParts(text: string, separator: char) returns (out: string, count: nat)
    ensures Redaction(out, count) == Parts(text, 0, separator)
  {
    hide PartAt;
    out, count := [], 0;
    var start := 0;
    NothingMore(Parts(text, 0, separator));
    while true
      invariant start <= |text|
      invariant Parts(text, 0, separator) == Redaction(out, count).Then(Parts(text, start, separator))
      decreases |text| - start
    {
      var more, extra, end := RedactPartAt(text, start, separator);
      if end == |text| {
        out, count := out + more, count + extra;
        break;
      }
      Onward(Redaction(out, count), Redaction(more, extra), Parts(text, end + 1, separator));
      out, count := out + more, count + extra;
      start := end + 1;
    }
  }

  method RedactWord(word: string) returns (out: string, count: nat)
    ensures Redaction(out, count) == Word(word)
  {
    hide Parts, Runs;
    if '\\' in word {
      out, count := word, 0;
    } else if '/' in word {
      var query := Scan(word, 0, Is('?'));
      out, count := RedactParts(word[..query], '/');
      if query < |word| {
        out := out + [word[query]];
        var params, more := RedactParts(word[query + 1..], '&');
        out, count := out + params, count + more;
      }
    } else {
      out, count := RedactRuns(word, false);
    }
  }

  method RedactLongOpaqueRuns(u: Unicode, chars: string) returns (out: string, count: nat)
    ensures Redaction(out, count) == OpaqueRuns(u, chars, 0)
  {
    hide Word;
    out, count := [], 0;
    var i := 0;
    NothingMore(OpaqueRuns(u, chars, 0));
    while i < |chars|
      invariant i <= |chars|
      invariant OpaqueRuns(u, chars, 0) == Redaction(out, count).Then(OpaqueRuns(u, chars, i))
    {
      var (part, next) := WordAt(u, chars, i);
      Onward(Redaction(out, count), part, OpaqueRuns(u, chars, next));
      if u.isWhitespace(chars[i]) {
        out := out + [chars[i]];
        i := i + 1;
      } else {
        var end := Scan(chars, i + 1, u.isWhitespace);
        var word, more := RedactWord(chars[i..end]);
        out, count := out + word, count + more;
        i := end;
      }
    }
    NothingMore(Redaction(out, count));
  }

  // ----------------------------------------------------------------------- URLs

  predicate SchemeAt(chars: string, i: nat) {
    i + 3 <= |chars| && chars[i..i + 3] == "://"
  }

  /** The end of the first `://` from `i` on. */
  function SchemeEnd(chars: string, i: nat): (end: Option<nat>)
    requires i <= |chars|
    ensures end.Some? ==> i < end.value <= |chars|
    decreases |chars| - i
  {
    if i == |chars| then None else if SchemeAt(chars, i) then Some(i + 3) else SchemeEnd(chars, i + 1)
  }

  /** User information runs to an `@` that comes before any slash. */
  function UserInfoAfter(chars: string, i: nat, start: nat): (r: (Redaction, nat))
    requires i <= start <= |chars|
    ensures start <= r.1 <= |chars|
  {
    var at, slash := Until(chars, start, Is('@')), Until(chars, start, Is('/'));
    if at < |chars| && at < slash then (Kept(chars[i..start]).Then(CUT).Then(Kept("@")), at + 1)
    else (Kept(chars[i..start]), start)
  }

  function UserInfo(chars: string, i: nat): Redaction
    requires i <= |chars|
    decreases |chars| - i
  {
    match SchemeEnd(chars, i)
    case None => Kept(chars[i..])
    case Some(start) =>
      var (part, next) := UserInfoAfter(chars, i, start);
      part.Then(UserInfo(chars, next))
  }

  method FindSchemeSep(chars: string, start: nat) returns (end: Option<nat>)
    requires start <= |chars|
    ensures end == SchemeEnd(chars, start)
  {
    var i := start;
    while i < |chars|
      invariant start <= i <= |chars| && SchemeEnd(chars, start) == SchemeEnd(chars, i)
    {
      if SchemeAt(chars, i) {
        return Some(i + 3);
      }
      i := i + 1;
    }
    return None;
  }

  method RedactUserInfoAt(chars: string, i: nat, start: nat) returns (out: string, count: nat, next: nat)
    requires i <= start <= |chars|
    ensures (Redaction(out, count), next) == UserInfoAfter(chars, i, start)
  {
    hide Until;
    var at := Scan(chars, start, Is('@'));
    var slash := Scan(chars, start, Is('/'));
    if at < |chars| && at < slash {
      return chars[i..start] + REDACTED + "@", 1, at + 1;
    }
    return chars[i..start], 0, start;
  }

  method RedactUrlUserInfo(chars: string) returns (out: string, count: nat)
    ensures Redaction(out, count) == UserInfo(chars, 0)
  {
    hide UserInfoAfter, SchemeEnd;
    out, count := [], 0;
    var i := 0;
    NothingMore(UserInfo(chars, 0));
    while true
      invariant i <= |chars|
      invariant UserInfo(chars, 0) == Redaction(out, count).Then(UserInfo(chars, i))
      decreases |chars| - i
    {
      var scheme := FindSchemeSep(chars, i);
      if scheme.None? {
        out := out + chars[i..];
        break;
      }
      var more, extra, next := RedactUserInfoAt(chars, i, scheme.value);
      Onward(Redaction(out, count), Redaction(more, extra), UserInfo(chars, next));
      out, count := out + more, count + extra;
      i := next;
    }
  }

  /** What the query scan does with the parameter that starts after `separator`. */
  function QueryValueAfter(u: Unicode, chars: string, i: nat, separator: nat): (r: (Redaction, nat))
    requires i <= separator < |chars|
    ensures separator < r.1 <= |chars|
  {
    var keyEnd := Until(chars, separator + 1, SpaceOrEither(u, '=', '&'));
    if keyEnd < |chars| && chars[keyEnd] == '=' && IsVocabKey(chars[separator + 1..keyEnd])
    then (Kept(chars[i..keyEnd + 1]).Then(CUT), Until(chars, keyEnd + 1, SpaceOr(u, '&')))
    else (Kept(chars[i..keyEnd]), keyEnd)
  }

  function QueryValues(u: Unicode, chars: string, i: nat): Redaction
    requires i <= |chars|
    decreases |chars| - i
  {
    var separator := Until(chars, i, Either('?', '&'));
    if separator == |chars| then Kept(chars[i..])
    else
      var (part, next) := QueryValueAfter(u, chars, i, separator);
      part.Then(QueryValues(u, chars, next))
  }

  method RedactQueryValueAt(u: Unicode, chars: string, i: nat, separator: nat)
    returns (out: string, count: nat, next: nat)
    requires i <= separator < |chars|
    ensures (Redaction(out, count), next) == QueryValueAfter(u, chars, i, separator)
  {
    hide Until, IsVocabKey;
    var keyEnd := Scan(chars, separator + 1, SpaceOrEither(u, '=', '&'));
    if keyEnd < |chars| && chars[keyEnd] == '=' && IsVocabKey(chars[separator + 1..keyEnd]) {
      next := Scan(chars, keyEnd + 1, SpaceOr(u, '&'));
      return chars[i..keyEnd + 1] + REDACTED, 1, next;
    }
    return chars[i..keyEnd], 0, keyEnd;
  }

  method RedactUrlQuery(u: Unicode, chars: string) returns (out: string, count: nat)
    ensures Redaction(out, count) == QueryValues(u, chars, 0)
  {
    hide QueryValueAfter, Until;
    out, count := [], 0;
    var i := 0;
    NothingMore(QueryValues(u, chars, 0));
    while true
      invariant i <= |chars|
      invariant QueryValues(u, chars, 0) == Redaction(out, count).Then(QueryValues(u, chars, i))
      decreases |chars| - i
    {
      var separator := Scan(chars, i, Either('?', '&'));
      if separator == |chars| {
        out := out + chars[i..];
        break;
      }
      var more, extra, next := RedactQueryValueAt(u, chars, i, separator);
      Onward(Redaction(out, count), Redaction(more, extra), QueryValues(u, chars, next));
      out, count := out + more, count + extra;
      i := next;
    }
  }

  // --------------------------------------------------------- connection strings

  /** The first semicolon of a region that counts: any inside quotes, only an unquoted one outside. */
  function Semicolon(chars: string, k: nat, regionEnd: nat, inside: bool): (r: Option<nat>)
    requires k <= regionEnd <= |chars|
    ensures r.Some? ==> k <= r.value < regionEnd
    decreases regionEnd - k
  {
    if k == regionEnd then None
    else if chars[k] == ';' && (inside || !InQuotes(chars, k)) then Some(k)
    else Semicolon(chars, k + 1, regionEnd, inside)
  }

  function ConnectionValueEnd(u: Unicode, chars: string, start: nat): (end: nat)
    requires start <= |chars|
    ensures start <= end <= |chars|
  {
    var inside := InQuotes(chars, start);
    var regionEnd := if inside then Until(chars, start, Is('"')) else |chars|;
    match Semicolon(chars, start, regionEnd, inside)
    case Some(k) => k
    case None => if inside then regionEnd else Until(chars, start, u.isWhitespace)
  }

  function IsNot(d: char): char -> bool {
    c => c != d
  }

  /** Where a key, its letters in either case and its space any number of spaces, has been read to. */
  function MatchEnd(chars: string, at: nat, key: string, k: nat): (end: Option<nat>)
    requires at <= |chars| && k <= |key|
    ensures end.Some? ==> at + (|key| - k) <= end.value <= |chars|
    decreases |key| - k
  {
    if k == |key| then Some(at)
    else if at == |chars| then None
    else if key[k] == ' ' then
      if chars[at] == ' ' then MatchEnd(chars, Until(chars, at + 1, IsNot(' ')), key, k + 1) else None
    else if ToAsciiLower(chars[at]) == ToAsciiLower(key[k]) then MatchEnd(chars, at + 1, key, k + 1)
    else None
  }

  predicate WholeWordEnds(u: Unicode, chars: string, at: nat) {
    at < |chars| ==> !(u.isAlphanumeric(chars[at]) || chars[at] == '_')
  }

  predicate AtWordStart(u: Unicode, chars: string, i: nat)
    requires i <= |chars|
  {
    i == 0 || !(u.isAlphanumeric(chars[i - 1]) || chars[i - 1] == '_' || chars[i - 1] == '-')
  }

  function KeyHit(u: Unicode, chars: string, i: nat, key: string): (hit: Option<Span>)
    requires i < |chars|
    ensures hit.Some? ==> i < hit.value.from < hit.value.to <= |chars|
    ensures hit.Some? ==> chars[hit.value.from..hit.value.to] != REDACTED
  {
    var end := MatchEnd(chars, i, key, 0);
    if end.None? || !WholeWordEnds(u, chars, end.value) then None
    else
      var eq := Until(chars, i + |key|, NotSpace(u));
      if eq == |chars| || chars[eq] != '=' then None
      else
        var from := Until(chars, eq + 1, NotSpace(u));
        var to := ConnectionValueEnd(u, chars, from);
        if to > from && chars[from..to] != REDACTED then Some(Span(from, to)) else None
  }

  /** The first of the keys from `k` on that has a value to redact. */
  function FirstKeyHit(u: Unicode, chars: string, i: nat, k: nat): (hit: Option<Span>)
    requires i < |chars| && k <= |CONNECTION_KEYS|
    ensures hit.Some? ==> i < hit.value.from < hit.value.to <= |chars|
    ensures hit.Some? ==> chars[hit.value.from..hit.value.to] != REDACTED
    decreases |CONNECTION_KEYS| - k
  {
    if k == |CONNECTION_KEYS| then None
    else
      var hit := KeyHit(u, chars, i, CONNECTION_KEYS[k]);
      if hit.Some? then hit else FirstKeyHit(u, chars, i, k + 1)
  }

  function ConnectionPart(u: Unicode, chars: string, i: nat): (r: (Redaction, nat))
    requires i < |chars|
    ensures i < r.1 <= |chars|
  {
    var hit := if AtWordStart(u, chars, i) then FirstKeyHit(u, chars, i, 0) else None;
    if hit.Some? then (HitRedacted(chars, i, hit.value), hit.value.to) else (Kept([chars[i]]), i + 1)
  }

  function Connections(u: Unicode, chars: string, i: nat): Redaction
    requires i <= |chars|
    decreases |chars| - i
  {
    if i == |chars| then Kept([])
    else
      var (part, next) := ConnectionPart(u, chars, i);
      part.Then(Connections(u, chars, next))
  }

  method FindConnectionValueEnd(u: Unicode, chars: string, inQuotes: seq<bool>, start: nat) returns (end: nat)
    requires start <= |chars| && AreQuotes(inQuotes, chars)
    ensures end == ConnectionValueEnd(u, chars, start)
  {
    hide Until, InQuotes;
    var inside := QuotedAt(inQuotes, chars, start);
    var regionEnd := |chars|;
    if inside {
      regionEnd := Scan(chars, start, Is('"'));
    }
    var k := start;
    while k < regionEnd
      invariant start <= k <= regionEnd <= |chars|
      invariant Semicolon(chars, start, regionEnd, inside) == Semicolon(chars, k, regionEnd, inside)
    {
      if chars[k] == ';' && (inside || !inQuotes[k]) {
        return k;
      }
      k := k + 1;
    }
    if inside {
      return regionEnd;
    }
    end := Scan(chars, start, u.isWhitespace);
  }

  method MatchesKey(u: Unicode, chars: string, start: nat, key: string) returns (matches: bool)
    requires start <= |chars|
    ensures var end := MatchEnd(chars, start, key, 0); matches == (end.Some? && WholeWordEnds(u, chars, end.value))
  {
    hide Until, WholeWordEnds;
    var at: nat, k: nat := start, 0;
    while k < |key|
      invariant at <= |chars| && k <= |key|
      invariant MatchEnd(chars, start, key, 0) == MatchEnd(chars, at, key, k)
    {
      if at >= |chars| {
        return false;
      }
      if key[k] == ' ' {
        if chars[at] != ' ' {
          return false;
        }
        at := Scan(chars, at + 1, IsNot(' '));
      } else {
        if ToAsciiLower(chars[at]) != ToAsciiLower(key[k]) {
          return false;
        }
        at := at + 1;
      }
      k := k + 1;
    }
    matches := WholeWordEnds(u, chars, at);
  }

  method FindKeyHit(u: Unicode, chars: string, inQuotes: seq<bool>, i: nat, key: string) returns (hit: Option<Span>)
    requires i < |chars| && AreQuotes(inQuotes, chars)
    ensures hit == KeyHit(u, chars, i, key)
  {
    hide Until, AreQuotes, MatchEnd, WholeWordEnds, ConnectionValueEnd;
    var matches := MatchesKey(u, chars, i, key);
    if !matches {
      return None;
    }
    var eq := Scan(chars, i + |key|, NotSpace(u));
    if eq == |chars| || chars[eq] != '=' {
      return None;
    }
    var from := Scan(chars, eq + 1, NotSpace(u));
    var to := FindConnectionValueEnd(u, chars, inQuotes, from);
    if to > from && chars[from..to] != REDACTED {
      return Some(Span(from, to));
    }
    return None;
  }

  method FindConnectionHit(u: Unicode, chars: string, inQuotes: seq<bool>, i: nat) returns (hit: Option<Span>)
    requires i < |chars| && AreQuotes(inQuotes, chars)
    ensures hit == FirstKeyHit(u, chars, i, 0)
  {
    hide KeyHit, AreQuotes;
    var k := 0;
    while k < |CONNECTION_KEYS|
      invariant k <= |CONNECTION_KEYS| && FirstKeyHit(u, chars, i, 0) == FirstKeyHit(u, chars, i, k)
    {
      hit := FindKeyHit(u, chars, inQuotes, i, CONNECTION_KEYS[k]);
      if hit.Some? {
        return;
      }
      k := k + 1;
    }
    hit := None;
  }

  method RedactConnectionStrings(u: Unicode, chars: string) returns (out: string, count: nat)
    ensures Redaction(out, count) == Connections(u, chars, 0)
  {
    hide FirstKeyHit, AtWordStart, AreQuotes;
    var inQuotes := ComputeInQuotes(chars);
    out, count := [], 0;
    var i := 0;
    NothingMore(Connections(u, chars, 0));
    while i < |chars|
      invariant i <= |chars|
      invariant Connections(u, chars, 0) == Redaction(out, count).Then(Connections(u, chars, i))
    {
      var (part, next) := ConnectionPart(u, chars, i);
      Onward(Redaction(out, count), part, Connections(u, chars, next));
      var hit := None;
      if AtWordStart(u, chars, i) {
        hit := FindConnectionHit(u, chars, inQuotes, i);
      }
      if hit.Some? {
        Onward(Redaction(out, count), Kept(chars[i..hit.value.from]), CUT);
        out := out + chars[i..hit.value.from] + REDACTED;
        count := count + 1;
        i := hit.value.to;
      } else {
        out := out + [chars[i]];
        i := i + 1;
      }
    }
    NothingMore(Redaction(out, count));
  }

  // ------------------------------------------------------------------- all four

  /** The passes in order; `wasTruncated` says that a tail was dropped before the text got here. */
  function CommandLine(u: Unicode, text: string, wasTruncated: bool): Redaction {
    var vocabulary := Vocabulary(u, text, 0);
    var runs := OpaqueRuns(u, vocabulary.text, 0);
    var userInfo := UserInfo(runs.text, 0);
    var query := QueryValues(u, userInfo.text, 0);
    var connections := Connections(u, query.text, 0);
    Redaction(connections.text + (if wasTruncated then TRUNCATED_MARKER else []),
              vocabulary.count + runs.count + userInfo.count + query.count + connections.count)
  }

  method RedactCommandLine(u: Unicode, text: string, wasTruncated: bool) returns (out: string, count: nat)
    ensures Redaction(out, count) == CommandLine(u, text, wasTruncated)
  {
    hide Vocabulary, OpaqueRuns, UserInfo, QueryValues, Connections;
    var more;
    out, count := RedactVocabulary(u, text);
    out, more := RedactLongOpaqueRuns(u, out);
    count := count + more;
    out, more := RedactUrlUserInfo(out);
    count := count + more;
    out, more := RedactUrlQuery(u, out);
    count := count + more;
    out, more := RedactConnectionStrings(u, out);
    count := count + more;
    if wasTruncated {
      out := out + TRUNCATED_MARKER;
    }
  }
}
