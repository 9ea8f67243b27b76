/** Redaction only ever replaces spans: what every pass keeps, what it may cut, and what the count means. */
module RedactEdits {
  import opened Models
  import opened Redact

  datatype Piece = Keep(text: string) | Cut(text: string)

  function Original(pieces: seq<Piece>): string {
    if pieces == [] then [] else pieces[0].text + Original(pieces[1..])
  }

  function Rewritten(pieces: seq<Piece>): string {
    if pieces == [] then []
    else (if pieces[0].Cut? then REDACTED else pieces[0].text) + Rewritten(pieces[1..])
  }

  function Cuts(pieces: seq<Piece>): nat {
    if pieces == [] then 0 else (if pieces[0].Cut? then 1 else 0) + Cuts(pieces[1..])
  }

  datatype Scan = ForVocabulary | ForOpaqueRuns | ForUserInfo | ForQueryValues | ForConnectionStrings

  /** What each pass may cut out. */
  predicate MayCut(scan: Scan, u: Unicode, text: string) {
    match scan
    case ForVocabulary => text != []
    case ForOpaqueRuns =>
      |text| >= MIN_OPAQUE && LooksOpaque(text) && forall c :: c in text ==> IsOpaqueChar(c) || c == '%'
    case ForUserInfo => forall c :: c in text ==> c != '@' && c != '/'
    case ForQueryValues => forall c :: c in text ==> c != '&' && !u.isWhitespace(c)
    case ForConnectionStrings => text != [] && text != REDACTED
  }

  ghost predicate Splits(scan: Scan, u: Unicode, pieces: seq<Piece>, original: string, r: Redaction) {
    && Original(pieces) == original && Rewritten(pieces) == r.text && Cuts(pieces) == r.count
    && forall p :: p in pieces && p.Cut? ==> MayCut(scan, u, p.text)
  }

  /** The text is the original with exactly as many disjoint spans replaced as the count says. */
  ghost predicate IsEdit(scan: Scan, u: Unicode, original: string, r: Redaction) {
    exists pieces :: Splits(scan, u, pieces, original, r)
  }

  // --------------------------------------------------------------------- algebra

  lemma {:induction false} PiecesJoin(a: seq<Piece>, b: seq<Piece>)
    ensures Original(a + b) == Original(a) + Original(b)
    ensures Rewritten(a + b) == Rewritten(a) + Rewritten(b)
    ensures Cuts(a + b) == Cuts(a) + Cuts(b)
  {
    if a == [] {
      assert a + b == b;
    } else {
      PiecesJoin(a[1..], b);
      var first := a[0];
      assert (a + b)[0] == first && (a + b)[1..] == a[1..] + b;
      JoinsUp(first.text, Original(a[1..]), Original(b));
      JoinsUp(if first.Cut? then REDACTED else first.text, Rewritten(a[1..]), Rewritten(b));
    }
  }

  lemma JoinsUp(a: string, b: string, c: string)
    ensures a + (b + c) == (a + b) + c
  {
  }

  lemma EditsJoin(scan: Scan, u: Unicode, a: string, ra: Redaction, b: string, rb: Redaction)
    requires IsEdit(scan, u, a, ra) && IsEdit(scan, u, b, rb)
    ensures IsEdit(scan, u, a + b, ra.Then(rb))
  {
    hide MayCut;
    var pa :| Splits(scan, u, pa, a, ra);
    var pb :| Splits(scan, u, pb, b, rb);
    PiecesJoin(pa, pb);
    assert Splits(scan, u, pa + pb, a + b, ra.Then(rb));
  }

  lemma OnePiece(piece: Piece)
    ensures Original([piece]) == piece.text
    ensures Rewritten([piece]) == if piece.Cut? then REDACTED else piece.text
    ensures Cuts([piece]) == if piece.Cut? then 1 else 0
  {
    var kept := if piece.Cut? then REDACTED else piece.text;
    assert [piece][1..] == [] && piece.text + [] == piece.text && kept + [] == kept;
    assert Rewritten([piece]) == kept + Rewritten([]);
  }

  lemma KeepingIsAnEdit(scan: Scan, u: Unicode, text: string)
    ensures IsEdit(scan, u, text, Kept(text))
  {
    hide Original, Rewritten, Cuts;
    OnePiece(Keep(text));
    assert Splits(scan, u, [Keep(text)], text, Kept(text));
  }

  lemma CuttingIsAnEdit(scan: Scan, u: Unicode, text: string)
    requires MayCut(scan, u, text)
    ensures IsEdit(scan, u, text, CUT)
  {
    hide MayCut, Original, Rewritten, Cuts;
    OnePiece(Cut(text));
    assert Splits(scan, u, [Cut(text)], text, CUT);
  }

  lemma {:induction false} NoCutsNoChange(pieces: seq<Piece>)
    requires Cuts(pieces) == 0
    ensures Rewritten(pieces) == Original(pieces)
  {
    if pieces != [] {
      NoCutsNoChange(pieces[1..]);
    }
  }

  function CutLength(pieces: seq<Piece>): nat {
    if pieces == [] then 0 else (if pieces[0].Cut? then |pieces[0].text| else 0) + CutLength(pieces[1..])
  }

  lemma {:induction false} LengthsBalance(pieces: seq<Piece>)
    ensures |Original(pieces)| + |REDACTED| * Cuts(pieces) == |Rewritten(pieces)| + CutLength(pieces)
  {
    if pieces != [] {
      LengthsBalance(pieces[1..]);
    }
  }

  /** A count of zero means that nothing was touched. */
  lemma UncountedIsUntouched(scan: Scan, u: Unicode, original: string, r: Redaction)
    requires IsEdit(scan, u, original, r) && r.count == 0
    ensures r.text == original
  {
    hide MayCut;
    var pieces :| Splits(scan, u, pieces, original, r);
    NoCutsNoChange(pieces);
  }

  // ----------------------------------------------------------------- pass by pass

  lemma HitIsAnEdit(scan: Scan, u: Unicode, chars: string, i: nat, hit: Span)
    requires i <= hit.from <= hit.to <= |chars|
    requires hit.from < hit.to ==> MayCut(scan, u, chars[hit.from..hit.to])
    ensures IsEdit(scan, u, chars[i..hit.to], HitRedacted(chars, i, hit))
  {
    hide IsEdit, MayCut;
    KeepingIsAnEdit(scan, u, chars[i..hit.from]);
    if hit.from < hit.to {
      CuttingIsAnEdit(scan, u, chars[hit.from..hit.to]);
      EditsJoin(scan, u, chars[i..hit.from], Kept(chars[i..hit.from]), chars[hit.from..hit.to], CUT);
    }
    assert chars[i..hit.from] + chars[hit.from..hit.to] == chars[i..hit.to];
  }

  /** Pass one replaces only non-empty values. */
  lemma {:induction false} VocabularyIsAnEdit(u: Unicode, chars: string, i: nat)
    requires i <= |chars|
    ensures IsEdit(ForVocabulary, u, chars[i..], Vocabulary(u, chars, i))
    decreases |chars| - i
  {
    hide IsEdit, VocabularyHit;
    if i == |chars| {
      assert chars[i..] == [];
      KeepingIsAnEdit(ForVocabulary, u, []);
    } else {
      var (part, next) := VocabularyPart(u, chars, i);
      var hit := VocabularyHit(u, chars, i);
      if hit.Some? {
        HitIsAnEdit(ForVocabulary, u, chars, i, hit.value);
      } else {
        assert chars[i..next] == [chars[i]];
        KeepingIsAnEdit(ForVocabulary, u, [chars[i]]);
      }
      VocabularyIsAnEdit(u, chars, next);
      EditsJoin(ForVocabulary, u, chars[i..next], part, chars[next..], Vocabulary(u, chars, next));
      assert chars[i..next] + chars[next..] == chars[i..];
    }
  }

  lemma RunIsAnEdit(u: Unicode, word: string, i: nat, percentOpaque: bool)
    requires i < |word|
    ensures var (part, next) := RunAt(word, i, percentOpaque); IsEdit(ForOpaqueRuns, u, word[i..next], part)
  {
    hide IsEdit, LooksOpaque;
    var end := Until(word, i, NotOpaque(percentOpaque));
    hide Until;
    if end == i {
      assert word[i..i + 1] == [word[i]];
      KeepingIsAnEdit(ForOpaqueRuns, u, [word[i]]);
    } else if end - i >= MIN_OPAQUE && LooksOpaque(word[i..end]) {
      CuttingIsAnEdit(ForOpaqueRuns, u, word[i..end]);
    } else {
      KeepingIsAnEdit(ForOpaqueRuns, u, word[i..end]);
    }
  }

  lemma {:induction false} RunsAreAnEdit(u: Unicode, word: string, i: nat, percentOpaque: bool)
    requires i <= |word|
    ensures IsEdit(ForOpaqueRuns, u, word[i..], Runs(word, i, percentOpaque))
    decreases |word| - i
  {
    hide IsEdit, RunAt;
    if i == |word| {
      assert word[i..] == [];
      KeepingIsAnEdit(ForOpaqueRuns, u, []);
    } else {
      var (part, next) := RunAt(word, i, percentOpaque);
      RunIsAnEdit(u, word, i, percentOpaque);
      RunsAreAnEdit(u, word, next, percentOpaque);
      EditsJoin(ForOpaqueRuns, u, word[i..next], part, word[next..], Runs(word, next, percentOpaque));
      assert word[i..next] + word[next..] == word[i..];
    }
  }

  lemma WholeRunsAreAnEdit(u: Unicode, word: string, percentOpaque: bool)
    ensures IsEdit(ForOpaqueRuns, u, word, Runs(word, 0, percentOpaque))
  {
    RunsAreAnEdit(u, word, 0, percentOpaque);
    assert word[0..] == word;
  }

  lemma PathSegmentIsAnEdit(u: Unicode, segment: string)
    ensures IsEdit(ForOpaqueRuns, u, segment, PathSegment(segment))
  {
    hide IsEdit, Runs, IsShortExtension;
    WholeRunsAreAnEdit(u, segment, false);
    var dot := LastDot(segment, |segment|);
    if dot.Some? {
      WholeRunsAreAnEdit(u, segment[..dot.value], false);
      KeepingIsAnEdit(ForOpaqueRuns, u, segment[dot.value..]);
      EditsJoin(ForOpaqueRuns, u, segment[..dot.value], Runs(segment[..dot.value], 0, false),
                segment[dot.value..], Kept(segment[dot.value..]));
      assert segment[..dot.value] + segment[dot.value..] == segment;
    }
  }

  lemma QueryPairIsAnEdit(u: Unicode, pair: string)
    ensures IsEdit(ForOpaqueRuns, u, pair, QueryPair(pair))
  {
    hide IsEdit, Runs, IsVocabKey;
    WholeRunsAreAnEdit(u, pair, false);
    KeepingIsAnEdit(ForOpaqueRuns, u, pair);
    var eq := Until(pair, 0, Is('='));
    if eq < |pair| {
      KeepingIsAnEdit(ForOpaqueRuns, u, pair[..eq + 1]);
      WholeRunsAreAnEdit(u, pair[eq + 1..], true);
      EditsJoin(ForOpaqueRuns, u, pair[..eq + 1], Kept(pair[..eq + 1]), pair[eq + 1..], Runs(pair[eq + 1..], 0, true));
      assert pair[..eq + 1] + pair[eq + 1..] == pair;
    }
  }

  /** Splitting at separators and joining up again loses nothing. */
  lemma {:induction false} PartsAreAnEdit(u: Unicode, text: string, start: nat, separator: char)
    requires start <= |text|
    ensures IsEdit(ForOpaqueRuns, u, text[start..], Parts(text, start, separator))
    decreases |text| - start
  {
    hide IsEdit, PathSegment, QueryPair, Until;
    var end := Until(text, start, Is(separator));
    var inner := Part(text[start..end], separator);
    PathSegmentIsAnEdit(u, text[start..end]);
    QueryPairIsAnEdit(u, text[start..end]);
    if end == |text| {
      assert text[start..end] == text[start..];
    } else {
      KeepingIsAnEdit(ForOpaqueRuns, u, [separator]);
      EditsJoin(ForOpaqueRuns, u, text[start..end], inner, [separator], Kept([separator]));
      PartsAreAnEdit(u, text, end + 1, separator);
      EditsJoin(ForOpaqueRuns, u, text[start..end] + [separator], inner.Then(Kept([separator])),
                text[end + 1..], Parts(text, end + 1, separator));
      assert text[start..end] + [separator] + text[end + 1..] == text[start..];
    }
  }

  lemma WordIsAnEdit(u: Unicode, word: string)
    ensures IsEdit(ForOpaqueRuns, u, word, Word(word))
  {
    hide IsEdit, Parts, Runs, Until;
    KeepingIsAnEdit(ForOpaqueRuns, u, word);
    WholeRunsAreAnEdit(u, word, false);
    var query := Until(word, 0, Is('?'));
    PartsAreAnEdit(u, word[..query], 0, '/');
    assert word[..query][0..] == word[..query];
    if query == |word| {
      assert word[..query] == word;
    } else {
      var path := Parts(word[..query], 0, '/');
      KeepingIsAnEdit(ForOpaqueRuns, u, "?");
      EditsJoin(ForOpaqueRuns, u, word[..query], path, "?", Kept("?"));
      PartsAreAnEdit(u, word[query + 1..], 0, '&');
      assert word[query + 1..][0..] == word[query + 1..];
      EditsJoin(ForOpaqueRuns, u, word[..query] + "?", path.Then(Kept("?")), word[query + 1..],
                Parts(word[query + 1..], 0, '&'));
      assert word[..query] + "?" + word[query + 1..] == word;
    }
  }

  /** Pass two replaces only long runs of opaque characters, through all its splitting. */
  lemma {:induction false} OpaqueRunsAreAnEdit(u: Unicode, chars: string, i: nat)
    requires i <= |chars|
    ensures IsEdit(ForOpaqueRuns, u, chars[i..], OpaqueRuns(u, chars, i))
    decreases |chars| - i
  {
    hide IsEdit, Word, Until;
    if i == |chars| {
      assert chars[i..] == [];
      KeepingIsAnEdit(ForOpaqueRuns, u, []);
    } else {
      var (part, next) := WordAt(u, chars, i);
      if u.isWhitespace(chars[i]) {
        assert chars[i..next] == [chars[i]];
        KeepingIsAnEdit(ForOpaqueRuns, u, [chars[i]]);
      } else {
        WordIsAnEdit(u, chars[i..next]);
      }
      OpaqueRunsAreAnEdit(u, chars, next);
      EditsJoin(ForOpaqueRuns, u, chars[i..next], part, chars[next..], OpaqueRuns(u, chars, next));
      assert chars[i..next] + chars[next..] == chars[i..];
    }
  }

  lemma UserInfoPartIsAnEdit(u: Unicode, chars: string, i: nat, start: nat)
    requires i <= start <= |chars|
    ensures var (part, next) := UserInfoAfter(chars, i, start); IsEdit(ForUserInfo, u, chars[i..next], part)
  {
    hide IsEdit;
    var at, slash := Until(chars, start, Is('@')), Until(chars, start, Is('/'));
    hide Until;
    KeepingIsAnEdit(ForUserInfo, u, chars[i..start]);
    if at < |chars| && at < slash {
      CuttingIsAnEdit(ForUserInfo, u, chars[start..at]);
      EditsJoin(ForUserInfo, u, chars[i..start], Kept(chars[i..start]), chars[start..at], CUT);
      KeepingIsAnEdit(ForUserInfo, u, "@");
      EditsJoin(ForUserInfo, u, chars[i..start] + chars[start..at], Kept(chars[i..start]).Then(CUT), "@", Kept("@"));
      assert chars[i..start] + chars[start..at] + "@" == chars[i..at + 1];
    }
  }

  /** The first half of pass three replaces only what stands between a scheme and the `@` of the same authority. */
  lemma {:induction false} UserInfoIsAnEdit(u: Unicode, chars: string, i: nat)
    requires i <= |chars|
    ensures IsEdit(ForUserInfo, u, chars[i..], UserInfo(chars, i))
    decreases |chars| - i
  {
    hide IsEdit, UserInfoAfter;
    var scheme := SchemeEnd(chars, i);
    if scheme.None? {
      KeepingIsAnEdit(ForUserInfo, u, chars[i..]);
    } else {
      var (part, next) := UserInfoAfter(chars, i, scheme.value);
      UserInfoPartIsAnEdit(u, chars, i, scheme.value);
      UserInfoIsAnEdit(u, chars, next);
      EditsJoin(ForUserInfo, u, chars[i..next], part, chars[next..], UserInfo(chars, next));
      assert chars[i..next] + chars[next..] == chars[i..];
    }
  }

  lemma QueryPartIsAnEdit(u: Unicode, chars: string, i: nat, separator: nat)
    requires i <= separator < |chars|
    ensures var (part, next) := QueryValueAfter(u, chars, i, separator); IsEdit(ForQueryValues, u, chars[i..next], part)
  {
    hide IsEdit, IsVocabKey;
    var keyEnd := Until(chars, separator + 1, SpaceOrEither(u, '=', '&'));
    if keyEnd < |chars| && chars[keyEnd] == '=' && IsVocabKey(chars[separator + 1..keyEnd]) {
      var end := Until(chars, keyEnd + 1, SpaceOr(u, '&'));
      hide Until;
      KeepingIsAnEdit(ForQueryValues, u, chars[i..keyEnd + 1]);
      CuttingIsAnEdit(ForQueryValues, u, chars[keyEnd + 1..end]);
      EditsJoin(ForQueryValues, u, chars[i..keyEnd + 1], Kept(chars[i..keyEnd + 1]), chars[keyEnd + 1..end], CUT);
      assert chars[i..keyEnd + 1] + chars[keyEnd + 1..end] == chars[i..end];
    } else {
      KeepingIsAnEdit(ForQueryValues, u, chars[i..keyEnd]);
    }
  }

  /** The second half of pass three replaces only values that hold no space and no `&`. */
  lemma {:induction false} QueryValuesAreAnEdit(u: Unicode, chars: string, i: nat)
    requires i <= |chars|
    ensures IsEdit(ForQueryValues, u, chars[i..], QueryValues(u, chars, i))
    decreases |chars| - i
  {
    hide IsEdit, QueryValueAfter, Until;
    var separator := Until(chars, i, Either('?', '&'));
    if separator == |chars| {
      KeepingIsAnEdit(ForQueryValues, u, chars[i..]);
    } else {
      var (part, next) := QueryValueAfter(u, chars, i, separator);
      QueryPartIsAnEdit(u, chars, i, separator);
      QueryValuesAreAnEdit(u, chars, next);
      EditsJoin(ForQueryValues, u, chars[i..next], part, chars[next..], QueryValues(u, chars, next));
      assert chars[i..next] + chars[next..] == chars[i..];
    }
  }

  /** Pass four replaces only non-empty values that are not already the token. */
  lemma {:induction false} ConnectionsAreAnEdit(u: Unicode, chars: string, i: nat)
    requires i <= |chars|
    ensures IsEdit(ForConnectionStrings, u, chars[i..], Connections(u, chars, i))
    decreases |chars| - i
  {
    hide IsEdit, FirstKeyHit;
    if i == |chars| {
      assert chars[i..] == [];
      KeepingIsAnEdit(ForConnectionStrings, u, []);
    } else {
      var (part, next) := ConnectionPart(u, chars, i);
      var hit := if AtWordStart(u, chars, i) then FirstKeyHit(u, chars, i, 0) else None;
      if hit.Some? {
        HitIsAnEdit(ForConnectionStrings, u, chars, i, hit.value);
      } else {
        assert chars[i..next] == [chars[i]];
        KeepingIsAnEdit(ForConnectionStrings, u, [chars[i]]);
      }
      ConnectionsAreAnEdit(u, chars, next);
      EditsJoin(ForConnectionStrings, u, chars[i..next], part, chars[next..], Connections(u, chars, next));
      assert chars[i..next] + chars[next..] == chars[i..];
    }
  }

  // ------------------------------------------------------------------- all passes

  /** What each pass hands to the next. */
  datatype Stages = Stages(vocabulary: Redaction, runs: Redaction, userInfo: Redaction, query: Redaction,
                           connections: Redaction)

  ghost predicate EditsInTurn(u: Unicode, text: string, s: Stages) {
    && IsEdit(ForVocabulary, u, text, s.vocabulary)
    && IsEdit(ForOpaqueRuns, u, s.vocabulary.text, s.runs)
    && IsEdit(ForUserInfo, u, s.runs.text, s.userInfo)
    && IsEdit(ForQueryValues, u, s.userInfo.text, s.query)
    && IsEdit(ForConnectionStrings, u, s.query.text, s.connections)
  }

  /** A command line is redacted by span edits only, and the count is the number of spans replaced. */
  lemma RedactionIsSpanEdits(u: Unicode, text: string, wasTruncated: bool) returns (s: Stages)
    ensures EditsInTurn(u, text, s)
    ensures CommandLine(u, text, wasTruncated)
            == Redaction(s.connections.text + (if wasTruncated then TRUNCATED_MARKER else []),
                         s.vocabulary.count + s.runs.count + s.userInfo.count + s.query.count + s.connections.count)
  {
    hide IsEdit, Vocabulary, OpaqueRuns, UserInfo, QueryValues, Connections;
    var vocabulary := Vocabulary(u, text, 0);
    var runs := OpaqueRuns(u, vocabulary.text, 0);
    var userInfo := UserInfo(runs.text, 0);
    var query := QueryValues(u, userInfo.text, 0);
    s := Stages(vocabulary, runs, userInfo, query, Connections(u, query.text, 0));
    VocabularyIsAnEdit(u, text, 0);
    OpaqueRunsAreAnEdit(u, vocabulary.text, 0);
    UserInfoIsAnEdit(u, runs.text, 0);
    QueryValuesAreAnEdit(u, userInfo.text, 0);
    ConnectionsAreAnEdit(u, query.text, 0);
    assert text[0..] == text && vocabulary.text[0..] == vocabulary.text && runs.text[0..] == runs.text;
    assert userInfo.text[0..] == userInfo.text && query.text[0..] == query.text;
  }

  /** An untruncated line with nothing counted comes back as it was. */
  lemma NothingCountedNothingChanged(u: Unicode, text: string)
    requires CommandLine(u, text, false).count == 0
    ensures CommandLine(u, text, false).text == text
  {
    hide IsEdit;
    var s := RedactionIsSpanEdits(u, text, false);
    hide CommandLine;
    UncountedIsUntouched(ForVocabulary, u, text, s.vocabulary);
    UncountedIsUntouched(ForOpaqueRuns, u, s.vocabulary.text, s.runs);
    UncountedIsUntouched(ForUserInfo, u, s.runs.text, s.userInfo);
    UncountedIsUntouched(ForQueryValues, u, s.userInfo.text, s.query);
    UncountedIsUntouched(ForConnectionStrings, u, s.query.text, s.connections);
    assert s.connections.text + [] == s.connections.text;
  }

  // ------------------------------------------------------------ what is found

  lemma UntilIs(chars: string, start: nat, stop: char -> bool, end: nat)
    requires start <= end <= |chars| && (forall k :: start <= k < end ==> !stop(chars[k]))
    requires end < |chars| ==> stop(chars[end])
    ensures Until(chars, start, stop) == end
  {
  }

  predicate IsWordChar(u: Unicode, c: char) {
    u.isAlphanumeric(c) || c == '-' || c == '_'
  }

  /** A credential's name, its flag dashes or slash included, stands at `i` and ends at `end`. */
  predicate NamedAt(u: Unicode, text: string, i: nat, end: nat) {
    && i < |text|
    && (PrefixLength(text, i) == 0 && i > 0 ==> text[i - 1] != '?' && text[i - 1] != '&')
    && var start := i + PrefixLength(text, i);
       && start < end < |text| && IsVocabWord(text[start..end])
       && (forall k :: start <= k < end ==> IsWordChar(u, text[k]))
       && !IsWordChar(u, text[end])
  }

  /**
   * A token stands from `from` to `to`: no space, no `&`, no opening quote, and one of the first two or the end after
   * it.
   */
  predicate TokenAt(u: Unicode, text: string, from: nat, to: nat) {
    && from < to <= |text| && text[from] != '"' && text[from] != '\''
    && (forall k :: from <= k < to ==> !u.isWhitespace(text[k]) && text[k] != '&')
    && (to < |text| ==> u.isWhitespace(text[to]) || text[to] == '&')
  }

  /** From `from` to `to` there is nothing but white space, and what follows is not. */
  predicate SpaceAt(u: Unicode, text: string, from: nat, to: nat) {
    && from <= to < |text| && !u.isWhitespace(text[to])
    && forall k :: from <= k < to ==> u.isWhitespace(text[k])
  }

  /**
   * Outside quotes, a credential's name, a separator and a token, spaced or not, are always found: the token, all of
   * it and nothing else, is what goes.
   */
  lemma NamedTokenIsFound(u: Unicode, text: string, i: nat, end: nat, separator: nat, from: nat, to: nat)
    requires NamedAt(u, text, i, end) && SpaceAt(u, text, end, separator) && SpaceAt(u, text, separator + 1, from)
    requires text[separator] == '=' || text[separator] == ':'
    requires TokenAt(u, text, from, to) && !InQuotes(text, from)
    ensures VocabularyHit(u, text, i) == Some(Span(from, to))
  {
    hide IsVocabWord, InQuotes;
    var start := i + PrefixLength(text, i);
    UntilIs(text, start, NotWordChar(u), end);
    UntilIs(text, end, NotSpace(u), separator);
    UntilIs(text, separator + 1, NotSpace(u), from);
    UntilIs(text, from, SpaceOr(u, '&'), to);
    hide Until, PrefixLength;
    assert ValueEnd(u, text, from, false) == to;
    assert NameEnd(u, text, start) == Some(end);
  }

  /** A flag that names a credential needs no separator: the token after it goes. */
  lemma FlaggedTokenIsFound(u: Unicode, text: string, i: nat, end: nat, from: nat, to: nat)
    requires NamedAt(u, text, i, end) && PrefixLength(text, i) == 2 && end < from && SpaceAt(u, text, end, from)
    requires text[from] != '=' && text[from] != ':'
    requires TokenAt(u, text, from, to) && !InQuotes(text, from)
    ensures VocabularyHit(u, text, i) == Some(Span(from, to))
  {
    hide IsVocabWord, InQuotes;
    UntilIs(text, i + 2, NotWordChar(u), end);
    UntilIs(text, end, NotSpace(u), from);
    UntilIs(text, from, SpaceOr(u, '&'), to);
    hide Until, PrefixLength;
    assert ValueEnd(u, text, from, false) == to;
    assert NameEnd(u, text, i + 2) == Some(end);
  }

  /** Two opaque characters belong to one run if nothing between them is not opaque. */
  predicate OpaqueThrough(word: string, from: nat, to: nat, percentOpaque: bool)
    requires to <= |word|
  {
    forall k :: from <= k < to ==> !NotOpaque(percentOpaque)(word[k])
  }

  /** A run that nothing opaque touches on either side goes whole, exactly when it is long and looks opaque. */
  lemma RunsGoWhole(word: string, from: nat, to: nat, percentOpaque: bool)
    requires from < to <= |word| && OpaqueThrough(word, from, to, percentOpaque)
    requires to < |word| ==> NotOpaque(percentOpaque)(word[to])
    ensures RunAt(word, from, percentOpaque)
            == (if to - from >= MIN_OPAQUE && LooksOpaque(word[from..to]) then CUT else Kept(word[from..to]), to)
  {
    hide LooksOpaque;
    UntilIs(word, from, NotOpaque(percentOpaque), to);
    hide Until;
  }

  // ------------------------------------------------------------ the token revisited

  lemma {:induction false} SemicolonIsFirst(chars: string, k: nat, regionEnd: nat, inside: bool)
    requires k <= regionEnd <= |chars|
    ensures var found := Semicolon(chars, k, regionEnd, inside);
            && (found.Some? ==> chars[found.value] == ';' && (inside || !InQuotes(chars, found.value)))
            && forall j :: k <= j < (if found.Some? then found.value else regionEnd) ==>
                 chars[j] != ';' || (!inside && InQuotes(chars, j))
    decreases regionEnd - k
  {
    hide InQuotes;
    if k < regionEnd && !(chars[k] == ';' && (inside || !InQuotes(chars, k))) {
      SemicolonIsFirst(chars, k + 1, regionEnd, inside);
    }
  }

  /** A semicolon of connection-string syntax, as seen from outside quotes. */
  predicate Unquoted(chars: string, j: nat) {
    j < |chars| && chars[j] == ';' && !InQuotes(chars, j)
  }

  /** Nothing after an unquoted value makes pass four read on past it. */
  predicate EndsAt(u: Unicode, chars: string, end: nat) {
    Unquoted(chars, end)
    || ((end == |chars| || (end < |chars| && u.isWhitespace(chars[end])))
        && forall j :: end <= j < |chars| ==> !Unquoted(chars, j))
  }

  /** The token stands at `start`. */
  predicate StandsAt(chars: string, start: nat) {
    start + |REDACTED| <= |chars| && chars[start..start + |REDACTED|] == REDACTED
  }

  /** Nothing follows the token that would draw it into a longer value: inside quotes, and outside. */
  predicate StandsAlone(u: Unicode, chars: string, start: nat)
    requires StandsAt(chars, start)
  {
    var rest := start + |REDACTED|;
    if InQuotes(chars, start) then rest < |chars| ==> chars[rest] == ';' || chars[rest] == '"'
    else EndsAt(u, chars, rest)
  }

  lemma TokenIsPlain(u: Unicode, chars: string, start: nat, j: nat)
    requires StandsAt(chars, start) && start <= j < start + |REDACTED|
    requires forall c :: c in REDACTED ==> !u.isWhitespace(c)
    ensures chars[j] != ';' && chars[j] != '"' && !u.isWhitespace(chars[j])
  {
    assert chars[j] == chars[start..start + |REDACTED|][j - start] == REDACTED[j - start];
    assert REDACTED[j - start] in REDACTED;
    assert forall c :: c in REDACTED ==> c != ';' && c != '"';
  }

  /**
   * Pass four does look again at a value an earlier pass has replaced. What it takes for the value is the token alone
   * exactly when, inside double quotes, a semicolon, the closing quote or the end comes next, and, outside, an
   * unquoted semicolon comes next, or a space or the end with no such semicolon anywhere after it. Otherwise what it
   * takes goes on beyond the token.
   */
  lemma TokenIsLeftAloneIff(u: Unicode, chars: string, start: nat)
    requires StandsAt(chars, start) && forall c :: c in REDACTED ==> !u.isWhitespace(c)
    ensures chars[start..ConnectionValueEnd(u, chars, start)] == REDACTED <==> StandsAlone(u, chars, start)
    ensures !StandsAlone(u, chars, start) ==> ConnectionValueEnd(u, chars, start) > start + |REDACTED|
  {
    var rest, end, inside := start + |REDACTED|, ConnectionValueEnd(u, chars, start), InQuotes(chars, start);
    forall j | start <= j < rest
      ensures chars[j] != ';' && chars[j] != '"' && !u.isWhitespace(chars[j])
    {
      TokenIsPlain(u, chars, start, j);
    }
    var regionEnd := if inside then Until(chars, start, Is('"')) else |chars|;
    SemicolonIsFirst(chars, start, regionEnd, inside);
    hide InQuotes, Semicolon, Until;
    assert regionEnd >= rest;
    var found := Semicolon(chars, start, regionEnd, inside);
    if inside {
      assert end == found.GetOr(regionEnd) && end >= rest;
    } else if found.Some? {
      assert end == found.value && end >= rest;
      assert Unquoted(chars, end);
    } else {
      assert end == Until(chars, start, u.isWhitespace) && end >= rest;
      assert forall j :: start <= j < |chars| ==> !Unquoted(chars, j);
    }
    assert chars[start..end] == REDACTED <==> end == rest;
  }

  /** One of pass four's keys stands at `i`, with its equals sign, and its value starts at `from`. */
  predicate KeyedAt(u: Unicode, chars: string, i: nat, key: string, from: nat) {
    && i < |chars|
    && var end := MatchEnd(chars, i, key, 0);
       && end.Some? && WholeWordEnds(u, chars, end.value)
       && var eq := Until(chars, i + |key|, NotSpace(u));
          && eq < |chars| && chars[eq] == '='
          && from == Until(chars, eq + 1, NotSpace(u))
  }

  /** A key is known by its first two letters. */
  lemma MatchShowsTwoLetters(chars: string, i: nat, key: string)
    requires key in CONNECTION_KEYS && i <= |chars| && MatchEnd(chars, i, key, 0).Some?
    ensures i + 1 < |chars| && ToAsciiLower(chars[i]) == key[0] && ToAsciiLower(chars[i + 1]) == key[1]
  {
    assert MatchEnd(chars, i, key, 0) == MatchEnd(chars, i + 1, key, 1) == MatchEnd(chars, i + 2, key, 2);
  }

  lemma OneKeyAtATime(chars: string, i: nat, key: string, other: string)
    requires key in CONNECTION_KEYS && other in CONNECTION_KEYS && i <= |chars|
    requires MatchEnd(chars, i, key, 0).Some? && MatchEnd(chars, i, other, 0).Some?
    ensures key == other
  {
    MatchShowsTwoLetters(chars, i, key);
    MatchShowsTwoLetters(chars, i, other);
    hide MatchEnd;
    assert key[0] == other[0] && key[1] == other[1];
  }

  lemma {:induction false} FirstHitIsTheKeys(u: Unicode, chars: string, i: nat, key: string, k: nat)
    requires key in CONNECTION_KEYS && k <= |CONNECTION_KEYS| && i < |chars|
    requires MatchEnd(chars, i, key, 0).Some?
    ensures FirstKeyHit(u, chars, i, k) == if key in CONNECTION_KEYS[k..] then KeyHit(u, chars, i, key) else None
    decreases |CONNECTION_KEYS| - k
  {
    hide MatchEnd;
    if k < |CONNECTION_KEYS| {
      var first := CONNECTION_KEYS[k];
      FirstHitIsTheKeys(u, chars, i, key, k + 1);
      assert CONNECTION_KEYS[k..] == [first] + CONNECTION_KEYS[k + 1..];
      if MatchEnd(chars, i, first, 0).Some? {
        OneKeyAtATime(chars, i, key, first);
      } else {
        assert KeyHit(u, chars, i, first).None?;
      }
    }
  }

  /**
   * So a value that an earlier pass has replaced, behind one of pass four's keys, is counted once more exactly when
   * the token does not stand alone; and then the token goes together with what follows it.
   */
  lemma TokenIsCountedAgainIff(u: Unicode, chars: string, i: nat, key: string, start: nat)
    requires key in CONNECTION_KEYS && KeyedAt(u, chars, i, key, start) && AtWordStart(u, chars, i)
    requires StandsAt(chars, start) && forall c :: c in REDACTED ==> !u.isWhitespace(c)
    ensures var end := ConnectionValueEnd(u, chars, start);
            ConnectionPart(u, chars, i)
            == if StandsAlone(u, chars, start) then (Kept([chars[i]]), i + 1)
               else (Kept(chars[i..start]).Then(CUT), end)
    ensures Connections(u, chars, i).count
            == if StandsAlone(u, chars, start) then Connections(u, chars, i + 1).count
               else 1 + Connections(u, chars, ConnectionValueEnd(u, chars, start)).count
  {
    TokenIsLeftAloneIff(u, chars, start);
    FirstHitIsTheKeys(u, chars, i, key, 0);
    assert CONNECTION_KEYS[0..] == CONNECTION_KEYS;
    hide Until, MatchEnd, StandsAlone, WholeWordEnds, ConnectionValueEnd, FirstKeyHit;
  }

  // ------------------------------------------------- a command line counted twice

  const ASCII := Unicode((c: char) => IsAsciiLetter(c) || IsAsciiDigit(c), (c: char) => c == ' ' || '\t' <= c <= '\r')

  lemma {:induction false} NoQuotesNoParity(chars: string, n: nat)
    requires '"' !in chars
    ensures n <= |chars| ==> QuotesBefore(chars, n) == 0
    ensures !InQuotes(chars, n)
  {
    if 0 < n <= |chars| {
      NoQuotesNoParity(chars, n - 1);
      assert chars[n - 1] in chars;
    }
  }

  lemma {:induction false} ShortPiecesStay(u: Unicode, pieces: seq<Piece>)
    requires |Original(pieces)| < MIN_OPAQUE
    requires forall p :: p in pieces && p.Cut? ==> MayCut(ForOpaqueRuns, u, p.text)
    ensures Cuts(pieces) == 0
  {
    hide MayCut;
    if pieces != [] {
      assert pieces[0] in pieces && forall p :: p in pieces[1..] ==> p in pieces;
      assert pieces[0].Cut? ==> |pieces[0].text| >= MIN_OPAQUE by {
        CutsAreLong(u, pieces[0].text);
      }
      ShortPiecesStay(u, pieces[1..]);
    }
  }

  lemma CutsAreLong(u: Unicode, text: string)
    ensures MayCut(ForOpaqueRuns, u, text) ==> |text| >= MIN_OPAQUE
  {
  }

  /** Pass two leaves anything short alone. */
  lemma ShortLinesHoldNoRuns(u: Unicode, text: string)
    requires |text| < MIN_OPAQUE
    ensures OpaqueRuns(u, text, 0) == Kept(text)
  {
    hide OpaqueRuns, MayCut;
    OpaqueRunsAreAnEdit(u, text, 0);
    assert text[0..] == text;
    var r := OpaqueRuns(u, text, 0);
    var pieces :| Splits(ForOpaqueRuns, u, pieces, text, r);
    ShortPiecesStay(u, pieces);
    NoCutsNoChange(pieces);
  }

  lemma SchemeHoldsASlash(chars: string, i: nat)
    requires SchemeAt(chars, i)
    ensures '/' in chars
  {
    assert chars[i + 1] == chars[i..i + 3][1];
  }

  lemma {:induction false} NoSlashNoScheme(chars: string, i: nat)
    requires '/' !in chars && i <= |chars|
    ensures SchemeEnd(chars, i).None?
    decreases |chars| - i
  {
    if i < |chars| {
      if SchemeAt(chars, i) {
        SchemeHoldsASlash(chars, i);
      }
      NoSlashNoScheme(chars, i + 1);
    }
  }

  /** The two halves of pass three leave a line without slash, question mark and ampersand alone. */
  lemma PlainLinesHoldNoUrls(u: Unicode, text: string)
    requires '/' !in text && '?' !in text && '&' !in text
    ensures UserInfo(text, 0) == Kept(text) && QueryValues(u, text, 0) == Kept(text)
  {
    NoSlashNoScheme(text, 0);
    UntilIs(text, 0, Either('?', '&'), |text|);
    assert text[0..] == text;
  }

  lemma OneLetterIsNoName(word: string)
    requires |word| == 1
    ensures !IsVocabWord(word)
  {
    assert word[1..] == [];
    assert Normalized([]) == [] && |Normalized(word)| <= 1;
    forall v | v in VOCAB
      ensures |Normalized(v)| > 1
    {
      assert VOCAB == ["password", "passwd", "pwd", "secret", "token", "apikey", "api-key", "x-api-key", "auth",
                       "credential", "bearer", "cookie", "session"];
      assert |v| >= 3 && v[0] != '-' && v[0] != '_' && v[2] != '-' && v[2] != '_';
      assert v[1..][1] == v[2] && v[1..][0] == v[1] && v[1..][1..][0] == v[2];
      assert Normalized(v) == [ToAsciiLower(v[0])] + Normalized(v[1..]);
      assert |Normalized(v[1..])| >= |Normalized(v[1..][1..])| >= 1;
    }
  }

  lemma {:induction false} NamelessTail(u: Unicode, chars: string, i: nat)
    requires i <= |chars| && forall j :: i <= j < |chars| ==> VocabularyHit(u, chars, j).None?
    ensures Vocabulary(u, chars, i) == Kept(chars[i..])
    decreases |chars| - i
  {
    hide VocabularyHit;
    if i < |chars| {
      NamelessTail(u, chars, i + 1);
      assert chars[i..] == [chars[i]] + chars[i + 1..];
    }
  }

  /** Pass one on the line: the secret goes, and nothing else is a name. */
  lemma FirstPassOnTheLine()
    ensures Vocabulary(ASCII, "pwd=a b;", 0) == Redaction("pwd=" + REDACTED + " b;", 1)
  {
    var chars := "pwd=a b;";
    SecretIsFound();
    NamelessAfterTheSecret();
    hide VocabularyHit;
    assert VocabularyPart(ASCII, chars, 0) == (Kept(chars[0..4]).Then(CUT), 5);
    NamelessTail(ASCII, chars, 5);
    assert chars[0..4] == "pwd=" && chars[5..] == " b;";
    assert Vocabulary(ASCII, chars, 0) == Kept("pwd=").Then(CUT).Then(Kept(" b;"));
    CutBetween("pwd=", " b;");
  }

  lemma SecretIsFound()
    ensures VocabularyHit(ASCII, "pwd=a b;", 0) == Some(Span(4, 5))
  {
    hide VocabularyHit, NamedAt, SpaceAt, TokenAt, InQuotes;
    SecretIsNamed();
    SecretIsAToken();
    NamedTokenIsFound(ASCII, "pwd=a b;", 0, 3, 3, 4, 5);
  }

  lemma SecretIsNamed()
    ensures NamedAt(ASCII, "pwd=a b;", 0, 3)
  {
    PwdIsAName();
    hide IsVocabWord;
    assert "pwd=a b;"[0..3] == "pwd";
  }

  lemma SecretIsAToken()
    ensures var chars := "pwd=a b;";
            && SpaceAt(ASCII, chars, 3, 3) && SpaceAt(ASCII, chars, 4, 4) && TokenAt(ASCII, chars, 4, 5)
            && !InQuotes(chars, 4)
  {
    NoQuotesNoParity("pwd=a b;", 4);
    hide InQuotes;
  }

  lemma PwdIsAName()
    ensures IsVocabWord("pwd")
  {
    hide Normalized;
    assert VOCAB[2] == "pwd";
    assert Normalized("pwd") != [] by {
      NormalizedIsNotEmpty("pwd");
    }
  }

  lemma NormalizedIsNotEmpty(word: string)
    requires word != [] && word[0] != '-' && word[0] != '_'
    ensures Normalized(word) != []
  {
  }

  lemma CutBetween(before: string, after: string)
    ensures Kept(before).Then(CUT).Then(Kept(after)) == Redaction(before + REDACTED + after, 1)
  {
  }

  lemma NamelessAfterTheSecret()
    ensures forall i :: 5 <= i < 8 ==> VocabularyHit(ASCII, "pwd=a b;", i).None?
  {
    var chars := "pwd=a b;";
    UntilIs(chars, 5, NotWordChar(ASCII), 5);
    UntilIs(chars, 6, NotWordChar(ASCII), 7);
    UntilIs(chars, 7, NotWordChar(ASCII), 7);
    OneLetterIsNoName(chars[6..7]);
    hide Until, IsVocabWord;
  }

  /** A token in a connection string that goes on after it with a letter and a semicolon. */
  lemma TokenReadsOn()
    ensures var chars := "pwd=" + REDACTED + " b;";
            && |chars| == 17 && StandsAt(chars, 4) && !StandsAlone(ASCII, chars, 4)
            && ConnectionValueEnd(ASCII, chars, 4) == 16
  {
    var chars := "pwd=" + REDACTED + " b;";
    assert |REDACTED| == 10 && chars[4..14] == REDACTED;
    forall j | 0 <= j <= 17
      ensures !InQuotes(chars, j)
    {
      NoQuotesNoParity(chars, j);
    }
    SemicolonIsFirst(chars, 4, 17, false);
    hide InQuotes, Semicolon;
    assert chars[14] == ' ' && chars[16] == ';' && forall j :: 4 <= j < 16 ==> chars[j] != ';';
    assert ConnectionValueEnd(ASCII, chars, 4) == 16;
    assert Unquoted(chars, 16);
  }

  lemma KeyStandsFirst()
    ensures KeyedAt(ASCII, "pwd=" + REDACTED + " b;", 0, "pwd", 4) && "pwd" in CONNECTION_KEYS
  {
    var chars := "pwd=" + REDACTED + " b;";
    assert MatchEnd(chars, 0, "pwd", 0) == MatchEnd(chars, 1, "pwd", 1) == MatchEnd(chars, 2, "pwd", 2) == Some(3);
    assert CONNECTION_KEYS[1] == "pwd";
    UntilIs(chars, 3, NotSpace(ASCII), 3);
    UntilIs(chars, 4, NotSpace(ASCII), 4);
  }

  /** Pass four on what is left: the token, and the rest of its connection string with it. */
  lemma LastPassOnTheLine()
    ensures Connections(ASCII, "pwd=" + REDACTED + " b;", 0) == Redaction("pwd=" + REDACTED + ";", 1)
  {
    var chars := "pwd=" + REDACTED + " b;";
    TokenReadsOn();
    KeyStandsFirst();
    hide ConnectionValueEnd, InQuotes, FirstKeyHit, MatchEnd, Until, StandsAlone, KeyedAt;
    TokenIsCountedAgainIff(ASCII, chars, 0, "pwd", 4);
    assert ConnectionPart(ASCII, chars, 0) == (Kept(chars[0..4]).Then(CUT), 16);
    KeylessTail(ASCII, chars, 16);
    assert chars[16..] == ";";
    hide Connections;
    assert chars[0..4] == "pwd=";
    CutBetween("pwd=", ";");
  }

  lemma {:induction false} KeylessTail(u: Unicode, chars: string, i: nat)
    requires i <= |chars| && forall j :: i <= j < |chars| ==> !AtWordStart(u, chars, j)
    ensures Connections(u, chars, i) == Kept(chars[i..])
    decreases |chars| - i
  {
    hide AtWordStart;
    if i < |chars| {
      KeylessTail(u, chars, i + 1);
      assert chars[i..] == [chars[i]] + chars[i + 1..];
    }
  }

  /** A command line with one secret of one letter, whose redaction reports two: pass four takes the token again. */
  lemma OneValueCountedTwice()
    ensures CommandLine(ASCII, "pwd=a b;", false) == Redaction("pwd=" + REDACTED + ";", 2)
  {
    hide Vocabulary, OpaqueRuns, UserInfo, QueryValues, Connections;
    var between := "pwd=" + REDACTED + " b;";
    assert |between| == 17;
    FirstPassOnTheLine();
    ShortLinesHoldNoRuns(ASCII, between);
    PlainLinesHoldNoUrls(ASCII, between);
    LastPassOnTheLine();
    assert ("pwd=" + REDACTED + ";") + [] == "pwd=" + REDACTED + ";";
  }
}
