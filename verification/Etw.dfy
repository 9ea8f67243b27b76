/** The parser of classic process-start payloads, and the layout it inverts. */
module Etw {
  import opened Models

  newtype Byte = b: int | 0 <= b < 256

  /** The command line is left as its UTF-16 code units. */
  datatype MofProcessStart = MofProcessStart(pid: nat, commandLine: seq<nat>)

  // -------------------------------------------------------------------- reading

  /** A little-endian number: its low byte, and the number above it. */
  function WithLow(low: Byte, high: nat): nat {
    low as int + 0x100 * high
  }

  function U32Of(b: seq<Byte>): nat
    requires |b| == 4
  {
    WithLow(b[0], WithLow(b[1], WithLow(b[2], b[3] as nat)))
  }

  function ReadU32At(payload: seq<Byte>, offset: nat): Option<nat> {
    if offset + 4 <= |payload| then Some(U32Of(payload[offset..offset + 4])) else None
  }

  /** The offset just past the security identifier, which an all-zero word stands in for when there is none. */
  function SkipSid(payload: seq<Byte>, offset: nat, pointerSize: nat): (end: Option<nat>)
    ensures end.Some? ==> offset + 4 <= end.value <= |payload|
  {
    match ReadU32At(payload, offset)
    case None => None
    case Some(0) => Some(offset + 4)
    case Some(_) =>
      var sid := offset + 2 * pointerSize;
      if sid + 1 >= |payload| then None
      else if payload[sid] != 1 || payload[sid + 1] > 15 then None
      else
        var end := sid + 8 + 4 * payload[sid + 1] as nat;
        if end <= |payload| then Some(end) else None
  }

  function FirstZero(payload: seq<Byte>, from: nat): (r: Option<nat>)
    requires from <= |payload|
    ensures r.Some? ==> from <= r.value < |payload| && payload[r.value] == 0
    ensures forall i :: from <= i < (if r.Some? then r.value else |payload|) ==> payload[i] != 0
    decreases |payload| - from
  {
    if from == |payload| then None else if payload[from] == 0 then Some(from) else FirstZero(payload, from + 1)
  }

  function SkipAnsiString(payload: seq<Byte>, offset: nat): (end: Option<nat>)
    ensures end.Some? ==> offset < end.value <= |payload|
  {
    if offset > |payload| then None
    else
      match FirstZero(payload, offset)
      case None => None
      case Some(nul) => Some(nul + 1)
  }

  function UnitAt(payload: seq<Byte>, offset: nat): nat
    requires offset + 2 <= |payload|
  {
    WithLow(payload[offset], payload[offset + 1] as nat)
  }

  /** The code units up to a zero one; a payload that ends first has none. */
  function ReadWideStringAt(payload: seq<Byte>, offset: nat): (units: Option<seq<nat>>)
    ensures units.Some? ==> offset + 2 * |units.value| + 2 <= |payload|
    decreases |payload| - offset
  {
    if offset + 2 > |payload| then None
    else if UnitAt(payload, offset) == 0 then Some([])
    else
      match ReadWideStringAt(payload, offset + 2)
      case None => None
      case Some(rest) => Some([UnitAt(payload, offset)] + rest)
  }

  /** The length of everything ahead of the security identifier. */
  function HeaderLength(pointerSize: nat, version: nat): nat {
    pointerSize + 16 + (if version >= 3 then pointerSize else 0) + (if version >= 4 then 4 else 0)
  }

  /** A parsed start, and where its payload ended. */
  datatype Parsed = Parsed(start: MofProcessStart, end: nat)

  function Parse(payload: seq<Byte>, pointerSize: nat, version: nat): Option<Parsed> {
    if !(2 <= version <= 4) then None
    else
      match ReadU32At(payload, pointerSize)
      case None => None
      case Some(pid) =>
        match SkipSid(payload, HeaderLength(pointerSize, version), pointerSize)
        case None => None
        case Some(image) =>
          match SkipAnsiString(payload, image)
          case None => None
          case Some(line) =>
            match ReadWideStringAt(payload, line)
            case None => None
            case Some(units) => Some(Parsed(MofProcessStart(pid, units), line + 2 * |units| + 2))
  }

  function After(read: seq<nat>, units: Option<seq<nat>>): Option<seq<nat>> {
    if units.Some? then Some(read + units.value) else None
  }

  method ReadWideString(payload: seq<Byte>, offset: nat) returns (units: Option<seq<nat>>)
    ensures units == ReadWideStringAt(payload, offset)
  {
    ghost var whole := ReadWideStringAt(payload, offset);
    assert whole.Some? ==> [] + whole.value == whole.value;
    var read: seq<nat> := [];
    var at := offset;
    while at + 2 <= |payload|
      invariant After(read, ReadWideStringAt(payload, at)) == ReadWideStringAt(payload, offset)
      decreases |payload| - at
    {
      ghost var rest := ReadWideStringAt(payload, at + 2);
      var unit := UnitAt(payload, at);
      if unit == 0 {
        assert read + [] == read;
        return Some(read);
      }
      assert rest.Some? ==> read + ([unit] + rest.value) == read + [unit] + rest.value;
      read := read + [unit];
      at := at + 2;
    }
    return None;
  }

  method ParseMofProcessStart(payload: seq<Byte>, pointerSize: nat, version: nat)
    returns (start: Option<MofProcessStart>)
    ensures var parsed := Parse(payload, pointerSize, version);
            start == if parsed.Some? then Some(parsed.value.start) else None
  {
    if version < 2 || version > 4 {
      return None;
    }
    var offset := pointerSize;
    var pid := ReadU32At(payload, offset);
    if pid.None? {
      return None;
    }
    offset := offset + 16;
    if version >= 3 {
      offset := offset + pointerSize;
    }
    if version >= 4 {
      offset := offset + 4;
    }
    var image := SkipSid(payload, offset, pointerSize);
    if image.None? {
      return None;
    }
    var line := SkipAnsiString(payload, image.value);
    if line.None? {
      return None;
    }
    var units := ReadWideString(payload, line.value);
    if units.None? {
      return None;
    }
    return Some(MofProcessStart(pid.value, units.value));
  }

  // -------------------------------------------------------------------- writing

  datatype Sid = Sid(tokenUser: seq<Byte>, count: Byte, authority: seq<Byte>, subAuthorities: seq<Byte>)

  /** The fields of a payload, those the parser skips included. */
  datatype Fields = Fields(key: seq<Byte>, pid: nat, ids: seq<Byte>, table: seq<Byte>, flags: seq<Byte>,
                           sid: Option<Sid>, image: seq<Byte>, commandLine: seq<Unit>)

  lemma LowAndHigh(low: Byte, high: nat)
    ensures WithLow(low, high) % 0x100 == low as int && WithLow(low, high) / 0x100 == high
  {
  }

  lemma Recomposed(n: nat)
    ensures WithLow((n % 0x100) as Byte, n / 0x100) == n
  {
  }

  function U32Bytes(n: nat): (b: seq<Byte>)
    requires n < 0x1_0000_0000
    ensures |b| == 4 && U32Of(b) == n
  {
    var n1 := n / 0x100;
    var n2 := n1 / 0x100;
    var n3 := n2 / 0x100;
    Recomposed(n);
    Recomposed(n1);
    Recomposed(n2);
    [(n % 0x100) as Byte, (n1 % 0x100) as Byte, (n2 % 0x100) as Byte, n3 as Byte]
  }

  /** A code unit as its two bytes. */
  datatype Unit = Unit(low: Byte, high: Byte) {
    function Value(): nat {
      WithLow(low, high as nat)
    }
  }

  function Values(units: seq<Unit>): (r: seq<nat>)
    ensures |r| == |units|
  {
    if units == [] then [] else [units[0].Value()] + Values(units[1..])
  }

  function WideBytes(units: seq<Unit>): (b: seq<Byte>)
    ensures |b| == 2 * |units|
  {
    if units == [] then [] else [units[0].low, units[0].high] + WideBytes(units[1..])
  }

  /** A present identifier must not begin like an absent one. */
  predicate SidFits(sid: Sid, pointerSize: nat) {
    && 4 <= |sid.tokenUser| == 2 * pointerSize && U32Of(sid.tokenUser[..4]) != 0
    && |sid.authority| == 6 && |sid.subAuthorities| == 4 * sid.count as nat && sid.count <= 15
  }

  predicate Fits(f: Fields, pointerSize: nat, version: nat) {
    && 2 <= version <= 4 && f.pid < 0x1_0000_0000
    && |f.key| == pointerSize && |f.ids| == 12
    && |f.table| == (if version >= 3 then pointerSize else 0) && |f.flags| == (if version >= 4 then 4 else 0)
    && (f.sid.Some? ==> SidFits(f.sid.value, pointerSize))
    && (forall i :: 0 <= i < |f.image| ==> f.image[i] != 0)
    && (forall i :: 0 <= i < |f.commandLine| ==> f.commandLine[i] != Unit(0, 0))
  }

  function HeadBytes(f: Fields): seq<Byte>
    requires f.pid < 0x1_0000_0000
  {
    f.key + U32Bytes(f.pid) + f.ids + f.table + f.flags
  }

  function SidBytes(sid: Option<Sid>): seq<Byte> {
    match sid
    case None => [0, 0, 0, 0]
    case Some(s) => s.tokenUser + [1, s.count] + s.authority + s.subAuthorities
  }

  function Encode(f: Fields, pointerSize: nat, version: nat): seq<Byte>
    requires Fits(f, pointerSize, version)
  {
    HeadBytes(f) + SidBytes(f.sid) + (f.image + [0]) + (WideBytes(f.commandLine) + [0, 0])
  }

  // ----------------------------------------------------------------- round trips

  lemma HeadReads(f: Fields, pointerSize: nat, version: nat, rest: seq<Byte>)
    requires Fits(f, pointerSize, version)
    ensures |HeadBytes(f)| == HeaderLength(pointerSize, version)
    ensures ReadU32At(HeadBytes(f) + rest, pointerSize) == Some(f.pid)
  {
    hide U32Bytes, U32Of;
    var after := f.ids + f.table + f.flags + rest;
    assert HeadBytes(f) + rest == f.key + U32Bytes(f.pid) + after;
    assert (f.key + U32Bytes(f.pid) + after)[pointerSize..pointerSize + 4] == U32Bytes(f.pid);
  }

  lemma SidReads(before: seq<Byte>, sid: Option<Sid>, pointerSize: nat, rest: seq<Byte>)
    requires sid.Some? ==> SidFits(sid.value, pointerSize)
    ensures SkipSid(before + SidBytes(sid) + rest, |before|, pointerSize) == Some(|before| + |SidBytes(sid)|)
  {
    var payload := before + SidBytes(sid) + rest;
    if sid.None? {
      assert payload[|before|..|before| + 4] == [0, 0, 0, 0];
    } else {
      assert payload[|before|..|before| + 4] == sid.value.tokenUser[..4];
      var at := |before| + 2 * pointerSize;
      assert payload[at] == 1 && payload[at + 1] == sid.value.count;
    }
  }

  lemma {:induction false} AnsiReads(before: seq<Byte>, image: seq<Byte>, rest: seq<Byte>, i: nat)
    requires i <= |image| && forall j :: 0 <= j < |image| ==> image[j] != 0
    ensures FirstZero(before + (image + [0]) + rest, |before| + i) == Some(|before| + |image|)
    decreases |image| - i
  {
    var payload := before + (image + [0]) + rest;
    if i < |image| {
      assert payload[|before| + i] == image[i];
      AnsiReads(before, image, rest, i + 1);
    } else {
      assert payload[|before| + i] == 0;
    }
  }

  lemma ZeroUnit(unit: Unit)
    ensures unit.Value() == 0 <==> unit == Unit(0, 0)
  {
  }

  lemma UnitReads(before: seq<Byte>, unit: Unit, rest: seq<Byte>)
    ensures UnitAt(before + [unit.low, unit.high] + rest, |before|) == unit.Value()
  {
    var payload := before + [unit.low, unit.high] + rest;
    assert payload[|before|] == unit.low && payload[|before| + 1] == unit.high;
  }

  lemma {:induction false} WideReads(before: seq<Byte>, units: seq<Unit>, rest: seq<Byte>)
    requires forall i :: 0 <= i < |units| ==> units[i] != Unit(0, 0)
    ensures ReadWideStringAt(before + (WideBytes(units) + [0, 0]) + rest, |before|) == Some(Values(units))
    decreases |units|
  {
    hide UnitAt, WithLow, Unit.Value;
    if units == [] {
      ZeroUnit(Unit(0, 0));
      UnitReads(before, Unit(0, 0), rest);
      assert WideBytes(units) + [0, 0] == [0, 0];
    } else {
      var two, line := [units[0].low, units[0].high], WideBytes(units[1..]) + [0, 0];
      ZeroUnit(units[0]);
      WideReads(before + two, units[1..], rest);
      assert WideBytes(units) + [0, 0] == two + line;
      UnitReads(before, units[0], line + rest);
      Regrouped(before, two, line, rest, []);
      assert before + two + line + rest == before + (two + line) + rest == before + two + (line + rest);
    }
  }

  /** Whatever bytes follow, an encoded start parses back to its pid and its command line, and ends where it ended. */
  lemma EncodedParsesBack(f: Fields, pointerSize: nat, version: nat, tail: seq<Byte>)
    requires Fits(f, pointerSize, version)
    ensures Parse(Encode(f, pointerSize, version) + tail, pointerSize, version)
            == Some(Parsed(MofProcessStart(f.pid, Values(f.commandLine)), |Encode(f, pointerSize, version)|))
  {
    hide ReadU32At, SkipSid, FirstZero, ReadWideStringAt, HeadBytes, SidBytes, WideBytes;
    var head, sid, image, line := HeadBytes(f), SidBytes(f.sid), f.image + [0], WideBytes(f.commandLine) + [0, 0];
    Regrouped(head, sid, image, line, tail);
    HeadReads(f, pointerSize, version, sid + image + line + tail);
    SidReads(head, f.sid, pointerSize, image + line + tail);
    AnsiReads(head + sid, f.image, line + tail, 0);
    WideReads(head + sid + image, f.commandLine, tail);
  }

  lemma Regrouped<T>(a: seq<T>, b: seq<T>, c: seq<T>, d: seq<T>, e: seq<T>)
    ensures a + b + c + d + e == a + (b + c + d + e)
    ensures a + b + c + d + e == a + b + (c + d + e)
    ensures a + b + c + d + e == a + b + c + (d + e)
  {
  }

  lemma U32BytesBack(b: seq<Byte>)
    requires |b| == 4
    ensures U32Of(b) < 0x1_0000_0000 && U32Bytes(U32Of(b)) == b
  {
    var n2 := WithLow(b[2], b[3] as nat);
    var n1 := WithLow(b[1], n2);
    LowAndHigh(b[2], b[3] as nat);
    LowAndHigh(b[1], n2);
    LowAndHigh(b[0], n1);
  }

  /** The identifier the parser skipped, if there was one. */
  function SidAt(payload: seq<Byte>, offset: nat, end: nat, pointerSize: nat): Option<Sid>
    requires offset + 4 <= end <= |payload|
  {
    var sid := offset + 2 * pointerSize;
    if U32Of(payload[offset..offset + 4]) == 0 || end < sid + 8 then None
    else Some(Sid(payload[offset..sid], payload[sid + 1], payload[sid + 2..sid + 8], payload[sid + 8..end]))
  }

  lemma SidWasWritten(payload: seq<Byte>, offset: nat, pointerSize: nat)
    requires pointerSize >= 2 && SkipSid(payload, offset, pointerSize).Some?
    ensures var end := SkipSid(payload, offset, pointerSize).value;
            var sid := SidAt(payload, offset, end, pointerSize);
            (sid.Some? ==> SidFits(sid.value, pointerSize)) && SidBytes(sid) == payload[offset..end]
  {
    hide U32Of, SkipSid;
    var first := payload[offset..offset + 4];
    var end := SkipSid(payload, offset, pointerSize).value;
    SkippedSid(payload, offset, pointerSize);
    if U32Of(first) == 0 {
      ZeroWord(first);
    } else {
      var at := offset + 2 * pointerSize;
      var authority, subs := at + 2, at + 8;
      var sid := Sid(payload[offset..at], payload[at + 1], payload[authority..subs], payload[subs..end]);
      assert SidAt(payload, offset, end, pointerSize) == Some(sid);
      hide SidAt;
      PresentSidWasWritten(payload, offset, at, authority, subs, end);
      assert sid.tokenUser[..4] == first by {
        SliceOfSlice(payload, offset, offset + 4, at);
      }
    }
  }

  lemma SliceOfSlice<T>(payload: seq<T>, a: nat, b: nat, c: nat)
    requires a <= b <= c <= |payload|
    ensures payload[a..c][..b - a] == payload[a..b]
  {
  }

  /** What a skipped identifier looked like. */
  lemma SkippedSid(payload: seq<Byte>, offset: nat, pointerSize: nat)
    requires SkipSid(payload, offset, pointerSize).Some?
    ensures var (end, at) := (SkipSid(payload, offset, pointerSize).value, offset + 2 * pointerSize);
            if U32Of(payload[offset..offset + 4]) == 0 then end == offset + 4
            else at + 8 <= end <= |payload| && payload[at] == 1 && payload[at + 1] <= 15
                 && end == at + 8 + 4 * payload[at + 1] as nat
  {
    hide U32Of, WithLow;
  }

  lemma PresentSidWasWritten(payload: seq<Byte>, offset: nat, at: nat, authority: nat, subs: nat, end: nat)
    requires offset <= at && at + 2 == authority <= subs <= end <= |payload| && payload[at] == 1
    ensures payload[offset..at] + [1, payload[at + 1]] + payload[authority..subs] + payload[subs..end]
            == payload[offset..end]
  {
    PairAt(payload, at);
    JoinSlices(payload, offset, at, authority);
    JoinSlices(payload, offset, authority, subs);
    JoinSlices(payload, offset, subs, end);
  }

  lemma PairAt<T>(payload: seq<T>, i: nat)
    requires i + 2 <= |payload|
    ensures payload[i..i + 2] == [payload[i], payload[i + 1]]
  {
  }

  lemma JoinSlices<T>(payload: seq<T>, a: nat, b: nat, c: nat)
    requires a <= b <= c <= |payload|
    ensures payload[a..b] + payload[b..c] == payload[a..c]
  {
  }

  lemma ZeroWord(b: seq<Byte>)
    requires |b| == 4 && U32Of(b) == 0
    ensures b == [0, 0, 0, 0]
  {
  }

  /** The bytes of the units that were read from `offset`, `n` of them. */
  function UnitsAt(payload: seq<Byte>, offset: nat, n: nat): (units: seq<Unit>)
    requires offset + 2 * n <= |payload|
    ensures |units| == n
    decreases n
  {
    if n == 0 then [] else [Unit(payload[offset], payload[offset + 1])] + UnitsAt(payload, offset + 2, n - 1)
  }

  lemma {:induction false} UnitsWereRead(payload: seq<Byte>, offset: nat)
    requires ReadWideStringAt(payload, offset).Some?
    ensures var read := ReadWideStringAt(payload, offset).value;
            var (units, end) := (UnitsAt(payload, offset, |read|), offset + 2 * |read|);
            && Values(units) == read && (forall i :: 0 <= i < |units| ==> units[i] != Unit(0, 0))
            && payload[end] == 0 && payload[end + 1] == 0
    decreases |payload| - offset
  {
    var unit := Unit(payload[offset], payload[offset + 1]);
    assert unit.Value() == UnitAt(payload, offset);
    ZeroUnit(unit);
    hide UnitAt, Unit.Value;
    if unit != Unit(0, 0) {
      UnitsWereRead(payload, offset + 2);
      var rest := UnitsAt(payload, offset + 2, |ReadWideStringAt(payload, offset + 2).value|);
      assert UnitsAt(payload, offset, |rest| + 1) == [unit] + rest;
      assert ([unit] + rest)[1..] == rest;
    }
  }

  lemma {:induction false} BytesOfUnits(payload: seq<Byte>, offset: nat, n: nat)
    requires offset + 2 * n <= |payload|
    ensures WideBytes(UnitsAt(payload, offset, n)) == payload[offset..offset + 2 * n]
    decreases n
  {
    if n > 0 {
      BytesOfUnits(payload, offset + 2, n - 1);
      var units, rest := UnitsAt(payload, offset, n), UnitsAt(payload, offset + 2, n - 1);
      assert units[1..] == rest;
      hide UnitsAt;
      PairAt(payload, offset);
      JoinSlices(payload, offset, offset + 2, offset + 2 * n);
    }
  }

  lemma WideWasWritten(payload: seq<Byte>, offset: nat)
    requires ReadWideStringAt(payload, offset).Some?
    ensures var read := ReadWideStringAt(payload, offset).value;
            var units := UnitsAt(payload, offset, |read|);
            && Values(units) == read && (forall i :: 0 <= i < |units| ==> units[i] != Unit(0, 0))
            && WideBytes(units) + [0, 0] == payload[offset..offset + 2 * |units| + 2]
  {
    hide ReadWideStringAt, UnitsAt, Values, WideBytes;
    var n := |ReadWideStringAt(payload, offset).value|;
    var end := offset + 2 * n;
    UnitsWereRead(payload, offset);
    BytesOfUnits(payload, offset, n);
    PairAt(payload, end);
    JoinSlices(payload, offset, end, end + 2);
  }

  function HeadOf(payload: seq<Byte>, pointerSize: nat, version: nat): Fields
    requires HeaderLength(pointerSize, version) <= |payload|
  {
    var ids := pointerSize + 16;
    var table := if version >= 3 then ids + pointerSize else ids;
    Fields(payload[..pointerSize], U32Of(payload[pointerSize..pointerSize + 4]), payload[pointerSize + 4..ids],
           payload[ids..table], payload[table..HeaderLength(pointerSize, version)], None, [], [])
  }

  lemma HeadWasWritten(payload: seq<Byte>, pointerSize: nat, version: nat)
    requires HeaderLength(pointerSize, version) <= |payload|
    ensures var f := HeadOf(payload, pointerSize, version);
            f.pid < 0x1_0000_0000 && HeadBytes(f) == payload[..HeaderLength(pointerSize, version)]
  {
    U32BytesBack(payload[pointerSize..pointerSize + 4]);
  }

  /** The parser accepts nothing but encodings: every accepted payload is one, with something after it perhaps. */
  lemma AcceptedWasEncoded(payload: seq<Byte>, pointerSize: nat, version: nat) returns (f: Fields)
    requires pointerSize >= 2 && Parse(payload, pointerSize, version).Some?
    ensures var parsed := Parse(payload, pointerSize, version).value;
            && Fits(f, pointerSize, version) && parsed.end <= |payload|
            && payload == Encode(f, pointerSize, version) + payload[parsed.end..]
            && parsed.start == MofProcessStart(f.pid, Values(f.commandLine))
  {
    hide ReadU32At, SkipSid, SkipAnsiString, ReadWideStringAt, HeadBytes, SidBytes, WideBytes, SidAt, SidFits, U32Of,
         UnitsAt, Values;
    var sid := HeaderLength(pointerSize, version);
    var image := SkipSid(payload, sid, pointerSize).value;
    var line := SkipAnsiString(payload, image).value;
    var units := ReadWideStringAt(payload, line).value;
    var end := line + 2 * |units| + 2;
    HeadWasWritten(payload, pointerSize, version);
    HeadWasRead(payload, pointerSize, version);
    SidWasWritten(payload, sid, pointerSize);
    AnsiWasWritten(payload, image);
    WideWasWritten(payload, line);
    f := HeadOf(payload, pointerSize, version).(sid := SidAt(payload, sid, image, pointerSize),
                                                image := payload[image..line - 1],
                                                commandLine := UnitsAt(payload, line, |units|));
    SameHead(f, HeadOf(payload, pointerSize, version));
    JoinSlices(payload, 0, sid, image);
    JoinSlices(payload, 0, image, line);
    JoinSlices(payload, 0, line, end);
    assert payload == payload[0..end] + payload[end..] && payload[0..sid] == payload[..sid];
  }

  lemma SameHead(f: Fields, g: Fields)
    requires f.pid == g.pid < 0x1_0000_0000
    requires f.key == g.key && f.ids == g.ids && f.table == g.table && f.flags == g.flags
    ensures HeadBytes(f) == HeadBytes(g)
  {
  }

  lemma HeadWasRead(payload: seq<Byte>, pointerSize: nat, version: nat)
    requires HeaderLength(pointerSize, version) <= |payload|
    ensures ReadU32At(payload, pointerSize) == Some(HeadOf(payload, pointerSize, version).pid)
  {
  }

  lemma AnsiWasWritten(payload: seq<Byte>, offset: nat)
    requires SkipAnsiString(payload, offset).Some?
    ensures var image := payload[offset..SkipAnsiString(payload, offset).value - 1];
            (forall i :: 0 <= i < |image| ==> image[i] != 0)
            && image + [0] == payload[offset..SkipAnsiString(payload, offset).value]
  {
  }

  // ------------------------------------------------------ prefixes and extensions

  lemma {:induction false} ZeroInPrefix(payload: seq<Byte>, from: nat, n: nat)
    requires from <= n <= |payload|
    ensures var zero := FirstZero(payload, from);
            FirstZero(payload[..n], from) == if zero.Some? && zero.value < n then zero else None
    decreases n - from
  {
    if from < n && payload[from] != 0 {
      ZeroInPrefix(payload, from + 1, n);
    }
  }

  lemma {:induction false} WideInPrefix(payload: seq<Byte>, offset: nat, n: nat)
    requires n <= |payload|
    ensures var units := ReadWideStringAt(payload, offset);
            ReadWideStringAt(payload[..n], offset)
            == if units.Some? && offset + 2 * |units.value| + 2 <= n then units else None
    decreases |payload| - offset
  {
    if offset + 2 <= n && UnitAt(payload, offset) != 0 {
      assert UnitAt(payload[..n], offset) == UnitAt(payload, offset);
      WideInPrefix(payload, offset + 2, n);
    }
  }

  lemma U32InPrefix(payload: seq<Byte>, offset: nat, n: nat)
    requires n <= |payload|
    ensures ReadU32At(payload[..n], offset) == if offset + 4 <= n then ReadU32At(payload, offset) else None
  {
    if offset + 4 <= n {
      assert payload[..n][offset..offset + 4] == payload[offset..offset + 4];
    }
  }

  lemma SidInPrefix(payload: seq<Byte>, offset: nat, pointerSize: nat, n: nat)
    requires n <= |payload|
    ensures var end := SkipSid(payload, offset, pointerSize);
            SkipSid(payload[..n], offset, pointerSize) == if end.Some? && end.value <= n then end else None
  {
    U32InPrefix(payload, offset, n);
  }

  lemma AnsiInPrefix(payload: seq<Byte>, offset: nat, n: nat)
    requires n <= |payload|
    ensures var end := SkipAnsiString(payload, offset);
            SkipAnsiString(payload[..n], offset) == if end.Some? && end.value <= n then end else None
  {
    if offset <= n {
      ZeroInPrefix(payload, offset, n);
    }
  }

  lemma HeaderIsAhead(pointerSize: nat, version: nat)
    ensures pointerSize + 4 <= HeaderLength(pointerSize, version)
  {
  }

  /**
   * An accepted payload has one length: cut anywhere before it, the payload is refused; cut anywhere after it, or
   * extended, the result is the same. A payload that is refused whole is refused at every length.
   */
  lemma AcceptanceHasOneLength(payload: seq<Byte>, pointerSize: nat, version: nat, n: nat)
    requires n <= |payload|
    ensures var parsed := Parse(payload, pointerSize, version);
            Parse(payload[..n], pointerSize, version) == if parsed.Some? && parsed.value.end <= n then parsed else None
  {
    hide U32Of, WithLow;
    var cut, sid := payload[..n], HeaderLength(pointerSize, version);
    HeaderIsAhead(pointerSize, version);
    hide HeaderLength;
    U32InPrefix(payload, pointerSize, n);
    SidInPrefix(payload, sid, pointerSize, n);
    var image := SkipSid(payload, sid, pointerSize);
    if image.Some? {
      AnsiInPrefix(payload, image.value, n);
      var line := SkipAnsiString(payload, image.value);
      if line.Some? {
        WideInPrefix(payload, line.value, n);
      }
    }
    hide ReadU32At, SkipSid, SkipAnsiString, ReadWideStringAt;
  }

  /** Every strict prefix of an encoding is refused, and any extension of it reads the same. */
  lemma EncodingsAreExact(f: Fields, pointerSize: nat, version: nat, n: nat, tail: seq<Byte>)
    requires Fits(f, pointerSize, version) && n < |Encode(f, pointerSize, version)|
    ensures Parse(Encode(f, pointerSize, version)[..n], pointerSize, version).None?
    ensures Parse(Encode(f, pointerSize, version) + tail, pointerSize, version)
            == Parse(Encode(f, pointerSize, version), pointerSize, version)
  {
    hide Parse, Encode, Fits;
    var encoded := Encode(f, pointerSize, version);
    EncodedParsesBack(f, pointerSize, version, []);
    EncodedParsesBack(f, pointerSize, version, tail);
    assert encoded + [] == encoded;
    AcceptanceHasOneLength(encoded, pointerSize, version, n);
  }
}
