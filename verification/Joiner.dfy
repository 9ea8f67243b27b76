/**
 * Joining redacted command lines to launches: a ring of captures, claimed by pid and nearness in time, and a
 * ring of launches that were saved before their command line arrived.
 */
module Joiner {
  import opened Models
  import opened Rings
  import Redact

  const CMDLINE_JOIN_CAP := 4096
  const CMDLINE_JOIN_WINDOW_MS := 2_000
  const CMDLINE_JOIN_MAX_AGE_MS := 5 * 60_000
  const RECENT_LAUNCH_CAP := 1024
  const RECENT_LAUNCH_RETAIN_MS := 10_000

  datatype Capture = Capture(pid: nat, startMs: int, redacted: string, redactedFields: nat)

  datatype Identity = Identity(pid: nat, startMs: int, savedAtMs: int)

  /** A capture filed against a launch. */
  datatype Claim = Claim(pid: nat, startMs: int, capture: Capture)

  function StartOf(c: Capture): int {
    c.startMs
  }

  function SavedOf(launch: Identity): int {
    launch.savedAtMs
  }

  function Delta(a: int, b: int): nat {
    if a < b then b - a else a - b
  }

  predicate Fits(c: Capture, pid: nat, startMs: int) {
    c.pid == pid && Delta(c.startMs, startMs) <= CMDLINE_JOIN_WINDOW_MS
  }

  // ------------------------------------------------------------------- claiming

  /** The first of the nearest captures that fit, among the first `n`. */
  function Nearest(ring: seq<Capture>, pid: nat, startMs: int, n: nat): (r: Option<nat>)
    requires n <= |ring|
    ensures r.Some? ==> r.value < n
  {
    if n == 0 then None
    else
      var best := Nearest(ring, pid, startMs, n - 1);
      if Fits(ring[n - 1], pid, startMs)
         && (best.Some? ==> Delta(ring[n - 1].startMs, startMs) < Delta(ring[best.value].startMs, startMs))
      then Some(n - 1) else best
  }

  function Closest(ring: seq<Capture>, pid: nat, startMs: int): (r: Option<nat>)
    ensures r.Some? ==> r.value < |ring|
  {
    Nearest(ring, pid, startMs, |ring|)
  }

  lemma {:induction false} NearestIsNearest(ring: seq<Capture>, pid: nat, startMs: int, n: nat)
    requires n <= |ring|
    ensures var best := Nearest(ring, pid, startMs, n);
            && (best.Some? ==> Fits(ring[best.value], pid, startMs))
            && (forall i :: 0 <= i < n && Fits(ring[i], pid, startMs) ==>
                  best.Some? && Delta(ring[best.value].startMs, startMs) <= Delta(ring[i].startMs, startMs))
  {
    if n > 0 {
      NearestIsNearest(ring, pid, startMs, n - 1);
    }
  }

  /** A launch is offered a capture exactly when one fits, and then no other is nearer. */
  lemma ClosestIsClosest(ring: seq<Capture>, pid: nat, startMs: int)
    ensures var best := Closest(ring, pid, startMs);
            && (best.Some? <==> exists c :: c in ring && Fits(c, pid, startMs))
            && (best.Some? ==> Fits(ring[best.value], pid, startMs)
                               && forall c :: c in ring && Fits(c, pid, startMs) ==>
                                    Delta(ring[best.value].startMs, startMs) <= Delta(c.startMs, startMs))
  {
    NearestIsNearest(ring, pid, startMs, |ring|);
    forall c | c in ring && Fits(c, pid, startMs)
      ensures Closest(ring, pid, startMs).Some?
      ensures Delta(ring[Closest(ring, pid, startMs).value].startMs, startMs) <= Delta(c.startMs, startMs)
    {
      var i :| 0 <= i < |ring| && ring[i] == c;
    }
    if Closest(ring, pid, startMs).Some? {
      assert ring[Closest(ring, pid, startMs).value] in ring;
    }
  }

  function RemoveAt(ring: seq<Capture>, i: nat): seq<Capture>
    requires i < |ring|
  {
    ring[..i] + ring[i + 1..]
  }

  lemma RemovingOne(ring: seq<Capture>, i: nat)
    requires i < |ring|
    ensures multiset(ring) == multiset(RemoveAt(ring, i)) + multiset{ring[i]}
    ensures forall c :: c in RemoveAt(ring, i) ==> c in ring
  {
    assert ring == ring[..i] + [ring[i]] + ring[i + 1..];
  }

  datatype Pass = Pass(claims: seq<Claim>, ring: seq<Capture>)

  /** Launches claim in order, each the nearest capture still there. */
  function ClaimAll(ring: seq<Capture>, recent: seq<Identity>): Pass {
    if recent == [] then Pass([], ring)
    else
      var first := recent[0];
      match Closest(ring, first.pid, first.startMs)
      case None => ClaimAll(ring, recent[1..])
      case Some(i) =>
        var rest := ClaimAll(RemoveAt(ring, i), recent[1..]);
        Pass([Claim(first.pid, first.startMs, ring[i])] + rest.claims, rest.ring)
  }

  function Captures(claims: seq<Claim>): (r: seq<Capture>)
    ensures |r| == |claims|
  {
    if claims == [] then [] else [claims[0].capture] + Captures(claims[1..])
  }

  class CmdlineJoiner {
    var entries: seq<Capture>
    var unmatchedEvicted: nat

    constructor ()
      ensures entries == [] && unmatchedEvicted == 0
    {
      entries, unmatchedEvicted := [], 0;
    }

    /** The line is redacted at the door: only the redaction is ever kept. */
    method Offer(u: Redact.Unicode, pid: nat, startMs: int, rawLine: string, wasTruncated: bool)
      modifies this
      ensures var line := Redact.CommandLine(u, rawLine, wasTruncated);
              entries == Newest(old(entries) + [Capture(pid, startMs, line.text, line.count)], CMDLINE_JOIN_CAP)
      ensures unmatchedEvicted + |entries| == old(unmatchedEvicted) + |old(entries)| + 1
    {
      hide Redact.CommandLine;
      var redacted, redactedFields := Redact.RedactCommandLine(u, rawLine, wasTruncated);
      var capture := Capture(pid, startMs, redacted, redactedFields);
      entries := entries + [capture];
      ghost var all := entries;
      while |entries| > CMDLINE_JOIN_CAP
        invariant |entries| <= |all| && entries == all[|all| - |entries|..]
        invariant |all| > CMDLINE_JOIN_CAP ==> |entries| >= CMDLINE_JOIN_CAP
        invariant |all| <= CMDLINE_JOIN_CAP ==> entries == all
        invariant unmatchedEvicted == old(unmatchedEvicted) + |all| - |entries|
        decreases |entries|
      {
        entries := entries[1..];
        unmatchedEvicted := unmatchedEvicted + 1;
      }
    }

    method EvictOlderThan(nowMs: int)
      modifies this
      ensures entries == DropBefore(old(entries), StartOf, nowMs - CMDLINE_JOIN_MAX_AGE_MS)
      ensures unmatchedEvicted + |entries| == old(unmatchedEvicted) + |old(entries)|
    {
      while entries != [] && nowMs - entries[0].startMs > CMDLINE_JOIN_MAX_AGE_MS
        invariant DropBefore(entries, StartOf, nowMs - CMDLINE_JOIN_MAX_AGE_MS)
                  == DropBefore(old(entries), StartOf, nowMs - CMDLINE_JOIN_MAX_AGE_MS)
        invariant unmatchedEvicted + |entries| == old(unmatchedEvicted) + |old(entries)|
        decreases |entries|
      {
        entries := entries[1..];
        unmatchedEvicted := unmatchedEvicted + 1;
      }
    }

    method FindClosest(pid: nat, startMs: int) returns (index: Option<nat>)
      ensures index == Closest(entries, pid, startMs)
    {
      index := None;
      for n := 0 to |entries|
        invariant index == Nearest(entries, pid, startMs, n)
      {
        if Fits(entries[n], pid, startMs)
           && (index.None? || Delta(entries[n].startMs, startMs) < Delta(entries[index.value].startMs, startMs)) {
          index := Some(n);
        }
      }
    }

    method Attach(pid: nat, startMs: int) returns (line: Option<Capture>)
      modifies `entries
      ensures var best := Closest(old(entries), pid, startMs);
              if best.None? then line == None && entries == old(entries)
              else line == Some(old(entries)[best.value]) && entries == RemoveAt(old(entries), best.value)
    {
      var index := FindClosest(pid, startMs);
      if index.None? {
        return None;
      }
      line := Some(entries[index.value]);
      entries := RemoveAt(entries, index.value);
    }

    method AttachToRecent(recent: seq<Identity>) returns (out: seq<Claim>)
      modifies `entries
      ensures ClaimAll(old(entries), recent) == Pass(out, entries)
    {
      out := [];
      var n := 0;
      while n < |recent| && entries != []
        invariant n <= |recent|
        invariant var rest := ClaimAll(entries, recent[n..]);
                  ClaimAll(old(entries), recent) == Pass(out + rest.claims, rest.ring)
      {
        var line := Attach(recent[n].pid, recent[n].startMs);
        if line.Some? {
          out := out + [Claim(recent[n].pid, recent[n].startMs, line.value)];
        }
        assert recent[n..][1..] == recent[n + 1..];
        n := n + 1;
      }
      if n < |recent| {
        NothingToClaim(recent[n..]);
      }
    }

    /** The user withdraws consent: every pending capture goes, and none of them counts as evicted. */
    method Clear()
      modifies `entries
      ensures entries == []
    {
      entries := [];
    }
  }

  lemma {:induction false} NothingToClaim(recent: seq<Identity>)
    ensures ClaimAll([], recent) == Pass([], [])
  {
    if recent != [] {
      NothingToClaim(recent[1..]);
    }
  }

  class RecentLaunches {
    var entries: seq<Identity>

    constructor ()
      ensures entries == []
    {
      entries := [];
    }

    method Remember(pid: nat, startMs: int, savedAtMs: int)
      modifies this
      ensures entries == Newest(old(entries) + [Identity(pid, startMs, savedAtMs)], RECENT_LAUNCH_CAP)
    {
      entries := entries + [Identity(pid, startMs, savedAtMs)];
      ghost var all := entries;
      while |entries| > RECENT_LAUNCH_CAP
        invariant |entries| <= |all| && entries == all[|all| - |entries|..]
        invariant |all| > RECENT_LAUNCH_CAP ==> |entries| >= RECENT_LAUNCH_CAP
        invariant |all| <= RECENT_LAUNCH_CAP ==> entries == all
        decreases |entries|
      {
        entries := entries[1..];
      }
    }

    method EvictOlderThan(nowMs: int)
      modifies this
      ensures entries == DropBefore(old(entries), SavedOf, nowMs - RECENT_LAUNCH_RETAIN_MS)
    {
      while entries != [] && nowMs - entries[0].savedAtMs > RECENT_LAUNCH_RETAIN_MS
        invariant DropBefore(entries, SavedOf, nowMs - RECENT_LAUNCH_RETAIN_MS)
                  == DropBefore(old(entries), SavedOf, nowMs - RECENT_LAUNCH_RETAIN_MS)
        decreases |entries|
      {
        entries := entries[1..];
      }
    }
  }

  // ------------------------------------------------------- what a pass guarantees

  predicate ClaimFits(claim: Claim) {
    Fits(claim.capture, claim.pid, claim.startMs)
  }

  /** Claims take captures out of the ring, each once, and every claim fits. */
  lemma {:induction false} ClaimsComeOutOfTheRing(ring: seq<Capture>, recent: seq<Identity>)
    ensures var pass := ClaimAll(ring, recent);
            && multiset(ring) == multiset(pass.ring) + multiset(Captures(pass.claims))
            && |pass.claims| <= |recent|
            && (forall c :: c in pass.claims ==> ClaimFits(c))
            && (forall c :: c in pass.ring ==> c in ring)
  {
    if recent != [] {
      var first := recent[0];
      ClosestIsClosest(ring, first.pid, first.startMs);
      match Closest(ring, first.pid, first.startMs) {
        case None => ClaimsComeOutOfTheRing(ring, recent[1..]);
        case Some(i) =>
          RemovingOne(ring, i);
          var rest := ClaimAll(RemoveAt(ring, i), recent[1..]);
          ClaimsComeOutOfTheRing(RemoveAt(ring, i), recent[1..]);
          var claims := ClaimAll(ring, recent).claims;
          assert claims[0] == Claim(first.pid, first.startMs, ring[i]) && claims[1..] == rest.claims;
      }
    }
  }

  function Names(claims: seq<Claim>): multiset<(nat, int)> {
    if claims == [] then multiset{} else multiset{(claims[0].pid, claims[0].startMs)} + Names(claims[1..])
  }

  function Sought(recent: seq<Identity>): multiset<(nat, int)> {
    if recent == [] then multiset{} else multiset{(recent[0].pid, recent[0].startMs)} + Sought(recent[1..])
  }

  /** In one pass each remembered launch claims at most once. */
  lemma {:induction false} EachClaimsAtMostOnce(ring: seq<Capture>, recent: seq<Identity>)
    ensures Names(ClaimAll(ring, recent).claims) <= Sought(recent)
  {
    if recent != [] {
      var first := recent[0];
      match Closest(ring, first.pid, first.startMs) {
        case None => EachClaimsAtMostOnce(ring, recent[1..]);
        case Some(i) =>
          EachClaimsAtMostOnce(RemoveAt(ring, i), recent[1..]);
          var claims := ClaimAll(ring, recent).claims;
          assert claims[1..] == ClaimAll(RemoveAt(ring, i), recent[1..]).claims;
      }
    }
  }

  /** A pass is maximal: a launch that claimed nothing has no capture left that would have fitted it. */
  lemma {:induction false} PassIsMaximal(ring: seq<Capture>, recent: seq<Identity>, launch: Identity, c: Capture)
    requires launch in recent && c in ClaimAll(ring, recent).ring && Fits(c, launch.pid, launch.startMs)
    ensures exists claim :: claim in ClaimAll(ring, recent).claims
                            && (claim.pid, claim.startMs) == (launch.pid, launch.startMs)
                            && Delta(claim.capture.startMs, launch.startMs) <= Delta(c.startMs, launch.startMs)
  {
    var first := recent[0];
    ClaimsComeOutOfTheRing(ring, recent);
    ClosestIsClosest(ring, first.pid, first.startMs);
    match Closest(ring, first.pid, first.startMs) {
      case None => PassIsMaximal(ring, recent[1..], launch, c);
      case Some(i) =>
        var claims, rest := ClaimAll(ring, recent).claims, ClaimAll(RemoveAt(ring, i), recent[1..]).claims;
        assert claims == [Claim(first.pid, first.startMs, ring[i])] + rest;
        if launch == first {
          assert claims[0] in claims;
        } else {
          PassIsMaximal(RemoveAt(ring, i), recent[1..], launch, c);
          var claim :| claim in rest && (claim.pid, claim.startMs) == (launch.pid, launch.startMs)
                       && Delta(claim.capture.startMs, launch.startMs) <= Delta(c.startMs, launch.startMs);
          assert claim in claims;
        }
    }
  }

  // -------------------------------------------------------------------- stealing

  /** The elder of two launches walks off with the only capture, though it was nearer to the younger one. */
  predicate Steals(elder: Identity, younger: Identity, c: Capture) {
    && ClaimAll([c], [elder, younger]).claims == [Claim(elder.pid, elder.startMs, c)]
    && Fits(c, younger.pid, younger.startMs)
    && Delta(c.startMs, younger.startMs) < Delta(c.startMs, elder.startMs)
  }

  lemma OnlyCapture(elder: Identity, younger: Identity, c: Capture)
    ensures Fits(c, elder.pid, elder.startMs) ==>
              ClaimAll([c], [elder, younger]).claims == [Claim(elder.pid, elder.startMs, c)]
    ensures !Fits(c, elder.pid, elder.startMs) ==>
              forall claim :: claim in ClaimAll([c], [elder, younger]).claims ==>
                claim == Claim(younger.pid, younger.startMs, c)
  {
    assert [elder, younger][1..] == [younger] && [younger][1..] == [];
    ClosestIsClosest([c], elder.pid, elder.startMs);
    ClosestIsClosest([c], younger.pid, younger.startMs);
    NothingToClaim([younger]);
    NothingToClaim([]);
    var first := Closest([c], elder.pid, elder.startMs);
    if Fits(c, elder.pid, elder.startMs) {
      assert c in [c] && RemoveAt([c], 0) == [];
    } else {
      assert first.None?;
      assert ClaimAll([c], [elder, younger]) == ClaimAll([c], [younger]);
      if Closest([c], younger.pid, younger.startMs).Some? {
        assert RemoveAt([c], 0) == [];
      }
    }
  }

  /**
   * Nearest-first claiming does not rule out stealing: of two launches of one pid, the elder can take a capture that
   * is nearer to the younger exactly when their starts differ by less than two join windows.
   */
  lemma StealingIsPossibleIff(elder: Identity, younger: Identity)
    ensures (exists c :: Steals(elder, younger, c))
            <==> elder.pid == younger.pid && 0 < Delta(elder.startMs, younger.startMs) < 2 * CMDLINE_JOIN_WINDOW_MS
  {
    if c :| Steals(elder, younger, c) {
      OnlyCapture(elder, younger, c);
      ClaimsComeOutOfTheRing([c], [elder, younger]);
      assert ClaimAll([c], [elder, younger]).claims[0] == Claim(elder.pid, elder.startMs, c);
    }
    if elder.pid == younger.pid && 0 < Delta(elder.startMs, younger.startMs) < 2 * CMDLINE_JOIN_WINDOW_MS {
      var reach := if Delta(elder.startMs, younger.startMs) < CMDLINE_JOIN_WINDOW_MS
                   then Delta(elder.startMs, younger.startMs) else CMDLINE_JOIN_WINDOW_MS;
      var at := if elder.startMs < younger.startMs then elder.startMs + reach else elder.startMs - reach;
      var c := Capture(elder.pid, at, "", 0);
      OnlyCapture(elder, younger, c);
      assert Steals(elder, younger, c);
    }
  }

  /** The claimer of a capture comes before another launch of the pass. */
  ghost predicate ClaimsBefore(recent: seq<Identity>, claim: Claim, launch: Identity) {
    exists i, j :: 0 <= i < j < |recent| && (recent[i].pid, recent[i].startMs) == (claim.pid, claim.startMs)
                   && recent[j] == launch
  }

  /** The launch walked off with a capture that suits it at least as well as the one it lost. */
  ghost predicate Consoled(claims: seq<Claim>, launch: Identity, lost: Capture) {
    exists own :: own in claims && (own.pid, own.startMs) == (launch.pid, launch.startMs)
                  && Delta(own.capture.startMs, launch.startMs) <= Delta(lost.startMs, launch.startMs)
  }

  /**
   * In any pass over any ring, a launch can lose a capture that is nearer to it only to a launch of its pid that
   * started less than two join windows away; and it is left without one as near only if the other came first.
   */
  lemma {:induction false} OnlyNearbyEldersSteal(ring: seq<Capture>, recent: seq<Identity>, claim: Claim,
                                                 launch: Identity)
    requires claim in ClaimAll(ring, recent).claims && launch in recent && launch.pid == claim.pid
    requires Delta(claim.capture.startMs, launch.startMs) < Delta(claim.capture.startMs, claim.startMs)
    ensures 0 < Delta(claim.startMs, launch.startMs) < 2 * CMDLINE_JOIN_WINDOW_MS
    ensures ClaimsBefore(recent, claim, launch) || Consoled(ClaimAll(ring, recent).claims, launch, claim.capture)
  {
    ClaimsComeOutOfTheRing(ring, recent);
    assert ClaimFits(claim);
    ClaimedFromTheRing(ring, recent, claim);
    var first, later := recent[0], recent[1..];
    assert recent == [first] + later;
    ClosestIsClosest(ring, first.pid, first.startMs);
    match Closest(ring, first.pid, first.startMs) {
      case None =>
        OnlyNearbyEldersSteal(ring, later, claim, launch);
        LaterIsStillLater(recent, claim, launch);
      case Some(i) =>
        var claims, rest := ClaimAll(ring, recent).claims, ClaimAll(RemoveAt(ring, i), later).claims;
        assert claims == [Claim(first.pid, first.startMs, ring[i])] + rest;
        if launch == first {
          assert claims[0] in claims;
        } else if claim == claims[0] {
          var j :| 0 <= j < |later| && later[j] == launch;
          assert recent[j + 1] == launch;
        } else {
          OnlyNearbyEldersSteal(RemoveAt(ring, i), later, claim, launch);
          LaterIsStillLater(recent, claim, launch);
          if own :| own in rest && (own.pid, own.startMs) == (launch.pid, launch.startMs)
                    && Delta(own.capture.startMs, launch.startMs) <= Delta(claim.capture.startMs, launch.startMs) {
            assert own in claims;
          }
        }
    }
  }

  lemma LaterIsStillLater(recent: seq<Identity>, claim: Claim, launch: Identity)
    requires recent != []
    ensures ClaimsBefore(recent[1..], claim, launch) ==> ClaimsBefore(recent, claim, launch)
  {
    var later := recent[1..];
    if i, j :| 0 <= i < j < |later| && (later[i].pid, later[i].startMs) == (claim.pid, claim.startMs)
               && later[j] == launch {
      assert later[i] == recent[i + 1] && later[j] == recent[j + 1];
    }
  }

  lemma {:induction false} CapturesHoldClaims(claims: seq<Claim>, claim: Claim)
    requires claim in claims
    ensures claim.capture in Captures(claims)
  {
    if claim != claims[0] {
      CapturesHoldClaims(claims[1..], claim);
    }
  }

  lemma ClaimedFromTheRing(ring: seq<Capture>, recent: seq<Identity>, claim: Claim)
    requires claim in ClaimAll(ring, recent).claims
    ensures claim.capture in ring
  {
    var pass := ClaimAll(ring, recent);
    ClaimsComeOutOfTheRing(ring, recent);
    CapturesHoldClaims(pass.claims, claim);
    assert claim.capture in multiset(Captures(pass.claims));
    assert claim.capture in multiset(ring);
  }

  // ------------------------------------------------------------------ whole runs

  datatype JoinEvent =
    | Offered(capture: Capture)
    | AgedOut(nowMs: int)
    | Attached(pid: nat, startMs: int)
    | AttachedToRecent(recent: seq<Identity>)
    | Cleared

  /** The ring, and where every capture that left it went. */
  datatype Ledger = Ledger(ring: seq<Capture>, offered: seq<Capture>, claims: seq<Claim>, evicted: seq<Capture>,
                           cleared: seq<Capture>)

  function Entered(l: Ledger, event: JoinEvent): Ledger {
    match event
    case Offered(capture) =>
      var all := l.ring + [capture];
      var kept := Newest(all, CMDLINE_JOIN_CAP);
      l.(ring := kept, offered := l.offered + [capture], evicted := l.evicted + all[..|all| - |kept|])
    case AgedOut(nowMs) =>
      var kept := DropBefore(l.ring, StartOf, nowMs - CMDLINE_JOIN_MAX_AGE_MS);
      l.(ring := kept, evicted := l.evicted + if |kept| <= |l.ring| then l.ring[..|l.ring| - |kept|] else [])
    case Attached(pid, startMs) =>
      (match Closest(l.ring, pid, startMs)
       case None => l
       case Some(i) => l.(ring := RemoveAt(l.ring, i), claims := l.claims + [Claim(pid, startMs, l.ring[i])]))
    case AttachedToRecent(recent) =>
      var pass := ClaimAll(l.ring, recent);
      l.(ring := pass.ring, claims := l.claims + pass.claims)
    case Cleared => l.(ring := [], cleared := l.cleared + l.ring)
  }

  function LedgerAfter(events: seq<JoinEvent>): Ledger {
    if events == [] then Ledger([], [], [], [], [])
    else Entered(LedgerAfter(events[..|events| - 1]), events[|events| - 1])
  }

  predicate Balanced(l: Ledger) {
    && multiset(l.offered)
       == multiset(l.ring) + multiset(Captures(l.claims)) + multiset(l.evicted) + multiset(l.cleared)
    && |l.ring| <= CMDLINE_JOIN_CAP
    && forall c :: c in l.claims ==> ClaimFits(c)
  }

  lemma {:induction false} CapturesAppend(a: seq<Claim>, b: seq<Claim>)
    ensures Captures(a + b) == Captures(a) + Captures(b)
  {
    if a == [] {
      assert a + b == b;
    } else {
      CapturesAppend(a[1..], b);
      assert (a + b)[1..] == a[1..] + b;
    }
  }

  lemma EvictingStaysBalanced(l: Ledger, all: seq<Capture>, kept: seq<Capture>)
    requires |kept| <= |all| && kept == all[|all| - |kept|..]
    ensures multiset(l.evicted + all[..|all| - |kept|]) + multiset(kept) == multiset(l.evicted) + multiset(all)
  {
    assert all == all[..|all| - |kept|] + kept;
  }

  lemma ClaimingStaysBalanced(l: Ledger, pass: Pass)
    requires Balanced(l) && multiset(l.ring) == multiset(pass.ring) + multiset(Captures(pass.claims))
    requires forall c :: c in pass.claims ==> ClaimFits(c)
    ensures Balanced(l.(ring := pass.ring, claims := l.claims + pass.claims))
  {
    CapturesAppend(l.claims, pass.claims);
    assert |multiset(l.ring)| == |multiset(pass.ring)| + |multiset(Captures(pass.claims))|;
    hide Captures, ClaimFits;
  }

  lemma ClearingStaysBalanced(l: Ledger)
    requires Balanced(l)
    ensures Balanced(l.(ring := [], cleared := l.cleared + l.ring))
  {
    hide Captures, ClaimFits;
  }

  lemma AgingStaysBalanced(l: Ledger, nowMs: int)
    requires Balanced(l)
    ensures Balanced(Entered(l, AgedOut(nowMs)))
  {
    var kept := DropBefore(l.ring, StartOf, nowMs - CMDLINE_JOIN_MAX_AGE_MS);
    DropBeforeIsASuffix(l.ring, StartOf, nowMs - CMDLINE_JOIN_MAX_AGE_MS);
    hide DropBefore, Captures, ClaimFits;
    EvictingStaysBalanced(l, l.ring, kept);
    var r := Entered(l, AgedOut(nowMs));
    assert r.ring == kept && r.evicted == l.evicted + l.ring[..|l.ring| - |kept|];
    assert r.offered == l.offered && r.claims == l.claims && r.cleared == l.cleared;
    Rebalanced(multiset(l.offered), multiset(l.ring), multiset(Captures(l.claims)), multiset(l.evicted),
               multiset(l.cleared), multiset(r.ring), multiset(r.evicted));
  }

  lemma OfferingStaysBalanced(l: Ledger, capture: Capture)
    requires Balanced(l)
    ensures Balanced(Entered(l, Offered(capture)))
  {
    hide Captures, ClaimFits;
    var all := l.ring + [capture];
    var kept := Newest(all, CMDLINE_JOIN_CAP);
    EvictingStaysBalanced(l, all, kept);
    var r := Entered(l, Offered(capture));
    assert r.ring == kept && r.evicted == l.evicted + all[..|all| - |kept|];
    assert r.claims == l.claims && r.cleared == l.cleared;
    assert multiset(r.offered)
           == multiset(all) + multiset(Captures(l.claims)) + multiset(l.evicted) + multiset(l.cleared);
    Rebalanced(multiset(r.offered), multiset(all), multiset(Captures(l.claims)), multiset(l.evicted),
               multiset(l.cleared), multiset(r.ring), multiset(r.evicted));
  }

  lemma Rebalanced(total: multiset<Capture>, ring: multiset<Capture>, claimed: multiset<Capture>,
                   evicted: multiset<Capture>, cleared: multiset<Capture>, ring': multiset<Capture>,
                   evicted': multiset<Capture>)
    requires total == ring + claimed + evicted + cleared && evicted' + ring' == evicted + ring
    ensures total == ring' + claimed + evicted' + cleared
  {
    assert total == (evicted + ring) + claimed + cleared;
  }

  lemma EnteredStaysBalanced(l: Ledger, event: JoinEvent)
    requires Balanced(l)
    ensures Balanced(Entered(l, event))
  {
    hide ClaimFits, Captures, DropBefore, ClaimAll;
    match event {
      case Offered(capture) => OfferingStaysBalanced(l, capture);
      case AgedOut(nowMs) => AgingStaysBalanced(l, nowMs);
      case Attached(pid, startMs) =>
        var best := Closest(l.ring, pid, startMs);
        ClosestIsClosest(l.ring, pid, startMs);
        if best.Some? {
          RemovingOne(l.ring, best.value);
          OneClaim(Claim(pid, startMs, l.ring[best.value]));
          ClaimingStaysBalanced(l, Pass([Claim(pid, startMs, l.ring[best.value])], RemoveAt(l.ring, best.value)));
        }
      case AttachedToRecent(recent) =>
        ClaimsComeOutOfTheRing(l.ring, recent);
        ClaimingStaysBalanced(l, ClaimAll(l.ring, recent));
      case Cleared => ClearingStaysBalanced(l);
    }
  }

  lemma OneClaim(claim: Claim)
    ensures Captures([claim]) == [claim.capture]
    ensures ClaimFits(claim) <==> Fits(claim.capture, claim.pid, claim.startMs)
  {
  }

  /**
   * Over any run, every capture offered is in the ring, or was claimed once, or was evicted, or was cleared; the
   * ring keeps to its cap; and every claim is of the launch's own pid within the join window.
   */
  lemma {:induction false} CapturesAreConserved(events: seq<JoinEvent>)
    ensures Balanced(LedgerAfter(events))
  {
    if events != [] {
      CapturesAreConserved(events[..|events| - 1]);
      EnteredStaysBalanced(LedgerAfter(events[..|events| - 1]), events[|events| - 1]);
    }
  }
}
