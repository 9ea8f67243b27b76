/** Rings of stamped entries that age out from the front: what every bounded history of the service does. */
module Rings {

  /** A ring without the run of entries at its front that were stamped before the cutoff. */
  function DropBefore<T>(ring: seq<T>, stamp: T -> int, cutoffMs: int): seq<T> {
    if ring != [] && stamp(ring[0]) < cutoffMs then DropBefore(ring[1..], stamp, cutoffMs) else ring
  }

  function Newest<T>(ring: seq<T>, cap: nat): seq<T> {
    if |ring| > cap then ring[|ring| - cap..] else ring
  }

  /** Everything young enough, wherever it sits. */
  function Young<T>(ring: seq<T>, stamp: T -> int, cutoffMs: int): seq<T> {
    if ring == [] then []
    else (if stamp(ring[0]) < cutoffMs then [] else [ring[0]]) + Young(ring[1..], stamp, cutoffMs)
  }

  /** No entry from before the cutoff sits behind one that is not. */
  predicate OldestFirst<T>(ring: seq<T>, stamp: T -> int, cutoffMs: int) {
    forall i, j :: 0 <= i < j < |ring| && stamp(ring[j]) < cutoffMs ==> stamp(ring[i]) < cutoffMs
  }

  predicate InOrder<T>(ring: seq<T>, stamp: T -> int) {
    forall i, j :: 0 <= i <= j < |ring| ==> stamp(ring[i]) <= stamp(ring[j])
  }

  lemma {:induction false} DropBeforeIsASuffix<T>(ring: seq<T>, stamp: T -> int, cutoffMs: int)
    ensures var kept := DropBefore(ring, stamp, cutoffMs);
            && |kept| <= |ring| && kept == ring[|ring| - |kept|..]
            && (forall e :: e in ring[..|ring| - |kept|] ==> stamp(e) < cutoffMs)
            && (kept != [] ==> stamp(kept[0]) >= cutoffMs)
  {
    if ring != [] && stamp(ring[0]) < cutoffMs {
      DropBeforeIsASuffix(ring[1..], stamp, cutoffMs);
      var kept := DropBefore(ring, stamp, cutoffMs);
      assert ring[..|ring| - |kept|] == [ring[0]] + ring[1..][..|ring| - 1 - |kept|];
    }
  }

  /** Of entries in time order, exactly those stamped no earlier than the cutoff are kept, the newest last. */
  lemma SpansItsPast<T>(ring: seq<T>, stamp: T -> int, cutoffMs: int)
    requires InOrder(ring, stamp)
    ensures var kept := DropBefore(ring, stamp, cutoffMs);
            && |kept| <= |ring| && kept == ring[|ring| - |kept|..]
            && (forall i :: 0 <= i < |ring| ==> (stamp(ring[i]) >= cutoffMs <==> i >= |ring| - |kept|))
  {
    var kept := DropBefore(ring, stamp, cutoffMs);
    DropBeforeIsASuffix(ring, stamp, cutoffMs);
    forall i | 0 <= i < |ring|
      ensures stamp(ring[i]) >= cutoffMs <==> i >= |ring| - |kept|
    {
      if i < |ring| - |kept| {
        assert ring[i] in ring[..|ring| - |kept|];
      } else {
        assert kept[0] == ring[|ring| - |kept|];
      }
    }
  }

  /** Scanning from the front evicts exactly the expired entries if and only if none is stuck behind a younger one. */
  lemma {:induction false} FrontScanIsExact<T>(ring: seq<T>, stamp: T -> int, cutoffMs: int)
    ensures DropBefore(ring, stamp, cutoffMs) == Young(ring, stamp, cutoffMs) <==> OldestFirst(ring, stamp, cutoffMs)
  {
    if ring != [] {
      if stamp(ring[0]) < cutoffMs {
        FrontScanIsExact(ring[1..], stamp, cutoffMs);
        assert OldestFirst(ring[1..], stamp, cutoffMs) ==> OldestFirst(ring, stamp, cutoffMs) by {
          assert forall i :: 0 < i < |ring| ==> ring[i] == ring[1..][i - 1];
        }
        assert OldestFirst(ring, stamp, cutoffMs) ==> OldestFirst(ring[1..], stamp, cutoffMs);
      } else {
        YoungKeepsAllIffNoneOld(ring, stamp, cutoffMs);
      }
    }
  }

  lemma {:induction false} YoungKeepsAllIffNoneOld<T>(ring: seq<T>, stamp: T -> int, cutoffMs: int)
    ensures |Young(ring, stamp, cutoffMs)| <= |ring|
    ensures Young(ring, stamp, cutoffMs) == ring <==> forall e :: e in ring ==> stamp(e) >= cutoffMs
  {
    if ring != [] {
      YoungKeepsAllIffNoneOld(ring[1..], stamp, cutoffMs);
      assert ring == [ring[0]] + ring[1..];
      assert ring[0] in ring;
      if stamp(ring[0]) >= cutoffMs && Young(ring, stamp, cutoffMs) == ring {
        assert Young(ring[1..], stamp, cutoffMs) == Young(ring, stamp, cutoffMs)[1..];
      }
    }
  }
}
