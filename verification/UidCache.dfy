/** The set of pod UIDs that were processed recently: `uidSet`. Times are nanoseconds on a
    monotone clock. */
module UidCache {
  import opened Text

  type Uid = string

  const CACHE_TTL := 30 * 60 * 1_000_000_000
  const SWEEP_INTERVAL := 5 * 60 * 1_000_000_000

  predicate Live(added: int, now: int) {
    now - added <= CACHE_TTL
  }

  function HasIn(m: map<Uid, int>, uid: Uid, now: int): bool {
    uid in m && Live(m[uid], now)
  }

  function Swept(m: map<Uid, int>, now: int): map<Uid, int> {
    map uid | uid in m && Live(m[uid], now) :: m[uid]
  }

  /** What can happen to the set, with the time it happens at. */
  datatype CacheEvent = Added(uid: Uid, at: int) | SweptAt(at: int)

  /** Times do not go back. */
  predicate Chronological(log: seq<CacheEvent>) {
    forall i, j :: 0 <= i < j < |log| ==> log[i].at <= log[j].at
  }

  /** The content of the set after these events. */
  function Replay(log: seq<CacheEvent>): map<Uid, int> {
    if log == [] then map[]
    else
      var m := Replay(log[..|log| - 1]);
      match log[|log| - 1]
      case Added(uid, at) => m[uid := at]
      case SweptAt(at) => Swept(m, at)
  }

  /** The reference: when the UID was last added, if ever. Sweeps play no part. */
  function LastAdded(log: seq<CacheEvent>, uid: Uid): Option<int> {
    if log == [] then None
    else
      match log[|log| - 1]
      case Added(u, at) => if u == uid then Some(at) else LastAdded(log[..|log| - 1], uid)
      case SweptAt(_) => LastAdded(log[..|log| - 1], uid)
  }

  predicate Until(log: seq<CacheEvent>, now: int) {
    forall i :: 0 <= i < |log| ==> log[i].at <= now
  }

  /** What is stored is the last addition; what is not stored was never added or has expired. */
  lemma {:induction false} StoredIsLastAdded(log: seq<CacheEvent>, uid: Uid, now: int)
    requires Chronological(log) && Until(log, now)
    ensures uid in Replay(log) ==> LastAdded(log, uid) == Some(Replay(log)[uid])
    ensures uid !in Replay(log) ==> LastAdded(log, uid).None? || !Live(LastAdded(log, uid).value, now)
  {
    if log != [] {
      var n := |log| - 1;
      StoredIsLastAdded(log[..n], uid, log[n].at);
    }
  }

  /** `Has` answers as an append-only log of additions would. */
  lemma {:induction false} HasIsRecentAdd(log: seq<CacheEvent>, uid: Uid, now: int)
    requires Chronological(log) && Until(log, now)
    ensures HasIn(Replay(log), uid, now) <==> LastAdded(log, uid).Some? && now - LastAdded(log, uid).value <= CACHE_TTL
  {
    StoredIsLastAdded(log, uid, now);
  }

  /** The TTL is thirty minutes, to the nanosecond. */
  lemma {:induction false} RemembersThirtyMinutes(log: seq<CacheEvent>, uid: Uid, now: int, later: int)
    requires Chronological(log) && Until(log, now) && now <= later
    ensures HasIn(Replay(log + [Added(uid, now)]), uid, later) <==> later - now <= 1_800_000_000_000
  {
    ReplayAppend(log, Added(uid, now));
  }

  function Additions(log: seq<CacheEvent>): seq<CacheEvent> {
    if log == [] then []
    else Additions(log[..|log| - 1]) + if log[|log| - 1].Added? then [log[|log| - 1]] else []
  }

  /** One more event, no earlier than the others. */
  lemma {:induction false} ReplayAppend(log: seq<CacheEvent>, e: CacheEvent)
    requires Chronological(log) && Until(log, e.at)
    ensures Chronological(log + [e])
    ensures Replay(log + [e]) ==
            match e
            case Added(uid, at) => Replay(log)[uid := at]
            case SweptAt(at) => Swept(Replay(log), at)
  {
    assert (log + [e])[..|log|] == log;
  }

  lemma {:induction false} AdditionsAreChronological(log: seq<CacheEvent>, now: int)
    requires Chronological(log) && Until(log, now)
    ensures Chronological(Additions(log)) && Until(Additions(log), now)
  {
    if log != [] {
      AdditionsAreChronological(log[..|log| - 1], log[|log| - 1].at);
    }
  }

  lemma {:induction false} AdditionsKeepLastAdded(log: seq<CacheEvent>, uid: Uid)
    ensures LastAdded(Additions(log), uid) == LastAdded(log, uid)
  {
    if log != [] {
      var n := |log| - 1;
      AdditionsKeepLastAdded(log[..n], uid);
      if log[n].Added? {
        assert Additions(log)[..|Additions(log)| - 1] == Additions(log[..n]);
      } else {
        assert Additions(log) == Additions(log[..n]);
      }
    }
  }

  /** No placement of sweeps changes an answer, now or later: two histories with the same
      additions answer alike for ever. */
  lemma {:induction false} SweepsAreInvisible(log: seq<CacheEvent>, other: seq<CacheEvent>, uid: Uid, now: int)
    requires Chronological(log) && Until(log, now) && Chronological(other) && Until(other, now)
    requires Additions(log) == Additions(other)
    ensures HasIn(Replay(log), uid, now) == HasIn(Replay(other), uid, now)
  {
    HasIsRecentAdd(log, uid, now);
    HasIsRecentAdd(other, uid, now);
    AdditionsKeepLastAdded(log, uid);
    AdditionsKeepLastAdded(other, uid);
  }

  /** From the start of the set on, there is a sweep at least every `SWEEP_INTERVAL`. */
  ghost predicate SweptRegularly(log: seq<CacheEvent>, start: int, now: int) {
    now - LastSweep(log, start) <= SWEEP_INTERVAL
  }

  function LastSweep(log: seq<CacheEvent>, start: int): int {
    if log == [] then start
    else if log[|log| - 1].SweptAt? then log[|log| - 1].at
    else LastSweep(log[..|log| - 1], start)
  }

  lemma {:induction false} StoredSinceLastSweep(log: seq<CacheEvent>, start: int, uid: Uid)
    requires Chronological(log) && (forall i :: 0 <= i < |log| ==> start <= log[i].at)
    requires uid in Replay(log)
    ensures LastSweep(log, start) - Replay(log)[uid] <= CACHE_TTL
  {
    var n := |log| - 1;
    match log[n]
    case SweptAt(at) =>
    case Added(u, at) =>
      if u == uid {
        LastSweepBefore(log, start);
      } else {
        StoredSinceLastSweep(log[..n], start, uid);
      }
  }

  lemma {:induction false} LastSweepBefore(log: seq<CacheEvent>, start: int)
    requires Chronological(log) && log != [] && (forall i :: 0 <= i < |log| ==> start <= log[i].at)
    ensures LastSweep(log, start) <= log[|log| - 1].at
  {
    var n := |log| - 1;
    if log[n].Added? && n > 0 {
      LastSweepBefore(log[..n], start);
    }
  }

  /** Right after a sweep nothing stored is older than the TTL; between sweeps nothing is
      older than the TTL and one sweep interval. */
  lemma {:induction false} AgeIsBounded(log: seq<CacheEvent>, start: int, now: int, uid: Uid)
    requires Chronological(log) && Until(log, now) && (forall i :: 0 <= i < |log| ==> start <= log[i].at)
    requires uid in Replay(log)
    ensures log[|log| - 1].SweptAt? ==> log[|log| - 1].at - Replay(log)[uid] <= CACHE_TTL
    ensures SweptRegularly(log, start, now) ==> now - Replay(log)[uid] <= CACHE_TTL + SWEEP_INTERVAL
  {
    StoredSinceLastSweep(log, start, uid);
  }

  /** With a sweep every five minutes, nothing stored is older than thirty-five minutes. */
  lemma {:induction false} NothingOlderThan35Minutes(log: seq<CacheEvent>, start: int, now: int, uid: Uid)
    requires Chronological(log) && Until(log, now) && (forall i :: 0 <= i < |log| ==> start <= log[i].at)
    requires uid in Replay(log) && now - LastSweep(log, start) <= 300_000_000_000
    ensures SweptRegularly(log, start, now)
    ensures now - Replay(log)[uid] <= 2_100_000_000_000
  {
    StoredSinceLastSweep(log, start, uid);
  }

  /** The number of additions at or after `since`. */
  function AddsSince(log: seq<CacheEvent>, since: int): nat {
    if log == [] then 0
    else AddsSince(log[..|log| - 1], since) + if log[|log| - 1].Added? && log[|log| - 1].at >= since then 1 else 0
  }

  lemma {:induction false} StoredSince(log: seq<CacheEvent>, since: int) returns (young: set<Uid>)
    ensures young == set uid | uid in Replay(log) && Replay(log)[uid] >= since
    ensures |young| <= AddsSince(log, since)
  {
    young := set uid | uid in Replay(log) && Replay(log)[uid] >= since;
    if log != [] {
      var before := StoredSince(log[..|log| - 1], since);
      match log[|log| - 1]
      case Added(uid, at) =>
        if at >= since {
          assert young == before + {uid};
        } else {
          assert young == before - {uid};
        }
      case SweptAt(at) =>
        Subset(young, before);
    }
  }

  lemma {:induction false} Subset(a: set<Uid>, b: set<Uid>)
    requires a <= b
    ensures |a| <= |b|
  {
    assert b == a + (b - a);
  }

  /** The set holds no more entries than there were additions in the last TTL and interval. */
  lemma {:induction false} SizeIsBounded(log: seq<CacheEvent>, start: int, now: int)
    requires Chronological(log) && Until(log, now) && (forall i :: 0 <= i < |log| ==> start <= log[i].at)
    requires SweptRegularly(log, start, now)
    ensures |Replay(log)| <= AddsSince(log, now - CACHE_TTL - SWEEP_INTERVAL)
  {
    var young := StoredSince(log, now - CACHE_TTL - SWEEP_INTERVAL);
    forall uid | uid in Replay(log)
      ensures uid in young
    {
      AgeIsBounded(log, start, now, uid);
    }
    assert Replay(log).Keys == young;
  }

  /** The set, with the history of what happened to it. */
  class UidSet {
    var m: map<Uid, int>
    ghost var log: seq<CacheEvent>

    ghost predicate Valid()
      reads this
    {
      Chronological(log) && m == Replay(log)
    }

    constructor ()
      ensures Valid() && log == []
    {
      m := map[];
      log := [];
    }

    /** True exactly when the UID was last added no longer than the TTL ago. */
    method Has(uid: Uid, now: int) returns (has: bool)
      requires Valid() && Until(log, now)
      ensures has <==> LastAdded(log, uid).Some? && now - LastAdded(log, uid).value <= CACHE_TTL
    {
      HasIsRecentAdd(log, uid, now);
      if uid !in m {
        return false;
      }
      var t := m[uid];
      return now - t <= CACHE_TTL;
    }

    method Add(uid: Uid, now: int)
      requires Valid() && Until(log, now)
      modifies this
      ensures Valid() && log == old(log) + [Added(uid, now)] && m == old(m)[uid := now]
      ensures Until(log, now)
    {
      m := m[uid := now];
      ReplayAppend(log, Added(uid, now));
      log := log + [Added(uid, now)];
    }

    /** Walks over the map and deletes as it goes, in the arbitrary order of a Go map range. */
    method Sweep(now: int)
      requires Valid() && Until(log, now)
      modifies this
      ensures Valid() && log == old(log) + [SweptAt(now)] && m == Swept(old(m), now)
      ensures Until(log, now)
    {
      var left := m.Keys;
      while left != {}
        invariant left <= old(m).Keys && log == old(log)
        invariant m == map uid | uid in old(m) && (uid in left || Live(old(m)[uid], now)) :: old(m)[uid]
        decreases |left|
      {
        var k :| k in left;
        left := left - {k};
        if now - m[k] > CACHE_TTL {
          m := m - {k};
        }
      }
      ReplayAppend(log, SweptAt(now));
      log := log + [SweptAt(now)];
    }
  }
}
