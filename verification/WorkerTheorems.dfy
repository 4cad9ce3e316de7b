/** What holds in every reachable state of the controller. */
module WorkerTheorems {
  import opened Text
  import opened UidCache
  import opened WorkerProtocol
  import Export

  // ---------------------------------------------------------------------------------------
  // No lost work.
  // ---------------------------------------------------------------------------------------

  /** A ready pod in the cache that was never recorded as processed. */
  predicate Wanted(s: State, k: PodKey) {
    k in s.indexer && Ready(s.indexer[k]) && s.indexer[k].uid !in s.ledger.history.lastAdded
  }

  /** The worker will still look at this pod, or has read it ready and is not finished with it. */
  predicate Carries(pc: Pc, k: PodKey, uid: Uid) {
    || pc == Got(k)
    || (Holding(pc) && pc.key == k && Snapshot(pc).Some? &&
        Snapshot(pc).value.uid == uid && Ready(Snapshot(pc).value) &&
        (pc.Ending? ==> pc.result.Transient?))
  }

  ghost predicate Carried(s: State, k: PodKey, uid: Uid) {
    exists w :: 0 <= w < |s.workers| && Carries(s.workers[w], k, uid)
  }

  ghost predicate Noted(s: State, k: PodKey) {
    exists i :: 0 <= i < |s.notes| && s.notes[i].key == k && Ready(s.notes[i])
  }

  ghost predicate Covered(s: State, k: PodKey, uid: Uid) {
    Noted(s, k) || k in s.queue.dirty || k in s.queue.delayed || Carried(s, k, uid)
  }

  ghost predicate NoLoss(s: State) {
    && (s.queue.shuttingDown ==> s.cancelled)
    && (!s.cancelled ==> forall k :: Wanted(s, k) ==> Covered(s, k, s.indexer[k].uid))
  }

  /** A worker that carries a pod it has read. */
  lemma {:induction false} ReadCarryMoves(s: State, e: Event, k: PodKey, uid: Uid)
    requires Remembered(s) && Enabled(s, e) && IsWorkerEvent(e) && !s.cancelled
    requires Carries(s.workers[e.w], k, uid) && Snapshot(s.workers[e.w]).Some? && !e.Conclude?
    ensures Carries(NextPc(s, e), k, uid) || uid in NextLedger(s, e).history.lastAdded
  {
    var pc := s.workers[e.w];
    if e.Check? && HasIn(s.ledger.processed, pc.pod.uid, s.now) {
      assert uid in s.ledger.history.lastAdded;
    }
  }

  lemma {:induction false} ConcludeHandsBack(s: State, e: Event, k: PodKey, uid: Uid)
    requires Enabled(s, e) && e.Conclude? && !s.queue.shuttingDown && Carries(s.workers[e.w], k, uid)
    ensures k in NextQueue(s, e).delayed
  {
  }

  /** The worker that carries a pod goes on carrying it, hands it back to the queue, or records it. */
  lemma {:induction false} CarryMoves(s: State, e: Event, k: PodKey, uid: Uid)
    requires Remembered(s) && Enabled(s, e) && IsWorkerEvent(e) && !s.cancelled && !s.queue.shuttingDown
    requires k in s.indexer && Ready(s.indexer[k]) && s.indexer[k].uid == uid
    requires Carries(s.workers[e.w], k, uid)
    ensures Carries(NextPc(s, e), k, uid) || k in NextQueue(s, e).delayed || uid in NextLedger(s, e).history.lastAdded
  {
    if e.Conclude? {
      ConcludeHandsBack(s, e, k, uid);
    } else if s.workers[e.w] == Got(k) {
      assert NextPc(s, e) == Loaded(k, s.indexer[k]);
    } else {
      ReadCarryMoves(s, e, k, uid);
    }
  }

  lemma {:induction false} CarriedMoves(s: State, e: Event, k: PodKey, uid: Uid)
    requires Remembered(s) && Enabled(s, e) && IsWorkerEvent(e) && !s.cancelled && !s.queue.shuttingDown
    requires k in s.indexer && Ready(s.indexer[k]) && s.indexer[k].uid == uid
    requires Carried(s, k, uid)
    ensures Carried(Next(s, e), k, uid) || k in NextQueue(s, e).delayed || uid in NextLedger(s, e).history.lastAdded
  {
    var t := Next(s, e);
    var v :| 0 <= v < |s.workers| && Carries(s.workers[v], k, uid);
    if v == e.w {
      CarryMoves(s, e, k, uid);
      assert t.workers[v] == NextPc(s, e);
    } else {
      assert t.workers[v] == s.workers[v];
    }
  }

  lemma {:induction false} LedgerOnlyAdds(s: State, e: Event)
    requires Enabled(s, e) && IsWorkerEvent(e)
    ensures s.ledger.history.lastAdded.Keys <= NextLedger(s, e).history.lastAdded.Keys
  {
  }

  lemma {:induction false} WorkerKeepsCovered(s: State, e: Event, k: PodKey)
    requires NoLoss(s) && Remembered(s) && Enabled(s, e) && IsWorkerEvent(e) && !s.cancelled
    requires Wanted(Next(s, e), k)
    ensures Covered(Next(s, e), k, s.indexer[k].uid)
  {
    var t, uid := Next(s, e), s.indexer[k].uid;
    LedgerOnlyAdds(s, e);
    QueueFrame(s, e);
    PcFrame(s, e);
    assert Wanted(s, k);
    if Noted(s, k) {
      assert Noted(t, k);
    } else if Carried(s, k, uid) {
      CarriedMoves(s, e, k, uid);
    } else if k in s.queue.dirty && e.Take? && e.key == k {
      assert Carries(t.workers[e.w], k, uid);
    }
  }

  lemma {:induction false} OthersKeepCovered(s: State, e: Event, k: PodKey)
    requires NoLoss(s) && Enabled(s, e) && !IsWorkerEvent(e) && !Next(s, e).cancelled
    requires Wanted(Next(s, e), k)
    ensures Covered(Next(s, e), k, Next(s, e).indexer[k].uid)
  {
    var t := Next(s, e);
    if e.Update? && e.pod.key == k {
      assert t.notes[|s.notes|] == e.pod;
    } else {
      var uid := s.indexer[k].uid;
      assert Wanted(s, k) && t.indexer[k] == s.indexer[k];
      if Noted(s, k) {
        var i :| 0 <= i < |s.notes| && s.notes[i].key == k && Ready(s.notes[i]);
        if e.Deliver? {
          assert i > 0 ==> t.notes[i - 1] == s.notes[i];
        } else {
          assert t.notes[i] == s.notes[i];
        }
      } else if Carried(s, k, uid) {
        var v :| 0 <= v < |s.workers| && Carries(s.workers[v], k, uid);
        assert Carries(t.workers[v], k, uid);
      }
    }
  }

  lemma {:induction false} StepKeepsNoLoss(s: State, e: Event)
    requires NoLoss(s) && Remembered(s) && Enabled(s, e)
    ensures NoLoss(Next(s, e))
  {
    var t := Next(s, e);
    if IsWorkerEvent(e) {
      QueueFrame(s, e);
    }
    if !t.cancelled {
      forall k | Wanted(t, k)
        ensures Covered(t, k, t.indexer[k].uid)
      {
        if IsWorkerEvent(e) {
          WorkerKeepsCovered(s, e, k);
        } else {
          OthersKeepCovered(s, e, k);
        }
      }
    }
  }

  // ---------------------------------------------------------------------------------------
  // One successful export per UID and TTL window.
  // ---------------------------------------------------------------------------------------

  /** The processed set holds the last additions, save for expired ones. */
  ghost predicate Remembered(s: State) {
    var l := s.ledger;
    && (forall u :: u in l.processed ==> u in l.history.lastAdded && l.history.lastAdded[u] == l.processed[u])
    && (forall u :: u in l.history.lastAdded ==>
          l.history.lastAdded[u] <= s.now && (u !in l.processed ==> !Live(l.history.lastAdded[u], s.now)))
  }

  lemma {:induction false} StepKeepsRemembered(s: State, e: Event)
    requires Remembered(s) && Enabled(s, e)
    ensures Remembered(Next(s, e))
  {
    if IsWorkerEvent(e) {
      LedgerRemembers(s, e);
    }
  }

  lemma {:induction false} LedgerRemembers(s: State, e: Event)
    requires Remembered(s) && Enabled(s, e) && IsWorkerEvent(e)
    ensures Remembered(s.(ledger := NextLedger(s, e)))
  {
  }

  /** The worker has found the pod ready and unprocessed, and has not exported it yet. */
  predicate PastCheck(pc: Pc) {
    pc.Jittering? || pc.ReadingSerials? || pc.Labeling? || pc.Identifying? || pc.Exporting?
  }

  ghost predicate Unrecorded(s: State, uid: Uid) {
    exists w :: 0 <= w < |s.workers| && s.workers[w].Exported? && s.workers[w].pod.uid == uid
  }

  /** An export is in the past and is recorded, or its worker is about to record it. */
  ghost predicate Recorded(s: State, x: (Uid, int)) {
    var last := s.ledger.history.lastAdded;
    x.1 <= s.now && ((x.0 in last && last[x.0] >= x.1) || Unrecorded(s, x.0))
  }

  ghost predicate Spaced(s: State) {
    var xs := s.ledger.history.exports;
    && (forall i :: 0 <= i < |xs| ==> Recorded(s, xs[i]))
    && (forall w, i :: 0 <= w < |s.workers| && PastCheck(s.workers[w]) &&
                       0 <= i < |xs| && xs[i].0 == s.workers[w].pod.uid ==>
          s.now - xs[i].1 > CACHE_TTL)
    && (forall i, j :: 0 <= i < j < |xs| && xs[i].0 == xs[j].0 ==> xs[j].1 - xs[i].1 > CACHE_TTL)
  }

  /** Two workers never work on pods with the same UID. */
  lemma {:induction false} UidIsExclusive(s: State, v: nat, w: nat)
    requires Exclusive(s) && v < |s.workers| && w < |s.workers| && v != w
    requires Snapshot(s.workers[v]).Some? && Snapshot(s.workers[w]).Some?
    ensures Snapshot(s.workers[v]).value.uid != Snapshot(s.workers[w]).value.uid
  {
    assert Holding(s.workers[v]) && Holding(s.workers[w]);
  }

  /** What a step adds to the list of exports and to the last additions. */
  lemma {:induction false} ExportsGrow(s: State, e: Event)
    requires Enabled(s, e) && IsWorkerEvent(e)
    ensures var xs, ys := s.ledger.history.exports, NextLedger(s, e).history.exports;
            ys == if e.Send? && e.ok then xs + [(s.workers[e.w].pod.uid, s.now)] else xs
    ensures var was, last := s.ledger.history.lastAdded, NextLedger(s, e).history.lastAdded;
            && (forall u :: u in was ==> u in last && (last[u] == was[u] || last[u] == s.now))
            && (e.Mark? ==> s.workers[e.w].pod.uid in last && last[s.workers[e.w].pod.uid] == s.now)
  {
  }

  /** Where a worker is before and after its export. */
  lemma {:induction false} ExportPlaces(s: State, e: Event)
    requires Enabled(s, e) && IsWorkerEvent(e)
    ensures NextPc(s, e).Exported? ==> e.Send? && e.ok && NextPc(s, e).pod == s.workers[e.w].pod
    ensures e.Send? && e.ok ==> NextPc(s, e).Exported?
    ensures s.workers[e.w].Exported? ==> e.Mark?
    ensures PastCheck(NextPc(s, e)) ==>
              (PastCheck(s.workers[e.w]) || e.Check?) && s.workers[e.w].pod == NextPc(s, e).pod
  {
  }

  lemma {:induction false} WorkerKeepsRecorded(s: State, e: Event, x: (Uid, int))
    requires Remembered(s) && Enabled(s, e) && IsWorkerEvent(e)
    requires Recorded(s, x) || (e.Send? && e.ok && x == (s.workers[e.w].pod.uid, s.now))
    ensures Recorded(Next(s, e), x)
  {
    var t := Next(s, e);
    ExportsGrow(s, e);
    ExportPlaces(s, e);
    if Recorded(s, x) {
      if Unrecorded(s, x.0) {
        var w :| 0 <= w < |s.workers| && s.workers[w].Exported? && s.workers[w].pod.uid == x.0;
        if w != e.w {
          assert t.workers[w].Exported?;
        }
      }
    } else {
      assert t.workers[e.w].Exported? && t.workers[e.w].pod.uid == x.0;
    }
  }

  /** A pod that passes the check was not exported within the TTL. */
  lemma {:induction false} CheckIsLate(s: State, e: Event, x: (Uid, int))
    requires Exclusive(s) && Remembered(s) && Enabled(s, e) && e.Check? && NextPc(s, e).Jittering?
    requires Recorded(s, x) && x.0 == s.workers[e.w].pod.uid
    ensures s.now - x.1 > CACHE_TTL
  {
    if Unrecorded(s, x.0) {
      var w :| 0 <= w < |s.workers| && s.workers[w].Exported? && s.workers[w].pod.uid == x.0;
      UidIsExclusive(s, w, e.w);
      assert false;
    }
  }

  lemma {:induction false} WorkerKeepsLate(s: State, e: Event, w: nat, i: nat)
    requires Exclusive(s) && Remembered(s) && Spaced(s) && Enabled(s, e) && IsWorkerEvent(e)
    requires w < |s.workers| && i < |Next(s, e).ledger.history.exports|
    requires PastCheck(Next(s, e).workers[w]) && Next(s, e).ledger.history.exports[i].0 == Next(s, e).workers[w].pod.uid
    ensures s.now - Next(s, e).ledger.history.exports[i].1 > CACHE_TTL
  {
    var t := Next(s, e);
    var xs := s.ledger.history.exports;
    ExportsGrow(s, e);
    ExportPlaces(s, e);
    if i == |xs| {
      UidIsExclusive(s, w, e.w);
      assert false;
    } else {
      assert t.ledger.history.exports[i] == xs[i];
      if w == e.w {
        if e.Check? {
          CheckIsLate(s, e, xs[i]);
        }
      } else {
        assert t.workers[w] == s.workers[w];
      }
    }
  }

  lemma {:induction false} WorkerKeepsSpaced(s: State, e: Event)
    requires Exclusive(s) && Remembered(s) && Spaced(s) && Enabled(s, e) && IsWorkerEvent(e)
    ensures Spaced(Next(s, e))
  {
    var t := Next(s, e);
    var xs, ys := s.ledger.history.exports, t.ledger.history.exports;
    ExportsGrow(s, e);
    ExportPlaces(s, e);
    forall i | 0 <= i < |ys|
      ensures Recorded(t, ys[i])
    {
      assert i < |xs| ==> ys[i] == xs[i];
      WorkerKeepsRecorded(s, e, ys[i]);
    }
    forall w, i | 0 <= w < |t.workers| && PastCheck(t.workers[w]) && 0 <= i < |ys| && ys[i].0 == t.workers[w].pod.uid
      ensures t.now - ys[i].1 > CACHE_TTL
    {
      WorkerKeepsLate(s, e, w, i);
    }
    forall i, j | 0 <= i < j < |ys| && ys[i].0 == ys[j].0
      ensures ys[j].1 - ys[i].1 > CACHE_TTL
    {
      if j == |xs| {
        assert PastCheck(s.workers[e.w]) && ys[i] == xs[i];
      }
    }
  }

  lemma {:induction false} StepKeepsSpaced(s: State, e: Event)
    requires Exclusive(s) && Remembered(s) && Spaced(s) && Enabled(s, e)
    ensures Spaced(Next(s, e))
  {
    if IsWorkerEvent(e) {
      WorkerKeepsSpaced(s, e);
    } else {
      var t := Next(s, e);
      assert t.workers == s.workers && t.ledger.history == s.ledger.history && t.now >= s.now;
      forall i | 0 <= i < |t.ledger.history.exports|
        ensures Recorded(t, t.ledger.history.exports[i])
      {
        assert Recorded(s, s.ledger.history.exports[i]);
        assert Unrecorded(s, s.ledger.history.exports[i].0) ==> Unrecorded(t, s.ledger.history.exports[i].0);
      }
    }
  }

  // ---------------------------------------------------------------------------------------
  // Counters.
  // ---------------------------------------------------------------------------------------

  function CountIf(ws: seq<Pc>, f: Pc -> bool): nat {
    if ws == [] then 0 else CountIf(ws[..|ws| - 1], f) + if f(ws[|ws| - 1]) then 1 else 0
  }

  lemma {:induction false} CountUpdate(ws: seq<Pc>, w: nat, pc: Pc, f: Pc -> bool)
    requires w < |ws|
    ensures CountIf(ws[w := pc], f) + (if f(ws[w]) then 1 else 0) == CountIf(ws, f) + if f(pc) then 1 else 0
  {
    var n := |ws| - 1;
    if w == n {
      assert ws[w := pc][..n] == ws[..n];
    } else {
      assert ws[w := pc][..n] == ws[..n][w := pc];
      CountUpdate(ws[..n], w, pc, f);
    }
  }

  /** The failures of a key in a row, read off the outcomes. */
  function Streak(outcomes: seq<(PodKey, bool)>, k: PodKey): nat {
    if outcomes == [] then 0
    else
      var (key, retry) := outcomes[|outcomes| - 1];
      if key != k then Streak(outcomes[..|outcomes| - 1], k)
      else if retry then Streak(outcomes[..|outcomes| - 1], k) + 1
      else 0
  }

  predicate AboutToRetry(pc: Pc) {
    pc.Ending? && pc.result.Transient?
  }

  ghost predicate Tallied(s: State) {
    var l, h := s.ledger, s.ledger.history;
    && l.success == |h.exports|
    && h.adds + CountIf(s.workers, (pc: Pc) => pc.Exported?) == l.success + h.empties
    && l.failure == h.rateLimited + CountIf(s.workers, AboutToRetry) + h.blankIds
    && (forall k :: Failures(s.queue, k) == Streak(h.outcomes, k))
  }

  /** What one step adds to the counters. */
  lemma {:induction false} LedgerDelta(s: State, e: Event)
    requires Enabled(s, e) && IsWorkerEvent(e)
    ensures var l, m := s.ledger, NextLedger(s, e); var pc, to := s.workers[e.w], NextPc(s, e);
            && |m.history.exports| - |l.history.exports| == m.success - l.success
            && m.history.adds - l.history.adds + (if to.Exported? then 1 else 0) - (if pc.Exported? then 1 else 0) ==
                 m.success - l.success + m.history.empties - l.history.empties
            && m.failure - l.failure ==
                 m.history.rateLimited - l.history.rateLimited + (if AboutToRetry(to) then 1 else 0) -
                 (if AboutToRetry(pc) then 1 else 0) + m.history.blankIds - l.history.blankIds
  {
  }

  /** One more outcome of a key. */
  lemma {:induction false} StreakAppend(outcomes: seq<(PodKey, bool)>, key: PodKey, retry: bool, k: PodKey)
    ensures Streak(outcomes + [(key, retry)], k) ==
            if key != k then Streak(outcomes, k) else if retry then Streak(outcomes, k) + 1 else 0
  {
    var now := outcomes + [(key, retry)];
    assert now[|now| - 1] == (key, retry) && now[..|now| - 1] == outcomes;
  }

  /** AddRateLimited and Forget, as the failure count of a key sees them. */
  lemma {:induction false} FailuresAfter(q: Queue, key: PodKey, k: PodKey)
    ensures Failures(AddRateLimited(q, key), k) == if key != k then Failures(q, k) else Failures(q, k) + 1
    ensures Failures(Forget(q, key), k) == if key != k then Failures(q, k) else 0
  {
  }

  /** The outcome that a step writes down, and what it does to the limiter. */
  lemma {:induction false} OutcomeOf(s: State, e: Event)
    requires Enabled(s, e) && IsWorkerEvent(e)
    ensures !e.Conclude? ==> NextQueue(s, e).limiter == s.queue.limiter
    ensures !e.Conclude? ==> NextLedger(s, e).history.outcomes == s.ledger.history.outcomes
    ensures e.Conclude? ==>
              var pc := s.workers[e.w]; var retry := pc.result.Transient?;
              && NextLedger(s, e).history.outcomes == s.ledger.history.outcomes + [(pc.key, retry)]
              && NextQueue(s, e) == if retry then AddRateLimited(s.queue, pc.key) else Forget(s.queue, pc.key)
  {
  }

  lemma {:induction false} LimiterTracks(s: State, e: Event, k: PodKey)
    requires Enabled(s, e) && IsWorkerEvent(e) && Failures(s.queue, k) == Streak(s.ledger.history.outcomes, k)
    ensures Failures(NextQueue(s, e), k) == Streak(NextLedger(s, e).history.outcomes, k)
  {
    OutcomeOf(s, e);
    if e.Conclude? {
      var pc := s.workers[e.w];
      StreakAppend(s.ledger.history.outcomes, pc.key, pc.result.Transient?, k);
      FailuresAfter(s.queue, pc.key, k);
    }
  }

  lemma {:induction false} StepKeepsTallied(s: State, e: Event)
    requires Tallied(s) && Enabled(s, e)
    ensures Tallied(Next(s, e))
  {
    var t := Next(s, e);
    if IsWorkerEvent(e) {
      CountersBalance(s, e);
      forall k
        ensures Failures(t.queue, k) == Streak(t.ledger.history.outcomes, k)
      {
        LimiterTracks(s, e, k);
      }
    } else {
      assert t.ledger.history == s.ledger.history && t.workers == s.workers && t.queue.limiter == s.queue.limiter;
      assert forall k :: Failures(t.queue, k) == Failures(s.queue, k);
    }
  }

  lemma {:induction false} CountersBalance(s: State, e: Event)
    requires Tallied(s) && Enabled(s, e) && IsWorkerEvent(e)
    ensures var t := Next(s, e); var l, h := t.ledger, t.ledger.history;
            && l.success == |h.exports|
            && h.adds + CountIf(t.workers, (pc: Pc) => pc.Exported?) == l.success + h.empties
            && l.failure == h.rateLimited + CountIf(t.workers, AboutToRetry) + h.blankIds
  {
    LedgerDelta(s, e);
    CountUpdate(s.workers, e.w, NextPc(s, e), (pc: Pc) => pc.Exported?);
    CountUpdate(s.workers, e.w, NextPc(s, e), AboutToRetry);
  }

  lemma {:induction false} BlankIsIdentified(s: State, w: nat)
    requires w < |s.workers| && s.workers[w].Identifying?
    ensures var t := Next(s, Identify(w, Some("")));
            && t.workers[w] == Exporting(s.workers[w].key, s.workers[w].pod, "")
            && t.ledger.failure == s.ledger.failure + 1
  {
  }

  lemma {:induction false} BlankIsNotSent(s: State, w: nat, e: Event)
    requires w < |s.workers| && s.workers[w].Exporting? && s.workers[w].identifier == ""
    requires IsStepOf(e, w) && Enabled(s, e)
    ensures e == Send(w, false)
    ensures Next(s, e).ledger.failure == s.ledger.failure + 1 && AboutToRetry(Next(s, e).workers[w])
  {
    assert Export.Blank("");
  }

  /** An attempt that finds an empty machine name goes on, cannot succeed, is counted twice and
      is retried, whatever the others do between its two steps. */
  lemma {:induction false} EmptyIdentifierCountsTwice(s: State, w: nat, others: seq<Event>, e: Event)
    requires w < |s.workers| && s.workers[w].Identifying?
    requires var identified := Next(s, Identify(w, Some("")));
             && IsRun(identified, others) && (forall i :: 0 <= i < |others| ==> !IsStepOf(others[i], w))
             && IsStepOf(e, w) && Enabled(After(identified, others), e)
    ensures var identified := Next(s, Identify(w, Some("")));
            var sending := After(identified, others);
            var sent := Next(sending, e);
            && identified.ledger.failure == s.ledger.failure + 1
            && e == Send(w, false)
            && sent.ledger.failure == sending.ledger.failure + 1
            && AboutToRetry(sent.workers[w])
  {
    var identified := Next(s, Identify(w, Some("")));
    BlankIsIdentified(s, w);
    OthersLeave(identified, others, w);
    BlankIsNotSent(After(identified, others), w, e);
  }

  // ---------------------------------------------------------------------------------------
  // The queue at the end.
  // ---------------------------------------------------------------------------------------

  predicate AllExited(s: State) {
    forall w :: 0 <= w < |s.workers| ==> s.workers[w].Exited?
  }

  /** Workers exit only during shutdown, and the last one leaves an empty queue behind. */
  ghost predicate Drained(s: State) {
    && (forall w :: 0 <= w < |s.workers| && s.workers[w].Exited? ==> s.queue.shuttingDown)
    && (AllExited(s) && s.workers != [] ==> s.queue.dirty == {})
  }

  lemma {:induction false} NothingHeld(s: State)
    requires Exclusive(s) && forall w :: 0 <= w < |s.workers| ==> !Holding(s.workers[w])
    ensures s.queue.processing == {}
  {
    assert forall k :: k in s.queue.processing ==> Held(s, k);
  }

  lemma {:induction false} StepKeepsDrained(s: State, e: Event)
    requires Exclusive(s) && Drained(s) && Enabled(s, e)
    ensures Drained(Next(s, e))
  {
    if IsWorkerEvent(e) {
      WorkerKeepsDrained(s, e);
    } else {
      var t := Next(s, e);
      assert t.workers == s.workers;
      assert AllExited(s) <==> AllExited(t);
      assert s.workers != [] && AllExited(s) ==> s.workers[0].Exited?;
    }
  }

  lemma {:induction false} WorkerKeepsDrained(s: State, e: Event)
    requires Exclusive(s) && Drained(s) && Enabled(s, e) && IsWorkerEvent(e)
    ensures Drained(Next(s, e))
  {
    var t := Next(s, e);
    PcFrame(s, e);
    QueueFrame(s, e);
    ExitIsExit(s, e);
    assert t.workers[e.w] == NextPc(s, e);
    assert forall v :: 0 <= v < |s.workers| && v != e.w ==> t.workers[v] == s.workers[v];
    if e.Exit? && AllExited(t) {
      NothingHeld(s);
    }
  }

  // ---------------------------------------------------------------------------------------
  // The WaitGroup.
  // ---------------------------------------------------------------------------------------

  predicate Running(pc: Pc) {
    !pc.Exited?
  }

  /** The WaitGroup counts the goroutines that have not ended, and the main goroutine is past
      wg.Wait only when there are none. */
  ghost predicate Counted(s: State) {
    && s.waitGroup == CountIf(s.workers, Running) + (if s.informing then 1 else 0)
    && (s.control.Returned? || s.control.Closed? ==> s.waitGroup == 0)
    && (s.queue.shuttingDown <==> !s.control.Serving?)
  }

  lemma {:induction false} CountPositive(ws: seq<Pc>, w: nat, f: Pc -> bool)
    requires w < |ws| && f(ws[w])
    ensures CountIf(ws, f) > 0
  {
    if w < |ws| - 1 {
      CountPositive(ws[..|ws| - 1], w, f);
    }
  }

  lemma {:induction false} StepKeepsCounted(s: State, e: Event)
    requires Counted(s) && Enabled(s, e)
    ensures Counted(Next(s, e))
  {
    if IsWorkerEvent(e) {
      QueueFrame(s, e);
      CountUpdate(s.workers, e.w, NextPc(s, e), Running);
      CountPositive(s.workers, e.w, Running);
      ExitIsExit(s, e);
    } else {
      assert Next(s, e).workers == s.workers;
    }
  }

  lemma {:induction false} ExitIsExit(s: State, e: Event)
    requires Enabled(s, e) && IsWorkerEvent(e)
    ensures Running(s.workers[e.w]) && (Running(NextPc(s, e)) <==> !e.Exit?)
  {
  }

  /** Past wg.Wait the informer and every worker have ended. */
  lemma {:induction false} ReturnedMeansExited(s: State)
    requires Counted(s) && (s.control.Returned? || s.control.Closed?)
    ensures AllExited(s) && !s.informing
  {
    NoneRunning(s);
  }

  lemma {:induction false} NoneRunning(s: State)
    requires CountIf(s.workers, Running) == 0
    ensures AllExited(s)
  {
    forall w | 0 <= w < |s.workers|
      ensures s.workers[w].Exited?
    {
      if Running(s.workers[w]) {
        CountPositive(s.workers, w, Running);
      }
    }
  }

  // ---------------------------------------------------------------------------------------
  // Every run.
  // ---------------------------------------------------------------------------------------

  ghost predicate Inv(s: State) {
    && Exclusive(s) && Remembered(s) && Spaced(s) && NoLoss(s) && Tallied(s)
    && Drained(s) && Counted(s)
  }

  lemma {:induction false} StepKeepsInv(s: State, e: Event)
    requires Inv(s) && Enabled(s, e)
    ensures Inv(Next(s, e))
  {
    StepKeepsExclusive(s, e);
    StepKeepsRemembered(s, e);
    StepKeepsSpaced(s, e);
    StepKeepsNoLoss(s, e);
    StepKeepsTallied(s, e);
    StepKeepsDrained(s, e);
    StepKeepsCounted(s, e);
  }

  lemma {:induction false} RunKeepsInv(s: State, events: seq<Event>)
    requires Inv(s) && IsRun(s, events)
    ensures Inv(After(s, events))
    decreases |events|
  {
    if events != [] {
      StepKeepsInv(s, events[0]);
      RunKeepsInv(Next(s, events[0]), events[1..]);
    }
  }

  lemma {:induction false} NoneCounted(n: nat, f: Pc -> bool)
    requires !f(Waiting)
    ensures CountIf(seq(n, _ => Waiting), f) == 0
  {
    if n > 0 {
      assert (seq(n, _ => Waiting))[..n - 1] == seq(n - 1, _ => Waiting);
      NoneCounted(n - 1, f);
    }
  }

  lemma {:induction false} AllCounted(n: nat, f: Pc -> bool)
    requires f(Waiting)
    ensures CountIf(seq(n, _ => Waiting), f) == n
  {
    if n > 0 {
      assert (seq(n, _ => Waiting))[..n - 1] == seq(n - 1, _ => Waiting);
      AllCounted(n - 1, f);
    }
  }

  lemma {:induction false} InitialInv(n: nat, now: int)
    ensures Inv(Initial(n, now))
  {
    AllCounted(n, Running);
    NoneCounted(n, (pc: Pc) => pc.Exported?);
    NoneCounted(n, AboutToRetry);
  }

  /** In every reachable state before cancellation, a ready pod that was never recorded is in
      a notification to come, in the queue, waiting out a delay, or in the hands of a worker. */
  lemma {:induction false} NoLostWork(n: nat, start: int, events: seq<Event>, k: PodKey)
    requires IsRun(Initial(n, start), events)
    ensures var s := After(Initial(n, start), events);
            !s.cancelled && k in s.indexer && Ready(s.indexer[k]) && s.indexer[k].uid !in s.ledger.history.lastAdded ==>
              Covered(s, k, s.indexer[k].uid)
  {
    InitialInv(n, start);
    RunKeepsInv(Initial(n, start), events);
  }

  /** Two successful exports of one UID are more than the TTL apart, whatever the interleaving. */
  lemma {:induction false} OneExportPerWindow(n: nat, start: int, events: seq<Event>, i: nat, j: nat)
    requires IsRun(Initial(n, start), events)
    requires i < j < |After(Initial(n, start), events).ledger.history.exports|
    ensures var xs := After(Initial(n, start), events).ledger.history.exports;
            xs[i].0 == xs[j].0 ==> xs[j].1 - xs[i].1 > CACHE_TTL
  {
    InitialInv(n, start);
    RunKeepsInv(Initial(n, start), events);
  }

  /** The counters add up at every moment, with the work in progress on the books. */
  lemma {:induction false} MetricsConservation(n: nat, start: int, events: seq<Event>, k: PodKey)
    requires IsRun(Initial(n, start), events)
    ensures var s := After(Initial(n, start), events); var h := s.ledger.history;
            && s.ledger.success == |h.exports|
            && h.adds + CountIf(s.workers, (pc: Pc) => pc.Exported?) == s.ledger.success + h.empties
            && s.ledger.failure == h.rateLimited + CountIf(s.workers, AboutToRetry) + h.blankIds
            && Failures(s.queue, k) == Streak(h.outcomes, k)
  {
    InitialInv(n, start);
    RunKeepsInv(Initial(n, start), events);
  }

  // ---------------------------------------------------------------------------------------
  // Shutdown.
  // ---------------------------------------------------------------------------------------

  /** How many steps of its iteration a worker has ahead of it, at most. */
  function Rank(pc: Pc): nat {
    match pc
    case Exited => 0
    case Waiting => 1
    case Closing(_) => 2
    case Ending(_, _, _) => 3
    case Exported(_, _) => 4
    case Exporting(_, _, _) => 5
    case Identifying(_, _) => 6
    case Labeling(_, _) => 7
    case ReadingSerials(_, _) => 8
    case Jittering(_, _) => 9
    case Loaded(_, _) => 10
    case Got(_) => 11
  }

  function Ranks(ws: seq<Pc>): nat {
    if ws == [] then 0 else Ranks(ws[..|ws| - 1]) + Rank(ws[|ws| - 1])
  }

  /** What is left of the queue: every dirty key has a Get and a Done to come. */
  function Backlog(q: Queue): nat {
    2 * |q.dirty| + |q.processing|
  }

  /** How many steps the main goroutine has ahead of it. */
  function ControlRank(c: Control): nat {
    match c
    case Serving => 4
    case Draining => 3
    case Joining => 2
    case Returned => 1
    case Closed => 0
  }

  function Remaining(s: State): nat {
    12 * Backlog(s.queue) + Ranks(s.workers) + ControlRank(s.control) + if s.informing then 1 else 0
  }

  /** The steps that lead to the end: those of the workers and of the main goroutine, and the
      end of the informer. */
  predicate IsOwnStep(e: Event) {
    IsWorkerEvent(e) || IsMainEvent(e) || e.StopInformer?
  }

  lemma {:induction false} RanksUpdate(ws: seq<Pc>, w: nat, pc: Pc)
    requires w < |ws|
    ensures Ranks(ws[w := pc]) == Ranks(ws) - Rank(ws[w]) + Rank(pc)
  {
    var n := |ws| - 1;
    if w == n {
      assert ws[w := pc][..n] == ws[..n];
    } else {
      assert ws[w := pc][..n] == ws[..n][w := pc];
      RanksUpdate(ws[..n], w, pc);
    }
  }

  /** After ShutDown nothing enters the queue any more: Get and Done shrink the backlog, even
      of keys that keep failing, and every other step of the program brings it closer to the end. */
  lemma {:induction false} ShutdownStep(s: State, e: Event)
    requires Exclusive(s) && Counted(s) && s.queue.shuttingDown && Enabled(s, e)
    ensures Next(s, e).queue.shuttingDown
    ensures e.Take? || e.Finish? ==> Backlog(Next(s, e).queue) == Backlog(s.queue) - 1
    ensures !e.Take? && !e.Finish? ==> Backlog(Next(s, e).queue) == Backlog(s.queue)
    ensures if IsOwnStep(e) then Remaining(Next(s, e)) < Remaining(s) else Remaining(Next(s, e)) == Remaining(s)
  {
    if IsWorkerEvent(e) {
      WorkerShutdownStep(s, e);
    } else {
      OutsideShutdownStep(s, e);
    }
  }

  lemma {:induction false} WorkerShutdownStep(s: State, e: Event)
    requires Exclusive(s) && Enabled(s, e) && IsWorkerEvent(e)
    ensures e.Take? || e.Finish? ==> Backlog(NextQueue(s, e)) == Backlog(s.queue) - 1
    ensures !e.Take? && !e.Finish? ==> Backlog(NextQueue(s, e)) == Backlog(s.queue)
    ensures Remaining(Next(s, e)) < Remaining(s)
  {
    QueueFrame(s, e);
    RanksUpdate(s.workers, e.w, NextPc(s, e));
    RankFalls(s, e);
    BacklogFalls(s, e);
  }

  lemma {:induction false} GetAndDoneBacklog(q: Queue, k: PodKey)
    ensures k in q.dirty && k !in q.processing ==> Backlog(Get(q, k)) == Backlog(q) - 1
    ensures k in q.processing ==> Backlog(Done(q, k)) == Backlog(q) - 1
  {
    if k in q.dirty {
      assert q.dirty == (q.dirty - {k}) + {k};
    }
    if k in q.processing {
      assert q.processing == (q.processing - {k}) + {k};
    }
  }

  lemma {:induction false} BacklogFalls(s: State, e: Event)
    requires Exclusive(s) && Enabled(s, e) && IsWorkerEvent(e)
    ensures e.Take? || e.Finish? ==> Backlog(NextQueue(s, e)) == Backlog(s.queue) - 1
    ensures !e.Take? && !e.Finish? ==> Backlog(NextQueue(s, e)) == Backlog(s.queue)
  {
    if e.Take? {
      GetAndDoneBacklog(s.queue, e.key);
    } else if e.Finish? {
      GetAndDoneBacklog(s.queue, s.workers[e.w].key);
    } else {
      QueueFrame(s, e);
    }
  }

  /** The main goroutine and the informer come closer to their ends; the world adds nothing. */
  lemma {:induction false} OutsideShutdownStep(s: State, e: Event)
    requires Counted(s) && s.queue.shuttingDown && Enabled(s, e) && !IsWorkerEvent(e)
    ensures var t := Next(s, e);
            && t.queue.shuttingDown && t.queue.dirty == s.queue.dirty && t.queue.processing == s.queue.processing
            && if IsOwnStep(e) then Remaining(t) < Remaining(s) else Remaining(t) == Remaining(s)
  {
    assert Next(s, e).workers == s.workers;
  }


  lemma {:induction false} RankFalls(s: State, e: Event)
    requires Enabled(s, e) && IsWorkerEvent(e)
    ensures !e.Take? && !e.Finish? ==> Rank(NextPc(s, e)) < Rank(s.workers[e.w])
    ensures e.Take? ==> Rank(NextPc(s, e)) == Rank(s.workers[e.w]) + 10
    ensures e.Finish? ==> Rank(NextPc(s, e)) < Rank(s.workers[e.w])
  {
  }

  function OwnSteps(events: seq<Event>): nat {
    if events == [] then 0 else (if IsOwnStep(events[0]) then 1 else 0) + OwnSteps(events[1..])
  }

  /** However a run goes on after ShutDown, the program takes no more than this many steps ... */
  lemma {:induction false} ShutdownTerminates(s: State, events: seq<Event>)
    requires Inv(s) && s.queue.shuttingDown && IsRun(s, events)
    ensures OwnSteps(events) + Remaining(After(s, events)) <= Remaining(s)
    ensures After(s, events).queue.shuttingDown
    decreases |events|
  {
    if events != [] {
      ShutdownStep(s, events[0]);
      StepKeepsInv(s, events[0]);
      ShutdownTerminates(Next(s, events[0]), events[1..]);
    }
  }

  /** ... a worker that has not exited can always take one ... */
  method WorkerStep(s: State, w: nat) returns (e: Event)
    requires Inv(s) && s.queue.shuttingDown && w < |s.workers| && !s.workers[w].Exited?
    ensures IsWorkerEvent(e) && e.w == w && Enabled(s, e)
  {
    match s.workers[w]
    case Waiting =>
      if Available(s.queue) == {} {
        e := Exit(w);
      } else {
        var k :| k in Available(s.queue);
        e := Take(w, k);
      }
    case Got(_) => e := Load(w);
    case Loaded(_, _) => e := Check(w);
    case Jittering(_, _) => e := Jitter(w, false);
    case ReadingSerials(_, _) => e := Read(w, ReadFailed);
    case Labeling(_, _) => e := Label(w, false);
    case Identifying(_, _) => e := Identify(w, None);
    case Exporting(_, _, _) => e := Send(w, false);
    case Exported(_, _) => e := Mark(w);
    case Ending(_, _, _) => e := Conclude(w);
    case Closing(_) => e := Finish(w);
  }

  /** ... and so can the program as a whole until the exporter is closed: nothing waits for ever. */
  method ShutdownProgress(s: State) returns (e: Event)
    requires Inv(s) && s.queue.shuttingDown && !s.control.Closed?
    ensures IsOwnStep(e) && Enabled(s, e)
  {
    if w :| 0 <= w < |s.workers| && !s.workers[w].Exited? {
      e := WorkerStep(s, w);
      return;
    }
    NoneIn(s.workers, Running);
    NothingHeld(s);
    match s.control
    case Draining => e := StopAll;
    case Joining => e := if s.informing then StopInformer else Return;
    case Returned => e := Close;
  }

  lemma {:induction false} NoneIn(ws: seq<Pc>, f: Pc -> bool)
    requires forall w :: 0 <= w < |ws| ==> !f(ws[w])
    ensures CountIf(ws, f) == 0
  {
    if ws != [] {
      NoneIn(ws[..|ws| - 1], f);
    }
  }

  lemma {:induction false} WorkersStay(s: State, events: seq<Event>)
    requires IsRun(s, events)
    ensures |After(s, events).workers| == |s.workers|
    decreases |events|
  {
    if events != [] {
      WorkersStay(Next(s, events[0]), events[1..]);
    }
  }

  /** The WaitGroup is exact: at every moment it counts the workers that have not exited and the
      informer, so wg.Wait returns when they have ended and not before. */
  lemma {:induction false} WaitGroupIsExact(n: nat, start: int, events: seq<Event>)
    requires IsRun(Initial(n, start), events)
    ensures var s := After(Initial(n, start), events);
            && s.waitGroup == CountIf(s.workers, Running) + (if s.informing then 1 else 0)
            && (s.waitGroup == 0 <==> AllExited(s) && !s.informing)
  {
    InitialInv(n, start);
    RunKeepsInv(Initial(n, start), events);
    var s := After(Initial(n, start), events);
    if s.waitGroup == 0 {
      NoneRunning(s);
    }
    if AllExited(s) {
      NoneIn(s.workers, Running);
    }
  }

  /** When the exporter is closed, every goroutine has ended, and the workers have left nothing
      in the queue and nothing half done: no key waits, and no key is being processed. */
  lemma {:induction false} ClosedWhenDrained(n: nat, start: int, events: seq<Event>)
    requires n > 0 && IsRun(Initial(n, start), events)
    ensures var s := After(Initial(n, start), events);
            s.control.Closed? ==> AllExited(s) && !s.informing && s.queue.dirty == {} && s.queue.processing == {}
  {
    InitialInv(n, start);
    RunKeepsInv(Initial(n, start), events);
    WorkersStay(Initial(n, start), events);
    var s := After(Initial(n, start), events);
    if s.control.Closed? {
      ReturnedMeansExited(s);
      NothingHeld(s);
    }
  }

  /** Once wg.Wait has returned, no worker takes a step. */
  lemma {:induction false} NothingAfterReturn(s: State, events: seq<Event>)
    requires Counted(s) && (s.control.Returned? || s.control.Closed?) && IsRun(s, events)
    ensures forall i :: 0 <= i < |events| ==> !IsWorkerEvent(events[i])
    ensures After(s, events).ledger.history.exports == s.ledger.history.exports
    decreases |events|
  {
    if events != [] {
      ReturnedMeansExited(s);
      StepKeepsCounted(s, events[0]);
      NothingAfterReturn(Next(s, events[0]), events[1..]);
      assert forall i :: 0 < i < |events| ==> events[i] == events[1..][i - 1];
    }
  }

  /** The exporter is closed after the last export of every worker: however a run goes on from
      a state in which it is closed, there is no further step of a worker and no further export. */
  lemma {:induction false} NoExportAfterClose(n: nat, start: int, before: seq<Event>, after: seq<Event>)
    requires IsRun(Initial(n, start), before) && After(Initial(n, start), before).control.Closed?
    requires IsRun(After(Initial(n, start), before), after)
    ensures forall i :: 0 <= i < |after| ==> !IsWorkerEvent(after[i])
    ensures var closed := After(Initial(n, start), before);
            After(closed, after).ledger.history.exports == closed.ledger.history.exports
  {
    InitialInv(n, start);
    RunKeepsInv(Initial(n, start), before);
    NothingAfterReturn(After(Initial(n, start), before), after);
  }

  // ---------------------------------------------------------------------------------------
  // The drain.
  // ---------------------------------------------------------------------------------------

  /** The key waits in the queue, or a worker holds it and has not concluded it yet. */
  ghost predicate Owed(s: State, k: PodKey) {
    k in s.queue.dirty || exists w :: 0 <= w < |s.workers| && Concluding(s.workers[w], k)
  }

  predicate Concluding(pc: Pc, k: PodKey) {
    Holding(pc) && !pc.Closing? && pc.key == k
  }

  /** Only Conclude settles a key, and it writes down which one. */
  lemma {:induction false} OwedMoves(s: State, e: Event, k: PodKey)
    requires Owed(s, k) && Enabled(s, e)
    ensures Owed(Next(s, e), k) || (e.Conclude? && s.workers[e.w].key == k)
  {
    if IsWorkerEvent(e) {
      WorkerOwedMoves(s, e, k);
    } else {
      assert Next(s, e).workers == s.workers && s.queue.dirty <= Next(s, e).queue.dirty;
    }
  }

  lemma {:induction false} ConcludingMoves(s: State, e: Event, k: PodKey)
    requires Enabled(s, e) && IsWorkerEvent(e)
    ensures Concluding(s.workers[e.w], k) ==> Concluding(NextPc(s, e), k) || e.Conclude?
    ensures e.Take? && e.key == k ==> Concluding(NextPc(s, e), k)
  {
  }

  lemma {:induction false} WorkerOwedMoves(s: State, e: Event, k: PodKey)
    requires Owed(s, k) && Enabled(s, e) && IsWorkerEvent(e)
    ensures Owed(Next(s, e), k) || (e.Conclude? && s.workers[e.w].key == k)
  {
    var t := Next(s, e);
    QueueFrame(s, e);
    ConcludingMoves(s, e, k);
    assert t.workers[e.w] == NextPc(s, e);
    if k !in s.queue.dirty {
      var w :| 0 <= w < |s.workers| && Concluding(s.workers[w], k);
      if w != e.w {
        assert Concluding(t.workers[w], k);
      }
    }
  }

  /** Outcomes are only added. */
  lemma {:induction false} OutcomesKept(s: State, events: seq<Event>)
    requires IsRun(s, events)
    ensures s.ledger.history.outcomes <= After(s, events).ledger.history.outcomes
    decreases |events|
  {
    if events != [] {
      OutcomesGrow(s, events[0]);
      OutcomesKept(Next(s, events[0]), events[1..]);
    }
  }

  lemma {:induction false} OutcomesGrow(s: State, e: Event)
    requires Enabled(s, e)
    ensures s.ledger.history.outcomes <= Next(s, e).ledger.history.outcomes
    ensures e.Conclude? ==>
              var pc, now := s.workers[e.w], Next(s, e).ledger.history.outcomes;
              |now| == |s.ledger.history.outcomes| + 1 && now[|now| - 1] == (pc.key, pc.result.Transient?)
  {
    if IsWorkerEvent(e) {
      OutcomeOf(s, e);
    }
  }

  /** The outcome of a key that was owed in state `s`. */
  ghost predicate ConcludedSince(s: State, end: State, k: PodKey) {
    var was, now := s.ledger.history.outcomes, end.ledger.history.outcomes;
    exists m :: |was| <= m < |now| && now[m].0 == k
  }

  lemma {:induction false} OwedIsConcluded(s: State, events: seq<Event>, k: PodKey)
    requires IsRun(s, events) && Owed(s, k) && !Owed(After(s, events), k)
    ensures ConcludedSince(s, After(s, events), k)
    decreases |events|
  {
    if events != [] {
      var t, end := Next(s, events[0]), After(s, events);
      OutcomesGrow(s, events[0]);
      OutcomesKept(t, events[1..]);
      if Owed(t, k) {
        OwedIsConcluded(t, events[1..], k);
        var was, now := t.ledger.history.outcomes, end.ledger.history.outcomes;
        var m :| |was| <= m < |now| && now[m].0 == k;
        assert |s.ledger.history.outcomes| <= m;
      } else {
        OwedMoves(s, events[0], k);
        var m := |s.ledger.history.outcomes|;
        assert end.ledger.history.outcomes[m] == t.ledger.history.outcomes[m];
      }
    }
  }

  /** The drain does its work: every key that waits in the queue or is being worked on, at any
      time of a run that reaches the close of the exporter, has had its Forget or AddRateLimited
      before the close. */
  lemma {:induction false} DrainConcludes(n: nat, start: int, before: seq<Event>, after: seq<Event>, k: PodKey)
    requires n > 0 && IsRun(Initial(n, start), before) && IsRun(After(Initial(n, start), before), after)
    requires After(After(Initial(n, start), before), after).control.Closed?
    requires Owed(After(Initial(n, start), before), k)
    ensures var s := After(Initial(n, start), before); ConcludedSince(s, After(s, after), k)
  {
    var s := After(Initial(n, start), before);
    var end := After(s, after);
    InitialInv(n, start);
    RunKeepsInv(Initial(n, start), before);
    RunKeepsInv(s, after);
    WorkersStay(Initial(n, start), before);
    WorkersStay(s, after);
    ReturnedMeansExited(end);
    OwedIsConcluded(s, after, k);
  }

  // ---------------------------------------------------------------------------------------
  // What a worker does with a key.
  // ---------------------------------------------------------------------------------------

  /** The steps of worker `w` since it got the key it holds. */
  function Trace(events: seq<Event>, w: nat): seq<Event> {
    if events == [] then []
    else
      var e := events[|events| - 1];
      var before := Trace(events[..|events| - 1], w);
      if !IsStepOf(e, w) then before else if e.Take? then [e] else before + [e]
  }

  /** The way from the queue to the labelled node. */
  function Way(w: nat, key: PodKey): seq<Event> {
    [Take(w, key), Load(w), Check(w), Jitter(w, false), Read(w, ReadSerials), Label(w, true)]
  }

  /** From there to the backend. */
  function Exports(w: nat, key: PodKey, identifier: string): seq<Event> {
    Way(w, key) + [Identify(w, Some(identifier))]
  }

  /** The ways in which `processPod`, or `do` before it, ends without error: the pod is gone, there is
      nothing to do, there are no GPUs, or the pod has been exported and recorded. */
  ghost predicate EndsFine(trace: seq<Event>, w: nat, key: PodKey) {
    || trace == Way(w, key)[..2]
    || trace == Way(w, key)[..3]
    || trace == Way(w, key)[..4] + [Read(w, ReadNothing)]
    || exists identifier :: trace == Exports(w, key, identifier) + [Send(w, true), Mark(w)]
  }

  /** The ways in which it fails and is to be tried again: reading, labelling, the lookup of the machine
      or the export has failed. */
  ghost predicate EndsTransient(trace: seq<Event>, w: nat, key: PodKey) {
    || trace == Way(w, key)[..4] + [Read(w, ReadFailed)]
    || trace == Way(w, key)[..5] + [Label(w, false)]
    || trace == Way(w, key) + [Identify(w, None)]
    || exists identifier :: trace == Exports(w, key, identifier) + [Send(w, false)]
  }

  /** Where a worker is tells what it has done with its key. */
  ghost predicate HasCome(pc: Pc, trace: seq<Event>, w: nat) {
    match pc
    case Waiting => true
    case Exited => true
    case Closing(_) => true
    case Got(key) => trace == Way(w, key)[..1]
    case Loaded(key, _) => trace == Way(w, key)[..2]
    case Jittering(key, pod) => trace == Way(w, key)[..3] && Ready(pod)
    case ReadingSerials(key, pod) => trace == Way(w, key)[..4] && Ready(pod)
    case Labeling(key, pod) => trace == Way(w, key)[..5] && Ready(pod)
    case Identifying(key, pod) => trace == Way(w, key) && Ready(pod)
    case Exporting(key, pod, identifier) => trace == Exports(w, key, identifier) && Ready(pod)
    case Exported(key, pod) => Ready(pod) && exists identifier :: trace == Exports(w, key, identifier) + [Send(w, true)]
    case Ending(key, _, result) =>
      match result
      case Fine => EndsFine(trace, w, key)
      case Transient => EndsTransient(trace, w, key)
      case Cancelled => trace == Way(w, key)[..3] + [Jitter(w, true)]
  }

  lemma {:induction false} WayGrows(w: nat, key: PodKey, i: nat)
    requires i < 6
    ensures |Way(w, key)| == 6 && Way(w, key)[..i + 1] == Way(w, key)[..i] + [Way(w, key)[i]]
    ensures Way(w, key)[..6] == Way(w, key)
  {
  }

  /** From the queue to the read of the serials. */
  lemma {:induction false} EarlyStep(s: State, e: Event, trace: seq<Event>)
    requires Enabled(s, e) && (e.Load? || e.Check? || e.Jitter? || e.Read?)
    requires HasCome(s.workers[e.w], trace, e.w)
    ensures HasCome(NextPc(s, e), trace + [e], e.w)
  {
    var key := s.workers[e.w].key;
    match e
    case Load(w) => WayGrows(w, key, 1);
    case Check(w) => WayGrows(w, key, 2);
    case Jitter(w, _) => WayGrows(w, key, 3);
    case Read(w, _) => WayGrows(w, key, 4);
  }

  /** From the labels to the record. */
  lemma {:induction false} LateStep(s: State, e: Event, trace: seq<Event>)
    requires Enabled(s, e) && (e.Label? || e.Identify? || e.Send? || e.Mark?)
    requires HasCome(s.workers[e.w], trace, e.w)
    ensures HasCome(NextPc(s, e), trace + [e], e.w)
  {
    var pc := s.workers[e.w];
    match e
    case Label(w, _) => WayGrows(w, pc.key, 5);
    case Identify(w, identifier) =>
      if identifier.Some? {
        assert trace + [e] == Exports(w, pc.key, identifier.value);
      }
    case Send(w, ok) => assert trace + [e] == Exports(w, pc.key, pc.identifier) + [Send(w, ok)];
    case Mark(w) =>
      var identifier :| trace == Exports(w, pc.key, identifier) + [Send(w, true)];
      assert trace + [e] == Exports(w, pc.key, identifier) + [Send(w, true), Mark(w)];
  }

  lemma {:induction false} TakeStep(s: State, e: Event)
    requires Enabled(s, e) && e.Take?
    ensures HasCome(NextPc(s, e), [e], e.w)
  {
    assert Way(e.w, e.key)[..1] == [e];
  }

  lemma {:induction false} LastSteps(s: State, e: Event, trace: seq<Event>)
    requires Enabled(s, e) && (e.Conclude? || e.Finish? || e.Exit?)
    ensures HasCome(NextPc(s, e), trace, e.w)
  {
  }

  lemma {:induction false} StepComes(s: State, e: Event, trace: seq<Event>)
    requires Enabled(s, e) && IsWorkerEvent(e) && HasCome(s.workers[e.w], trace, e.w)
    ensures HasCome(NextPc(s, e), if e.Take? then [e] else trace + [e], e.w)
  {
    if e.Take? {
      TakeStep(s, e);
    } else if e.Load? || e.Check? || e.Jitter? || e.Read? {
      EarlyStep(s, e, trace);
    } else if e.Label? || e.Identify? || e.Send? || e.Mark? {
      LateStep(s, e, trace);
    } else {
      LastSteps(s, e, trace + [e]);
    }
  }

  /** In every run, where a worker is tells exactly what it has done since it got its key: only a ready
      pod gets past the check; nothing is exported that was not read, labelled and looked up first, in
      this order; a UID is recorded after its export or its empty read; and it is the failures of
      reading, labelling, lookup and export that are tried again. */
  lemma {:induction false} WorkersFollowTheWay(n: nat, start: int, events: seq<Event>, w: nat)
    requires IsRun(Initial(n, start), events) && w < n
    ensures w < |After(Initial(n, start), events).workers|
    ensures HasCome(After(Initial(n, start), events).workers[w], Trace(events, w), w)
    decreases |events|
  {
    if events != [] {
      var m := |events| - 1;
      var before, e := events[..m], events[m];
      RunSplits(Initial(n, start), before, events);
      WorkersFollowTheWay(n, start, before, w);
      OneStepLeft(After(Initial(n, start), before), events[m..], e);
      LastStepComes(After(Initial(n, start), before), e, w, Trace(before, w));
    }
  }

  lemma {:induction false} OneStepLeft(s: State, events: seq<Event>, e: Event)
    requires events == [e] && IsRun(s, events)
    ensures Enabled(s, e) && After(s, events) == Next(s, e)
  {
    assert events[0] == e && events[1..] == [];
    assert After(Next(s, e), []) == Next(s, e);
  }

  lemma {:induction false} LastStepComes(s: State, e: Event, w: nat, trace: seq<Event>)
    requires Enabled(s, e) && w < |s.workers| && HasCome(s.workers[w], trace, w)
    ensures w < |Next(s, e).workers|
    ensures HasCome(Next(s, e).workers[w], if !IsStepOf(e, w) then trace else if e.Take? then [e] else trace + [e], w)
  {
    if IsStepOf(e, w) {
      StepComes(s, e, trace);
      assert Next(s, e).workers[w] == NextPc(s, e);
    } else {
      assert Next(s, e).workers[w] == s.workers[w];
    }
  }

  predicate IsSuccess(e: Event) {
    e.Send? && e.ok
  }

  /** What counts as a failure: a failed read, labelling, lookup or export, and an empty machine name. */
  predicate IsFailure(e: Event) {
    || (e.Read? && e.reply == ReadFailed)
    || (e.Label? && !e.ok)
    || (e.Identify? && (e.identifier == None || e.identifier == Some("")))
    || (e.Send? && !e.ok)
  }

  /** What records a UID: a finished export, and a pod without GPUs. */
  predicate IsRecord(e: Event) {
    e.Mark? || (e.Read? && e.reply == ReadNothing)
  }

  function CountEvents(events: seq<Event>, f: Event -> bool): nat {
    if events == [] then 0 else (if f(events[0]) then 1 else 0) + CountEvents(events[1..], f)
  }

  lemma {:induction false} StepCounts(s: State, e: Event)
    requires Enabled(s, e)
    ensures var l, m := s.ledger, Next(s, e).ledger;
            && m.success == l.success + (if IsSuccess(e) then 1 else 0)
            && m.failure == l.failure + (if IsFailure(e) then 1 else 0)
            && m.history.adds == l.history.adds + (if IsRecord(e) then 1 else 0)
  {
    if IsWorkerEvent(e) {
      WorkerCounts(s, e);
    }
  }

  lemma {:induction false} WorkerCounts(s: State, e: Event)
    requires Enabled(s, e) && IsWorkerEvent(e)
    ensures var l, m := s.ledger, NextLedger(s, e);
            && m.success == l.success + (if IsSuccess(e) then 1 else 0)
            && m.failure == l.failure + (if IsFailure(e) then 1 else 0)
            && m.history.adds == l.history.adds + (if IsRecord(e) then 1 else 0)
  {
  }

  /** The counters count these steps of a run, and no others. */
  lemma {:induction false} CountersCountEvents(s: State, events: seq<Event>)
    requires IsRun(s, events)
    ensures var l, m := s.ledger, After(s, events).ledger;
            && m.success == l.success + CountEvents(events, IsSuccess)
            && m.failure == l.failure + CountEvents(events, IsFailure)
            && m.history.adds == l.history.adds + CountEvents(events, IsRecord)
    decreases |events|
  {
    if events != [] {
      StepCounts(s, events[0]);
      CountersCountEvents(Next(s, events[0]), events[1..]);
    }
  }
}
