/** The controller as a transition system: pod cache, notifications, work queue, workers,
    the set of processed UIDs, and shutdown. Every shared access of a worker is one step. */
module WorkerProtocol {
  import opened Text
  import opened UidCache
  import Export

  type PodKey = string

  /** What the program looks at in a pod object; `statuses` holds the Ready flags. */
  datatype Pod = Pod(key: PodKey, uid: Uid, node: string, running: bool, containers: nat, statuses: seq<bool>)

  /** `podReady`: running, every declared container has a status, and all statuses are ready. */
  predicate Ready(p: Pod) {
    p.running && |p.statuses| >= p.containers && forall i :: 0 <= i < |p.statuses| ==> p.statuses[i]
  }

  /** How `processPod` ends: without error, with an error marked for retry, or cancelled. */
  datatype Result = Fine | Transient | Cancelled

  /** Where a worker is. All but `Waiting` and `Exited` hold the key they got from the queue. */
  datatype Pc =
    | Waiting
    | Got(key: PodKey)
    | Loaded(key: PodKey, pod: Pod)
    | Jittering(key: PodKey, pod: Pod)
    | ReadingSerials(key: PodKey, pod: Pod)
    | Labeling(key: PodKey, pod: Pod)
    | Identifying(key: PodKey, pod: Pod)
    | Exporting(key: PodKey, pod: Pod, identifier: string)
    | Exported(key: PodKey, pod: Pod)
    | Ending(key: PodKey, read: Option<Pod>, result: Result)
    | Closing(key: PodKey)
    | Exited

  predicate Holding(pc: Pc) {
    !pc.Waiting? && !pc.Exited?
  }

  /** The rate-limiting queue of client-go: the keys to do, the keys being done, the keys
      waiting out a delay, and the number of failures in a row of each key. */
  datatype Queue = Queue(dirty: set<PodKey>, processing: set<PodKey>, delayed: set<PodKey>,
                         limiter: map<PodKey, nat>, shuttingDown: bool)

  function Add(q: Queue, k: PodKey): Queue {
    if q.shuttingDown then q else q.(dirty := q.dirty + {k})
  }

  /** The keys that Get may hand out. */
  function Available(q: Queue): set<PodKey> {
    q.dirty - q.processing
  }

  function Get(q: Queue, k: PodKey): Queue {
    q.(dirty := q.dirty - {k}, processing := q.processing + {k})
  }

  function Done(q: Queue, k: PodKey): Queue {
    q.(processing := q.processing - {k})
  }

  function Failures(q: Queue, k: PodKey): nat {
    if k in q.limiter then q.limiter[k] else 0
  }

  function AddRateLimited(q: Queue, k: PodKey): Queue {
    q.(limiter := q.limiter[k := Failures(q, k) + 1], delayed := if q.shuttingDown then q.delayed else q.delayed + {k})
  }

  function Forget(q: Queue, k: PodKey): Queue {
    q.(limiter := q.limiter - {k})
  }

  /** What an observer writes down: the successful exports, the last addition of every UID,
      and how often things happened. `outcomes` lists the Forget and AddRateLimited calls. */
  datatype History = History(exports: seq<(Uid, int)>, lastAdded: map<Uid, int>, adds: nat, empties: nat,
                             rateLimited: nat, blankIds: nat, outcomes: seq<(PodKey, bool)>)

  /** The process-wide `processed` set and the two counters, with the history beside them. */
  datatype Ledger = Ledger(processed: map<Uid, int>, success: nat, failure: nat, history: History)

  /** Where the goroutine of `Run` and `runController` is, once the workers are started: waiting
      for the signal, in ShutDownWithDrain, in wg.Wait, back in `Run`, past the exporter's Close. */
  datatype Control = Serving | Draining | Joining | Returned | Closed

  /** `home` records the pod name each UID was seen under; Kubernetes never reuses a UID.
      `waitGroup` is the counter of the WaitGroup that the informer and the workers run in. */
  datatype State = State(indexer: map<PodKey, Pod>, notes: seq<Pod>, home: map<Uid, PodKey>, queue: Queue,
                         workers: seq<Pc>, ledger: Ledger, now: int, cancelled: bool,
                         informing: bool, waitGroup: int, control: Control)

  datatype ReadReply = ReadFailed | ReadNothing | ReadSerials

  datatype Event =
    // the informer
    | Update(pod: Pod)
    | Delete(key: PodKey)
    | Resync(key: PodKey)
    | Deliver
    | StopInformer
    // clocks and timers
    | Tick(to: int)
    | Sweep
    | Fire(key: PodKey)
    // the signal
    | Cancel
    // the main goroutine: ShutDownWithDrain begins and ends, wg.Wait ends, the exporter is closed
    | ShutDown
    | StopAll
    | Return
    | Close
    // worker w
    | Take(w: nat, key: PodKey)
    | Load(w: nat)
    | Check(w: nat)
    | Jitter(w: nat, interrupted: bool)
    | Read(w: nat, reply: ReadReply)
    | Label(w: nat, ok: bool)
    | Identify(w: nat, identifier: Option<string>)
    | Send(w: nat, ok: bool)
    | Mark(w: nat)
    | Conclude(w: nat)
    | Finish(w: nat)
    | Exit(w: nat)

  predicate IsWorkerEvent(e: Event) {
    e.Take? || e.Load? || e.Check? || e.Jitter? || e.Read? || e.Label? || e.Identify? || e.Send? || e.Mark? ||
    e.Conclude? || e.Finish? || e.Exit?
  }

  predicate IsMainEvent(e: Event) {
    e.ShutDown? || e.StopAll? || e.Return? || e.Close?
  }

  predicate WorkerCan(s: State, e: Event)
    requires IsWorkerEvent(e) && e.w < |s.workers|
  {
    var pc := s.workers[e.w];
    match e
    case Take(_, key) => pc.Waiting? && key in Available(s.queue)
    case Load(_) => pc.Got?
    case Check(_) => pc.Loaded?
    case Jitter(_, interrupted) => pc.Jittering? && (interrupted ==> s.cancelled)
    case Read(_, _) => pc.ReadingSerials?
    case Label(_, _) => pc.Labeling?
    case Identify(_, _) => pc.Identifying?
    // an export without a machine name is refused before it reaches the backend
    case Send(_, ok) => pc.Exporting? && (ok ==> !Export.Blank(pc.identifier))
    case Mark(_) => pc.Exported?
    case Conclude(_) => pc.Ending?
    case Finish(_) => pc.Closing?
    case Exit(_) => pc.Waiting? && s.queue.shuttingDown && Available(s.queue) == {}
  }

  predicate Enabled(s: State, e: Event) {
    if IsWorkerEvent(e) then e.w < |s.workers| && WorkerCan(s, e)
    else
      match e
      case Update(pod) => s.informing && (pod.uid in s.home ==> s.home[pod.uid] == pod.key)
      case Delete(key) => s.informing && key in s.indexer
      case Resync(key) => s.informing && key in s.indexer
      case Deliver => s.informing && s.notes != []
      // `stopCh` is closed when ShutDownWithDrain has returned
      case StopInformer => s.informing && !s.control.Serving? && !s.control.Draining?
      case Tick(to) => s.now <= to
      case Fire(key) => key in s.queue.delayed
      case ShutDown => s.control.Serving? && s.cancelled
      case StopAll => s.control.Draining? && s.queue.processing == {}
      case Return => s.control.Joining? && s.waitGroup == 0
      case Close => s.control.Returned?
      case _ => true
  }

  /** `processed.Add`. */
  function AddUid(l: Ledger, uid: Uid, now: int): Ledger {
    l.(processed := l.processed[uid := now],
       history := l.history.(lastAdded := l.history.lastAdded[uid := now], adds := l.history.adds + 1))
  }

  /** `counterErr.Increment`. */
  function Fail(l: Ledger): Ledger {
    l.(failure := l.failure + 1)
  }

  /** Where a worker goes: the control flow of `do` and `processPod`. */
  function NextPc(s: State, e: Event): Pc
    requires IsWorkerEvent(e) && e.w < |s.workers| && WorkerCan(s, e)
  {
    var pc := s.workers[e.w];
    match e
    case Take(_, key) => Got(key)
    case Load(_) => if pc.key in s.indexer then Loaded(pc.key, s.indexer[pc.key]) else Ending(pc.key, None, Fine)
    case Check(_) =>
      if !Ready(pc.pod) || HasIn(s.ledger.processed, pc.pod.uid, s.now) then Ending(pc.key, Some(pc.pod), Fine)
      else Jittering(pc.key, pc.pod)
    case Jitter(_, interrupted) =>
      if interrupted then Ending(pc.key, Some(pc.pod), Cancelled) else ReadingSerials(pc.key, pc.pod)
    case Read(_, reply) => (
      match reply
      case ReadFailed => Ending(pc.key, Some(pc.pod), Transient)
      case ReadNothing => Ending(pc.key, Some(pc.pod), Fine)
      case ReadSerials => Labeling(pc.key, pc.pod))
    case Label(_, ok) => if ok then Identifying(pc.key, pc.pod) else Ending(pc.key, Some(pc.pod), Transient)
    case Identify(_, identifier) =>
      if identifier.Some? then Exporting(pc.key, pc.pod, identifier.value) else Ending(pc.key, Some(pc.pod), Transient)
    case Send(_, ok) => if ok then Exported(pc.key, pc.pod) else Ending(pc.key, Some(pc.pod), Transient)
    case Mark(_) => Ending(pc.key, Some(pc.pod), Fine)
    case Conclude(_) => Closing(pc.key)
    case Finish(_) => Waiting
    case Exit(_) => Exited
  }

  /** What a worker does to the queue. */
  function NextQueue(s: State, e: Event): Queue
    requires IsWorkerEvent(e) && e.w < |s.workers| && WorkerCan(s, e)
  {
    var pc := s.workers[e.w];
    match e
    case Take(_, key) => Get(s.queue, key)
    case Conclude(_) => if pc.result.Transient? then AddRateLimited(s.queue, pc.key) else Forget(s.queue, pc.key)
    case Finish(_) => Done(s.queue, pc.key)
    case _ => s.queue
  }

  /** What a worker does to the processed set and the counters. */
  function NextLedger(s: State, e: Event): Ledger
    requires IsWorkerEvent(e) && e.w < |s.workers| && WorkerCan(s, e)
  {
    var pc, l := s.workers[e.w], s.ledger;
    match e
    case Read(_, reply) => (
      match reply
      case ReadFailed => Fail(l)
      case ReadNothing =>
        var added := AddUid(l, pc.pod.uid, s.now);
        added.(history := added.history.(empties := l.history.empties + 1))
      case ReadSerials => l)
    case Label(_, ok) => if ok then l else Fail(l)
    case Identify(_, identifier) =>
      if identifier.None? then Fail(l)
      else if identifier.value == "" then Fail(l.(history := l.history.(blankIds := l.history.blankIds + 1)))
      else l
    case Send(_, ok) =>
      if ok then
        l.(success := l.success + 1,
           history := l.history.(exports := l.history.exports + [(pc.pod.uid, s.now)]))
      else Fail(l)
    case Mark(_) => AddUid(l, pc.pod.uid, s.now)
    case Conclude(_) =>
      var retry := pc.result.Transient?;
      l.(history := l.history.(outcomes := l.history.outcomes + [(pc.key, retry)],
                               rateLimited := l.history.rateLimited + if retry then 1 else 0))
    case _ => l
  }

  function WorkerNext(s: State, e: Event): State
    requires IsWorkerEvent(e) && e.w < |s.workers| && WorkerCan(s, e)
  {
    s.(workers := s.workers[e.w := NextPc(s, e)], queue := NextQueue(s, e), ledger := NextLedger(s, e),
       waitGroup := if e.Exit? then s.waitGroup - 1 else s.waitGroup)
  }

  function Next(s: State, e: Event): State
    requires Enabled(s, e)
  {
    if IsWorkerEvent(e) then WorkerNext(s, e)
    else
      match e
      case Update(pod) =>
        s.(indexer := s.indexer[pod.key := pod], notes := s.notes + [pod], home := s.home[pod.uid := pod.key])
      case Delete(key) => s.(indexer := s.indexer - {key})
      case Resync(key) => s.(notes := s.notes + [s.indexer[key]])
      // enqueueIfReady
      case Deliver =>
        s.(notes := s.notes[1..],
           queue := if Ready(s.notes[0]) then Add(s.queue, s.notes[0].key) else s.queue)
      case Tick(to) => s.(now := to)
      case Sweep => s.(ledger := s.ledger.(processed := Swept(s.ledger.processed, s.now)))
      case Fire(key) => s.(queue := Add(s.queue.(delayed := s.queue.delayed - {key}), key))
      case StopInformer => s.(informing := false, waitGroup := s.waitGroup - 1)
      case Cancel => s.(cancelled := true)
      case ShutDown => s.(queue := s.queue.(shuttingDown := true), control := Draining)
      case StopAll => s.(control := Joining)
      case Return => s.(control := Returned)
      case Close => s.(control := Closed)
  }

  /** The informer and the workers have been started. */
  function Initial(n: nat, now: int): State {
    State(map[], [], map[], Queue({}, {}, {}, map[], false), seq(n, _ => Waiting),
          Ledger(map[], 0, 0, History([], map[], 0, 0, 0, 0, [])), now, false, true, n + 1, Serving)
  }

  predicate IsRun(s: State, events: seq<Event>)
    decreases |events|
  {
    events == [] || (Enabled(s, events[0]) && IsRun(Next(s, events[0]), events[1..]))
  }

  function After(s: State, events: seq<Event>): State
    requires IsRun(s, events)
    decreases |events|
  {
    if events == [] then s else After(Next(s, events[0]), events[1..])
  }

  /** A run goes on with one more step. */
  lemma {:induction false} RunAppend(s: State, events: seq<Event>, e: Event)
    requires IsRun(s, events) && Enabled(After(s, events), e)
    ensures IsRun(s, events + [e]) && After(s, events + [e]) == Next(After(s, events), e)
    decreases |events|
  {
    if events == [] {
      assert [] + [e] == [e] && [e][0] == e && [e][1..] == [];
      assert IsRun(Next(s, e), []) && After(Next(s, e), []) == Next(s, e);
    } else {
      assert (events + [e])[0] == events[0] && (events + [e])[1..] == events[1..] + [e];
      RunAppend(Next(s, events[0]), events[1..], e);
    }
  }

  /** A run is a first part and what follows it. */
  lemma {:induction false} RunSplits(s: State, before: seq<Event>, events: seq<Event>)
    requires IsRun(s, events) && before <= events
    ensures IsRun(s, before) && IsRun(After(s, before), events[|before|..])
    ensures After(After(s, before), events[|before|..]) == After(s, events)
    decreases |before|
  {
    if before == [] {
      assert events[0..] == events;
    } else {
      assert events[0] == before[0] && before[1..] <= events[1..];
      assert events[1..][|before| - 1..] == events[|before|..];
      RunSplits(Next(s, before[0]), before[1..], events[1..]);
    }
  }

  predicate IsStepOf(e: Event, w: nat) {
    IsWorkerEvent(e) && e.w == w
  }

  /** While the others act, a worker stays where it is. */
  lemma {:induction false} OthersLeave(s: State, events: seq<Event>, w: nat)
    requires IsRun(s, events) && w < |s.workers|
    requires forall i :: 0 <= i < |events| ==> !IsStepOf(events[i], w)
    ensures w < |After(s, events).workers| && After(s, events).workers[w] == s.workers[w]
    decreases |events|
  {
    if events != [] {
      assert Next(s, events[0]).workers[w] == s.workers[w];
      OthersLeave(Next(s, events[0]), events[1..], w);
    }
  }

  // ---------------------------------------------------------------------------------------
  // Who holds what.
  // ---------------------------------------------------------------------------------------

  /** The pod a worker has read, if any. */
  function Snapshot(pc: Pc): Option<Pod> {
    match pc
    case Loaded(_, pod) => Some(pod)
    case Jittering(_, pod) => Some(pod)
    case ReadingSerials(_, pod) => Some(pod)
    case Labeling(_, pod) => Some(pod)
    case Identifying(_, pod) => Some(pod)
    case Exporting(_, pod, _) => Some(pod)
    case Exported(_, pod) => Some(pod)
    case Ending(_, read, _) => read
    case _ => None
  }

  ghost predicate AtHome(s: State, p: Pod) {
    p.uid in s.home && s.home[p.uid] == p.key
  }

  /** Every key being processed is held by exactly one worker, and what a worker has read
      belongs to the key it holds. */
  ghost predicate Exclusive(s: State) {
    && (forall v, w :: 0 <= v < w < |s.workers| && Holding(s.workers[v]) && Holding(s.workers[w]) ==>
          s.workers[v].key != s.workers[w].key)
    && (forall w :: 0 <= w < |s.workers| && Holding(s.workers[w]) ==> s.workers[w].key in s.queue.processing)
    && (forall k :: k in s.queue.processing ==> Held(s, k))
    && (forall k :: k in s.indexer ==> s.indexer[k].key == k && AtHome(s, s.indexer[k]))
    && (forall w :: 0 <= w < |s.workers| && Snapshot(s.workers[w]).Some? ==>
          var p := Snapshot(s.workers[w]).value; p.key == s.workers[w].key && AtHome(s, p))
  }

  ghost predicate Held(s: State, k: PodKey) {
    exists w :: 0 <= w < |s.workers| && Holding(s.workers[w]) && s.workers[w].key == k
  }

  /** How a step moves its worker: only Take picks up a key, only Finish puts it down. */
  lemma {:induction false} PcFrame(s: State, e: Event)
    requires Enabled(s, e) && IsWorkerEvent(e)
    ensures var pc, to := s.workers[e.w], NextPc(s, e);
            && (e.Take? ==> pc == Waiting && to == Got(e.key))
            && (e.Finish? ==> pc.Closing? && to == Waiting)
            && (!e.Take? && !e.Finish? ==> (Holding(pc) <==> Holding(to)) && (Holding(pc) ==> to.key == pc.key))
            && (Snapshot(to).Some? ==>
                  || Snapshot(to) == Snapshot(pc)
                  || (pc.Got? && pc.key in s.indexer && Snapshot(to) == Some(s.indexer[pc.key])))
  {
  }

  lemma {:induction false} QueueFrame(s: State, e: Event)
    requires Enabled(s, e) && IsWorkerEvent(e)
    ensures var q := NextQueue(s, e);
            && (e.Take? ==> e.key in s.queue.dirty && e.key !in s.queue.processing &&
                            q.processing == s.queue.processing + {e.key} && q.dirty == s.queue.dirty - {e.key})
            && (e.Finish? ==> q.processing == s.queue.processing - {s.workers[e.w].key} && q.dirty == s.queue.dirty)
            && (!e.Take? && !e.Finish? ==> q.processing == s.queue.processing && q.dirty == s.queue.dirty)
            && q.shuttingDown == s.queue.shuttingDown
            && s.queue.delayed <= q.delayed
  {
  }

  lemma {:induction false} WorkerKeepsHeld(s: State, e: Event, k: PodKey)
    requires Exclusive(s) && Enabled(s, e) && IsWorkerEvent(e)
    requires k in Next(s, e).queue.processing
    ensures Held(Next(s, e), k)
  {
    var t := Next(s, e);
    PcFrame(s, e);
    QueueFrame(s, e);
    if e.Take? && k == e.key {
      assert Holding(t.workers[e.w]) && t.workers[e.w].key == k;
    } else {
      assert Held(s, k);
      var v :| 0 <= v < |s.workers| && Holding(s.workers[v]) && s.workers[v].key == k;
      assert Holding(t.workers[v]) && t.workers[v].key == k;
    }
  }

  lemma {:induction false} WorkerKeepsExclusive(s: State, e: Event)
    requires Exclusive(s) && Enabled(s, e) && IsWorkerEvent(e)
    ensures Exclusive(Next(s, e))
  {
    forall k | k in Next(s, e).queue.processing
      ensures Held(Next(s, e), k)
    {
      WorkerKeepsHeld(s, e, k);
    }
    PcFrame(s, e);
    QueueFrame(s, e);
    ExclusiveFromFrame(s, Next(s, e), e.w);
  }

  /** Moving one worker, with its key, keeps everything exclusive. */
  lemma {:induction false} ExclusiveFromFrame(s: State, t: State, w: nat)
    requires Exclusive(s) && w < |s.workers| && |t.workers| == |s.workers| && t.workers == s.workers[w := t.workers[w]]
    requires t.indexer == s.indexer && t.home == s.home
    requires forall k :: k in t.queue.processing ==> Held(t, k)
    requires var pc, to := s.workers[w], t.workers[w];
             && (Holding(to) && !Holding(pc) ==>
                  to.key !in s.queue.processing && t.queue.processing == s.queue.processing + {to.key})
             && (Holding(to) && Holding(pc) ==> to.key == pc.key && t.queue.processing == s.queue.processing)
             && (!Holding(to) && Holding(pc) ==> t.queue.processing == s.queue.processing - {pc.key})
             && (!Holding(to) && !Holding(pc) ==> t.queue.processing == s.queue.processing)
             && (Snapshot(to).Some? ==> Holding(to))
             && (Snapshot(to).Some? ==>
                  || Snapshot(to) == Snapshot(pc)
                  || (Holding(pc) && pc.key in s.indexer && Snapshot(to) == Some(s.indexer[pc.key])))
    ensures Exclusive(t)
  {
    assert forall v :: 0 <= v < |s.workers| && v != w ==> t.workers[v] == s.workers[v];
  }

  lemma {:induction false} StepKeepsExclusive(s: State, e: Event)
    requires Exclusive(s) && Enabled(s, e)
    ensures Exclusive(Next(s, e))
  {
    if IsWorkerEvent(e) {
      WorkerKeepsExclusive(s, e);
    } else {
      WorldFrame(s, e);
      ExclusiveFromWorld(s, Next(s, e));
    }
  }

  /** The steps of the world leave workers and keys in processing alone; the cache changes only
      by pods that are at home. */
  lemma {:induction false} WorldFrame(s: State, e: Event)
    requires Exclusive(s) && Enabled(s, e) && !IsWorkerEvent(e)
    ensures var t := Next(s, e);
            && t.workers == s.workers && t.queue.processing == s.queue.processing
            && (forall p :: AtHome(s, p) ==> AtHome(t, p))
            && (forall k :: k in t.indexer ==> t.indexer[k].key == k && AtHome(t, t.indexer[k]))
  {
  }

  lemma {:induction false} ExclusiveFromWorld(s: State, t: State)
    requires Exclusive(s) && t.workers == s.workers && t.queue.processing == s.queue.processing
    requires forall p :: AtHome(s, p) ==> AtHome(t, p)
    requires forall k :: k in t.indexer ==> t.indexer[k].key == k && AtHome(t, t.indexer[k])
    ensures Exclusive(t)
  {
    forall k | k in t.queue.processing
      ensures Held(t, k)
    {
      assert Held(s, k);
    }
  }
}
