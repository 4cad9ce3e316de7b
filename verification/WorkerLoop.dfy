/** The goroutines as the program writes them: `podReady`, `processPod` and `do`, the event
    handler, and the end of `runController` and `Run`. Every shared access is matched by a step
    of the transition system, and the other goroutines act between any two of them. */
module WorkerLoop {
  import opened Text
  import opened UidCache
  import opened WorkerProtocol
  import opened WorkerTheorems
  import Grouping
  import Postgres
  import Sanitizer
  import Export

  /** `podReady`. */
  method PodReady(p: Pod) returns (ready: bool)
    ensures ready == Ready(p)
    ensures ready <==> p.running && |p.statuses| >= p.containers && false !in p.statuses
  {
    if !p.running {
      return false;
    }
    if |p.statuses| < p.containers {
      return false;
    }
    for i := 0 to |p.statuses|
      invariant forall j :: 0 <= j < i ==> p.statuses[j]
    {
      if !p.statuses[i] {
        assert false in p.statuses;
        return false;
      }
    }
    return true;
  }

  /** The goroutine whose code is being followed; all others are interference. */
  datatype Agent = Worker(w: nat) | Main

  predicate IsBy(e: Event, me: Agent) {
    match me
    case Worker(w) => IsStepOf(e, w)
    case Main => IsMainEvent(e)
  }

  /** These steps lead from the start of a process to this state. */
  ghost predicate LeadsTo(workers: nat, began: int, events: seq<Event>, s: State) {
    IsRun(Initial(workers, began), events) && After(Initial(workers, began), events) == s
  }

  /** The variables the goroutines of one process share, and beside them the process as the
      transition system sees it. The code below changes the variables and takes the matching
      steps; `Valid` says that the two agree and that the steps taken so far are a run. */
  class Controller {
    const processed: UidSet
    const workers: nat
    const began: int
    var indexer: map<PodKey, Pod>
    var notes: seq<Pod>
    var queue: Queue
    var success: nat
    var failure: nat
    var now: int
    var cancelled: bool
    var waitGroup: int
    var state: State
    ghost var run: seq<Event>
    /** `LeadsTo` as a value, which the solver does not unroll at every access to the heap. */
    ghost const leads: (seq<Event>, State) -> bool

    /** The steps taken so far are a run, and it ends here. */
    ghost predicate OnRun()
      reads this
    {
      && leads(run, state)
      && forall es, s {:trigger LeadsTo(workers, began, es, s)} :: leads(es, s) <==> LeadsTo(workers, began, es, s)
    }

    ghost predicate Valid()
      reads this, processed
    {
      && OnRun() && |state.workers| == workers
      && processed.Valid() && Until(processed.log, now)
      && state.indexer == indexer && state.notes == notes && state.queue == queue && state.now == now
      && state.cancelled == cancelled && state.waitGroup == waitGroup
      && state.ledger.processed == processed.m && state.ledger.success == success && state.ledger.failure == failure
    }

    constructor (workers: nat, now: int)
      ensures Valid() && fresh(processed) && this.workers == workers && began == now && run == []
    {
      processed := new UidSet();
      this.workers, began := workers, now;
      indexer, notes, queue, success, failure := map[], [], Queue({}, {}, {}, map[], false), 0, 0;
      this.now, cancelled, waitGroup := now, false, workers + 1;
      state, run := Initial(workers, now), [];
      leads := (es, s) => LeadsTo(workers, now, es, s);
    }

    /** Worker `w` is here, and everything agrees. */
    ghost predicate At(w: nat, pc: Pc)
      reads this, processed
    {
      Valid() && w < workers && state.workers[w] == pc
    }

    /** What has been proved of every run holds here. */
    lemma {:induction false} OnRunMeansInv()
      requires OnRun()
      ensures Inv(state)
    {
      assert LeadsTo(workers, began, run, state);
      InitialInv(workers, began);
      RunKeepsInv(Initial(workers, began), run);
    }

    method Step(e: Event)
      requires OnRun() && Enabled(state, e)
      modifies this`state, this`run
      ensures OnRun() && state == Next(old(state), e) && run == old(run) + [e]
    {
      assert LeadsTo(workers, began, run, state);
      RunAppend(Initial(workers, began), run, e);
      state, run := Next(state, e), run + [e];
      assert LeadsTo(workers, began, run, state);
    }

    /** A step of a worker, piece by piece. */
    method Move(e: Event)
      requires OnRun() && IsWorkerEvent(e) && Enabled(state, e)
      modifies this`state, this`run
      ensures OnRun() && run == old(run) + [e]
      ensures state.workers == old(state).workers[e.w := NextPc(old(state), e)]
      ensures state.queue == NextQueue(old(state), e)
      ensures state.ledger == NextLedger(old(state), e)
      ensures state.waitGroup == if e.Exit? then old(state).waitGroup - 1 else old(state).waitGroup
      ensures state.indexer == old(state).indexer && state.notes == old(state).notes
      ensures state.now == old(state).now && state.cancelled == old(state).cancelled
    {
      Step(e);
    }

    /** A step of some other goroutine, of the informer, or of the world outside. */
    method Play(e: Event)
      requires Valid() && Enabled(state, e)
      modifies this, processed
      ensures Valid() && state == Next(old(state), e) && run == old(run) + [e]
    {
      ProcessedNext(state, e);
      PlayOnSet(e, if Adds(e) then state.workers[e.w].pod.uid else "");
      Step(e);
      Refresh();
    }

    /** `processed.Add`. */
    method AddProcessed(uid: Uid)
      requires processed.Valid() && Until(processed.log, now)
      modifies processed
      ensures processed.Valid() && Until(processed.log, now)
      ensures processed.m == old(processed.m)[uid := now]
    {
      processed.Add(uid, now);
    }

    method PlayOnSet(e: Event, uid: Uid)
      requires processed.Valid() && Until(processed.log, now)
      modifies processed
      ensures processed.Valid() && Until(processed.log, now)
      ensures processed.m == if Adds(e) then old(processed.m)[uid := now]
                             else if e.Sweep? then Swept(old(processed.m), now)
                             else old(processed.m)
    {
      if Adds(e) {
        AddProcessed(uid);
      } else if e.Sweep? {
        processed.Sweep(now);
      }
    }

    /** The variables take the values the others have given them. */
    method Refresh()
      requires OnRun() && |state.workers| == workers
      requires processed.Valid() && Until(processed.log, state.now) && state.ledger.processed == processed.m
      modifies this
      ensures Valid() && state == old(state) && run == old(run)
    {
      indexer, notes, queue, now, cancelled, waitGroup :=
        state.indexer, state.notes, state.queue, state.now, state.cancelled, state.waitGroup;
      success, failure := state.ledger.success, state.ledger.failure;
    }

    /** Anything that is not a step of `me`, any number of times. */
    method Others(me: Agent)
      requires Valid()
      modifies this, processed
      ensures Valid() && old(run) <= run && Unmoved(this, me)
    {
      var n: nat :| true;
      for i := 0 to n
        invariant Valid() && old(run) <= run && Unmoved(this, me)
      {
        var e: Event := *;
        if Enabled(state, e) && !IsBy(e, me) {
          UnmovedNext(state, e, me);
          Play(e);
        }
      }
    }

    /** While the main goroutine sleeps, the scheduler lets some goroutine it waits for go on. */
    method SomebodyActs()
      requires Valid() && queue.shuttingDown && waitGroup != 0
      requires if state.control.Draining? then queue.processing != {} else state.control.Joining?
      modifies this, processed
      ensures Valid() && GoesOn(old(run), run) && Unmoved(this, Main)
    {
      var e := Schedule();
      UnmovedNext(state, e, Main);
      ghost var before := |run|;
      Play(e);
      assert IsOwnStep(run[before]);
    }

    /** Any step of a goroutine that the main goroutine waits for. There is one. */
    method Schedule() returns (e: Event)
      requires Valid() && queue.shuttingDown && waitGroup != 0
      requires if state.control.Draining? then queue.processing != {} else state.control.Joining?
      ensures Enabled(state, e) && IsOwnStep(e) && !IsMainEvent(e)
    {
      OnRunMeansInv();
      e := *;
      if !(Enabled(state, e) && IsOwnStep(e) && !IsMainEvent(e)) {
        if w: nat :| w < |state.workers| && !state.workers[w].Exited? {
          e := WorkerStep(state, w);
        } else {
          NoneIn(state.workers, Running);
          NothingHeld(state);
          e := StopInformer;
        }
      }
    }
  }

  /** The steps that add a UID to the processed set. */
  predicate Adds(e: Event) {
    e.Mark? || (e.Read? && e.reply.ReadNothing?)
  }

  /** What a step does to the processed set. */
  lemma {:induction false} ProcessedNext(s: State, e: Event)
    requires Enabled(s, e)
    ensures Adds(e) ==> Snapshot(s.workers[e.w]).Some?
    ensures var l := Next(s, e).ledger;
            l.processed == if Adds(e) then s.ledger.processed[s.workers[e.w].pod.uid := s.now]
                           else if e.Sweep? then Swept(s.ledger.processed, s.now)
                           else s.ledger.processed
    ensures s.now <= Next(s, e).now && |Next(s, e).workers| == |s.workers|
  {
    if IsWorkerEvent(e) {
      ProcessedAfter(s, e);
    } else {
      ProcessedOutside(s, e);
    }
  }

  lemma {:induction false} ProcessedOutside(s: State, e: Event)
    requires Enabled(s, e) && !IsWorkerEvent(e)
    ensures var t := Next(s, e);
            && t.ledger.processed == (if e.Sweep? then Swept(s.ledger.processed, s.now) else s.ledger.processed)
            && s.now <= t.now && t.workers == s.workers
  {
  }

  lemma {:induction false} ProcessedAfter(s: State, e: Event)
    requires Enabled(s, e) && IsWorkerEvent(e)
    ensures Adds(e) ==> Snapshot(s.workers[e.w]).Some?
    ensures NextLedger(s, e).processed ==
            if Adds(e) then s.ledger.processed[s.workers[e.w].pod.uid := s.now] else s.ledger.processed
  {
  }

  /** What a step leaves alone. */
  lemma {:induction false} UnmovedNext(s: State, e: Event, me: Agent)
    requires Enabled(s, e) && !IsBy(e, me)
    ensures me.Main? ==> Next(s, e).control == s.control
    ensures me.Worker? && me.w < |s.workers| ==> Next(s, e).workers[me.w] == s.workers[me.w]
  {
  }

  /** The program itself has taken a step. */
  ghost predicate GoesOn(before: seq<Event>, run: seq<Event>) {
    before <= run && exists i :: |before| <= i < |run| && IsOwnStep(run[i])
  }

  lemma {:induction false} OwnStepsPositive(events: seq<Event>, i: nat)
    requires i < |events| && IsOwnStep(events[i])
    ensures OwnSteps(events) > 0
  {
    if i > 0 {
      OwnStepsPositive(events[1..], i - 1);
    }
  }

  /** After the shutdown of the queue, what goes on leads to the end. */
  lemma {:induction false} ShutdownGoesOn(c: Controller, before: seq<Event>, was: State)
    requires c.OnRun() && before <= c.run
    requires LeadsTo(c.workers, c.began, before, was) && was.queue.shuttingDown
    ensures c.state.queue.shuttingDown && Remaining(c.state) <= Remaining(was)
    ensures GoesOn(before, c.run) ==> Remaining(c.state) < Remaining(was)
  {
    var start, rest := Initial(c.workers, c.began), c.run[|before|..];
    assert LeadsTo(c.workers, c.began, c.run, c.state);
    InitialInv(c.workers, c.began);
    RunKeepsInv(start, before);
    RunSplits(start, before, c.run);
    ShutdownTerminates(was, rest);
    if GoesOn(before, c.run) {
      var i :| |before| <= i < |c.run| && IsOwnStep(c.run[i]);
      OwnStepsPositive(rest, i - |before|);
    }
  }

  /** The goroutine is where it was. */
  twostate predicate Unmoved(c: Controller, me: Agent)
    reads c
  {
    match me
    case Worker(w) => w < |c.state.workers| == |old(c.state).workers| ==> c.state.workers[w] == old(c.state).workers[w]
    case Main => c.state.control == old(c.state).control
  }

  /** The others act while worker `w` is between two steps. */
  method Interleave(c: Controller, w: nat, ghost pc: Pc)
    requires c.At(w, pc)
    modifies c, c.processed
    ensures c.At(w, pc) && old(c.run) <= c.run
  {
    c.Others(Worker(w));
  }

  /** The first part of `processPod`: is there anything to do? */
  method Admit(c: Controller, w: nat, pod: Pod) returns (admitted: bool)
    requires c.At(w, Loaded(pod.key, pod))
    modifies c`state, c`run
    ensures c.run == old(c.run) + [Check(w)]
    ensures c.At(w, if admitted then Jittering(pod.key, pod) else Ending(pod.key, Some(pod), Fine))
  {
    var ready := PodReady(pod);
    if !ready {
      c.Move(Check(w));
      return false;
    }
    HasIsRecentAdd(c.processed.log, pod.uid, c.now);
    var has := c.processed.Has(pod.uid, c.now);
    c.Move(Check(w));
    return !has;
  }

  /** The random wait before the work; only a cancellation ends it early. */
  method Pause(c: Controller, w: nat, pod: Pod) returns (more: bool)
    requires c.At(w, Jittering(pod.key, pod))
    modifies c`state, c`run
    ensures c.run == old(c.run) + [Jitter(w, !more)] && (!more ==> c.cancelled)
    ensures c.At(w, if more then ReadingSerials(pod.key, pod) else Ending(pod.key, Some(pod), Cancelled))
  {
    var interrupted: bool := *;
    more := !(interrupted && c.cancelled);
    c.Move(Jitter(w, !more));
  }

  /** `counterErr.Increment`, with the step of which it is the trace. */
  method IncrementFailure(c: Controller, e: Event)
    requires c.Valid() && Enabled(c.state, e) && IsWorkerEvent(e) && !e.Exit?
    requires NextLedger(c.state, e) == Fail(c.state.ledger) && NextQueue(c.state, e) == c.queue
    modifies c`failure, c`state, c`run
    ensures c.Valid() && c.run == old(c.run) + [e]
    ensures c.state.workers == old(c.state).workers[e.w := NextPc(old(c.state), e)]
  {
    c.failure := c.failure + 1;
    c.Move(e);
  }

  /** The second part: read the serials. A pod without GPUs is recorded, so that it is not read
      again and again. `more` tells whether to go on. */
  method ReadSerialNumbers(c: Controller, w: nat, pod: Pod) returns (more: bool, r: Result)
    requires c.At(w, ReadingSerials(pod.key, pod))
    modifies c`failure, c`state, c`run, c.processed
    ensures old(c.run) <= c.run
    ensures c.At(w, if more then Labeling(pod.key, pod) else Ending(pod.key, Some(pod), r))
  {
    var reply: ReadReply := *;
    match reply
    case ReadFailed =>
      IncrementFailure(c, Read(w, ReadFailed));
      return false, Transient;
    case ReadNothing =>
      RecordEmpty(c, w, pod);
      return false, Fine;
    case ReadSerials =>
      c.Move(Read(w, ReadSerials));
      return true, Fine;
  }

  method RecordEmpty(c: Controller, w: nat, pod: Pod)
    requires c.At(w, ReadingSerials(pod.key, pod))
    modifies c`state, c`run, c.processed
    ensures c.run == old(c.run) + [Read(w, ReadNothing)]
    ensures c.At(w, Ending(pod.key, Some(pod), Fine))
  {
    c.AddProcessed(pod.uid);
    c.Move(Read(w, ReadNothing));
  }

  /** The third part: label the node. */
  method LabelNode(c: Controller, w: nat, pod: Pod) returns (more: bool, r: Result)
    requires c.At(w, Labeling(pod.key, pod))
    modifies c`failure, c`state, c`run
    ensures c.run == old(c.run) + [Label(w, more)]
    ensures c.At(w, if more then Identifying(pod.key, pod) else Ending(pod.key, Some(pod), r))
  {
    more := *;
    if !more {
      IncrementFailure(c, Label(w, false));
      return false, Transient;
    }
    c.Move(Label(w, true));
    return true, Fine;
  }

  /** The fourth part: find the machine behind the node. An empty identifier is counted as a
      failure, and the export is tried all the same. */
  method IdentifyMachine(c: Controller, w: nat, pod: Pod) returns (more: bool, r: Result, identifier: string)
    requires c.At(w, Identifying(pod.key, pod))
    modifies c`failure, c`state, c`run
    ensures c.run == old(c.run) + [Identify(w, if more then Some(identifier) else None)]
    ensures c.At(w, if more then Exporting(pod.key, pod, identifier) else Ending(pod.key, Some(pod), r))
  {
    var reply: Option<string> := *;
    if !reply.Some? {
      IncrementFailure(c, Identify(w, None));
      return false, Transient, "";
    }
    identifier := reply.value;
    if identifier == "" {
      c.failure := c.failure + 1;
    }
    c.Move(Identify(w, Some(identifier)));
    return true, Fine, identifier;
  }

  /** The call of `Export`, into whatever backend there is, for whatever serials were read. */
  method CallExporter(machine: string) returns (err: Option<Export.ExportError>)
    ensures err.None? ==> !Export.Blank(machine)
  {
    var connected: bool, cluster: string, pod: Export.PodRef, now: int := *, *, *, *;
    var first: Option<Grouping.Serials>, others: seq<Option<Grouping.Serials>> := *, *;
    var clock: nat -> int := *;
    var db: Postgres.Database? := null;
    if connected {
      db := new Postgres.Database([]);
    }
    var backend := new Export.Backend(db);
    Sanitizer.BlankIsWhiteSpace(machine);
    err := Export.Export(backend, cluster, Some(pod), machine, [first] + others, clock, now);
  }

  /** The fifth part: export and count. */
  method ExportSerials(c: Controller, w: nat, pod: Pod, identifier: string) returns (more: bool, r: Result)
    requires c.At(w, Exporting(pod.key, pod, identifier))
    modifies c`failure, c`success, c`state, c`run
    ensures c.run == old(c.run) + [Send(w, more)] && (more ==> !Export.Blank(identifier))
    ensures c.At(w, if more then Exported(pod.key, pod) else Ending(pod.key, Some(pod), r))
  {
    var err := CallExporter(identifier);
    if err.Some? {
      IncrementFailure(c, Send(w, false));
      return false, Transient;
    }
    IncrementSuccess(c, w, pod);
    return true, Fine;
  }

  /** `counterSuccess.Increment`, after an export without error. */
  method IncrementSuccess(c: Controller, w: nat, pod: Pod)
    requires c.Valid() && Enabled(c.state, Send(w, true)) && w < c.workers && c.state.workers[w].pod == pod
    requires c.state.workers[w].key == pod.key
    modifies c`success, c`state, c`run
    ensures c.run == old(c.run) + [Send(w, true)] && c.success == old(c.success) + 1
    ensures c.At(w, Exported(pod.key, pod))
  {
    c.success := c.success + 1;
    c.Move(Send(w, true));
  }

  /** The last part: record the UID. */
  method RecordPod(c: Controller, w: nat, pod: Pod)
    requires c.At(w, Exported(pod.key, pod))
    modifies c`state, c`run, c.processed
    ensures c.run == old(c.run) + [Mark(w)]
    ensures c.At(w, Ending(pod.key, Some(pod), Fine))
  {
    c.AddProcessed(pod.uid);
    c.Move(Mark(w));
  }

  /** Before the work: the checks and the random wait. */
  method Enter(c: Controller, w: nat, pod: Pod) returns (more: bool, r: Result)
    requires c.At(w, Loaded(pod.key, pod))
    modifies c, c.processed
    ensures old(c.run) <= c.run
    ensures c.At(w, if more then ReadingSerials(pod.key, pod) else Ending(pod.key, Some(pod), r))
  {
    more := Admit(c, w, pod);
    if !more {
      return false, Fine;
    }
    Interleave(c, w, Jittering(pod.key, pod));
    more := Pause(c, w, pod);
    return more, Cancelled;
  }

  /** From the pod to the labels of its node. */
  method ReadAndLabel(c: Controller, w: nat, pod: Pod) returns (more: bool, r: Result)
    requires c.At(w, ReadingSerials(pod.key, pod))
    modifies c, c.processed
    ensures old(c.run) <= c.run
    ensures c.At(w, if more then Identifying(pod.key, pod) else Ending(pod.key, Some(pod), r))
  {
    more, r := ReadSerialNumbers(c, w, pod);
    if more {
      Interleave(c, w, Labeling(pod.key, pod));
      more, r := LabelNode(c, w, pod);
    }
  }

  method ExportAndRecord(c: Controller, w: nat, pod: Pod, identifier: string) returns (more: bool, r: Result)
    requires c.At(w, Exporting(pod.key, pod, identifier))
    modifies c, c.processed
    ensures old(c.run) <= c.run
    ensures c.At(w, Ending(pod.key, Some(pod), r))
  {
    more, r := ExportSerials(c, w, pod, identifier);
    if more {
      Interleave(c, w, Exported(pod.key, pod));
      RecordPod(c, w, pod);
      r := Fine;
    }
  }

  /** From the lookup of the machine to the record of the UID. */
  method ExportLabeled(c: Controller, w: nat, pod: Pod) returns (r: Result)
    requires c.At(w, Identifying(pod.key, pod))
    modifies c, c.processed
    ensures old(c.run) <= c.run
    ensures c.At(w, Ending(pod.key, Some(pod), r))
  {
    var more, identifier;
    more, r, identifier := IdentifyMachine(c, w, pod);
    if more {
      Interleave(c, w, Exporting(pod.key, pod, identifier));
      more, r := ExportAndRecord(c, w, pod, identifier);
    }
  }

  /** `processPod`. */
  method ProcessPod(c: Controller, w: nat, pod: Pod) returns (r: Result)
    requires c.At(w, Loaded(pod.key, pod))
    modifies c, c.processed
    ensures old(c.run) <= c.run
    ensures c.At(w, Ending(pod.key, Some(pod), r))
  {
    var more;
    more, r := Enter(c, w, pod);
    if more {
      Interleave(c, w, ReadingSerials(pod.key, pod));
      more, r := ReadAndLabel(c, w, pod);
    }
    if more {
      Interleave(c, w, Identifying(pod.key, pod));
      r := ExportLabeled(c, w, pod);
    }
  }

  /** Forget or AddRateLimited. */
  method Settle(c: Controller, w: nat, key: PodKey, read: Option<Pod>, r: Result)
    requires c.At(w, Ending(key, read, r))
    modifies c`queue, c`state, c`run
    ensures c.run == old(c.run) + [Conclude(w)]
    ensures c.queue == if r.Transient? then AddRateLimited(old(c.queue), key) else Forget(old(c.queue), key)
    ensures c.At(w, Closing(key))
  {
    if r.Transient? {
      c.queue := AddRateLimited(c.queue, key);
    } else {
      c.queue := Forget(c.queue, key);
    }
    c.Move(Conclude(w));
  }

  /** The deferred Done. */
  method PutDown(c: Controller, w: nat, key: PodKey)
    requires c.At(w, Closing(key))
    modifies c`queue, c`state, c`run
    ensures c.run == old(c.run) + [Finish(w)] && c.queue == Done(old(c.queue), key)
    ensures c.At(w, Waiting)
  {
    c.queue := Done(c.queue, key);
    c.Move(Finish(w));
  }

  /** Looks the key up in the cache. */
  method GetByKey(c: Controller, w: nat, key: PodKey) returns (read: Option<Pod>)
    requires c.At(w, Got(key))
    modifies c`state, c`run
    ensures c.run == old(c.run) + [Load(w)]
    ensures read == if key in c.indexer then Some(c.indexer[key]) else None
    ensures read.Some? ==> read.value.key == key
    ensures c.At(w, if read.Some? then Loaded(key, read.value) else Ending(key, None, Fine))
  {
    c.OnRunMeansInv();
    read := if key in c.indexer then Some(c.indexer[key]) else None;
    c.Move(Load(w));
  }

  /** What `do` does with a key before it concludes. */
  method HandleKey(c: Controller, w: nat, key: PodKey) returns (read: Option<Pod>, r: Result)
    requires c.At(w, Got(key))
    modifies c, c.processed
    ensures c.At(w, Ending(key, read, r)) && old(c.run) <= c.run
  {
    read := GetByKey(c, w, key);
    r := Fine;
    if read.Some? {
      Interleave(c, w, Loaded(key, read.value));
      r := ProcessPod(c, w, read.value);
    }
  }

  method WrapUp(c: Controller, w: nat, key: PodKey, read: Option<Pod>, r: Result)
    requires c.At(w, Ending(key, read, r))
    modifies c, c.processed
    ensures c.At(w, Waiting) && old(c.run) <= c.run
  {
    Settle(c, w, key, read, r);
    Interleave(c, w, Closing(key));
    PutDown(c, w, key);
  }

  /** One item of `do`. */
  method HandleItem(c: Controller, w: nat, key: PodKey)
    requires c.At(w, Got(key))
    modifies c, c.processed
    ensures c.At(w, Waiting) && old(c.run) <= c.run
  {
    Interleave(c, w, Got(key));
    var read, r := HandleKey(c, w, key);
    Interleave(c, w, Ending(key, read, r));
    WrapUp(c, w, key, read, r);
  }

  method PickUp(c: Controller, w: nat, key: PodKey)
    requires c.At(w, Waiting) && key in Available(c.queue)
    modifies c`queue, c`state, c`run
    ensures c.run == old(c.run) + [Take(w, key)] && c.queue == Get(old(c.queue), key)
    ensures c.At(w, Got(key))
  {
    c.queue := Get(c.queue, key);
    c.Move(Take(w, key));
  }

  /** The worker returns, and the WaitGroup counts one goroutine less. */
  method Leave(c: Controller, w: nat)
    requires c.At(w, Waiting) && c.queue.shuttingDown && Available(c.queue) == {}
    modifies c`waitGroup, c`state, c`run
    ensures c.run == old(c.run) + [Exit(w)] && c.waitGroup == old(c.waitGroup) - 1
    ensures c.At(w, Exited)
  {
    c.waitGroup := c.waitGroup - 1;
    c.Move(Exit(w));
  }

  /** One round of the loop of `do`: an item, the end, or a Get that goes on waiting. */
  method Round(c: Controller, w: nat) returns (left: bool)
    requires c.At(w, Waiting)
    modifies c, c.processed
    ensures c.At(w, if left then Exited else Waiting) && old(c.run) <= c.run
    ensures old(c.queue).shuttingDown ==> GoesOn(old(c.run), c.run)
  {
    OthersBeforeGet(c, w);
    ghost var at := |c.run|;
    if Available(c.queue) != {} {
      var key :| key in Available(c.queue);
      PickUp(c, w, key);
      HandleItem(c, w, key);
      assert IsOwnStep(c.run[at]);
      return false;
    }
    if c.queue.shuttingDown {
      Leave(c, w);
      assert IsOwnStep(c.run[at]);
      return true;
    }
    return false;
  }

  method OthersBeforeGet(c: Controller, w: nat)
    requires c.At(w, Waiting)
    modifies c, c.processed
    ensures c.At(w, Waiting) && old(c.run) <= c.run
    ensures old(c.queue).shuttingDown ==> c.queue.shuttingDown
  {
    ghost var before, was := c.run, c.state;
    c.Others(Worker(w));
    if was.queue.shuttingDown {
      ShutdownGoesOn(c, before, was);
    }
  }

  /** Any number of rounds of `do`, at any time. */
  method DoRounds(c: Controller, w: nat, rounds: nat) returns (left: bool)
    requires c.At(w, Waiting)
    modifies c, c.processed
    ensures c.At(w, if left then Exited else Waiting) && old(c.run) <= c.run
  {
    left := false;
    for i := 0 to rounds
      invariant c.At(w, Waiting) && old(c.run) <= c.run
    {
      left := Round(c, w);
      if left {
        return;
      }
    }
  }

  /** `do`, from the moment the queue shuts down: whatever the others do, it returns. */
  method Do(c: Controller, w: nat)
    requires c.At(w, Waiting) && c.queue.shuttingDown
    modifies c, c.processed
    ensures c.At(w, Exited) && old(c.run) <= c.run
  {
    var left := false;
    while !left
      invariant c.At(w, if left then Exited else Waiting) && old(c.run) <= c.run && c.queue.shuttingDown
      decreases Remaining(c.state)
    {
      ghost var before, was := c.run, c.state;
      left := Round(c, w);
      ShutdownGoesOn(c, before, was);
    }
  }

  /** The event handler `enqueueIfReady`, called with the next notification. */
  method EnqueueIfReady(c: Controller)
    requires c.Valid() && c.state.informing && c.notes != []
    modifies c`notes, c`queue, c`state, c`run
    ensures c.Valid() && c.run == old(c.run) + [Deliver]
    ensures c.notes == old(c.notes)[1..]
    ensures c.queue == if Ready(old(c.notes)[0]) then Add(old(c.queue), old(c.notes)[0].key) else old(c.queue)
  {
    var pod := c.notes[0];
    c.notes := c.notes[1..];
    var ready := PodReady(pod);
    if ready {
      c.queue := Add(c.queue, pod.key);
    }
    c.Step(Deliver);
  }

  /** `ShutDownWithDrain`: no more keys, then wait for a moment at which no key is being processed. */
  method ShutDownWithDrain(c: Controller)
    requires c.Valid() && c.state.control.Serving? && c.cancelled
    modifies c, c.processed
    ensures c.Valid() && c.state.control.Joining? && old(c.run) <= c.run
  {
    BeginShutDown(c);
    while c.queue.processing != {}
      invariant c.Valid() && c.state.control.Draining? && c.queue.shuttingDown && old(c.run) <= c.run
      decreases Remaining(c.state)
    {
      AwaitDrain(c);
    }
    EndDrain(c);
  }

  method EndDrain(c: Controller)
    requires c.Valid() && c.state.control.Draining? && c.queue.processing == {}
    modifies c`state, c`run
    ensures c.Valid() && c.state.control.Joining? && c.run == old(c.run) + [StopAll]
  {
    c.Step(StopAll);
  }

  method BeginShutDown(c: Controller)
    requires c.Valid() && c.state.control.Serving? && c.cancelled
    modifies c, c.processed
    ensures c.Valid() && c.state.control.Draining? && c.queue.shuttingDown && old(c.run) <= c.run
  {
    c.queue := c.queue.(shuttingDown := true);
    c.Step(ShutDown);
    ghost var before, was := c.run, c.state;
    c.Others(Main);
    ShutdownGoesOn(c, before, was);
  }

  /** One round of the wait in `ShutDownWithDrain`. */
  method AwaitDrain(c: Controller)
    requires c.Valid() && c.state.control.Draining? && c.queue.shuttingDown && c.queue.processing != {}
    modifies c, c.processed
    ensures c.Valid() && c.state.control.Draining? && c.queue.shuttingDown && old(c.run) <= c.run
    ensures Remaining(c.state) < Remaining(old(c.state))
  {
    ghost var before, was := c.run, c.state;
    HeldIsCounted(c);
    c.SomebodyActs();
    c.Others(Main);
    ShutdownGoesOn(c, before, was);
  }

  /** While a key is being processed, its worker keeps the WaitGroup up. */
  lemma {:induction false} HeldIsCounted(c: Controller)
    requires c.Valid() && c.queue.processing != {}
    ensures c.waitGroup > 0
  {
    c.OnRunMeansInv();
    var k :| k in c.queue.processing;
    assert Held(c.state, k);
    var w :| 0 <= w < |c.state.workers| && Holding(c.state.workers[w]) && c.state.workers[w].key == k;
    CountPositive(c.state.workers, w, Running);
  }

  /** `wg.Wait`: it returns when no goroutine is left. */
  method WaitForAll(c: Controller)
    requires c.Valid() && c.state.control.Joining?
    modifies c, c.processed
    ensures c.Valid() && c.state.control.Returned? && old(c.run) <= c.run
  {
    c.OnRunMeansInv();
    while c.waitGroup != 0
      invariant c.Valid() && c.state.control.Joining? && c.queue.shuttingDown && old(c.run) <= c.run
      decreases Remaining(c.state)
    {
      AwaitEnd(c);
    }
    c.Step(Return);
  }

  /** One round of the wait in `wg.Wait`. */
  method AwaitEnd(c: Controller)
    requires c.Valid() && c.state.control.Joining? && c.queue.shuttingDown && c.waitGroup != 0
    modifies c, c.processed
    ensures c.Valid() && c.state.control.Joining? && c.queue.shuttingDown && old(c.run) <= c.run
    ensures Remaining(c.state) < Remaining(old(c.state))
  {
    ghost var before, was := c.run, c.state;
    c.SomebodyActs();
    c.Others(Main);
    ShutdownGoesOn(c, before, was);
  }

  /** The deferred Close of `Run`. */
  method CloseExporter(c: Controller)
    requires c.Valid() && c.state.control.Returned?
    modifies c`state, c`run
    ensures c.Valid() && c.state.control.Closed? && old(c.run) <= c.run
    ensures AllExited(c.state) && !c.state.informing
    ensures c.queue.processing == {} && (c.workers > 0 ==> c.queue.dirty == {})
  {
    c.OnRunMeansInv();
    ReturnedMeansExited(c.state);
    NothingHeld(c.state);
    c.Step(Close);
  }

  /** The end of `runController` and of `Run`, without leader election, from the signal on and
      wherever the workers are: shut the queue down, wait, and close the exporter. */
  method FinishController(c: Controller)
    requires c.Valid() && c.state.control.Serving? && c.cancelled
    modifies c, c.processed
    ensures c.Valid() && c.state.control.Closed? && old(c.run) <= c.run
    ensures AllExited(c.state) && !c.state.informing
    ensures c.queue.processing == {} && (c.workers > 0 ==> c.queue.dirty == {})
  {
    ShutDownWithDrain(c);
    c.Others(Main);
    WaitForAll(c);
    c.Others(Main);
    CloseExporter(c);
  }

  /** What is proved of every run holds of the variables of the code: its counters add up, and
      the exports it has made of one UID are more than the TTL apart. */
  lemma {:induction false} CodeKeepsCounts(c: Controller)
    requires c.Valid()
    ensures var h := c.state.ledger.history;
            && c.success == |h.exports|
            && c.failure == h.rateLimited + CountIf(c.state.workers, AboutToRetry) + h.blankIds
            && (forall k :: Failures(c.queue, k) == Streak(h.outcomes, k))
            && (forall i, j :: 0 <= i < j < |h.exports| && h.exports[i].0 == h.exports[j].0 ==>
                  h.exports[j].1 - h.exports[i].1 > CACHE_TTL)
  {
    c.OnRunMeansInv();
  }
}
