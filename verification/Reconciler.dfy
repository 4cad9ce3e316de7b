/** Keeping the labels of a node up to date: diff, patch and bounded retry. */
module Reconciler {
  import opened Text
  import opened Labels
  import opened LabelTheorems

  type LabelMap = map<string, string>

  /** The label part of a strategic merge patch; `None` is null, which deletes. */
  type Patch = map<string, Option<string>>

  /** The labels the program claims: every name that starts with the namespace. */
  function OwnPart(labels: LabelMap): LabelMap {
    map s | s in labels && HasPrefix(s, LABEL_NS) :: labels[s]
  }

  /** How the API server applies a patch to a flat map of strings. */
  function Apply(labels: LabelMap, p: Patch): LabelMap {
    map s | s in labels.Keys + p.Keys && (s in p ==> p[s].Some?) :: if s in p then p[s].value else labels[s]
  }

  /** Go's `m[k]`: a missing key reads as the empty string. */
  function At(m: LabelMap, k: string): string {
    if k in m then m[k] else ""
  }

  predicate NeedsUpdate(current: LabelMap, desired: LabelMap) {
    || (exists k :: k in current && HasPrefix(k, LABEL_NS) && k !in desired)
    || (exists k :: k in desired && At(current, k) != desired[k])
  }

  /** `needsLabelUpdate`. */
  method NeedsLabelUpdate(current: LabelMap, desired: LabelMap) returns (r: bool)
    ensures r == NeedsUpdate(current, desired)
  {
    var left := current.Keys;
    while left != {}
      invariant left <= current.Keys
      invariant forall k :: k in current.Keys - left && HasPrefix(k, LABEL_NS) ==> k in desired
      decreases |left|
    {
      var k :| k in left;
      left := left - {k};
      if HasPrefix(k, LABEL_NS) {
        if k !in desired {
          return true;
        }
      }
    }
    left := desired.Keys;
    while left != {}
      invariant left <= desired.Keys
      invariant forall k :: k in desired.Keys - left ==> At(current, k) == desired[k]
      decreases |left|
    {
      var k :| k in left;
      left := left - {k};
      if At(current, k) != desired[k] {
        return true;
      }
    }
    return false;
  }

  /** The patch `attemptLabelUpdate` sends: every desired label, and null for every stale one. */
  function PatchFor(current: LabelMap, desired: LabelMap): Patch {
    map s | s in desired.Keys + OwnPart(current).Keys :: if s in desired then Some(desired[s]) else None
  }

  method BuildPatch(current: LabelMap, desired: LabelMap) returns (patch: Patch)
    ensures patch == PatchFor(current, desired)
  {
    patch := map[];
    var left := desired.Keys;
    while left != {}
      invariant left <= desired.Keys
      invariant patch.Keys == desired.Keys - left
      invariant forall k :: k in patch ==> patch[k] == Some(desired[k])
      decreases |left|
    {
      var k :| k in left;
      left := left - {k};
      patch := patch[k := Some(desired[k])];
    }
    patch := AddStale(patch, current, desired);
  }

  /** The labels of the node that the program claims and no longer desires. */
  function Stale(current: LabelMap, desired: LabelMap): (stale: set<string>)
    ensures forall k :: k in stale <==> k in current && HasPrefix(k, LABEL_NS) && k !in desired
  {
    set k | k in current && HasPrefix(k, LABEL_NS) && k !in desired
  }

  lemma {:induction false} PatchIs(patch: Patch, current: LabelMap, desired: LabelMap)
    requires forall k :: k in patch <==> k in desired || k in Stale(current, desired)
    requires forall k :: k in patch ==> patch[k] == if k in desired then Some(desired[k]) else None
    ensures patch == PatchFor(current, desired)
  {
  }

  method AddStale(wanted: Patch, current: LabelMap, desired: LabelMap) returns (patch: Patch)
    requires wanted == map s | s in desired :: Some(desired[s])
    ensures patch == PatchFor(current, desired)
  {
    patch := wanted;
    var left := current.Keys;
    ghost var stale := Stale(current, desired);
    while left != {}
      invariant left <= current.Keys
      invariant forall k :: k in patch <==> k in desired || (k in stale && k !in left)
      invariant forall k :: k in patch ==> patch[k] == if k in desired then Some(desired[k]) else None
      decreases |left|
    {
      var k :| k in left;
      left := left - {k};
      if HasPrefix(k, LABEL_NS) && k !in desired {
        assert k in stale;
        patch := patch[k := None];
      }
    }
    PatchIs(patch, current, desired);
  }

  /** The diff is exact for labels in the namespace that have values ... */
  lemma {:induction false} DiffIsExact(current: LabelMap, desired: LabelMap)
    requires OwnedLabels(desired)
    ensures !NeedsUpdate(current, desired) <==> OwnPart(current) == desired
  {
    if !NeedsUpdate(current, desired) {
      assert forall k :: k in desired ==> k in current && current[k] == desired[k];
      assert OwnPart(current).Keys == desired.Keys;
    }
  }

  /** ... and for no others: outside of that shape some node would be judged wrongly. */
  lemma {:induction false} DiffExactOnlyForOwned(desired: LabelMap)
    ensures OwnedLabels(desired) <==>
              (forall current :: !NeedsUpdate(current, desired) <==> OwnPart(current) == desired)
  {
    if OwnedLabels(desired) {
      forall current
        ensures !NeedsUpdate(current, desired) <==> OwnPart(current) == desired
      {
        DiffIsExact(current, desired);
      }
    } else {
      var k :| k in desired && !(HasPrefix(k, LABEL_NS) && desired[k] != "");
      var current := if HasPrefix(k, LABEL_NS) then desired - {k} else desired;
      assert !NeedsUpdate(current, desired);
      assert k !in OwnPart(current);
      assert OwnPart(current) != desired;
    }
  }

  /** Does the patch leave every label outside of the namespace alone? */
  predicate Foreign(p: Patch) {
    forall s :: s in p ==> !HasPrefix(s, LABEL_NS)
  }

  /** A patch computed from any snapshot whose own labels were `base` or already right
      turns a node whose own labels are `base` or right into one whose own labels are right.
      Every other label of the node stays what it is at that moment. */
  lemma {:induction false} PatchLands(seen: LabelMap, now: LabelMap, base: LabelMap, desired: LabelMap)
    requires OwnedLabels(desired)
    requires OwnPart(seen) == base && (OwnPart(now) == base || OwnPart(now) == desired)
    ensures var after := Apply(now, PatchFor(seen, desired));
            && OwnPart(after) == desired
            && !NeedsUpdate(after, desired)
            && forall s :: !HasPrefix(s, LABEL_NS) ==> (s in after <==> s in now) && (s in now ==> after[s] == now[s])
  {
    var after := Apply(now, PatchFor(seen, desired));
    assert forall s :: s in now && HasPrefix(s, LABEL_NS) ==> s in OwnPart(now);
    assert OwnPart(after) == desired;
    DiffIsExact(after, desired);
  }

  lemma {:induction false} ForeignKeepsOwn(labels: LabelMap, p: Patch)
    requires Foreign(p)
    ensures OwnPart(Apply(labels, p)) == OwnPart(labels)
  {
  }

  /** The kinds of API error `EnsureLabels` tells apart. */
  datatype Reason = Forbidden | Invalid | Other

  predicate Fatal(r: Reason) {
    r.Forbidden? || r.Invalid?
  }

  datatype GetReply = GotNode(labels: LabelMap) | GotNil | GetFailed(reason: Reason)

  datatype PatchReply = Patched | PatchFailed(reason: Reason)

  /** How one attempt ends. */
  datatype Verdict = Succeeded | Failed(reason: Reason)

  datatype Outcome = Returned | Stopped(reason: Reason) | TimedOut

  const MAX_RETRIES := 5

  // ---------------------------------------------------------------------------------------
  // Any number of reconcilers of one node, interleaved call by call with foreign writers.
  // ---------------------------------------------------------------------------------------

  /** Where a reconciler is: about to read the node, holding a snapshot that differs from the
      desired labels, or done. `tries` counts the attempts that have failed. */
  datatype Progress = ToRead(tries: nat) | ToPatch(tries: nat, snapshot: LabelMap) | Finished(outcome: Outcome)

  /** `applied` records that some reconciler's patch has reached the node. */
  datatype Cluster = Cluster(labels: LabelMap, reconcilers: seq<Progress>, applied: bool)

  datatype Event =
    | Get(r: nat, fault: Option<Reason>)
    | Send(r: nat, reaches: bool, reply: PatchReply)
    | ForeignWrite(p: Patch)

  predicate Enabled(c: Cluster, e: Event) {
    match e
    case Get(r, _) => r < |c.reconcilers| && c.reconcilers[r].ToRead?
    case Send(r, reaches, reply) => r < |c.reconcilers| && c.reconcilers[r].ToPatch? && (reply.Patched? ==> reaches)
    case ForeignWrite(p) => Foreign(p)
  }

  /** What the retry loop does after a failed attempt. */
  function AfterFailure(tries: nat, reason: Reason): Progress {
    if Fatal(reason) then Finished(Stopped(reason))
    else if tries + 1 >= MAX_RETRIES then Finished(TimedOut)
    else ToRead(tries + 1)
  }

  function Next(c: Cluster, e: Event, desired: LabelMap): Cluster
    requires Enabled(c, e)
  {
    match e
    case Get(r, fault) =>
      var tries := c.reconcilers[r].tries;
      var next :=
        match fault
        case Some(reason) => AfterFailure(tries, reason)
        case None => if NeedsUpdate(c.labels, desired) then ToPatch(tries, c.labels) else Finished(Returned);
      c.(reconcilers := c.reconcilers[r := next])
    case Send(r, reaches, reply) =>
      var p := c.reconcilers[r];
      var next := if reply.Patched? then Finished(Returned) else AfterFailure(p.tries, reply.reason);
      Cluster(if reaches then Apply(c.labels, PatchFor(p.snapshot, desired)) else c.labels,
              c.reconcilers[r := next], c.applied || reaches)
    case ForeignWrite(p) => c.(labels := Apply(c.labels, p))
  }

  ghost predicate IsRun(c: Cluster, events: seq<Event>, desired: LabelMap)
    decreases |events|
  {
    events == [] || (Enabled(c, events[0]) && IsRun(Next(c, events[0], desired), events[1..], desired))
  }

  ghost function After(c: Cluster, events: seq<Event>, desired: LabelMap): Cluster
    requires IsRun(c, events, desired)
    decreases |events|
  {
    if events == [] then c else After(Next(c, events[0], desired), events[1..], desired)
  }

  lemma {:induction false} ClusterRunAppend(c: Cluster, events: seq<Event>, e: Event, desired: LabelMap)
    requires IsRun(c, events, desired) && Enabled(After(c, events, desired), e)
    ensures IsRun(c, events + [e], desired)
    ensures After(c, events + [e], desired) == Next(After(c, events, desired), e, desired)
    decreases |events|
  {
    if events == [] {
      assert [] + [e] == [e] && [e][0] == e && [e][1..] == [];
      assert IsRun(Next(c, e, desired), [], desired) && After(Next(c, e, desired), [], desired) == Next(c, e, desired);
    } else {
      assert (events + [e])[0] == events[0] && (events + [e])[1..] == events[1..] + [e];
      ClusterRunAppend(Next(c, events[0], desired), events[1..], e, desired);
    }
  }

  ghost predicate Fresh(c: Cluster) {
    !c.applied && forall r :: 0 <= r < |c.reconcilers| ==> c.reconcilers[r] == ToRead(0)
  }

  /** No state of a run shows a mix of old and new labels; once a patch has reached the node,
      or a reconciler has returned without error, the labels are the desired ones; a snapshot
      is only ever patched from when it showed the initial labels. */
  ghost predicate Coherent(c: Cluster, base: LabelMap, desired: LabelMap) {
    && (OwnPart(c.labels) == base || OwnPart(c.labels) == desired)
    && (c.applied ==> OwnPart(c.labels) == desired)
    && forall r :: 0 <= r < |c.reconcilers| ==>
         match c.reconcilers[r]
         case ToRead(tries) => tries < MAX_RETRIES
         case ToPatch(tries, snapshot) => tries < MAX_RETRIES && OwnPart(snapshot) == base != desired
         case Finished(outcome) => outcome.Returned? ==> OwnPart(c.labels) == desired
  }

  lemma {:induction false} StepKeepsCoherent(c: Cluster, e: Event, base: LabelMap, desired: LabelMap)
    requires OwnedLabels(desired) && Coherent(c, base, desired) && Enabled(c, e)
    ensures Coherent(Next(c, e, desired), base, desired)
    ensures OwnPart(c.labels) == desired ==> OwnPart(Next(c, e, desired).labels) == desired
  {
    match e
    case Get(r, fault) => DiffIsExact(c.labels, desired);
    case Send(r, reaches, reply) => SendKeepsCoherent(c, r, reaches, reply, base, desired);
    case ForeignWrite(p) => ForeignKeepsOwn(c.labels, p);
  }

  lemma {:induction false} SendKeepsCoherent(c: Cluster, r: nat, reaches: bool, reply: PatchReply, base: LabelMap,
                                             desired: LabelMap)
    requires OwnedLabels(desired) && Coherent(c, base, desired) && Enabled(c, Send(r, reaches, reply))
    ensures Coherent(Next(c, Send(r, reaches, reply), desired), base, desired)
    ensures OwnPart(c.labels) == desired ==> OwnPart(Next(c, Send(r, reaches, reply), desired).labels) == desired
  {
    var p := c.reconcilers[r];
    PatchLands(p.snapshot, c.labels, base, desired);
    var labels := if reaches then Apply(c.labels, PatchFor(p.snapshot, desired)) else c.labels;
    assert reaches ==> OwnPart(labels) == desired;
    assert OwnPart(labels) == OwnPart(c.labels) || OwnPart(labels) == desired;
  }

  /** A coherent state stays coherent, and the desired labels, once in place, stay. */
  lemma {:induction false} RunKeepsCoherent(c: Cluster, events: seq<Event>, base: LabelMap, desired: LabelMap)
    requires OwnedLabels(desired) && Coherent(c, base, desired) && IsRun(c, events, desired)
    ensures Coherent(After(c, events, desired), base, desired)
    ensures OwnPart(c.labels) == desired ==> OwnPart(After(c, events, desired).labels) == desired
    decreases |events|
  {
    if events != [] {
      StepKeepsCoherent(c, events[0], base, desired);
      RunKeepsCoherent(Next(c, events[0], desired), events[1..], base, desired);
    }
  }

  /** How many attempts reconciler `r` makes in a run. */
  function Attempts(events: seq<Event>, r: nat): nat {
    if events == [] then 0 else (if events[0].Get? && events[0].r == r then 1 else 0) + Attempts(events[1..], r)
  }

  /** How many more attempts a reconciler may make. */
  function AttemptsLeft(p: Progress): int {
    match p
    case ToRead(tries) => MAX_RETRIES - tries
    case ToPatch(tries, _) => MAX_RETRIES - tries - 1
    case Finished(_) => 0
  }

  /** No run lets a reconciler make more than `MAX_RETRIES` attempts, or any after a fatal error. */
  lemma {:induction false} AttemptsAreBounded(c: Cluster, events: seq<Event>, base: LabelMap, desired: LabelMap, r: nat)
    requires OwnedLabels(desired) && Coherent(c, base, desired) && IsRun(c, events, desired) && r < |c.reconcilers|
    ensures Attempts(events, r) <= AttemptsLeft(c.reconcilers[r]) <= MAX_RETRIES
    decreases |events|
  {
    if events != [] {
      StepKeepsCoherent(c, events[0], base, desired);
      AttemptsAreBounded(Next(c, events[0], desired), events[1..], base, desired, r);
    }
  }

  /** Where a reconciler is tells how often it has tried, and why it has stopped: any error but
      Forbidden and Invalid is followed by another attempt until there have been five. */
  predicate HasTried(p: Progress, attempts: nat) {
    match p
    case ToRead(_) => attempts < 5 && p.tries == attempts
    case ToPatch(_, _) => 1 <= attempts <= 5 && p.tries == attempts - 1
    case Finished(outcome) =>
      match outcome
      case Returned => 1 <= attempts <= 5
      case Stopped(reason) => 1 <= attempts <= 5 && (reason == Forbidden || reason == Invalid)
      case TimedOut => attempts == 5
  }

  lemma {:induction false} StepTries(c: Cluster, e: Event, desired: LabelMap, r: nat, attempts: nat)
    requires Enabled(c, e) && r < |c.reconcilers| && HasTried(c.reconcilers[r], attempts)
    ensures r < |Next(c, e, desired).reconcilers|
    ensures HasTried(Next(c, e, desired).reconcilers[r], attempts + if e.Get? && e.r == r then 1 else 0)
  {
  }

  lemma {:induction false} RunTries(c: Cluster, events: seq<Event>, desired: LabelMap, r: nat, attempts: nat)
    requires IsRun(c, events, desired) && r < |c.reconcilers| && HasTried(c.reconcilers[r], attempts)
    ensures r < |After(c, events, desired).reconcilers|
    ensures HasTried(After(c, events, desired).reconcilers[r], attempts + Attempts(events, r))
    decreases |events|
  {
    if events != [] {
      StepTries(c, events[0], desired, r, attempts);
      var more := if events[0].Get? && events[0].r == r then 1 else 0;
      RunTries(Next(c, events[0], desired), events[1..], desired, r, attempts + more);
    }
  }

  /** From the start on, every reconciler has made exactly the attempts that its place says. */
  lemma {:induction false} AttemptsAreExact(c: Cluster, events: seq<Event>, desired: LabelMap, r: nat)
    requires Fresh(c) && IsRun(c, events, desired) && r < |c.reconcilers|
    ensures r < |After(c, events, desired).reconcilers|
    ensures HasTried(After(c, events, desired).reconcilers[r], Attempts(events, r))
  {
    RunTries(c, events, desired, r, 0);
  }

  /** A label is the program's exactly if its name starts with this text; there is no '/' after it. */
  lemma {:induction false} OwnPartSpelledOut(labels: LabelMap, s: string)
    ensures s in OwnPart(labels) <==> s in labels && |s| >= 16 && s[..16] == "gpuid.github.com"
    ensures s in OwnPart(labels) ==> OwnPart(labels)[s] == labels[s]
  {
    assert LABEL_NS == "gpuid.github.com" && |LABEL_NS| == 16;
    if |s| >= 16 && s[..16] == LABEL_NS {
      assert HasPrefix(s, LABEL_NS);
    }
  }

  /** In every state that any number of reconcilers and foreign writers can reach from the
      start, the program's labels on the node are either what they were or exactly the desired
      ones. They are the desired ones as soon as one patch has reached the node, and whenever
      some reconciler has returned without error, for the rest of the run. No reconciler makes
      more than `MAX_RETRIES` attempts. */
  lemma {:induction false} ReconcilersConverge(c: Cluster, before: seq<Event>, after: seq<Event>, desired: LabelMap,
                                               r: nat)
    requires OwnedLabels(desired) && Fresh(c) && r < |c.reconcilers|
    requires IsRun(c, before, desired) && IsRun(After(c, before, desired), after, desired)
    ensures var mid := After(c, before, desired); var end := After(mid, after, desired);
            && (OwnPart(mid.labels) == OwnPart(c.labels) || OwnPart(mid.labels) == desired)
            && (mid.applied || (r < |mid.reconcilers| && mid.reconcilers[r] == Finished(Returned)) ==>
                  OwnPart(mid.labels) == desired)
            && (OwnPart(mid.labels) == desired ==> OwnPart(end.labels) == desired)
            && Attempts(before, r) <= 5
  {
    var base := OwnPart(c.labels);
    RunKeepsCoherent(c, before, base, desired);
    RunKeepsCoherent(After(c, before, desired), after, base, desired);
    AttemptsAreBounded(c, before, base, desired, r);
  }

  function OthersPart(labels: LabelMap): LabelMap {
    map s | s in labels && !HasPrefix(s, LABEL_NS) :: labels[s]
  }

  /** What the foreign writers alone would have made of the node. */
  function ForeignWrites(others: LabelMap, events: seq<Event>): LabelMap
    decreases |events|
  {
    if events == [] then others
    else ForeignWrites(if events[0].ForeignWrite? then Apply(others, events[0].p) else others, events[1..])
  }

  lemma {:induction false} StepKeepsOthers(c: Cluster, e: Event, desired: LabelMap)
    requires OwnedLabels(desired) && Enabled(c, e)
    ensures OthersPart(Next(c, e, desired).labels) ==
            if e.ForeignWrite? then Apply(OthersPart(c.labels), e.p) else OthersPart(c.labels)
  {
    if e.Send? {
      var patch := PatchFor(c.reconcilers[e.r].snapshot, desired);
      assert forall s :: s in patch ==> HasPrefix(s, LABEL_NS);
      assert OthersPart(Apply(c.labels, patch)) == OthersPart(c.labels);
    } else if e.ForeignWrite? {
      assert OthersPart(Apply(c.labels, e.p)) == Apply(OthersPart(c.labels), e.p);
    }
  }

  /** The reconcilers never change a label of anybody else, whatever the interleaving. */
  lemma {:induction false} OthersAreKept(c: Cluster, events: seq<Event>, desired: LabelMap)
    requires OwnedLabels(desired) && IsRun(c, events, desired)
    ensures OthersPart(After(c, events, desired).labels) == ForeignWrites(OthersPart(c.labels), events)
    decreases |events|
  {
    if events != [] {
      StepKeepsOthers(c, events[0], desired);
      OthersAreKept(Next(c, events[0], desired), events[1..], desired);
    }
  }

  // ---------------------------------------------------------------------------------------
  // The code of one reconciler, while the others act.
  // ---------------------------------------------------------------------------------------

  predicate IsBy(e: Event, r: nat) {
    !e.ForeignWrite? && e.r == r
  }

  lemma {:induction false} StepLeavesOthers(c: Cluster, e: Event, desired: LabelMap, r: nat)
    requires Enabled(c, e) && !IsBy(e, r) && r < |c.reconcilers|
    ensures r < |Next(c, e, desired).reconcilers| && Next(c, e, desired).reconcilers[r] == c.reconcilers[r]
  {
  }

  /** The API server with one node. Its calls fail at will, and a failed patch may or may not
      have been applied. `cluster` is the node with everybody who works on it; every call is a
      step of it, and between two calls of one reconciler the others take any number of steps. */
  class ApiServer {
    var labels: LabelMap
    var desired: LabelMap
    var cluster: Cluster
    ghost const start: Cluster
    ghost var run: seq<Event>

    ghost predicate Valid()
      reads this
    {
      && OwnedLabels(desired) && Fresh(start)
      && IsRun(start, run, desired) && After(start, run, desired) == cluster
      && cluster.labels == labels
    }

    /** Reconciler `r` is here. */
    ghost predicate At(r: nat, p: Progress)
      reads this
    {
      Valid() && r < |cluster.reconcilers| && cluster.reconcilers[r] == p
    }

    constructor (labels: LabelMap, reconcilers: nat, desired: LabelMap)
      requires OwnedLabels(desired)
      ensures Valid() && this.labels == labels && this.desired == desired && run == []
      ensures |cluster.reconcilers| == reconcilers && forall r :: 0 <= r < reconcilers ==> At(r, ToRead(0))
    {
      this.labels, this.desired := labels, desired;
      cluster := Cluster(labels, seq(reconcilers, _ => ToRead(0)), false);
      start, run := Cluster(labels, seq(reconcilers, _ => ToRead(0)), false), [];
    }

    method Step(e: Event)
      requires Valid() && Enabled(cluster, e)
      modifies this`labels, this`cluster, this`run
      ensures Valid() && cluster == Next(old(cluster), e, desired) && run == old(run) + [e]
      ensures OwnPart(labels) == old(OwnPart(labels)) || OwnPart(labels) == desired
    {
      RunKeepsCoherent(start, run, OwnPart(start.labels), desired);
      StepKeepsCoherent(cluster, e, OwnPart(start.labels), desired);
      ClusterRunAppend(start, run, e, desired);
      cluster, run := Next(cluster, e, desired), run + [e];
      labels := cluster.labels;
    }

    method OthersAct(r: nat)
      requires Valid() && r < |cluster.reconcilers|
      modifies this`labels, this`cluster, this`run
      ensures At(r, old(cluster).reconcilers[r]) && old(run) <= run
      ensures OwnPart(labels) == old(OwnPart(labels)) || OwnPart(labels) == desired
    {
      var n: nat :| true;
      for i := 0 to n
        invariant At(r, old(cluster).reconcilers[r]) && old(run) <= run
        invariant OwnPart(labels) == old(OwnPart(labels)) || OwnPart(labels) == desired
      {
        var e: Event := *;
        if Enabled(cluster, e) && !IsBy(e, r) {
          StepLeavesOthers(cluster, e, desired, r);
          Step(e);
        }
      }
    }

    /** `Labeler.GetNode`. */
    method GetNode(r: nat, ghost tries: nat) returns (reply: GetReply)
      requires At(r, ToRead(tries))
      modifies this`labels, this`cluster, this`run
      ensures OwnPart(labels) == old(OwnPart(labels)) || OwnPart(labels) == desired
      ensures old(run) < run
      ensures match reply
              case GotNode(l) => At(r, if NeedsUpdate(l, desired) then ToPatch(tries, l) else Finished(Returned))
              case GotNil => At(r, AfterFailure(tries, Other))
              case GetFailed(reason) => At(r, AfterFailure(tries, reason))
    {
      OthersAct(r);
      reply := *;
      match reply
      case GotNode(_) =>
        reply := GotNode(labels);
        Step(Get(r, None));
      case GotNil => Step(Get(r, Some(Other)));
      case GetFailed(reason) => Step(Get(r, Some(reason)));
    }

    /** `Labeler.PatchNodeLabels`. */
    method PatchNodeLabels(r: nat, patch: Patch, ghost tries: nat, ghost snapshot: LabelMap) returns (reply: PatchReply)
      requires At(r, ToPatch(tries, snapshot)) && patch == PatchFor(snapshot, desired)
      modifies this`labels, this`cluster, this`run
      ensures OwnPart(labels) == old(OwnPart(labels)) || OwnPart(labels) == desired
      ensures old(run) < run
      ensures At(r, if reply.Patched? then Finished(Returned) else AfterFailure(tries, reply.reason))
    {
      OthersAct(r);
      reply := *;
      var applied: bool := *;
      ghost var reached := if applied || reply.Patched? then Apply(labels, patch) else labels;
      Step(Send(r, applied || reply.Patched?, reply));
      assert labels == reached;
    }
  }

  /** `attemptLabelUpdate`, the attempt of reconciler `r` after `tries` failed ones. */
  method AttemptLabelUpdate(server: ApiServer, desired: LabelMap, r: nat, ghost tries: nat) returns (verdict: Verdict)
    requires server.At(r, ToRead(tries)) && server.desired == desired
    modifies server`labels, server`cluster, server`run
    ensures OwnPart(server.labels) == old(OwnPart(server.labels)) || OwnPart(server.labels) == desired
    ensures old(server.run) < server.run
    ensures server.At(r, if verdict.Succeeded? then Finished(Returned) else AfterFailure(tries, verdict.reason))
  {
    var reply := server.GetNode(r, tries);
    if reply.GetFailed? {
      return Failed(reply.reason);
    }
    if reply.GotNil? {
      return Failed(Other);
    }
    var currentLabels := reply.labels;
    var needed := NeedsLabelUpdate(currentLabels, desired);
    if !needed {
      return Succeeded;
    }
    var patch := BuildPatch(currentLabels, desired);
    var patched := server.PatchNodeLabels(r, patch, tries, currentLabels);
    if patched.PatchFailed? {
      return Failed(patched.reason);
    }
    return Succeeded;
  }

  /** How a list of attempts makes `EnsureLabels` end: it goes on after any error but Forbidden and
      Invalid, five times at most, and it ends well only with a success. */
  predicate EndsAs(verdicts: seq<Verdict>, outcome: Outcome) {
    && 1 <= |verdicts| <= 5
    && (forall i :: 0 <= i < |verdicts| - 1 ==> verdicts[i] == Failed(Other))
    && var last := verdicts[|verdicts| - 1];
       match outcome
       case Returned => last == Succeeded
       case Stopped(reason) => last == Failed(reason) && (reason == Forbidden || reason == Invalid)
       case TimedOut => last == Failed(Other) && |verdicts| == 5
  }

  /** The attempts decide the outcome. */
  lemma {:induction false} OutcomeIsDecided(verdicts: seq<Verdict>, outcome: Outcome)
    requires EndsAs(verdicts, outcome)
    ensures outcome == TimedOut <==> forall i :: 0 <= i < |verdicts| ==> verdicts[i] == Failed(Other)
    ensures outcome == TimedOut ==> |verdicts| == 5
    ensures outcome == Returned <==> Succeeded in verdicts
    ensures outcome == Stopped(Forbidden) <==> Failed(Forbidden) in verdicts
    ensures outcome == Stopped(Invalid) <==> Failed(Invalid) in verdicts
    ensures outcome != Stopped(Other)
  {
    var last := verdicts[|verdicts| - 1];
    assert last in verdicts;
    assert forall v :: v in verdicts ==> v == Failed(Other) || v == last;
  }

  /** The retry loop of `EnsureLabels`. `verdicts` lists how its attempts ended. */
  method RetryLabelUpdate(server: ApiServer, desired: LabelMap, r: nat)
    returns (outcome: Outcome, verdicts: seq<Verdict>)
    requires server.At(r, ToRead(0)) && server.desired == desired
    modifies server`labels, server`cluster, server`run
    ensures server.At(r, Finished(outcome)) && old(server.run) <= server.run
    ensures OwnPart(server.labels) == old(OwnPart(server.labels)) || OwnPart(server.labels) == desired
    ensures outcome.Returned? ==> OwnPart(server.labels) == desired
    ensures EndsAs(verdicts, outcome)
    ensures outcome.Stopped? ==> outcome.reason != Other
  {
    verdicts := [];
    var steps := MAX_RETRIES;
    while steps > 0
      invariant 0 < steps <= MAX_RETRIES && |verdicts| == MAX_RETRIES - steps
      invariant forall i :: 0 <= i < |verdicts| ==> verdicts[i] == Failed(Other)
      invariant server.At(r, ToRead(MAX_RETRIES - steps)) && old(server.run) <= server.run
      invariant OwnPart(server.labels) == old(OwnPart(server.labels)) || OwnPart(server.labels) == desired
    {
      var verdict := AttemptLabelUpdate(server, desired, r, MAX_RETRIES - steps);
      verdicts := verdicts + [verdict];
      if verdict.Succeeded? {
        ReturnedMeansDesired(server, r);
        return Returned, verdicts;
      }
      if Fatal(verdict.reason) {
        return Stopped(verdict.reason), verdicts;
      }
      if steps == 1 {
        break;
      }
      steps := steps - 1;
    }
    return TimedOut, verdicts;
  }

  /** What `ReconcilersConverge` says of a reconciler that has returned without error. */
  lemma {:induction false} ReturnedMeansDesired(server: ApiServer, r: nat)
    requires server.At(r, Finished(Returned))
    ensures OwnPart(server.labels) == server.desired
  {
    RunKeepsCoherent(server.start, server.run, OwnPart(server.start.labels), server.desired);
  }

  /** `EnsureLabels`. Either the reconciler is the first and only one of the node, or the others
      compute the same labels. */
  method EnsureLabels(server: ApiServer, serials: seq<Row>, r: nat)
    returns (outcome: Outcome, verdicts: seq<Verdict>, desiredLabels: LabelMap)
    requires server.At(r, ToRead(0))
    requires || (server.run == [] && |server.cluster.reconcilers| == 1)
             || (forall labels :: IsLabelling(serials, labels) ==> labels == server.desired)
    modifies server
    ensures IsLabelling(serials, desiredLabels) && server.desired == desiredLabels
    ensures server.At(r, Finished(outcome)) && old(server.run) <= server.run
    ensures OwnPart(server.labels) == old(OwnPart(server.labels)) || OwnPart(server.labels) == desiredLabels
    ensures outcome.Returned? ==> OwnPart(server.labels) == desiredLabels
    ensures EndsAs(verdicts, outcome)
    ensures outcome.Stopped? ==> outcome.reason != Other
  {
    desiredLabels := CalculateGPULabels(serials);
    LabelsAreOwned(serials, desiredLabels);
    server.desired := desiredLabels;
    outcome, verdicts := RetryLabelUpdate(server, desiredLabels, r);
  }
}
