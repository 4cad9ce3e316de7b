/** The worker system and the reconcilers of one node together: what an export can rely on. */
module LabelledExports {
  import opened Text
  import opened LabelTheorems
  import W = WorkerProtocol
  import R = Reconciler

  /** The process and one node. Worker `w` works on the node as its reconciler `w`. */
  datatype Joint = Joint(process: W.State, node: R.Cluster)

  /** A step of the process, or one of the calls to the API server that `EnsureLabels` or a
      foreign writer makes. */
  datatype Step = Process(e: W.Event) | Api(a: R.Event)

  /** The worker is in `EnsureLabels` for this node. */
  predicate IsLabeling(pc: W.Pc, name: string) {
    pc.Labeling? && pc.pod.node == name
  }

  /** This Label step is the return of `EnsureLabels` for this node. */
  predicate Returns(s: W.State, e: W.Event, name: string)
    requires W.Enabled(s, e)
  {
    e.Label? && IsLabeling(s.workers[e.w], name)
  }

  /** With this step a worker calls `EnsureLabels` for this node. */
  predicate Calls(s: W.State, e: W.Event, name: string)
    requires W.Enabled(s, e)
  {
    e.Read? && e.reply.ReadSerials? && s.workers[e.w].pod.node == name
  }

  /** `EnsureLabels` returns what the reconciler has come to, and calls the API server only
      while it runs. */
  predicate Enabled(j: Joint, s: Step, name: string) {
    match s
    case Process(e) =>
      && W.Enabled(j.process, e)
      && (Returns(j.process, e, name) ==>
            && e.w < |j.node.reconcilers| && j.node.reconcilers[e.w].Finished?
            && (e.ok <==> j.node.reconcilers[e.w].outcome.Returned?))
    case Api(a) =>
      && R.Enabled(j.node, a)
      && (a.ForeignWrite? || (a.r < |j.process.workers| && IsLabeling(j.process.workers[a.r], name)))
  }

  function Restart(c: R.Cluster, w: nat): R.Cluster {
    if w < |c.reconcilers| then c.(reconcilers := c.reconcilers[w := R.ToRead(0)]) else c
  }

  function Next(j: Joint, s: Step, name: string, desired: R.LabelMap): Joint
    requires Enabled(j, s, name)
  {
    match s
    case Process(e) => Joint(W.Next(j.process, e), if Calls(j.process, e, name) then Restart(j.node, e.w) else j.node)
    case Api(a) => j.(node := R.Next(j.node, a, desired))
  }

  function Initial(n: nat, start: int, labels: R.LabelMap): Joint {
    Joint(W.Initial(n, start), R.Cluster(labels, seq(n, _ => R.ToRead(0)), false))
  }

  predicate IsRun(j: Joint, steps: seq<Step>, name: string, desired: R.LabelMap)
    decreases |steps|
  {
    steps == [] || (Enabled(j, steps[0], name) && IsRun(Next(j, steps[0], name, desired), steps[1..], name, desired))
  }

  function After(j: Joint, steps: seq<Step>, name: string, desired: R.LabelMap): Joint
    requires IsRun(j, steps, name, desired)
    decreases |steps|
  {
    if steps == [] then j else After(Next(j, steps[0], name, desired), steps[1..], name, desired)
  }

  // ---------------------------------------------------------------------------------------
  // The process alone.
  // ---------------------------------------------------------------------------------------

  function ProcessEvents(steps: seq<Step>): seq<W.Event> {
    if steps == [] then []
    else (if steps[0].Process? then [steps[0].e] else []) + ProcessEvents(steps[1..])
  }

  /** A run of both is a run of the process: all that is proved of the process holds here. */
  lemma {:induction false} RunOfProcess(j: Joint, steps: seq<Step>, name: string, desired: R.LabelMap)
    requires IsRun(j, steps, name, desired)
    ensures W.IsRun(j.process, ProcessEvents(steps))
    ensures W.After(j.process, ProcessEvents(steps)) == After(j, steps, name, desired).process
    decreases |steps|
  {
    if steps != [] {
      RunOfProcess(Next(j, steps[0], name, desired), steps[1..], name, desired);
      var rest := ProcessEvents(steps[1..]);
      if steps[0].Process? {
        assert ([steps[0].e] + rest)[0] == steps[0].e && ([steps[0].e] + rest)[1..] == rest;
      } else {
        assert [] + rest == rest;
      }
    }
  }

  // ---------------------------------------------------------------------------------------
  // Labels before exports.
  // ---------------------------------------------------------------------------------------

  /** The worker has labelled this node and has not finished with the pod. */
  predicate HasLabelled(pc: W.Pc, name: string) {
    (pc.Identifying? || pc.Exporting? || pc.Exported?) && pc.pod.node == name
  }

  /** The reconcilers are coherent, and whoever has labelled the node has left it as desired. */
  ghost predicate Inv(j: Joint, name: string, base: R.LabelMap, desired: R.LabelMap) {
    && |j.node.reconcilers| == |j.process.workers|
    && R.Coherent(j.node, base, desired)
    && forall w :: 0 <= w < |j.process.workers| && HasLabelled(j.process.workers[w], name) ==>
         R.OwnPart(j.node.labels) == desired
  }

  /** How a worker comes to have labelled the node. */
  lemma {:induction false} LabelledBy(s: W.State, e: W.Event, name: string)
    requires W.Enabled(s, e) && W.IsWorkerEvent(e) && HasLabelled(W.NextPc(s, e), name)
    ensures HasLabelled(s.workers[e.w], name) || (e.Label? && e.ok && IsLabeling(s.workers[e.w], name))
  {
  }

  lemma {:induction false} RestartKeepsCoherent(c: R.Cluster, w: nat, base: R.LabelMap, desired: R.LabelMap)
    requires R.Coherent(c, base, desired)
    ensures R.Coherent(Restart(c, w), base, desired) && Restart(c, w).labels == c.labels
    ensures |Restart(c, w).reconcilers| == |c.reconcilers|
  {
  }

  lemma {:induction false} WorkerKeepsInv(j: Joint, e: W.Event, name: string, base: R.LabelMap, desired: R.LabelMap)
    requires Inv(j, name, base, desired) && Enabled(j, Process(e), name) && W.IsWorkerEvent(e)
    ensures Inv(Next(j, Process(e), name, desired), name, base, desired)
  {
    var k := Next(j, Process(e), name, desired);
    RestartKeepsCoherent(j.node, e.w, base, desired);
    forall w | 0 <= w < |k.process.workers| && HasLabelled(k.process.workers[w], name)
      ensures R.OwnPart(j.node.labels) == desired
    {
      if w == e.w {
        LabelledBy(j.process, e, name);
      } else {
        assert k.process.workers[w] == j.process.workers[w];
      }
    }
  }

  lemma {:induction false} StepKeepsInv(j: Joint, s: Step, name: string, base: R.LabelMap, desired: R.LabelMap)
    requires OwnedLabels(desired) && Inv(j, name, base, desired) && Enabled(j, s, name)
    ensures Inv(Next(j, s, name, desired), name, base, desired)
    ensures R.OwnPart(j.node.labels) == desired ==> R.OwnPart(Next(j, s, name, desired).node.labels) == desired
  {
    match s
    case Process(e) =>
      if W.IsWorkerEvent(e) {
        WorkerKeepsInv(j, e, name, base, desired);
      } else {
        assert W.Next(j.process, e).workers == j.process.workers;
      }
    case Api(a) =>
      R.StepKeepsCoherent(j.node, a, base, desired);
  }

  lemma {:induction false} RunKeepsInv(j: Joint, steps: seq<Step>, name: string, base: R.LabelMap, desired: R.LabelMap)
    requires OwnedLabels(desired) && Inv(j, name, base, desired) && IsRun(j, steps, name, desired)
    ensures Inv(After(j, steps, name, desired), name, base, desired)
    ensures R.OwnPart(j.node.labels) == desired ==> R.OwnPart(After(j, steps, name, desired).node.labels) == desired
    decreases |steps|
  {
    if steps != [] {
      StepKeepsInv(j, steps[0], name, base, desired);
      RunKeepsInv(Next(j, steps[0], name, desired), steps[1..], name, base, desired);
    }
  }

  /** No export runs ahead of the labels: whenever a worker may export the serials of a pod on the
      node, or has just done so, the program's labels on the node are exactly the desired ones, and
      they stay so for the rest of the run, whatever workers, reconcilers and foreign writers do. */
  lemma {:induction false} ExportsAreLabelled(n: nat, start: int, labels: R.LabelMap, name: string, desired: R.LabelMap,
                                              before: seq<Step>, after: seq<Step>, w: nat)
    requires OwnedLabels(desired) && IsRun(Initial(n, start, labels), before, name, desired)
    requires var mid := After(Initial(n, start, labels), before, name, desired);
             && IsRun(mid, after, name, desired)
             && w < |mid.process.workers| && HasLabelled(mid.process.workers[w], name)
    ensures var mid := After(Initial(n, start, labels), before, name, desired);
            && R.OwnPart(mid.node.labels) == desired
            && R.OwnPart(After(mid, after, name, desired).node.labels) == desired
  {
    var init := Initial(n, start, labels);
    RunKeepsInv(init, before, name, R.OwnPart(labels), desired);
    RunKeepsInv(After(init, before, name, desired), after, name, R.OwnPart(labels), desired);
  }

  /** A worker in `EnsureLabels` is never stuck: its reconciler can make a call, or it returns. */
  lemma {:induction false} LabelingGoesOn(j: Joint, w: nat, name: string) returns (s: Step)
    requires |j.node.reconcilers| == |j.process.workers|
    requires w < |j.process.workers| && IsLabeling(j.process.workers[w], name)
    ensures Enabled(j, s, name)
    ensures s == Process(W.Label(w, s.Process? && s.e.Label? && s.e.ok)) || (s.Api? && !s.a.ForeignWrite? && s.a.r == w)
  {
    match j.node.reconcilers[w]
    case ToRead(_) => s := Api(R.Get(w, Some(R.Other)));
    case ToPatch(_, _) => s := Api(R.Send(w, false, R.PatchFailed(R.Other)));
    case Finished(outcome) => s := Process(W.Label(w, outcome.Returned?));
  }
}
