/** From GPU groups to a batch of records: `Exporter.Export`. */
module Export {
  import opened Text
  import opened Sorting
  import opened Grouping
  import opened Sanitizer
  import opened Postgres

  datatype PodRef = PodRef(namespace: string, name: string, nodeName: string)

  datatype Missing = MissingCluster | MissingNode | MissingMachine | MissingSource | MissingGpu | MissingTime

  /** `SerialNumberReading.Validate`; time 0 is Go's zero time. */
  function Validate(r: Record): Option<Missing> {
    if r.cluster == "" then Some(MissingCluster)
    else if r.node == "" then Some(MissingNode)
    else if r.machine == "" then Some(MissingMachine)
    else if r.source == "" then Some(MissingSource)
    else if r.gpu == "" then Some(MissingGpu)
    else if r.time == 0 then Some(MissingTime)
    else None
  }

  function RecordOf(cluster: string, pod: PodRef, machine: string, p: Reading, time: int): Record {
    Record(cluster, pod.nodeName, machine, pod.namespace + "/" + pod.name, p.chassis, p.serial, time)
  }

  function Pairs(chassis: string, gpu: seq<string>): seq<Reading> {
    if gpu == [] then [] else Pairs(chassis, gpu[..|gpu| - 1]) + [Reading(chassis, gpu[|gpu| - 1])]
  }

  /** The (chassis, serial) pairs of the groups that have a chassis, in order. */
  function Considered(serials: seq<Option<Serials>>): seq<Reading> {
    if serials == [] then []
    else
      Considered(serials[..|serials| - 1]) +
      match serials[|serials| - 1]
      case None => []
      case Some(s) => if s.chassis == "" then [] else Pairs(s.chassis, s.gpu)
  }

  /** The valid records of these pairs; `clock(k)` is the answer to the k-th time.Now(). */
  function RecordsOf(cluster: string, pod: PodRef, machine: string, ps: seq<Reading>, clock: nat -> int): seq<Record> {
    if ps == [] then []
    else
      var n := |ps| - 1;
      var r := RecordOf(cluster, pod, machine, ps[n], clock(n));
      RecordsOf(cluster, pod, machine, ps[..n], clock) + if Validate(r).None? then [r] else []
  }

  lemma {:induction false} RecordsAppend(cluster: string, pod: PodRef, machine: string, ps: seq<Reading>, p: Reading,
                                         clock: nat -> int)
    ensures var r := RecordOf(cluster, pod, machine, p, clock(|ps|));
            RecordsOf(cluster, pod, machine, ps + [p], clock) ==
              RecordsOf(cluster, pod, machine, ps, clock) + if Validate(r).None? then [r] else []
  {
    assert (ps + [p])[..|ps|] == ps;
  }

  /** The inner loop: the records of one group, after those of `before`. */
  method AppendGroup(records: seq<Record>, cluster: string, pod: PodRef, machine: string, cn: Serials,
                     clock: nat -> int, calls: nat, ghost before: seq<Reading>)
    returns (appended: seq<Record>, called: nat)
    requires calls == |before| && records == RecordsOf(cluster, pod, machine, before, clock)
    ensures called == |before + Pairs(cn.chassis, cn.gpu)|
    ensures appended == RecordsOf(cluster, pod, machine, before + Pairs(cn.chassis, cn.gpu), clock)
  {
    appended, called := records, calls;
    ghost var ps := before;
    for j := 0 to |cn.gpu|
      invariant ps == before + Pairs(cn.chassis, cn.gpu[..j]) && called == |ps|
      invariant appended == RecordsOf(cluster, pod, machine, ps, clock)
    {
      assert cn.gpu[..j + 1][..j] == cn.gpu[..j];
      var p := Reading(cn.chassis, cn.gpu[j]);
      RecordsAppend(cluster, pod, machine, ps, p, clock);
      ps := ps + [p];
      var record := RecordOf(cluster, pod, machine, p, clock(called));
      called := called + 1;
      if Validate(record).Some? {
        continue;
      }
      appended := appended + [record];
    }
    assert cn.gpu[..|cn.gpu|] == cn.gpu;
  }

  method BuildRecords(cluster: string, pod: PodRef, machine: string, serials: seq<Option<Serials>>, clock: nat -> int)
    returns (records: seq<Record>)
    ensures records == RecordsOf(cluster, pod, machine, Considered(serials), clock)
  {
    records := [];
    var calls := 0;
    for i := 0 to |serials|
      invariant calls == |Considered(serials[..i])|
      invariant records == RecordsOf(cluster, pod, machine, Considered(serials[..i]), clock)
    {
      assert serials[..i + 1][..i] == serials[..i];
      var cn := serials[i];
      ghost var before := Considered(serials[..i]);
      assert before + [] == before;
      if cn.None? || cn.value.chassis == "" {
        assert Considered(serials[..i + 1]) == before;
        continue;
      }
      assert Considered(serials[..i + 1]) == before + Pairs(cn.value.chassis, cn.value.gpu);
      records, calls := AppendGroup(records, cluster, pod, machine, cn.value, clock, calls, before);
    }
    assert serials[..|serials|] == serials;
  }

  predicate Blank(s: string) {
    TrimSpace(s) == ""
  }

  datatype BackendError = PostgresFailed(cause: WriteError) | OtherFailed

  datatype ExportError =
    | NotInitialized
    | ClusterRequired
    | PodRequired
    | NodeRequired
    | BackendFailed(cause: BackendError)

  /** Any backend: it may accept a batch or fail. `calls` lists the batches it was given. If it
      is the Postgres backend, `db` is its database, and `Write` is what runs. */
  class Backend {
    const db: Database?
    ghost var calls: seq<seq<Record>>

    ghost predicate Idle()
      reads this, db
    {
      db != null ==> !db.open
    }

    constructor (db: Database?)
      requires db != null ==> !db.open
      ensures Idle() && this.db == db && calls == []
    {
      this.db, calls := db, [];
    }

    method WriteBatch(records: seq<Record>, now: int) returns (err: Option<BackendError>)
      requires Idle()
      modifies this, if db == null then {} else {db}
      ensures Idle() && calls == old(calls) + [records]
      ensures db != null && err.None? ==> db.table == old(db.table) + RowsOf(Present(records), now)
      ensures db != null && err.Some? ==> db.table == old(db.table)
    {
      calls := calls + [records];
      if db == null {
        var accepted: bool := *;
        return if accepted then None else Some(OtherFailed);
      }
      var wErr := Write(db, Present(records), now);
      return if wErr.Some? then Some(PostgresFailed(wErr.value)) else None;
    }
  }

  /** What `Export` refuses before it looks at the serials. */
  function Refusal(hasBackend: bool, cluster: string, hasPod: bool, machine: string): Option<ExportError> {
    if !hasBackend then Some(NotInitialized)
    else if Blank(cluster) then Some(ClusterRequired)
    else if !hasPod then Some(PodRequired)
    else if Blank(machine) then Some(NodeRequired)
    else None
  }

  /** The batches `Export` hands to the backend: none or one. */
  function Batches(hasBackend: bool, cluster: string, pod: Option<PodRef>, machine: string,
                   serials: seq<Option<Serials>>, clock: nat -> int): seq<seq<Record>> {
    if serials == [] || Refusal(hasBackend, cluster, pod.Some?, machine).Some? then []
    else
      var records := RecordsOf(cluster, pod.value, machine, Considered(serials), clock);
      if records == [] then [] else [records]
  }

  /** `Export`. */
  method Export(backend: Backend?, cluster: string, pod: Option<PodRef>, machine: string, serials: seq<Option<Serials>>,
                clock: nat -> int, now: int)
    returns (err: Option<ExportError>)
    requires backend != null ==> backend.Idle()
    modifies if backend == null then {} else {backend}
    modifies if backend == null || backend.db == null then {} else {backend.db}
    ensures serials == [] ==> err.None?
    ensures serials != [] && backend == null ==> err == Some(NotInitialized)
    ensures serials != [] && backend != null && OnlyWhiteSpace(cluster) ==> err == Some(ClusterRequired)
    ensures serials != [] && backend != null && !OnlyWhiteSpace(cluster) && pod.None? ==> err == Some(PodRequired)
    ensures serials != [] && backend != null && !OnlyWhiteSpace(cluster) && pod.Some? && OnlyWhiteSpace(machine) ==>
              err == Some(NodeRequired)
    ensures serials != [] && Refusal(backend != null, cluster, pod.Some?, machine).Some? ==>
              err == Refusal(backend != null, cluster, pod.Some?, machine)
    ensures err.Some? ==> err.value.BackendFailed? || err == Refusal(backend != null, cluster, pod.Some?, machine)
    ensures backend != null ==> backend.Idle()
    ensures backend != null ==>
              backend.calls == old(backend.calls) + Batches(true, cluster, pod, machine, serials, clock)
    ensures backend != null && err.Some? && err.value.BackendFailed? ==>
              Batches(true, cluster, pod, machine, serials, clock) != []
    ensures backend != null && backend.db != null ==>
              if err.None? && serials != [] then
                pod.Some? && backend.db.table == old(backend.db.table) +
                               RowsOf(Present(RecordsOf(cluster, pod.value, machine, Considered(serials), clock)), now)
              else backend.db.table == old(backend.db.table)
  {
    BlankIsWhiteSpace(cluster);
    BlankIsWhiteSpace(machine);
    if |serials| == 0 {
      return None;
    }
    if backend == null {
      return Some(NotInitialized);
    }
    if Blank(cluster) {
      return Some(ClusterRequired);
    }
    if pod.None? {
      return Some(PodRequired);
    }
    if Blank(machine) {
      return Some(NodeRequired);
    }
    var records := BuildRecords(cluster, pod.value, machine, serials, clock);
    if |records| == 0 {
      return None;
    }
    var wErr := backend.WriteBatch(records, now);
    if wErr.Some? {
      return Some(BackendFailed(wErr.value));
    }
    return None;
  }

  // ---------------------------------------------------------------------------------------
  // What one batch holds.
  // ---------------------------------------------------------------------------------------

  function PairsOf(records: seq<Record>): (ps: seq<Reading>)
    ensures |ps| == |records|
    ensures forall i :: 0 <= i < |records| ==> ps[i] == Reading(records[i].chassis, records[i].gpu)
  {
    seq(|records|, i requires 0 <= i < |records| => Reading(records[i].chassis, records[i].gpu))
  }

  function WithSerial(ps: seq<Reading>): seq<Reading> {
    if ps == [] then []
    else WithSerial(ps[..|ps| - 1]) + if ps[|ps| - 1].serial == "" then [] else [ps[|ps| - 1]]
  }

  lemma {:induction false} WithSerialOfConcat(a: seq<Reading>, b: seq<Reading>)
    ensures WithSerial(a + b) == WithSerial(a) + WithSerial(b)
  {
    if b == [] {
      assert a + b == a;
    } else {
      assert (a + b)[..|a + b| - 1] == a + b[..|b| - 1];
      WithSerialOfConcat(a, b[..|b| - 1]);
    }
  }

  /** With every field but the serial filled in, exactly the pairs with a serial are kept, in order. */
  lemma {:induction false} RecordsKeepPairs(cluster: string, pod: PodRef, machine: string, ps: seq<Reading>,
                                            clock: nat -> int)
    requires cluster != "" && pod.nodeName != "" && machine != "" && forall k :: clock(k) != 0
    ensures PairsOf(RecordsOf(cluster, pod, machine, ps, clock)) == WithSerial(ps)
  {
    if ps != [] {
      var n := |ps| - 1;
      RecordsKeepPairs(cluster, pod, machine, ps[..n], clock);
      var before := RecordsOf(cluster, pod, machine, ps[..n], clock);
      var r := RecordOf(cluster, pod, machine, ps[n], clock(n));
      assert (before + [r])[..|before|] == before;
      assert before + [] == before;
    }
  }

  /** Without a node name no record is valid: such an export succeeds and writes nothing. */
  lemma {:induction false} NoNodeNoRecords(cluster: string, pod: PodRef, machine: string, ps: seq<Reading>,
                                           clock: nat -> int)
    requires pod.nodeName == ""
    ensures RecordsOf(cluster, pod, machine, ps, clock) == []
  {
    if ps != [] {
      NoNodeNoRecords(cluster, pod, machine, ps[..|ps| - 1], clock);
    }
  }

  /** For a pod without a node name the export succeeds and writes nothing: a batch holds every
      pair that has a serial exactly when the pod has a node name or there is no such pair. */
  lemma {:induction false} PairsKeptExactlyWithNode(cluster: string, pod: PodRef, machine: string, ps: seq<Reading>,
                                                    clock: nat -> int)
    requires cluster != "" && machine != "" && forall k :: clock(k) != 0
    ensures PairsOf(RecordsOf(cluster, pod, machine, ps, clock)) == WithSerial(ps) <==>
              pod.nodeName != "" || WithSerial(ps) == []
  {
    if pod.nodeName == "" {
      NoNodeNoRecords(cluster, pod, machine, ps, clock);
    } else {
      RecordsKeepPairs(cluster, pod, machine, ps, clock);
    }
  }

  predicate Exportable(s: Serials, p: Reading) {
    s.chassis == p.chassis && p.serial in s.gpu && p.chassis != "" && p.serial != ""
  }

  lemma {:induction false} CountOfAppend(a: seq<Reading>, b: seq<Reading>, p: Reading)
    ensures multiset(a + b)[p] == multiset(a)[p] + multiset(b)[p]
  {
  }

  lemma {:induction false} UnitOccurrences(chassis: string, gpu: seq<string>, p: Reading)
    requires chassis != "" && StrictlyOrdered(gpu, Less)
    ensures multiset(WithSerial(Pairs(chassis, gpu)))[p] == if Exportable(Serials(chassis, gpu), p) then 1 else 0
  {
    if gpu != [] {
      var n := |gpu| - 1;
      var before, last := Pairs(chassis, gpu[..n]), Reading(chassis, gpu[n]);
      UnitOccurrences(chassis, gpu[..n], p);
      ExportableAppend(chassis, gpu, p);
      assert (before + [last])[..|before|] == before;
      CountOfAppend(WithSerial(before), if gpu[n] == "" then [] else [last], p);
    }
  }

  lemma {:induction false} ExportableAppend(chassis: string, gpu: seq<string>, p: Reading)
    requires chassis != "" && gpu != [] && StrictlyOrdered(gpu, Less)
    ensures var n := |gpu| - 1;
            var was, last := Exportable(Serials(chassis, gpu[..n]), p), gpu[n] != "" && p == Reading(chassis, gpu[n]);
            && !(was && last)
            && (Exportable(Serials(chassis, gpu), p) <==> was || last)
  {
    LastIsNew(gpu);
    assert gpu == gpu[..|gpu| - 1] + [gpu[|gpu| - 1]];
  }

  lemma {:induction false} LastIsNew(gpu: seq<string>)
    requires gpu != [] && StrictlyOrdered(gpu, Less)
    ensures gpu[|gpu| - 1] !in gpu[..|gpu| - 1]
  {
    var n := |gpu| - 1;
    forall j | 0 <= j < n
      ensures gpu[j] != gpu[n]
    {
      LessAsymmetric(gpu[j], gpu[n]);
    }
  }

  ghost predicate SomeExportable(units: seq<Serials>, p: Reading) {
    exists u :: u in units && Exportable(u, p)
  }

  lemma {:induction false} SomeExportableAppend(units: seq<Serials>, u: Serials, p: Reading)
    requires DistinctChassis(units + [u])
    ensures SomeExportable(units + [u], p) <==> SomeExportable(units, p) || Exportable(u, p)
    ensures !(SomeExportable(units, p) && Exportable(u, p))
  {
    forall v | v in units
      ensures v.chassis != u.chassis
    {
      var i :| 0 <= i < |units| && units[i] == v;
      assert (units + [u])[i] == v && (units + [u])[|units|] == u;
    }
    assert u in units + [u];
    assert forall v :: v in units ==> v in units + [u];
  }

  lemma {:induction false} BatchCounts(units: seq<Serials>, rows: seq<Option<Serials>>, p: Reading)
    requires |rows| == |units| && forall i :: 0 <= i < |units| ==> rows[i] == Some(units[i])
    requires DistinctChassis(units) && forall u :: u in units ==> StrictlyOrdered(u.gpu, Less)
    ensures multiset(WithSerial(Considered(rows)))[p] == if SomeExportable(units, p) then 1 else 0
  {
    if units != [] {
      var n := |units| - 1;
      var u := units[n];
      assert units == units[..n] + [u];
      BatchCounts(units[..n], rows[..n], p);
      var last := if u.chassis == "" then [] else Pairs(u.chassis, u.gpu);
      WithSerialOfConcat(Considered(rows[..n]), last);
      CountOfAppend(WithSerial(Considered(rows[..n])), WithSerial(last), p);
      if u.chassis != "" {
        UnitOccurrences(u.chassis, u.gpu, p);
      }
      SomeExportableAppend(units[..n], u, p);
    }
  }

  /** One batch holds every reported pair with both parts exactly once, and nothing else. */
  lemma {:induction false} BatchConservation(reported: set<Reading>, units: seq<Serials>, rows: seq<Option<Serials>>,
                          cluster: string, pod: PodRef, machine: string, clock: nat -> int, p: Reading)
    requires IsGrouping(reported, units)
    requires |rows| == |units| && forall i :: 0 <= i < |units| ==> rows[i] == Some(units[i])
    requires cluster != "" && pod.nodeName != "" && machine != "" && forall k :: clock(k) != 0
    ensures var records := RecordsOf(cluster, pod, machine, Considered(rows), clock);
            && PairsOf(records) == WithSerial(Considered(rows))
            && multiset(PairsOf(records))[p] == if p in reported && p.chassis != "" && p.serial != "" then 1 else 0
  {
    RecordsKeepPairs(cluster, pod, machine, Considered(rows), clock);
    BatchCounts(units, rows, p);
    if p in reported && p.chassis != "" && p.serial != "" {
      var u :| u in units && u.chassis == p.chassis;
      assert UnitOf(reported, u) && Reading(u.chassis, p.serial) == p;
      assert Exportable(u, p);
    }
    forall u | u in units && Exportable(u, p)
      ensures p in reported
    {
      assert UnitOf(reported, u) && Reading(u.chassis, p.serial) == p;
    }
  }

  /** The record of a pair, field by field. */
  predicate IsRecordOf(r: Record, cluster: string, pod: PodRef, machine: string, p: Reading, time: int) {
    && r.cluster == cluster && r.node == pod.nodeName && r.machine == machine
    && r.source == pod.namespace + "/" + pod.name
    && r.chassis == p.chassis && r.gpu == p.serial && r.time == time
  }

  /** Every record of a batch is that of one of the pairs, with the pod's node, the machine, the
      pod's name, and the time that was read for it. */
  lemma {:induction false} RecordsSpelledOut(cluster: string, pod: PodRef, machine: string, ps: seq<Reading>,
                                             clock: nat -> int, i: nat)
    returns (k: nat)
    requires i < |RecordsOf(cluster, pod, machine, ps, clock)|
    ensures i <= k < |ps|
    ensures IsRecordOf(RecordsOf(cluster, pod, machine, ps, clock)[i], cluster, pod, machine, ps[k], clock(k))
  {
    var n := |ps| - 1;
    RecordsAreFewer(cluster, pod, machine, ps[..n], clock);
    if i < |RecordsOf(cluster, pod, machine, ps[..n], clock)| {
      k := RecordsSpelledOut(cluster, pod, machine, ps[..n], clock, i);
    } else {
      k := n;
    }
  }

  lemma {:induction false} RecordsAreFewer(cluster: string, pod: PodRef, machine: string, ps: seq<Reading>,
                                           clock: nat -> int)
    ensures |RecordsOf(cluster, pod, machine, ps, clock)| <= |ps|
  {
    if ps != [] {
      RecordsAreFewer(cluster, pod, machine, ps[..|ps| - 1], clock);
    }
  }

  /** A record is valid exactly if every field but the chassis is filled in, and the first one that is
      not decides the error. */
  lemma {:induction false} ValidateSpelledOut(r: Record)
    ensures Validate(r).None? <==>
              r.cluster != "" && r.node != "" && r.machine != "" && r.source != "" && r.gpu != "" && r.time != 0
    ensures r.cluster == "" ==> Validate(r) == Some(MissingCluster)
    ensures r.cluster != "" && r.node == "" ==> Validate(r) == Some(MissingNode)
    ensures r.cluster != "" && r.node != "" && r.machine == "" ==> Validate(r) == Some(MissingMachine)
  {
  }

  /** GPUs of a chassis without a serial number are labelled on the node but never exported, and
      the export reports success: a batch holds every reported GPU that has a serial number exactly
      when each of them sits in a chassis that has one. */
  lemma {:induction false} BatchIsComplete(reported: set<Reading>, units: seq<Serials>, rows: seq<Option<Serials>>,
                                           cluster: string, pod: PodRef, machine: string, clock: nat -> int)
    requires IsGrouping(reported, units)
    requires |rows| == |units| && forall i :: 0 <= i < |units| ==> rows[i] == Some(units[i])
    requires cluster != "" && pod.nodeName != "" && machine != "" && forall k :: clock(k) != 0
    ensures var ps := PairsOf(RecordsOf(cluster, pod, machine, Considered(rows), clock));
            (forall p :: p in reported && p.serial != "" ==> p in ps) <==>
            (forall p :: p in reported && p.serial != "" ==> p.chassis != "")
  {
    var ps := PairsOf(RecordsOf(cluster, pod, machine, Considered(rows), clock));
    forall p
      ensures p in ps <==> p in reported && p.chassis != "" && p.serial != ""
    {
      BatchConservation(reported, units, rows, cluster, pod, machine, clock, p);
      assert p in ps <==> p in multiset(ps);
    }
  }

  lemma {:induction false} RowsOfPresent(records: seq<Record>, now: int)
    ensures var rows := RowsOf(Present(records), now);
            |rows| == |records| && forall i :: 0 <= i < |records| ==> rows[i] == RowOf(records[i], now)
  {
    if records != [] {
      RowsOfPresent(records[..|records| - 1], now);
      assert Present(records)[..|records| - 1] == Present(records[..|records| - 1]);
    }
  }

  /** No two rows of a batch agree on the columns of the UNIQUE constraint. */
  lemma {:induction false} BatchRowsAreUnique(reported: set<Reading>, units: seq<Serials>, groups: seq<Option<Serials>>,
                           cluster: string, pod: PodRef, machine: string, clock: nat -> int, now: int, i: nat, j: nat)
    requires IsGrouping(reported, units)
    requires |groups| == |units| && forall k :: 0 <= k < |units| ==> groups[k] == Some(units[k])
    requires cluster != "" && pod.nodeName != "" && machine != "" && forall k :: clock(k) != 0
    requires var rows := RowsOf(Present(RecordsOf(cluster, pod, machine, Considered(groups), clock)), now);
             i < j < |rows|
    ensures var rows := RowsOf(Present(RecordsOf(cluster, pod, machine, Considered(groups), clock)), now);
            && (rows[i].chassis != rows[j].chassis || rows[i].gpu != rows[j].gpu)
            && UniqueColumns(rows[i]) != UniqueColumns(rows[j])
  {
    var records := RecordsOf(cluster, pod, machine, Considered(groups), clock);
    RowsOfPresent(records, now);
    var ps := PairsOf(records);
    BatchConservation(reported, units, groups, cluster, pod, machine, clock, ps[i]);
    BatchConservation(reported, units, groups, cluster, pod, machine, clock, ps[j]);
    assert ps[i] in multiset(ps) && ps[j] in multiset(ps);
    if ps[i] == ps[j] {
      RepeatedCounts(ps, i, j);
    }
  }

  /** What an export adds to the table, column by column. */
  lemma {:induction false} ExportedRowsSpelledOut(cluster: string, pod: PodRef, machine: string, ps: seq<Reading>,
                                                  clock: nat -> int, now: int, i: nat)
    returns (k: nat)
    requires i < |RowsOf(Present(RecordsOf(cluster, pod, machine, ps, clock)), now)|
    ensures i <= k < |ps|
    ensures var row := RowsOf(Present(RecordsOf(cluster, pod, machine, ps, clock)), now)[i];
            && row.cluster == cluster && row.node == pod.nodeName && row.machine == machine
            && row.source == pod.namespace + "/" + pod.name
            && row.chassis == (if ps[k].chassis == "" then "unknown" else ps[k].chassis)
            && row.gpu == ps[k].serial && row.readTime == clock(k) && row.createdAt == now
  {
    RowsOfPresent(RecordsOf(cluster, pod, machine, ps, clock), now);
    k := RecordsSpelledOut(cluster, pod, machine, ps, clock, i);
  }
}
