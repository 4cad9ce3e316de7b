/** What the computed labels mean, when they lose nothing, and why they are canonical. */
module LabelTheorems {
  import opened Text
  import opened Sorting
  import opened Sanitizer
  import opened Grouping
  import opened Labels

  predicate HasGpu(r: Row, j: nat) {
    r.Some? && j < |r.value.gpu| && r.value.gpu[j] != ""
  }

  /** The GPUs of this entry get labels without a chassis index. */
  predicate Plain(r: Row, multiple: bool) {
    r.Some? && !(multiple && Named(r))
  }

  /** `i` is the last entry that has a GPU `j` to label without a chassis index. */
  ghost predicate LastPlainAt(rows: seq<Row>, i: nat, j: nat) {
    var multiple := |rows| > 1;
    && i < |rows| && Plain(rows[i], multiple) && HasGpu(rows[i], j)
    && forall k :: i < k < |rows| ==> !(Plain(rows[k], multiple) && HasGpu(rows[k], j))
  }

  /** The label `k` is due for these entries, with value `v`. */
  ghost predicate Due(rows: seq<Row>, k: Key, v: string) {
    match k
    case ChassisOnly => |rows| == 1 && Named(rows[0]) && v == rows[0].value.chassis
    case ChassisAt(i) => |rows| > 1 && i < |rows| && Named(rows[i]) && v == rows[i].value.chassis
    case ChassisCount =>
      var named := set i | 0 <= i < |rows| && Named(rows[i]);
      named != {} && v == Decimal(|named|)
    case Gpu(j) => exists i: nat :: LastPlainAt(rows, i, j) && v == rows[i].value.gpu[j]
    case ChassisGpu(i, j) =>
      |rows| > 1 && i < |rows| && Named(rows[i]) && HasGpu(rows[i], j) && v == rows[i].value.gpu[j]
  }

  function Lookup(m: map<Key, string>, k: Key): Option<string> {
    if k in m then Some(m[k]) else None
  }

  /** The value of label `gpu-j` after the given entries. */
  function PlainValue(rows: seq<Row>, multiple: bool, j: nat): Option<string> {
    if rows == [] then None
    else
      var r := rows[|rows| - 1];
      if Plain(r, multiple) && HasGpu(r, j) then Some(r.value.gpu[j])
      else PlainValue(rows[..|rows| - 1], multiple, j)
  }

  /** The labels after the given entries, without the chassis count. */
  function Wanted(rows: seq<Row>, multiple: bool, k: Key): Option<string> {
    match k
    case ChassisOnly => if !multiple && |rows| == 1 && Named(rows[0]) then Some(rows[0].value.chassis) else None
    case ChassisAt(i) => if multiple && i < |rows| && Named(rows[i]) then Some(rows[i].value.chassis) else None
    case ChassisCount => None
    case Gpu(j) => PlainValue(rows, multiple, j)
    case ChassisGpu(i, j) =>
      if multiple && i < |rows| && Named(rows[i]) && HasGpu(rows[i], j) then Some(rows[i].value.gpu[j]) else None
  }

  ghost predicate Tracks(m: map<Key, string>, rows: seq<Row>, multiple: bool) {
    forall k :: Lookup(m, k) == Wanted(rows, multiple, k)
  }

  lemma {:induction false} AddGpusTracks(m: map<Key, string>, rows: seq<Row>, chassis: string, gpu: seq<string>,
                                         multiple: bool)
    requires multiple || rows == []
    requires Tracks(m, rows + [Some(Serials(chassis, []))], multiple)
    ensures Tracks(AddGpus(m, |rows|, Named(Some(Serials(chassis, []))), gpu, multiple),
                   rows + [Some(Serials(chassis, gpu))], multiple)
  {
    if gpu != [] {
      var j := |gpu| - 1;
      AddGpusTracks(m, rows, chassis, gpu[..j], multiple);
      var named := Named(Some(Serials(chassis, [])));
      var was, now := rows + [Some(Serials(chassis, gpu[..j]))], rows + [Some(Serials(chassis, gpu))];
      assert was[..|rows|] == rows == now[..|rows|];
      forall k
        ensures Lookup(AddGpus(m, |rows|, named, gpu, multiple), k) == Wanted(now, multiple, k)
      {
        assert Lookup(AddGpus(m, |rows|, named, gpu[..j], multiple), k) == Wanted(was, multiple, k);
      }
    }
  }

  /** The labels after the chassis of one more entry, before its GPUs. */
  lemma {:induction false} ChassisTracks(m: map<Key, string>, before: seq<Row>, s: Serials, multiple: bool)
    requires multiple || before == []
    requires Tracks(m, before, multiple)
    ensures Tracks(AddChassis(m, |before|, Some(s), multiple), before + [Some(Serials(s.chassis, []))], multiple)
  {
    var bare := before + [Some(Serials(s.chassis, []))];
    assert bare[..|before|] == before;
    forall k
      ensures Lookup(AddChassis(m, |before|, Some(s), multiple), k) == Wanted(bare, multiple, k)
    {
      assert Lookup(m, k) == Wanted(before, multiple, k);
    }
  }

  lemma {:induction false} AddRowTracks(m: map<Key, string>, before: seq<Row>, r: Row, multiple: bool)
    requires multiple || before == []
    requires Tracks(m, before, multiple)
    ensures Tracks(AddRow(m, |before|, r, multiple), before + [r], multiple)
  {
    if r.Some? {
      ChassisTracks(m, before, r.value, multiple);
      AddGpusTracks(AddChassis(m, |before|, r, multiple), before, r.value.chassis, r.value.gpu, multiple);
    } else {
      assert (before + [r])[..|before|] == before;
      forall k
        ensures Lookup(m, k) == Wanted(before + [r], multiple, k)
      {
        assert Lookup(m, k) == Wanted(before, multiple, k);
      }
    }
  }

  lemma {:induction false} AddRowsTracks(rows: seq<Row>, multiple: bool)
    requires multiple || |rows| <= 1
    ensures Tracks(AddRows(rows, multiple), rows, multiple)
  {
    if rows != [] {
      var i := |rows| - 1;
      AddRowsTracks(rows[..i], multiple);
      AddRowTracks(AddRows(rows[..i], multiple), rows[..i], rows[i], multiple);
      assert rows == rows[..i] + [rows[i]];
    }
  }

  lemma {:induction false} NamedCountIsCardinality(rows: seq<Row>)
    ensures NamedCount(rows) == |set i | 0 <= i < |rows| && Named(rows[i])|
  {
    if rows != [] {
      var n := |rows| - 1;
      NamedCountIsCardinality(rows[..n]);
      var before := set i | 0 <= i < n && Named(rows[..n][i]);
      var now := set i | 0 <= i < |rows| && Named(rows[i]);
      forall i
        ensures i in now <==> i in before || (i == n && Named(rows[n]))
      {
      }
      assert now == if Named(rows[n]) then before + {n} else before;
    }
  }

  lemma {:induction false} PlainValueIsLast(rows: seq<Row>, multiple: bool, j: nat) returns (i: nat)
    requires PlainValue(rows, multiple, j).Some?
    ensures i < |rows| && Plain(rows[i], multiple) && HasGpu(rows[i], j)
    ensures PlainValue(rows, multiple, j) == Some(rows[i].value.gpu[j])
    ensures forall k :: i < k < |rows| ==> !(Plain(rows[k], multiple) && HasGpu(rows[k], j))
  {
    i := |rows| - 1;
    if !(Plain(rows[i], multiple) && HasGpu(rows[i], j)) {
      i := PlainValueIsLast(rows[..i], multiple, j);
    }
  }

  lemma {:induction false} PlainValueFound(rows: seq<Row>, multiple: bool, j: nat, i: nat)
    requires i < |rows| && Plain(rows[i], multiple) && HasGpu(rows[i], j)
    ensures PlainValue(rows, multiple, j).Some?
  {
    if i < |rows| - 1 {
      PlainValueFound(rows[..|rows| - 1], multiple, j, i);
    }
  }

  /** The computed labels are exactly the labels that are due. */
  lemma {:induction false} LabelsAreDue(rows: seq<Row>, k: Key, v: string)
    ensures k in LabelsOf(rows) && LabelsOf(rows)[k] == v <==> Due(rows, k, v)
  {
    var multiple := |rows| > 1;
    AddRowsTracks(rows, multiple);
    NamedCountIsCardinality(rows);
    assert Lookup(AddRows(rows, multiple), k) == Wanted(rows, multiple, k);
    if k.Gpu? {
      if PlainValue(rows, multiple, k.j).Some? {
        var i := PlainValueIsLast(rows, multiple, k.j);
        assert LastPlainAt(rows, i, k.j);
      }
      forall i: nat | LastPlainAt(rows, i, k.j)
        ensures PlainValue(rows, multiple, k.j) == Some(rows[i].value.gpu[k.j])
      {
        PlainValueFound(rows, multiple, k.j, i);
        var l := PlainValueIsLast(rows, multiple, k.j);
      }
    }
  }

  function NonEmpty(gpu: seq<string>): nat {
    if gpu == [] then 0 else NonEmpty(gpu[..|gpu| - 1]) + if gpu[|gpu| - 1] != "" then 1 else 0
  }

  /** The number of non-empty serials in the entries. */
  function SerialCount(rows: seq<Row>): nat {
    if rows == [] then 0
    else SerialCount(rows[..|rows| - 1]) + match rows[|rows| - 1] case None => 0 case Some(s) => NonEmpty(s.gpu)
  }

  /** No two entries want the same label for one of their GPUs. */
  ghost predicate NoClash(rows: seq<Row>, multiple: bool) {
    forall i, l, j: nat :: 0 <= i < l < |rows| && Plain(rows[i], multiple) && Plain(rows[l], multiple) ==>
      !(HasGpu(rows[i], j) && HasGpu(rows[l], j))
  }

  /** No entry before the last one wants a label that the last one wants. */
  ghost predicate LastFresh(rows: seq<Row>, chassis: string, gpu: seq<string>, multiple: bool) {
    Plain(Some(Serials(chassis, gpu)), multiple) ==>
      forall j: nat :: j < |gpu| && gpu[j] != "" ==> PlainValue(rows, multiple, j).None?
  }

  lemma {:induction false} AddGpusSize(m: map<Key, string>, rows: seq<Row>, chassis: string, gpu: seq<string>,
                                       multiple: bool)
    requires multiple || rows == []
    requires Tracks(m, rows + [Some(Serials(chassis, []))], multiple)
    ensures var now := AddGpus(m, |rows|, Named(Some(Serials(chassis, []))), gpu, multiple);
            |now| <= |m| + NonEmpty(gpu) &&
            (|now| == |m| + NonEmpty(gpu) <==> LastFresh(rows, chassis, gpu, multiple))
  {
    if gpu != [] {
      var j := |gpu| - 1;
      var named := Named(Some(Serials(chassis, [])));
      AddGpusSize(m, rows, chassis, gpu[..j], multiple);
      AddGpusTracks(m, rows, chassis, gpu[..j], multiple);
      var before := AddGpus(m, |rows|, named, gpu[..j], multiple);
      var was := rows + [Some(Serials(chassis, gpu[..j]))];
      assert was[..|rows|] == rows;
      assert Lookup(before, GpuKey(|rows|, named, j, multiple)) ==
        Wanted(was, multiple, GpuKey(|rows|, named, j, multiple));
      assert LastFresh(rows, chassis, gpu, multiple) <==>
        LastFresh(rows, chassis, gpu[..j], multiple) &&
        (Plain(Some(Serials(chassis, gpu)), multiple) && gpu[j] != "" ==> PlainValue(rows, multiple, j).None?);
    }
  }

  lemma {:induction false} PlainValueNone(rows: seq<Row>, multiple: bool, j: nat)
    ensures PlainValue(rows, multiple, j).None? <==>
              forall i :: 0 <= i < |rows| ==> !(Plain(rows[i], multiple) && HasGpu(rows[i], j))
  {
    if PlainValue(rows, multiple, j).Some? {
      var i := PlainValueIsLast(rows, multiple, j);
    }
    forall i | 0 <= i < |rows| && Plain(rows[i], multiple) && HasGpu(rows[i], j)
      ensures PlainValue(rows, multiple, j).Some?
    {
      PlainValueFound(rows, multiple, j, i);
    }
  }

  lemma {:induction false} NoClashExtends(rows: seq<Row>, s: Serials, multiple: bool)
    ensures NoClash(rows + [Some(s)], multiple) <==>
              NoClash(rows, multiple) && LastFresh(rows, s.chassis, s.gpu, multiple)
  {
    var now := rows + [Some(s)];
    assert forall i :: 0 <= i < |rows| ==> now[i] == rows[i];
    forall j: nat
      ensures PlainValue(rows, multiple, j).None? <==>
                forall i :: 0 <= i < |rows| ==> !(Plain(rows[i], multiple) && HasGpu(rows[i], j))
    {
      PlainValueNone(rows, multiple, j);
    }
    if NoClash(rows, multiple) && LastFresh(rows, s.chassis, s.gpu, multiple) {
      forall i, l, j: nat | 0 <= i < l < |now| && Plain(now[i], multiple) && Plain(now[l], multiple)
        ensures !(HasGpu(now[i], j) && HasGpu(now[l], j))
      {
        if l == |rows| && HasGpu(now[l], j) {
          assert PlainValue(rows, multiple, j).None?;
        }
      }
    }
    if NoClash(now, multiple) {
      assert NoClash(rows, multiple) by {
        forall i, l, j: nat | 0 <= i < l < |rows| && Plain(rows[i], multiple) && Plain(rows[l], multiple)
          ensures !(HasGpu(rows[i], j) && HasGpu(rows[l], j))
        {
          assert !(HasGpu(now[i], j) && HasGpu(now[l], j));
        }
      }
      assert LastFresh(rows, s.chassis, s.gpu, multiple) by {
        if Plain(Some(s), multiple) {
          forall j: nat | j < |s.gpu| && s.gpu[j] != ""
            ensures PlainValue(rows, multiple, j).None?
          {
            assert HasGpu(now[|rows|], j);
            assert forall i :: 0 <= i < |rows| && Plain(now[i], multiple) ==> !HasGpu(now[i], j);
          }
        }
      }
    }
  }

  lemma {:induction false} AddRowSize(m: map<Key, string>, before: seq<Row>, s: Serials, multiple: bool)
    requires multiple || before == []
    requires Tracks(m, before, multiple)
    ensures var grown := NonEmpty(s.gpu) + if Named(Some(s)) then 1 else 0;
            && |AddRow(m, |before|, Some(s), multiple)| <= |m| + grown
            && (|AddRow(m, |before|, Some(s), multiple)| == |m| + grown <==>
                  LastFresh(before, s.chassis, s.gpu, multiple))
  {
    ChassisTracks(m, before, s, multiple);
    var k := ChassisKey(|before|, multiple);
    assert Lookup(m, k) == Wanted(before, multiple, k) == None;
    AddGpusSize(AddChassis(m, |before|, Some(s), multiple), before, s.chassis, s.gpu, multiple);
  }

  lemma {:induction false} NoClashSkipsNil(before: seq<Row>, multiple: bool)
    ensures NoClash(before + [None], multiple) <==> NoClash(before, multiple)
  {
    var now := before + [None];
    assert forall i :: 0 <= i < |before| ==> now[i] == before[i];
    if NoClash(now, multiple) {
      forall i, l, j: nat | 0 <= i < l < |before| && Plain(before[i], multiple) && Plain(before[l], multiple)
        ensures !(HasGpu(before[i], j) && HasGpu(before[l], j))
      {
        assert !(HasGpu(now[i], j) && HasGpu(now[l], j));
      }
    }
  }

  /** What `AddRowsSize` says about these entries. */
  ghost predicate Sized(rows: seq<Row>, multiple: bool) {
    && |AddRows(rows, multiple)| <= SerialCount(rows) + NamedCount(rows)
    && (|AddRows(rows, multiple)| == SerialCount(rows) + NamedCount(rows) <==> NoClash(rows, multiple))
  }

  lemma {:induction false} AddRowsAppend(before: seq<Row>, r: Row, multiple: bool)
    ensures AddRows(before + [r], multiple) == AddRow(AddRows(before, multiple), |before|, r, multiple)
    ensures SerialCount(before + [r]) == SerialCount(before) + match r case None => 0 case Some(s) => NonEmpty(s.gpu)
    ensures NamedCount(before + [r]) == NamedCount(before) + if Named(r) then 1 else 0
  {
    assert (before + [r])[..|before|] == before;
  }

  lemma {:induction false} SizedAppend(before: seq<Row>, r: Row, multiple: bool)
    requires multiple || before == []
    requires Sized(before, multiple) && Tracks(AddRows(before, multiple), before, multiple)
    ensures Sized(before + [r], multiple)
  {
    AddRowsAppend(before, r, multiple);
    match r
    case None => NoClashSkipsNil(before, multiple);
    case Some(s) =>
      AddRowSize(AddRows(before, multiple), before, s, multiple);
      NoClashExtends(before, s, multiple);
  }

  lemma {:induction false} AddRowsSize(rows: seq<Row>, multiple: bool)
    requires multiple || |rows| <= 1
    ensures Sized(rows, multiple)
  {
    if rows != [] {
      var i := |rows| - 1;
      AddRowsSize(rows[..i], multiple);
      AddRowsTracks(rows[..i], multiple);
      SizedAppend(rows[..i], rows[i], multiple);
      assert rows == rows[..i] + [rows[i]];
    }
  }

  /** One label for every non-empty serial, one for every named chassis and one for their
      number; this holds exactly when no two unnamed entries have a serial at the same position. */
  lemma {:induction false} LabelConservation(rows: seq<Row>, labels: map<string, string>)
    requires Renders(labels, LabelsOf(rows))
    ensures |labels| <= SerialCount(rows) + NamedCount(rows) + (if NamedCount(rows) > 0 then 1 else 0)
    ensures |labels| == SerialCount(rows) + NamedCount(rows) + (if NamedCount(rows) > 0 then 1 else 0)
            <==> NoClash(rows, |rows| > 1)
  {
    var multiple := |rows| > 1;
    AddRowsSize(rows, multiple);
    CountIsFresh(rows, multiple);
    RendersSize(labels, LabelsOf(rows));
  }

  lemma {:induction false} CountIsFresh(rows: seq<Row>, multiple: bool)
    requires multiple || |rows| <= 1
    ensures ChassisCount !in AddRows(rows, multiple)
  {
    AddRowsTracks(rows, multiple);
    assert Lookup(AddRows(rows, multiple), ChassisCount) == None;
  }

  /** Two chassis without a usable serial number share the label of their first GPU: of the two
      serials that nvidia-smi reports for them, one gets no label. */
  lemma {:induction false} UnnamedChassisClash(labels: map<string, string>)
    requires IsLabelling([Some(Serials("", ["A"])), Some(Serials("N/A", ["B"]))], labels)
    ensures labels == map[LABEL_NS + "/gpu-0" := "B"]
  {
    var first, second: Row := Some(Serials("", ["A"])), Some(Serials("N/A", ["B"]));
    var order :| IsOrder([first, second], order) && labels == Printed(LabelsOf(ResolveAll(order)));
    assert RowLess(first, second);
    OnlyOrder(first, second, order);
    SingleSerial("", "A");
    SingleSerial("N/A", "B");
    ResolveTwo(first, second);
    TwoUnnamed();
    PrintedOne(Gpu(0), "B");
    GpuZero();
  }

  lemma {:induction false} OnlyOrder(first: Row, second: Row, order: seq<Row>)
    requires RowLess(first, second) && IsOrder([first, second], order)
    ensures order == [first, second]
  {
    RowsAreOrdered();
    SortedPermutationUnique([first, second], order, RowLess);
  }

  lemma {:induction false} ResolveTwo(first: Row, second: Row)
    ensures ResolveAll([first, second]) == [Resolve(first), Resolve(second)]
  {
  }

  lemma {:induction false} PrintedOne(k: Key, v: string)
    ensures Printed(map[k := v]) == map[Render(k) := v]
  {
    PrintedRenders(map[k := v]);
  }

  lemma {:induction false} GpuZero()
    ensures Render(Gpu(0)) == LABEL_NS + "/gpu-0"
  {
    assert Decimal(0) == "0";
    NameShape(Gpu(0));
    assert LABEL_NS + "/" + ("gpu-" + "0") == LABEL_NS + "/gpu-0";
  }

  lemma {:induction false} SingleSerial(chassis: string, serial: string)
    requires chassis == "" || chassis == "N/A"
    requires ValidLabelValue(serial)
    ensures Resolve(Some(Serials(chassis, [serial]))) == Some(Serials(NOT_SET, [serial]))
  {
    StrictIsSorted([serial]);
    ValidIsFixed(serial);
    assert GpuValues([serial]) == [serial];
  }

  lemma {:induction false} TwoUnnamed()
    ensures LabelsOf([Some(Serials(NOT_SET, ["A"])), Some(Serials(NOT_SET, ["B"]))]) == map[Gpu(0) := "B"]
  {
    var first, second: Row := Some(Serials(NOT_SET, ["A"])), Some(Serials(NOT_SET, ["B"]));
    var rows := [first, second];
    assert rows[..1] == [first] && [first][..0] == [];
    assert ["A"][..0] == [] && ["B"][..0] == [];
    assert NamedCount([first]) == 0 && NamedCount(rows) == 0;
    assert AddRows([first], true) == AddGpus(map[], 0, false, ["A"], true) == map[Gpu(0) := "A"];
    assert AddRows(rows, true) == AddGpus(map[Gpu(0) := "A"], 1, false, ["B"], true) == map[Gpu(0) := "B"];
  }

  lemma {:induction false} PresentMembers(units: seq<Serials>, r: Row)
    ensures r in Present(units) <==> r.Some? && r.value in units
  {
    if r.Some? && r.value in units {
      var i :| 0 <= i < |units| && units[i] == r.value;
      assert Present(units)[i] == r;
    }
  }

  /** A grouping has one sorted arrangement: no two of its entries compare equal. */
  lemma {:induction false} OrderIsStrict(reported: set<Reading>, units: seq<Serials>, order: seq<Row>)
    requires IsGrouping(reported, units) && IsOrder(Present(units), order)
    ensures StrictlyOrdered(order, RowLess)
    ensures forall r :: r in order <==> r.Some? && r.value in units
  {
    var rows := Present(units);
    forall r
      ensures r in order <==> r.Some? && r.value in units
    {
      PresentMembers(units, r);
      assert r in multiset(rows) <==> r in multiset(order);
    }
    forall i, j | 0 <= i < j < |order|
      ensures RowLess(order[i], order[j])
    {
      assert order[i] in order && order[j] in order;
      if order[i] == order[j] {
        RepeatedCounts(order, i, j);
        DistinctCounts(rows, order[i]);
      }
      LessTotal(order[i].value.chassis, order[j].value.chassis);
    }
  }

  /** The labels depend on the set of reported (chassis, serial) pairs and on nothing else:
      not on the order or repetition of GPUs, map iteration order, or how the sort breaks ties. */
  lemma {:induction false} LabelsAreCanonical(reported: set<Reading>, units: seq<Serials>, others: seq<Serials>,
                           labels: map<string, string>, otherLabels: map<string, string>)
    requires IsGrouping(reported, units) && IsLabelling(Present(units), labels)
    requires IsGrouping(reported, others) && IsLabelling(Present(others), otherLabels)
    ensures labels == otherLabels
  {
    var order :| IsOrder(Present(units), order) && labels == Printed(LabelsOf(ResolveAll(order)));
    var otherOrder :| IsOrder(Present(others), otherOrder) && otherLabels == Printed(LabelsOf(ResolveAll(otherOrder)));
    OrderIsStrict(reported, units, order);
    OrderIsStrict(reported, others, otherOrder);
    forall u
      ensures u in units <==> u in others
    {
      if u in units {
        SameUnits(reported, units, others, u);
      }
      if u in others {
        SameUnits(reported, others, units, u);
      }
    }
    RowsAreOrdered();
    StrictArrangementUnique(order, otherOrder, RowLess);
  }

  /** Two runs of the whole pipeline on reports that hold the same pairs agree. */
  method LabelTwice(gpus: seq<Reading>, others: seq<Reading>)
    returns (labels: map<string, string>, otherLabels: map<string, string>)
    requires Reported(gpus) == Reported(others)
    ensures labels == otherLabels
  {
    var units := GroupSerials(gpus);
    labels := CalculateGPULabels(Present(units));
    var otherUnits := GroupSerials(others);
    otherLabels := CalculateGPULabels(Present(otherUnits));
    LabelsAreCanonical(Reported(gpus), units, otherUnits, labels, otherLabels);
  }

  /** Every computed label is in the program's namespace and has a value. */
  ghost predicate OwnedLabels(labels: map<string, string>) {
    forall s :: s in labels ==> HasPrefix(s, LABEL_NS) && labels[s] != ""
  }

  lemma {:induction false} LabelsAreOwned(serials: seq<Row>, labels: map<string, string>)
    requires IsLabelling(serials, labels)
    ensures OwnedLabels(labels)
  {
    var order :| IsOrder(serials, order) && labels == Printed(LabelsOf(ResolveAll(order)));
    PrintedRenders(LabelsOf(ResolveAll(order)));
    forall s | s in labels
      ensures HasPrefix(s, LABEL_NS) && labels[s] != ""
    {
      var k :| k in LabelsOf(ResolveAll(order)) && Render(k) == s;
      LabelsAreDue(ResolveAll(order), k, labels[s]);
      DueHasValue(order, k, labels[s]);
      RenderInNamespace(k);
    }
  }

  lemma {:induction false} RenderInNamespace(k: Key)
    ensures HasPrefix(Render(k), LABEL_NS)
  {
    assert Render(k) == LABEL_NS + ("/" + Name(k));
  }

  lemma {:induction false} DueHasValue(order: seq<Row>, k: Key, v: string)
    requires Due(ResolveAll(order), k, v)
    ensures v != ""
  {
    match k
    case ChassisOnly => SanitizeIsValid(order[0].value.chassis);
    case ChassisAt(i) => SanitizeIsValid(order[i].value.chassis);
    case _ =>
  }

  // ---------------------------------------------------------------------------------------
  // How many labels a report gives.
  // ---------------------------------------------------------------------------------------

  /** The reported GPUs that have a serial number. */
  function Serialised(reported: set<Reading>): set<Reading> {
    set r | r in reported && r.serial != ""
  }

  /** The reported chassis that can serve as a label value. */
  function NamedChassis(reported: set<Reading>): set<string> {
    set r | r in reported && Sanitize(r.chassis) != NOT_SET :: r.chassis
  }

  /** Units with different chassis and each serial once. */
  ghost predicate Tidy(units: seq<Serials>) {
    && DistinctChassis(units)
    && forall i :: 0 <= i < |units| ==> StrictlyOrdered(units[i].gpu, Less)
  }

  function UnitReadings(u: Serials): set<Reading> {
    set s | s in u.gpu && s != "" :: Reading(u.chassis, s)
  }

  function ReadingsOf(units: seq<Serials>): set<Reading> {
    if units == [] then {} else ReadingsOf(units[..|units| - 1]) + UnitReadings(units[|units| - 1])
  }

  function ChassisOf(units: seq<Serials>): set<string> {
    if units == [] then {}
    else
      var u := units[|units| - 1];
      ChassisOf(units[..|units| - 1]) + if Sanitize(u.chassis) != NOT_SET then {u.chassis} else {}
  }

  lemma {:induction false} ReadingsOfMembers(units: seq<Serials>, r: Reading)
    ensures r in ReadingsOf(units) <==>
              r.serial != "" && exists u :: u in units && u.chassis == r.chassis && r.serial in u.gpu
  {
    if units != [] {
      var n := |units| - 1;
      ReadingsOfMembers(units[..n], r);
      assert units == units[..n] + [units[n]];
    }
  }

  lemma {:induction false} ChassisOfMembers(units: seq<Serials>, c: string)
    ensures c in ChassisOf(units) <==> Sanitize(c) != NOT_SET && exists u :: u in units && u.chassis == c
  {
    if units != [] {
      var n := |units| - 1;
      ChassisOfMembers(units[..n], c);
      assert units == units[..n] + [units[n]];
    }
  }

  lemma {:induction false} UnitReadingsSize(chassis: string, gpu: seq<string>)
    requires StrictlyOrdered(gpu, Less)
    ensures |UnitReadings(Serials(chassis, gpu))| == NonEmpty(gpu)
  {
    if gpu != [] {
      var n := |gpu| - 1;
      UnitReadingsSize(chassis, gpu[..n]);
      forall j | 0 <= j < n
        ensures gpu[j] != gpu[n]
      {
        LessAsymmetric(gpu[j], gpu[n]);
      }
      assert gpu == gpu[..n] + [gpu[n]];
      var before := UnitReadings(Serials(chassis, gpu[..n]));
      assert Reading(chassis, gpu[n]) !in before;
      var last := if gpu[n] != "" then {Reading(chassis, gpu[n])} else {};
      assert UnitReadings(Serials(chassis, gpu)) == before + last;
    }
  }

  lemma {:induction false} ValuesKeepEmptiness(gpu: seq<string>)
    ensures NonEmpty(GpuValues(gpu)) == NonEmpty(gpu)
  {
    if gpu != [] {
      ValuesKeepEmptiness(gpu[..|gpu| - 1]);
      assert GpuValues(gpu)[..|gpu| - 1] == GpuValues(gpu[..|gpu| - 1]);
    }
  }

  lemma {:induction false} StrictIsSorted(gpu: seq<string>)
    requires StrictlyOrdered(gpu, Less)
    ensures Sorted(gpu) == gpu
  {
    forall i, j | 0 <= i < j < |gpu|
      ensures !Less(gpu[j], gpu[i])
    {
      LessAsymmetric(gpu[i], gpu[j]);
    }
    SortedIsUnique(gpu, gpu);
  }

  lemma {:induction false} TidyPrefix(units: seq<Serials>)
    requires Tidy(units) && units != []
    ensures Tidy(units[..|units| - 1])
    ensures ReadingsOf(units[..|units| - 1]) !! UnitReadings(units[|units| - 1])
    ensures units[|units| - 1].chassis !in ChassisOf(units[..|units| - 1])
  {
    var n := |units| - 1;
    forall r | r in ReadingsOf(units[..n])
      ensures r !in UnitReadings(units[n])
    {
      ReadingsOfMembers(units[..n], r);
    }
    ChassisOfMembers(units[..n], units[n].chassis);
  }

  /** Resolving entries one by one. */
  lemma {:induction false} ResolveAppend(units: seq<Serials>)
    requires units != []
    ensures ResolveAll(Present(units)) ==
              ResolveAll(Present(units[..|units| - 1])) + [Resolve(Some(units[|units| - 1]))]
  {
    assert Present(units)[..|units| - 1] == Present(units[..|units| - 1]);
  }

  lemma {:induction false} UnitCounts(u: Serials)
    requires StrictlyOrdered(u.gpu, Less)
    ensures Resolve(Some(u)).value.chassis == Sanitize(u.chassis)
    ensures NonEmpty(Resolve(Some(u)).value.gpu) == |UnitReadings(u)|
  {
    StrictIsSorted(u.gpu);
    ValuesKeepEmptiness(u.gpu);
    UnitReadingsSize(u.chassis, u.gpu);
  }

  lemma {:induction false} CountsOfTidy(units: seq<Serials>)
    requires Tidy(units)
    ensures SerialCount(ResolveAll(Present(units))) == |ReadingsOf(units)|
    ensures NamedCount(ResolveAll(Present(units))) == |ChassisOf(units)|
  {
    if units != [] {
      var n := |units| - 1;
      TidyPrefix(units);
      CountsOfTidy(units[..n]);
      UnitCounts(units[n]);
      ResolveAppend(units);
      AddRowsAppend(ResolveAll(Present(units[..n])), Resolve(Some(units[n])), true);
    }
  }

  /** The one sorted arrangement of a grouping, as units again. */
  lemma {:induction false} Unwrap(reported: set<Reading>, units: seq<Serials>, order: seq<Row>)
    returns (sorted: seq<Serials>)
    requires IsGrouping(reported, units) && IsOrder(Present(units), order)
    ensures order == Present(sorted) && Tidy(sorted) && forall u :: u in sorted <==> u in units
  {
    OrderIsStrict(reported, units, order);
    assert forall i :: 0 <= i < |order| ==> order[i] in order;
    sorted := seq(|order|, i requires 0 <= i < |order| => order[i].value);
    assert order == Present(sorted);
    forall i, j | 0 <= i < j < |sorted|
      ensures sorted[i].chassis != sorted[j].chassis
    {
      assert RowLess(order[i], order[j]);
      LessAsymmetric(sorted[i].chassis, sorted[j].chassis);
    }
    forall u
      ensures u in sorted <==> u in units
    {
      PresentMembers(sorted, Some(u));
    }
    forall i | 0 <= i < |sorted|
      ensures StrictlyOrdered(sorted[i].gpu, Less)
    {
      assert sorted[i] in units;
    }
  }

  lemma {:induction false} GroupingCovers(reported: set<Reading>, units: seq<Serials>, sorted: seq<Serials>)
    requires IsGrouping(reported, units) && forall u :: u in sorted <==> u in units
    ensures ReadingsOf(sorted) == Serialised(reported) && ChassisOf(sorted) == NamedChassis(reported)
  {
    forall r
      ensures r in ReadingsOf(sorted) <==> r in Serialised(reported)
    {
      ReadingsOfMembers(sorted, r);
      if r in reported {
        var u :| u in units && u.chassis == r.chassis;
        assert UnitOf(reported, u) && Reading(u.chassis, r.serial) == r;
      }
      forall u | u in sorted && u.chassis == r.chassis && r.serial in u.gpu
        ensures r in reported
      {
        assert UnitOf(reported, u) && Reading(u.chassis, r.serial) == r;
      }
    }
    forall c
      ensures c in ChassisOf(sorted) <==> c in NamedChassis(reported)
    {
      ChassisOfMembers(sorted, c);
      forall u | u in sorted && u.chassis == c
        ensures exists r :: r in reported && r.chassis == c
      {
        assert UnitOf(reported, u) && u.gpu[0] in u.gpu;
        assert Reading(c, u.gpu[0]) in reported;
      }
      forall r | r in reported && r.chassis == c
        ensures exists u :: u in sorted && u.chassis == c
      {
        assert HasUnit(units, c);
      }
    }
  }

  function SerialsOf(reported: set<Reading>, chassis: string): set<string> {
    set r | r in reported && r.chassis == chassis :: r.serial
  }

  /** Two reported chassis without a usable serial number need one label for two GPUs: neither
      has a GPU without a serial number, or both have more than one serial number. */
  ghost predicate Contend(reported: set<Reading>, c: string, d: string) {
    var ss, ts := SerialsOf(reported, c), SerialsOf(reported, d);
    && c != d && Sanitize(c) == NOT_SET && Sanitize(d) == NOT_SET && ss != {} && ts != {}
    && (("" !in ss && "" !in ts) || (|ss| > 1 && |ts| > 1))
  }

  ghost predicate Contended(reported: set<Reading>) {
    exists c, d :: Contend(reported, c, d)
  }

  lemma {:induction false} StrictSize(gpu: seq<string>)
    requires StrictlyOrdered(gpu, Less)
    ensures |set s | s in gpu| == |gpu|
  {
    if gpu != [] {
      var n := |gpu| - 1;
      StrictSize(gpu[..n]);
      forall j | 0 <= j < n
        ensures gpu[j] != gpu[n]
      {
        LessAsymmetric(gpu[j], gpu[n]);
      }
      assert gpu == gpu[..n] + [gpu[n]];
      var before := set s | s in gpu[..n];
      assert gpu[n] !in before;
      assert (set s | s in gpu) == before + {gpu[n]};
    }
  }

  lemma {:induction false} UnitSerials(reported: set<Reading>, u: Serials)
    requires UnitOf(reported, u)
    ensures SerialsOf(reported, u.chassis) == set s | s in u.gpu
    ensures |SerialsOf(reported, u.chassis)| == |u.gpu| > 0
  {
    forall s
      ensures s in SerialsOf(reported, u.chassis) <==> s in u.gpu
    {
      assert s in u.gpu <==> Reading(u.chassis, s) in reported;
    }
    StrictSize(u.gpu);
  }

  /** A GPU without a serial number comes first in its unit. */
  lemma {:induction false} EmptyComesFirst(gpu: seq<string>)
    requires StrictlyOrdered(gpu, Less) && gpu != []
    ensures "" in gpu <==> gpu[0] == ""
    ensures forall j :: 0 < j < |gpu| ==> gpu[j] != ""
  {
    forall j | 0 < j < |gpu|
      ensures gpu[j] != ""
    {
      assert Less(gpu[0], gpu[j]);
    }
  }

  lemma {:induction false} ResolvedHasGpu(u: Serials, j: nat)
    requires StrictlyOrdered(u.gpu, Less)
    ensures HasGpu(Resolve(Some(u)), j) <==> j < |u.gpu| && u.gpu[j] != ""
  {
    StrictIsSorted(u.gpu);
  }

  ghost predicate ShareGpu(r: Row, q: Row) {
    exists j: nat :: HasGpu(r, j) && HasGpu(q, j)
  }

  lemma {:induction false} ContendIsSharing(reported: set<Reading>, u: Serials, v: Serials)
    requires UnitOf(reported, u) && UnitOf(reported, v) && u.chassis != v.chassis
    requires Sanitize(u.chassis) == NOT_SET && Sanitize(v.chassis) == NOT_SET
    ensures Contend(reported, u.chassis, v.chassis) <==> ShareGpu(Resolve(Some(u)), Resolve(Some(v)))
  {
    UnitSerials(reported, u);
    UnitSerials(reported, v);
    EmptyComesFirst(u.gpu);
    EmptyComesFirst(v.gpu);
    forall j: nat
      ensures HasGpu(Resolve(Some(u)), j) <==> j < |u.gpu| && u.gpu[j] != ""
      ensures HasGpu(Resolve(Some(v)), j) <==> j < |v.gpu| && v.gpu[j] != ""
    {
      ResolvedHasGpu(u, j);
      ResolvedHasGpu(v, j);
    }
    if Contend(reported, u.chassis, v.chassis) {
      var j := if |u.gpu| > 1 && |v.gpu| > 1 then 1 else 0;
      assert HasGpu(Resolve(Some(u)), j) && HasGpu(Resolve(Some(v)), j);
    }
  }

  /** Every unit is from the report, and every reported chassis has a unit. */
  ghost predicate UnitsOf(reported: set<Reading>, units: seq<Serials>) {
    && Tidy(units)
    && (forall i :: 0 <= i < |units| ==> UnitOf(reported, units[i]))
    && (forall c :: SerialsOf(reported, c) != {} ==> exists i :: 0 <= i < |units| && units[i].chassis == c)
  }

  lemma {:induction false} SharingClashes(rows: seq<Row>, i: nat, l: nat)
    requires i < |rows| && l < |rows| && i != l && ShareGpu(rows[i], rows[l])
    requires Plain(rows[i], true) && Plain(rows[l], true)
    ensures !NoClash(rows, true)
  {
    var j: nat :| HasGpu(rows[i], j) && HasGpu(rows[l], j);
    if i < l {
      assert HasGpu(rows[i], j) && HasGpu(rows[l], j);
    } else {
      assert HasGpu(rows[l], j) && HasGpu(rows[i], j);
    }
  }

  lemma {:induction false} ContendedClashes(reported: set<Reading>, units: seq<Serials>)
    requires UnitsOf(reported, units) && Contended(reported)
    ensures !NoClash(ResolveAll(Present(units)), |units| > 1)
  {
    var c, d :| Contend(reported, c, d);
    var i := FindUnit(reported, units, c);
    var l := FindUnit(reported, units, d);
    ContendIsSharing(reported, units[i], units[l]);
    SharingClashes(ResolveAll(Present(units)), i, l);
  }

  lemma {:induction false} FindUnit(reported: set<Reading>, units: seq<Serials>, c: string) returns (i: nat)
    requires UnitsOf(reported, units) && SerialsOf(reported, c) != {}
    ensures i < |units| && units[i].chassis == c
  {
    i :| 0 <= i < |units| && units[i].chassis == c;
  }

  lemma {:induction false} UncontendedNoClash(reported: set<Reading>, units: seq<Serials>)
    requires UnitsOf(reported, units) && !Contended(reported)
    ensures NoClash(ResolveAll(Present(units)), |units| > 1)
  {
    var rows := ResolveAll(Present(units));
    forall i, l, j: nat | 0 <= i < l < |rows| && Plain(rows[i], |units| > 1) && Plain(rows[l], |units| > 1)
      ensures !(HasGpu(rows[i], j) && HasGpu(rows[l], j))
    {
      ContendIsSharing(reported, units[i], units[l]);
      assert !Contend(reported, units[i].chassis, units[l].chassis);
    }
  }

  lemma {:induction false} TidyConservation(reported: set<Reading>, units: seq<Serials>, labels: map<string, string>)
    requires UnitsOf(reported, units) && Renders(labels, LabelsOf(ResolveAll(Present(units))))
    ensures var due := |ReadingsOf(units)| + |ChassisOf(units)| + if ChassisOf(units) != {} then 1 else 0;
            |labels| <= due && (|labels| == due <==> !Contended(reported))
  {
    if Contended(reported) {
      ContendedClashes(reported, units);
    } else {
      UncontendedNoClash(reported, units);
    }
    CountsOfTidy(units);
    LabelConservation(ResolveAll(Present(units)), labels);
  }

  lemma {:induction false} LabelledUnits(reported: set<Reading>, units: seq<Serials>, labels: map<string, string>)
    returns (sorted: seq<Serials>)
    requires IsGrouping(reported, units) && IsLabelling(Present(units), labels)
    ensures UnitsOf(reported, sorted) && Renders(labels, LabelsOf(ResolveAll(Present(sorted))))
    ensures forall u :: u in sorted <==> u in units
  {
    var order :| IsOrder(Present(units), order) && labels == Printed(LabelsOf(ResolveAll(order)));
    PrintedRenders(LabelsOf(ResolveAll(order)));
    sorted := Unwrap(reported, units, order);
    UnwrappedUnits(reported, units, sorted);
  }

  lemma {:induction false} UnwrappedUnits(reported: set<Reading>, units: seq<Serials>, sorted: seq<Serials>)
    requires IsGrouping(reported, units) && Tidy(sorted) && forall u :: u in sorted <==> u in units
    ensures UnitsOf(reported, sorted)
  {
    forall i | 0 <= i < |sorted|
      ensures UnitOf(reported, sorted[i])
    {
      assert sorted[i] in units;
    }
    forall c | SerialsOf(reported, c) != {}
      ensures exists i :: 0 <= i < |sorted| && sorted[i].chassis == c
    {
      var s :| s in SerialsOf(reported, c);
      assert Reading(c, s) in reported;
      var u :| u in units && u.chassis == c;
      var i :| 0 <= i < |sorted| && sorted[i] == u;
    }
  }

  /** From the report to the node: there is at most one label for every GPU with a serial number,
      one for every usable chassis, and one for their number; and none is missing exactly when
      no two unusable chassis of the report contend for a label. */
  lemma {:induction false} ReportConservation(reported: set<Reading>, units: seq<Serials>, labels: map<string, string>)
    requires IsGrouping(reported, units) && IsLabelling(Present(units), labels)
    ensures var named := NamedChassis(reported);
            var due := |Serialised(reported)| + |named| + if named != {} then 1 else 0;
            |labels| <= due && (|labels| == due <==> !Contended(reported))
  {
    var sorted := LabelledUnits(reported, units, labels);
    TidyConservation(reported, sorted, labels);
    GroupingCovers(reported, units, sorted);
  }

  // ---------------------------------------------------------------------------------------
  // The labels on the entries as they come.
  // ---------------------------------------------------------------------------------------

  /** Entry `i` names a chassis with a usable serial number. */
  predicate Usable(order: seq<Row>, i: nat) {
    i < |order| && order[i].Some? && Sanitize(order[i].value.chassis) != "na"
  }

  /** The `j`-th serial number of entry `i`, in order, is `serial`, and is not empty. */
  predicate SerialAt(order: seq<Row>, i: nat, j: nat, serial: string) {
    i < |order| && order[i].Some? && j < |Sorted(order[i].value.gpu)| && Sorted(order[i].value.gpu)[j] == serial != ""
  }

  /** The label is called for, with this value, by sorted entries that have not been touched. */
  ghost predicate CalledFor(order: seq<Row>, k: Key, v: string) {
    match k
    case ChassisOnly => |order| == 1 && Usable(order, 0) && v == Sanitize(order[0].value.chassis)
    case ChassisAt(i) => |order| > 1 && Usable(order, i) && v == Sanitize(order[i].value.chassis)
    case ChassisCount => (exists i :: Usable(order, i)) && v == Decimal(|set i | 0 <= i < |order| && Usable(order, i)|)
    case Gpu(j) =>
      exists i: nat, serial ::
        && SerialAt(order, i, j, serial) && v == Sanitize(serial)
        && (|order| == 1 || !Usable(order, i))
        && forall l, other :: i < l && SerialAt(order, l, j, other) ==> Usable(order, l)
    case ChassisGpu(i, j) =>
      |order| > 1 && Usable(order, i) && exists serial :: SerialAt(order, i, j, serial) && v == Sanitize(serial)
  }

  lemma {:induction false} UsableIsNamed(order: seq<Row>, i: nat)
    ensures Usable(order, i) <==> i < |order| && Named(ResolveAll(order)[i])
  {
  }

  lemma {:induction false} SerialAtIsHasGpu(order: seq<Row>, i: nat, j: nat)
    ensures (exists serial :: SerialAt(order, i, j, serial)) <==> i < |order| && HasGpu(ResolveAll(order)[i], j)
    ensures forall serial :: SerialAt(order, i, j, serial) ==> ResolveAll(order)[i].value.gpu[j] == Sanitize(serial)
  {
    if i < |order| && order[i].Some? && j < |Sorted(order[i].value.gpu)| {
      var serial := Sorted(order[i].value.gpu)[j];
      GpuValueOf(serial);
      assert serial != "" ==> SerialAt(order, i, j, serial);
    }
  }

  lemma {:induction false} DueIsCalledFor(order: seq<Row>, k: Key, v: string)
    ensures Due(ResolveAll(order), k, v) <==> CalledFor(order, k, v)
  {
    var rows := ResolveAll(order);
    match k
    case ChassisOnly => UsableIsNamed(order, 0);
    case ChassisAt(i) => UsableIsNamed(order, i);
    case ChassisCount =>
      ResolvedMirrors(order, 0);
      CountIsCalledFor(order, rows, 0, v);
    case Gpu(j) =>
      ResolvedMirrors(order, j);
      PlainIsCalledFor(order, rows, j, v);
      if CalledFor(order, k, v) {
        CalledForIsPlain(order, rows, j, v);
      }
    case ChassisGpu(i, j) =>
      UsableIsNamed(order, i);
      SerialAtIsHasGpu(order, i, j);
  }

  /** The resolved entries show which entries are usable and which have a `j`-th serial number. */
  ghost predicate Mirrors(order: seq<Row>, rows: seq<Row>, j: nat) {
    && |rows| == |order|
    && (forall i: nat :: Usable(order, i) <==> i < |rows| && Named(rows[i]))
    && (forall i: nat, serial :: SerialAt(order, i, j, serial) ==>
          i < |rows| && HasGpu(rows[i], j) && rows[i].value.gpu[j] == Sanitize(serial))
    && (forall i: nat :: i < |rows| && HasGpu(rows[i], j) ==> exists serial :: SerialAt(order, i, j, serial))
  }

  lemma {:induction false} ResolvedMirrors(order: seq<Row>, j: nat)
    ensures Mirrors(order, ResolveAll(order), j)
  {
    forall i: nat
      ensures Usable(order, i) <==> i < |order| && Named(ResolveAll(order)[i])
      ensures (exists serial :: SerialAt(order, i, j, serial)) <==> i < |order| && HasGpu(ResolveAll(order)[i], j)
      ensures forall serial :: SerialAt(order, i, j, serial) ==> ResolveAll(order)[i].value.gpu[j] == Sanitize(serial)
    {
      UsableIsNamed(order, i);
      SerialAtIsHasGpu(order, i, j);
    }
  }

  lemma {:induction false} CountIsCalledFor(order: seq<Row>, rows: seq<Row>, j: nat, v: string)
    requires Mirrors(order, rows, j)
    ensures Due(rows, ChassisCount, v) <==> CalledFor(order, ChassisCount, v)
  {
    var usable := set i | 0 <= i < |order| && Usable(order, i);
    SameIndices(order, rows);
    SomeUsable(order, usable);
  }

  lemma {:induction false} SameIndices(order: seq<Row>, rows: seq<Row>)
    requires |rows| == |order|
    requires forall i: nat :: Usable(order, i) <==> i < |rows| && Named(rows[i])
    ensures (set i | 0 <= i < |rows| && Named(rows[i])) == (set i | 0 <= i < |order| && Usable(order, i))
  {
  }

  lemma {:induction false} SomeUsable(order: seq<Row>, usable: set<int>)
    requires usable == set i | 0 <= i < |order| && Usable(order, i)
    ensures usable != {} <==> exists i :: Usable(order, i)
  {
    if i :| Usable(order, i) {
      assert i in usable;
    }
    if usable != {} {
      var i :| i in usable;
      assert Usable(order, i);
    }
  }

  lemma {:induction false} PlainIsCalledFor(order: seq<Row>, rows: seq<Row>, j: nat, v: string)
    requires Mirrors(order, rows, j)
    ensures Due(rows, Gpu(j), v) ==> CalledFor(order, Gpu(j), v)
  {
    if Due(rows, Gpu(j), v) {
      var i: nat :| LastPlainAt(rows, i, j) && v == rows[i].value.gpu[j];
      var serial :| SerialAt(order, i, j, serial);
      forall l, other | i < l && SerialAt(order, l, j, other)
        ensures Usable(order, l)
      {
        assert HasGpu(rows[l], j);
      }
    }
  }

  lemma {:induction false} CalledForIsPlain(order: seq<Row>, rows: seq<Row>, j: nat, v: string)
    requires Mirrors(order, rows, j) && CalledFor(order, Gpu(j), v)
    ensures Due(rows, Gpu(j), v)
  {
    var i: nat, serial :|
      && SerialAt(order, i, j, serial) && v == Sanitize(serial)
      && (|order| == 1 || !Usable(order, i))
      && forall l, other :: i < l && SerialAt(order, l, j, other) ==> Usable(order, l);
    forall l | i < l < |rows| && Plain(rows[l], |rows| > 1)
      ensures !HasGpu(rows[l], j)
    {
      assert |rows| > 1;
    }
    assert LastPlainAt(rows, i, j);
  }

  /** Every computed label and every value, on the entries themselves: some arrangement of them that
      the sort may give calls for exactly these labels. */
  lemma {:induction false} LabelsOnEntries(serials: seq<Row>, labels: map<string, string>) returns (order: seq<Row>)
    requires IsLabelling(serials, labels)
    ensures IsOrder(serials, order)
    ensures forall k, v :: Render(k) in labels && labels[Render(k)] == v <==> CalledFor(order, k, v)
    ensures forall s :: s in labels ==> exists k :: Render(k) == s
  {
    order :| IsOrder(serials, order) && labels == Printed(LabelsOf(ResolveAll(order)));
    var m := LabelsOf(ResolveAll(order));
    PrintedRenders(m);
    forall k, v
      ensures Render(k) in labels && labels[Render(k)] == v <==> CalledFor(order, k, v)
    {
      LabelsAreDue(ResolveAll(order), k, v);
      DueIsCalledFor(order, k, v);
      LookupRendered(labels, m, k);
    }
  }

  /** Reading a label by its printed name. */
  lemma {:induction false} LookupRendered(labels: map<string, string>, m: map<Key, string>, k: Key)
    requires Renders(labels, m)
    ensures Render(k) in labels <==> k in m
    ensures k in m ==> labels[Render(k)] == m[k]
  {
    if Render(k) in labels {
      var l :| l in m && Render(l) == Render(k);
      RenderInjective(k, l);
    }
  }
}
