/** The node labels that describe a set of GPU groups: `calculateGPULabels`. */
module Labels {
  import opened Text
  import opened Sorting
  import opened Sanitizer
  import opened Grouping

  const LABEL_NS := "gpuid.github.com"

  /** The label names the program can write, before they are printed. */
  datatype Key =
    | ChassisOnly
    | ChassisAt(i: nat)
    | ChassisCount
    | Gpu(j: nat)
    | ChassisGpu(i: nat, j: nat)

  const CHASSIS_PREFIX := "chassis"
  const CHASSIS_COUNT := "chassis-count"
  const GPU_PREFIX := "gpu"

  /** The label name after the namespace. */
  function Name(k: Key): string {
    match k
    case ChassisOnly => CHASSIS_PREFIX
    case ChassisAt(i) => CHASSIS_PREFIX + "-" + Decimal(i)
    case ChassisCount => CHASSIS_COUNT
    case Gpu(j) => GPU_PREFIX + "-" + Decimal(j)
    case ChassisGpu(i, j) => CHASSIS_PREFIX + "-" + Decimal(i) + "-" + GPU_PREFIX + "-" + Decimal(j)
  }

  function Render(k: Key): string {
    LABEL_NS + "/" + Name(k)
  }

  /** What follows `chassis` in a label name. */
  function ChassisTail(k: Key): string
    requires !k.Gpu?
  {
    match k
    case ChassisOnly => ""
    case ChassisAt(i) => "-" + (Decimal(i) + "")
    case ChassisCount => "-count"
    case ChassisGpu(i, j) => "-" + (Decimal(i) + GpuTail(j))
  }

  function GpuTail(j: nat): string {
    "-gpu-" + Decimal(j)
  }

  lemma {:induction false} GpuShape(j: nat)
    ensures Name(Gpu(j)) == "gpu-" + Decimal(j)
  {
    assert GPU_PREFIX + "-" == "gpu-";
  }

  lemma {:induction false} FixedShape()
    ensures Name(ChassisOnly) == CHASSIS_PREFIX + ChassisTail(ChassisOnly)
    ensures Name(ChassisCount) == CHASSIS_PREFIX + ChassisTail(ChassisCount)
  {
  }

  lemma {:induction false} Associate(a: string, b: string, c: string)
    ensures a + b + c == a + (b + (c + ""))
  {
  }

  lemma {:induction false} ChassisAtShape(i: nat)
    ensures Name(ChassisAt(i)) == CHASSIS_PREFIX + ChassisTail(ChassisAt(i))
  {
    Associate(CHASSIS_PREFIX, "-", Decimal(i));
  }

  lemma {:induction false} AssociateFields(a: string, b: string, c: string, d: string, e: string, f: string, g: string)
    requires g == d + e + d
    ensures a + b + c + d + e + d + f == a + (b + (c + (g + f)))
  {
  }

  lemma {:induction false} ChassisGpuShape(i: nat, j: nat)
    ensures Name(ChassisGpu(i, j)) == CHASSIS_PREFIX + ChassisTail(ChassisGpu(i, j))
  {
    assert "-" + GPU_PREFIX + "-" == "-gpu-";
    AssociateFields(CHASSIS_PREFIX, "-", Decimal(i), "-", GPU_PREFIX, Decimal(j), "-gpu-");
  }

  lemma {:induction false} NameShape(k: Key)
    ensures k.Gpu? ==> Name(k) == "gpu-" + Decimal(k.j)
    ensures !k.Gpu? ==> Name(k) == CHASSIS_PREFIX + ChassisTail(k)
  {
    match k
    case Gpu(j) => GpuShape(j);
    case ChassisOnly => FixedShape();
    case ChassisAt(i) => ChassisAtShape(i);
    case ChassisCount => FixedShape();
    case ChassisGpu(i, j) => ChassisGpuShape(i, j);
  }

  lemma {:induction false} DropCommonPrefix(p: string, x: string, y: string)
    requires p + x == p + y
    ensures x == y
  {
    assert x == (p + x)[|p|..] && y == (p + y)[|p|..];
  }

  lemma {:induction false} ChassisTailInjective(k: Key, l: Key)
    requires !k.Gpu? && !l.Gpu? && ChassisTail(k) == ChassisTail(l)
    ensures k == l
  {
    if !k.ChassisOnly? && !l.ChassisOnly? {
      assert ChassisTail(k)[1..] == ChassisTail(l)[1..];
      if k.ChassisCount? || l.ChassisCount? {
        assert ChassisTail(k)[1] == ChassisTail(l)[1];
      } else {
        var x := if k.ChassisAt? then "" else GpuTail(k.j);
        var y := if l.ChassisAt? then "" else GpuTail(l.j);
        assert ChassisTail(k)[1..] == Decimal(k.i) + x;
        assert ChassisTail(l)[1..] == Decimal(l.i) + y;
        DigitsThenRest(Decimal(k.i), x, Decimal(l.i), y);
        DecimalInjective(k.i, l.i);
        if k.ChassisGpu? && l.ChassisGpu? {
          DropCommonPrefix("-gpu-", Decimal(k.j), Decimal(l.j));
          DecimalInjective(k.j, l.j);
        }
      }
    }
  }

  /** A label name determines what it names: kind, chassis index and GPU index. */
  lemma {:induction false} RenderInjective(k: Key, l: Key)
    requires Render(k) == Render(l)
    ensures k == l
  {
    DropCommonPrefix(LABEL_NS + "/", Name(k), Name(l));
    NameInjective(k, l);
  }

  lemma {:induction false} NameInjective(k: Key, l: Key)
    requires Name(k) == Name(l)
    ensures k == l
  {
    NameShape(k);
    NameShape(l);
    assert Name(k)[0] == if k.Gpu? then 'g' else 'c';
    assert Name(l)[0] == if l.Gpu? then 'g' else 'c';
    if k.Gpu? {
      DropCommonPrefix("gpu-", Decimal(k.j), Decimal(l.j));
      DecimalInjective(k.j, l.j);
    } else {
      DropCommonPrefix(CHASSIS_PREFIX, ChassisTail(k), ChassisTail(l));
      ChassisTailInjective(k, l);
    }
  }

  /** The label names as they stand on the node. */
  lemma {:induction false} NamesSpelledOut(i: nat, j: nat)
    ensures Render(ChassisOnly) == "gpuid.github.com/chassis"
    ensures Render(ChassisCount) == "gpuid.github.com/chassis-count"
    ensures Render(ChassisAt(i)) == "gpuid.github.com/chassis-" + Decimal(i)
    ensures Render(Gpu(j)) == "gpuid.github.com/gpu-" + Decimal(j)
    ensures Render(ChassisGpu(i, j)) == "gpuid.github.com/chassis-" + (Decimal(i) + ("-gpu-" + Decimal(j)))
  {
    var ns := LABEL_NS + "/";
    assert ns == "gpuid.github.com/";
    FixedShape();
    ChassisAtShape(i);
    ChassisGpuShape(i, j);
    GpuShape(j);
    assert Decimal(i) + "" == Decimal(i);
    assert ns + CHASSIS_PREFIX == "gpuid.github.com/chassis";
    assert ns + (CHASSIS_PREFIX + "-count") == "gpuid.github.com/chassis-count";
    AssociateLeft(ns, "gpu-", Decimal(j));
    assert ns + "gpu-" == "gpuid.github.com/gpu-";
    assert ns + CHASSIS_PREFIX + "-" == "gpuid.github.com/chassis-";
    AssociateLeft(ns, CHASSIS_PREFIX, "-" + Decimal(i));
    AssociateLeft(ns + CHASSIS_PREFIX, "-", Decimal(i));
    AssociateLeft(ns, CHASSIS_PREFIX, "-" + (Decimal(i) + GpuTail(j)));
    AssociateLeft(ns + CHASSIS_PREFIX, "-", Decimal(i) + GpuTail(j));
  }

  lemma {:induction false} AssociateLeft(a: string, b: string, c: string)
    ensures a + (b + c) == a + b + c
  {
  }

  type Row = Option<Serials>

  /** The comparison `calculateGPULabels` sorts by: chassis name, nil entries last. */
  predicate RowLess(a: Row, b: Row) {
    a.Some? && (b.None? || Less(a.value.chassis, b.value.chassis))
  }

  lemma {:induction false} RowsAreOrdered()
    ensures WeakOrder<Row>(RowLess)
  {
    StringsAreOrdered();
    forall x: Row, y: Row, z: Row | !RowLess(y, x) && !RowLess(z, y)
      ensures !RowLess(z, x)
    {
      if x.Some? && y.Some? && z.Some? {
        NotLessTransitive(x.value.chassis, y.value.chassis, z.value.chassis);
      }
    }
    forall x: Row, y: Row | RowLess(x, y)
      ensures !RowLess(y, x)
    {
      if x.Some? && y.Some? {
        LessAsymmetric(x.value.chassis, y.value.chassis);
      }
    }
  }

  /** The label value of a GPU serial; an empty serial gets no label and stays empty. */
  function GpuValue(serial: string): (v: string)
    ensures v == "" <==> serial == ""
  {
    SanitizeIsValid(serial);
    if serial == "" then "" else Sanitize(serial)
  }

  function GpuValues(gpu: seq<string>): (values: seq<string>)
    ensures |values| == |gpu|
    ensures forall j :: 0 <= j < |gpu| ==> values[j] == GpuValue(gpu[j])
  {
    seq(|gpu|, j requires 0 <= j < |gpu| => GpuValue(gpu[j]))
  }

  /** The label values of an entry: its chassis name sanitised, its GPUs sorted, then sanitised. */
  function Resolve(r: Row): Row {
    if r.None? then None else Some(Serials(Sanitize(r.value.chassis), GpuValues(Sorted(r.value.gpu))))
  }

  function ResolveAll(order: seq<Row>): (rows: seq<Row>)
    ensures |rows| == |order|
    ensures forall i :: 0 <= i < |order| ==> rows[i] == Resolve(order[i])
  {
    seq(|order|, i requires 0 <= i < |order| => Resolve(order[i]))
  }

  /** Does this resolved entry have a chassis serial number that can serve as a label? */
  predicate Named(r: Row) {
    r.Some? && r.value.chassis != NOT_SET
  }

  /** An arrangement of the input that a sort by `RowLess` may produce. */
  ghost predicate IsOrder(serials: seq<Row>, order: seq<Row>) {
    Permutation(serials, order) && Ordered(order, RowLess)
  }

  /** The entries in such an arrangement: chassis in the order of their names, nil entries last. */
  lemma {:induction false} OrderSpelledOut(serials: seq<Row>, order: seq<Row>, i: nat, j: nat)
    requires IsOrder(serials, order) && i < j < |order|
    ensures multiset(order) == multiset(serials)
    ensures order[j].Some? ==> order[i].Some?
    ensures order[j].Some? ==>
              (order[i].value.chassis == order[j].value.chassis ||
               exists k: nat :: SmallerAt(order[i].value.chassis, order[j].value.chassis, k))
  {
    if order[j].Some? {
      LessTotal(order[i].value.chassis, order[j].value.chassis);
      LessAtFirstDifference(order[i].value.chassis, order[j].value.chassis);
    }
  }

  /** The label of GPU `j` of entry `i`. */
  function GpuKey(i: nat, named: bool, j: nat, multiple: bool): Key {
    if multiple && named then ChassisGpu(i, j) else Gpu(j)
  }

  function ChassisKey(i: nat, multiple: bool): Key {
    if multiple then ChassisAt(i) else ChassisOnly
  }

  function AddGpus(m: map<Key, string>, i: nat, named: bool, gpu: seq<string>, multiple: bool): map<Key, string> {
    if gpu == [] then m
    else
      var j := |gpu| - 1;
      var before := AddGpus(m, i, named, gpu[..j], multiple);
      if gpu[j] == "" then before else before[GpuKey(i, named, j, multiple) := gpu[j]]
  }

  function AddRow(m: map<Key, string>, i: nat, r: Row, multiple: bool): map<Key, string> {
    if r.None? then m else AddGpus(AddChassis(m, i, r, multiple), i, Named(r), r.value.gpu, multiple)
  }

  function AddChassis(m: map<Key, string>, i: nat, r: Row, multiple: bool): map<Key, string> {
    if Named(r) then m[ChassisKey(i, multiple) := r.value.chassis] else m
  }

  /** The labels of resolved entries, added one after the other. */
  function AddRows(rows: seq<Row>, multiple: bool): map<Key, string> {
    if rows == [] then map[]
    else
      var i := |rows| - 1;
      AddRow(AddRows(rows[..i], multiple), i, rows[i], multiple)
  }

  function NamedCount(rows: seq<Row>): nat {
    if rows == [] then 0
    else NamedCount(rows[..|rows| - 1]) + if Named(rows[|rows| - 1]) then 1 else 0
  }

  function LabelsOf(rows: seq<Row>): map<Key, string> {
    var m := AddRows(rows, |rows| > 1);
    if NamedCount(rows) > 0 then m[ChassisCount := Decimal(NamedCount(rows))] else m
  }

  /** A label map as the API stores it, and the same map with its names read back. */
  ghost predicate Renders(labels: map<string, string>, m: map<Key, string>) {
    && (forall k :: k in m ==> Render(k) in labels && labels[Render(k)] == m[k])
    && (forall s :: s in labels ==> exists k :: k in m && Render(k) == s)
  }

  lemma {:induction false} RendersPut(labels: map<string, string>, m: map<Key, string>, k: Key, v: string)
    requires Renders(labels, m)
    ensures Renders(labels[Render(k) := v], m[k := v])
  {
    forall l | l in m && Render(l) == Render(k)
      ensures l == k
    {
      RenderInjective(k, l);
    }
    var put := labels[Render(k) := v];
    forall s | s in put
      ensures exists l :: l in m[k := v] && Render(l) == s
    {
      if s == Render(k) {
        assert k in m[k := v];
      } else {
        var l :| l in m && Render(l) == s;
        assert l in m[k := v];
      }
    }
  }

  /** Printing the names loses no label and merges none. */
  lemma {:induction false} RendersSize(labels: map<string, string>, m: map<Key, string>)
    requires Renders(labels, m)
    ensures |labels| == |m|
    decreases |m|
  {
    if m == map[] {
      assert labels == map[];
    } else {
      var k :| k in m;
      RemoveSize(m, k);
      RemoveSize(labels, Render(k));
      RendersWithout(labels, m, k);
      RendersSize(labels - {Render(k)}, m - {k});
    }
  }

  lemma {:induction false} RemoveSize<K, V>(m: map<K, V>, k: K)
    requires k in m
    ensures |m - {k}| == |m| - 1
  {
    assert m.Keys == (m - {k}).Keys + {k};
    assert |m.Keys| == |m| && |(m - {k}).Keys| == |m - {k}|;
  }

  lemma {:induction false} RendersWithout(labels: map<string, string>, m: map<Key, string>, k: Key)
    requires Renders(labels, m) && k in m
    ensures Renders(labels - {Render(k)}, m - {k})
  {
    var rest, others := m - {k}, labels - {Render(k)};
    forall l | l in rest
      ensures Render(l) in others
    {
      if Render(l) == Render(k) {
        RenderInjective(k, l);
      }
    }
    forall s | s in others
      ensures exists l :: l in rest && Render(l) == s
    {
      var l :| l in m && Render(l) == s;
      assert l in rest;
    }
  }

  /** The label map with its names printed. */
  ghost function Printed(m: map<Key, string>): map<string, string> {
    AllRenderInjective();
    map k | k in m :: Render(k) := m[k]
  }

  lemma {:induction false} AllRenderInjective()
    ensures forall k, l :: Render(k) == Render(l) ==> k == l
  {
    forall k, l | Render(k) == Render(l)
      ensures k == l
    {
      RenderInjective(k, l);
    }
  }

  lemma {:induction false} PrintedRenders(m: map<Key, string>)
    ensures Renders(Printed(m), m)
  {
    forall k | k in m
      ensures Render(k) in Printed(m) && Printed(m)[Render(k)] == m[k]
    {
      AllRenderInjective();
    }
  }

  lemma {:induction false} RendersIsPrinted(labels: map<string, string>, m: map<Key, string>)
    requires Renders(labels, m)
    ensures labels == Printed(m)
  {
    PrintedRenders(m);
    assert forall s :: s in labels ==> s in Printed(m) && labels[s] == Printed(m)[s];
    assert forall s :: s in Printed(m) ==> s in labels;
  }

  method CopyAndSortRows(serials: seq<Row>) returns (order: seq<Row>)
    ensures IsOrder(serials, order)
  {
    var a := new Row[|serials|](i requires 0 <= i < |serials| => serials[i]);
    assert a[..] == serials;
    RowsAreOrdered();
    SortSlice(a, RowLess);
    order := a[..];
  }

  method CopyAndSortGpus(gpu: seq<string>) returns (sorted: seq<string>)
    ensures sorted == Sorted(gpu)
  {
    var a := new string[|gpu|](i requires 0 <= i < |gpu| => gpu[i]);
    assert a[..] == gpu;
    SortStrings(a);
    sorted := a[..];
  }

  lemma {:induction false} GpuValueOf(g: string)
    ensures g != "" ==> GpuValue(g) == Sanitize(g)
  {
  }

  /** One more GPU of an entry. */
  lemma {:induction false} AddGpusStep(m: map<Key, string>, i: nat, named: bool, gpu: seq<string>, j: nat,
                                       multiple: bool)
    requires j < |gpu|
    ensures var before := AddGpus(m, i, named, gpu[..j], multiple);
            AddGpus(m, i, named, gpu[..j + 1], multiple) ==
              if gpu[j] == "" then before else before[GpuKey(i, named, j, multiple) := gpu[j]]
  {
    assert gpu[..j + 1][..j] == gpu[..j];
  }

  /** One more entry. */
  lemma {:induction false} AddRowsStep(rows: seq<Row>, i: nat, multiple: bool)
    requires i < |rows|
    ensures AddRows(rows[..i + 1], multiple) == AddRow(AddRows(rows[..i], multiple), i, rows[i], multiple)
    ensures NamedCount(rows[..i + 1]) == NamedCount(rows[..i]) + if Named(rows[i]) then 1 else 0
  {
    assert rows[..i + 1][..i] == rows[..i];
  }

  /** The inner loop: the labels of the GPUs of entry `i`, whose serials are in order. */
  method LabelGpus(labels: map<string, string>, i: nat, named: bool, gpuSerials: seq<string>, multipleChassis: bool,
                   ghost before: map<Key, string>)
    returns (updated: map<string, string>)
    requires Renders(labels, before)
    ensures Renders(updated, AddGpus(before, i, named, GpuValues(gpuSerials), multipleChassis))
  {
    updated := labels;
    ghost var values := GpuValues(gpuSerials);
    for j := 0 to |gpuSerials|
      invariant Renders(updated, AddGpus(before, i, named, values[..j], multipleChassis))
    {
      var g := gpuSerials[j];
      AddGpusStep(before, i, named, values, j, multipleChassis);
      if g == "" {
        continue;
      }
      var v := Sanitize(g);
      GpuValueOf(g);
      var k := GpuKey(i, named, j, multipleChassis);
      RendersPut(updated, AddGpus(before, i, named, values[..j], multipleChassis), k, v);
      updated := updated[Render(k) := v];
    }
    assert values[..|gpuSerials|] == values;
  }

  /** One round of the outer loop: the labels of entry `i`. */
  method LabelEntry(labels: map<string, string>, i: nat, s: Serials, multipleChassis: bool,
                    ghost before: map<Key, string>)
    returns (updated: map<string, string>, counted: bool)
    requires Renders(labels, before)
    ensures Renders(updated, AddRow(before, i, Resolve(Some(s)), multipleChassis))
    ensures counted == Named(Resolve(Some(s)))
  {
    updated := labels;
    var chassisSerial := Sanitize(s.chassis);
    counted := chassisSerial != NOT_SET;
    if counted {
      RendersPut(labels, before, ChassisKey(i, multipleChassis), chassisSerial);
      updated := updated[Render(ChassisKey(i, multipleChassis)) := chassisSerial];
    }
    var gpuSerials := CopyAndSortGpus(s.gpu);
    updated := LabelGpus(updated, i, counted, gpuSerials, multipleChassis,
                         AddChassis(before, i, Resolve(Some(s)), multipleChassis));
  }

  /** The labels that some sorted arrangement of the entries gives. */
  ghost predicate IsLabelling(serials: seq<Row>, labels: map<string, string>) {
    exists order :: IsOrder(serials, order) && labels == Printed(LabelsOf(ResolveAll(order)))
  }

  /** `calculateGPULabels`. */
  method CalculateGPULabels(serials: seq<Row>) returns (labels: map<string, string>)
    ensures IsLabelling(serials, labels)
  {
    labels := map[];
    if |serials| == 0 {
      assert LabelsOf(ResolveAll([])) == map[];
      RendersIsPrinted(labels, map[]);
      assert IsOrder(serials, []) && labels == Printed(LabelsOf(ResolveAll([])));
      return;
    }
    var order := CopyAndSortRows(serials);
    ghost var rows := ResolveAll(order);
    var chassisCount := 0;
    var multipleChassis := |order| > 1;
    for i := 0 to |order|
      invariant Renders(labels, AddRows(rows[..i], multipleChassis))
      invariant chassisCount == NamedCount(rows[..i])
    {
      var s := order[i];
      AddRowsStep(rows, i, multipleChassis);
      if s == None {
        continue;
      }
      var counted;
      labels, counted := LabelEntry(labels, i, s.value, multipleChassis, AddRows(rows[..i], multipleChassis));
      if counted {
        chassisCount := chassisCount + 1;
      }
    }
    assert rows[..|rows|] == rows;
    if chassisCount > 0 {
      RendersPut(labels, AddRows(rows, multipleChassis), ChassisCount, Decimal(chassisCount));
      labels := labels[Render(ChassisCount) := Decimal(chassisCount)];
    }
    RendersIsPrinted(labels, LabelsOf(rows));
    assert IsOrder(serials, order) && labels == Printed(LabelsOf(ResolveAll(order)));
  }
}
