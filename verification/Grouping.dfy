/** Grouping the GPUs that nvidia-smi reports by the chassis they sit in. */
module Grouping {
  import opened Text
  import opened Sorting

  /** What one GPU of the nvidia-smi output says about itself. */
  datatype Reading = Reading(chassis: string, serial: string)

  /** The GPUs of one chassis. */
  datatype Serials = Serials(chassis: string, gpu: seq<string>)

  function Reported(gpus: seq<Reading>): set<Reading> {
    set r | r in gpus
  }

  ghost predicate DistinctChassis(units: seq<Serials>) {
    forall i, j :: 0 <= i < j < |units| ==> units[i].chassis != units[j].chassis
  }

  /** A unit holds exactly the serials reported for its chassis, each once and in order. */
  ghost predicate UnitOf(reported: set<Reading>, u: Serials) {
    && StrictlyOrdered(u.gpu, Less)
    && u.gpu != []
    && forall s :: s in u.gpu <==> Reading(u.chassis, s) in reported
  }

  /** Each reported chassis has exactly one unit. Units come in no particular order. */
  ghost predicate IsGrouping(reported: set<Reading>, units: seq<Serials>) {
    && DistinctChassis(units)
    && (forall u :: u in units ==> UnitOf(reported, u))
    && (forall r :: r in reported ==> HasUnit(units, r.chassis))
  }

  ghost predicate HasUnit(units: seq<Serials>, chassis: string) {
    exists u :: u in units && u.chassis == chassis
  }

  /** The serials recorded for a chassis, as the program's nested map holds them. */
  predicate InUnitMap(unitMap: map<string, map<string, bool>>, r: Reading) {
    r.chassis in unitMap && r.serial in unitMap[r.chassis]
  }

  ghost predicate MapOf(unitMap: map<string, map<string, bool>>, reported: set<Reading>) {
    && (forall r :: InUnitMap(unitMap, r) <==> r in reported)
    && (forall c :: c in unitMap ==> unitMap[c] != map[])
    && (forall c, s :: c in unitMap && s in unitMap[c] ==> unitMap[c][s])
  }

  method FillUnitMap(gpus: seq<Reading>) returns (unitMap: map<string, map<string, bool>>)
    ensures MapOf(unitMap, Reported(gpus))
  {
    unitMap := map[];
    for k := 0 to |gpus|
      invariant MapOf(unitMap, Reported(gpus[..k]))
    {
      var gpu := gpus[k];
      assert gpus[..k + 1] == gpus[..k] + [gpu];
      assert Reported(gpus[..k + 1]) == Reported(gpus[..k]) + {gpu};
      ghost var before := unitMap;
      var serials := if gpu.chassis in unitMap then unitMap[gpu.chassis] else map[];
      if gpu.serial in serials && serials[gpu.serial] {
        assert InUnitMap(unitMap, gpu);
        continue;
      }
      unitMap := unitMap[gpu.chassis := serials[gpu.serial := true]];
      assert gpu.serial in unitMap[gpu.chassis];
      forall r
        ensures InUnitMap(unitMap, r) <==> InUnitMap(before, r) || r == gpu
      {
      }
    }
    assert gpus[..|gpus|] == gpus;
  }

  /** Collects the keys of one inner map, in the arbitrary order of a Go map range, and sorts them. */
  method SortedSerials(gpus: map<string, bool>) returns (serials: seq<string>)
    ensures StrictlyOrdered(serials, Less)
    ensures forall s :: s in serials <==> s in gpus
  {
    var left, collected := gpus.Keys, [];
    while left != {}
      invariant left <= gpus.Keys
      invariant forall s :: s in collected <==> s in gpus.Keys - left
      invariant forall i, j :: 0 <= i < j < |collected| ==> collected[i] != collected[j]
      decreases |left|
    {
      var s :| s in left;
      assert s !in collected;
      left := left - {s};
      collected := collected + [s];
    }
    var a := new string[|collected|](i requires 0 <= i < |collected| => collected[i]);
    assert a[..] == collected;
    SortStrings(a);
    serials := a[..];
    StrictWhenDistinct(collected, serials);
    assert forall s :: s in serials <==> s in multiset(serials);
    assert forall s :: s in collected <==> s in multiset(collected);
  }

  lemma {:induction false} DistinctCounts<T>(s: seq<T>, x: T)
    requires forall i, j :: 0 <= i < j < |s| ==> s[i] != s[j]
    ensures multiset(s)[x] <= 1
  {
    if s != [] {
      assert s == [s[0]] + s[1..];
      assert multiset(s) == multiset{s[0]} + multiset(s[1..]);
      DistinctCounts(s[1..], x);
      if x == s[0] {
        assert x !in multiset(s[1..]);
      }
    }
  }

  lemma {:induction false} RepeatedCounts<T>(s: seq<T>, i: nat, j: nat)
    requires i < j < |s| && s[i] == s[j]
    ensures multiset(s)[s[i]] >= 2
  {
    assert s == s[..j] + s[j..];
    assert multiset(s) == multiset(s[..j]) + multiset(s[j..]);
    assert s[..j][i] in multiset(s[..j]) && s[j..][0] in multiset(s[j..]);
  }

  lemma {:induction false} StrictWhenDistinct(s: seq<string>, t: seq<string>)
    requires forall i, j :: 0 <= i < j < |s| ==> s[i] != s[j]
    requires Permutation(s, t) && Ordered(t, Less)
    ensures StrictlyOrdered(t, Less)
  {
    forall i, j | 0 <= i < j < |t|
      ensures Less(t[i], t[j])
    {
      LessTotal(t[i], t[j]);
      if t[i] == t[j] {
        RepeatedCounts(t, i, j);
        DistinctCounts(s, t[i]);
      }
    }
  }

  /** The unit of one chassis of the map. */
  method UnitFor(unitMap: map<string, map<string, bool>>, chassis: string, ghost reported: set<Reading>)
    returns (unit: Serials)
    requires MapOf(unitMap, reported) && chassis in unitMap
    ensures unit.chassis == chassis && UnitOf(reported, unit)
  {
    var gpu := SortedSerials(unitMap[chassis]);
    forall s
      ensures s in gpu <==> Reading(chassis, s) in reported
    {
      assert InUnitMap(unitMap, Reading(chassis, s)) <==> Reading(chassis, s) in reported;
    }
    ghost var s :| s in unitMap[chassis];
    assert s in gpu;
    unit := Serials(chassis, gpu);
  }

  lemma {:induction false} HasUnitAppend(units: seq<Serials>, unit: Serials)
    ensures forall c :: HasUnit(units + [unit], c) <==> HasUnit(units, c) || c == unit.chassis
  {
    var more := units + [unit];
    assert more[|units|] == unit;
    forall c | HasUnit(units, c)
      ensures HasUnit(more, c)
    {
      var u :| u in units && u.chassis == c;
      assert u in more;
    }
  }

  /** `GetSerialNumbers` after the nvidia-smi output has been parsed. */
  method GroupSerials(gpus: seq<Reading>) returns (units: seq<Serials>)
    ensures IsGrouping(Reported(gpus), units)
  {
    var unitMap := FillUnitMap(gpus);
    ghost var reported := Reported(gpus);
    units := [];
    var left := unitMap.Keys;
    while left != {}
      invariant left <= unitMap.Keys
      invariant DistinctChassis(units)
      invariant forall u :: u in units ==> UnitOf(reported, u) && u.chassis in unitMap.Keys - left
      invariant forall c :: c in unitMap.Keys - left ==> HasUnit(units, c)
      decreases |left|
    {
      var chassis :| chassis in left;
      var unit := UnitFor(unitMap, chassis, reported);
      HasUnitAppend(units, unit);
      units := units + [unit];
      left := left - {chassis};
    }
    forall r | r in reported
      ensures HasUnit(units, r.chassis)
    {
      assert InUnitMap(unitMap, r) && r.chassis in unitMap.Keys;
    }
  }

  /** Two groupings of the same report hold the same units. */
  lemma {:induction false} SameUnits(reported: set<Reading>, units: seq<Serials>, others: seq<Serials>, u: Serials)
    requires IsGrouping(reported, units) && IsGrouping(reported, others)
    requires u in units
    ensures u in others
  {
    assert u.gpu[0] in u.gpu;
    assert Reading(u.chassis, u.gpu[0]) in reported;
    var v :| v in others && v.chassis == u.chassis;
    StringsAreOrdered();
    forall s
      ensures s in u.gpu <==> s in v.gpu
    {
      assert s in u.gpu <==> Reading(u.chassis, s) in reported;
    }
    StrictArrangementUnique(u.gpu, v.gpu, Less);
  }
}
