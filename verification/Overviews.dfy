/**
 What `GetOverview` shows of a machine: whether all listed devices are healthy, and whether all listed mounts
 are mounted, mounts whose mount point mentions "/noah" being excused.
 */
module Overviews {
  import opened LumiaTypes
  import opened MinionRegistry
  import opened Text

  datatype Overview = Overview(hostname: string, ip: string, mountOk: bool, deviceOk: bool, datetime: int)

  const EXEMPT := "/noah"

  predicate Excused(m: MountStatus) {
    m.mounted || Contains(m.mountPoint, EXEMPT)
  }

  /** A mount is excused exactly when it is mounted or "/noah" occurs in its mount point. */
  lemma ExcusedIff(m: MountStatus)
    ensures Excused(m) <==> m.mounted || exists i: nat :: i <= |m.mountPoint| && "/noah" <= m.mountPoint[i..]
  {
    ContainsIff(m.mountPoint, "/noah");
  }

  method DevicesOk(devices: seq<DeviceStatus>) returns (ok: bool)
    ensures ok <==> forall i | 0 <= i < |devices| :: devices[i].healthy
  {
    ok := true;
    for i := 0 to |devices|
      invariant ok
      invariant forall j | 0 <= j < i :: devices[j].healthy
    {
      if devices[i].healthy {
        continue;
      }
      ok := false;
      break;
    }
  }

  method MountsOk(mounts: seq<MountStatus>) returns (ok: bool)
    ensures ok <==> forall i | 0 <= i < |mounts| :: Excused(mounts[i])
  {
    ok := true;
    for i := 0 to |mounts|
      invariant ok
      invariant forall j | 0 <= j < i :: Excused(mounts[j])
    {
      if mounts[i].mounted {
        continue;
      }
      if Contains(mounts[i].mountPoint, EXEMPT) {
        continue;
      }
      ok := false;
      break;
    }
  }

  /** The view is that of the minion: its own hostname and ip, and the two verdicts. */
  ghost predicate Shows(v: Overview, m: MinionInfo) {
    && v.hostname == m.hostname && v.ip == m.ip && v.datetime == m.status.datetime
    && (v.deviceOk <==> forall i | 0 <= i < |m.status.devices| :: m.status.devices[i].healthy)
    && (v.mountOk <==> forall i | 0 <= i < |m.status.mounts| :: Excused(m.status.mounts[i]))
  }

  /** One entry of the overview. */
  method View(m: MinionInfo) returns (v: Overview)
    ensures v.hostname == m.hostname && v.ip == m.ip && v.datetime == m.status.datetime
    ensures v.deviceOk <==> forall i | 0 <= i < |m.status.devices| :: m.status.devices[i].healthy
    ensures v.mountOk <==> forall i | 0 <= i < |m.status.mounts| :: Excused(m.status.mounts[i])
    ensures Shows(v, m)
  {
    var deviceOk := DevicesOk(m.status.devices);
    var mountOk := MountsOk(m.status.mounts);
    v := Overview(m.hostname, m.ip, mountOk, deviceOk, m.status.datetime);
  }

  /** The minions an overview lists, in order: those that report at least one device. */
  function Listed(es: seq<Entry>): seq<MinionInfo> {
    if es == [] then []
    else
      var n := |es| - 1;
      Listed(es[..n]) + (if es[n].info.status.devices == [] then [] else [es[n].info])
  }

  /** No minion that reports a device is left out, and no other is listed. */
  lemma {:induction false} ListedIff(es: seq<Entry>, m: MinionInfo)
    ensures m in Listed(es) <==> m.status.devices != [] && exists i :: 0 <= i < |es| && es[i].info == m
  {
    if es != [] {
      var n := |es| - 1;
      ListedIff(es[..n], m);
      if i :| 0 <= i < |es| && es[i].info == m {
        assert i < n ==> es[..n][i].info == m;
      }
      if m in Listed(es[..n]) {
        var i :| 0 <= i < n && es[..n][i].info == m;
        assert es[i].info == m;
      }
    }
  }

  /** The positions of the minions that report a device. */
  function Reporting(es: seq<Entry>): set<int> {
    set i | 0 <= i < |es| && es[i].info.status.devices != []
  }

  /** As many minions are listed as there are positions at which one reports a device. */
  lemma {:induction false} ListedCount(es: seq<Entry>)
    ensures |Listed(es)| == |Reporting(es)|
  {
    if es != [] {
      var n := |es| - 1;
      ListedCount(es[..n]);
      assert Reporting(es) == Reporting(es[..n]) + if es[n].info.status.devices == [] then {} else {n};
    }
  }

  predicate Increasing(ps: seq<int>) {
    forall i, j | 0 <= i < j < |ps| :: ps[i] < ps[j]
  }

  /** The positions of the list, one for each element of it and in the same order, at which the entries report a device. */
  ghost predicate ListsAt(es: seq<Entry>, ps: seq<int>) {
    && |ps| == |Listed(es)| && Increasing(ps)
    && (forall j | 0 <= j < |ps| :: 0 <= ps[j] < |es| && Listed(es)[j] == es[ps[j]].info)
    && (forall p | 0 <= p < |es| :: p in ps <==> es[p].info.status.devices != [])
  }

  /** Every minion that reports a device is listed exactly once, in the order of the entries. */
  lemma {:induction false} ListedPositions(es: seq<Entry>) returns (ps: seq<int>)
    ensures ListsAt(es, ps)
  {
    if es == [] {
      ps := [];
    } else {
      var n := |es| - 1;
      var before := ListedPositions(es[..n]);
      ListsLast(es, before);
      ps := before + if es[n].info.status.devices == [] then [] else [n];
    }
  }

  lemma ListsLast(es: seq<Entry>, before: seq<int>)
    requires es != [] && ListsAt(es[..|es| - 1], before)
    ensures ListsAt(es, before + if es[|es| - 1].info.status.devices == [] then [] else [|es| - 1])
  {
    var n := |es| - 1;
    var listed, m := Listed(es), Listed(es[..n]);
    assert listed == m + if es[n].info.status.devices == [] then [] else [es[n].info];
    hide Listed;
    forall j | 0 <= j < |before| ensures 0 <= before[j] < |es| && listed[j] == es[before[j]].info {
      assert es[..n][before[j]] == es[before[j]] && listed[j] == m[j];
    }
    assert n !in before;
    forall p | 0 <= p < n ensures p in before <==> es[p].info.status.devices != [] {
      assert es[..n][p] == es[p];
    }
  }

  lemma EntryListed(es: seq<Entry>, j: nat)
    requires j < |es|
    ensures es[j].info in Listed(es) <==> es[j].info.status.devices != []
  {
    ListedIff(es, es[j].info);
  }

  ghost predicate ShowsAll(vs: seq<Overview>, ms: seq<MinionInfo>) {
    |vs| == |ms| && forall i | 0 <= i < |vs| :: Shows(vs[i], ms[i])
  }
}
