/**
 The health check of the agent: every device and every mount of `/etc/fstab`, and the status it reports. What
 the self-test of a device prints and what the two files contain are inputs.
 */
module AgentHealth {
  import opened LumiaTypes
  import opened MountTable
  import opened Text

  /** How a command that could be started ended. */
  datatype Ended = Ended(exitCode: int, output: string)

  const PASSED_MARK := "PASSED"
  const OK_MARK := "OK"

  predicate Passed(run: Option<Ended>) {
    && run.Some? && run.value.exitCode == 0
    && (Contains(run.value.output, PASSED_MARK) || Contains(run.value.output, OK_MARK))
  }

  /** A self-test passes exactly when it ran, exited with 0 and printed "PASSED" or "OK" somewhere. */
  lemma PassedIff(run: Option<Ended>)
    ensures Passed(run) <==>
              && run.Some? && run.value.exitCode == 0
              && (|| (exists i: nat :: i <= |run.value.output| && "PASSED" <= run.value.output[i..])
                  || (exists i: nat :: i <= |run.value.output| && "OK" <= run.value.output[i..]))
  {
    if run.Some? {
      ContainsIff(run.value.output, "PASSED");
      ContainsIff(run.value.output, "OK");
    }
  }

  method CheckDevice(run: Option<Ended>) returns (ret: bool, ok: bool)
    ensures ret <==> run.Some?
    ensures ret && ok <==> Passed(run)
  {
    ok := false;
    if run.Some? {
      ok := run.value.exitCode == 0
            && (Contains(run.value.output, PASSED_MARK) || Contains(run.value.output, OK_MARK));
      return true, ok;
    }
    ret := false;
  }

  // ---------------------------------------------------------------- what a status says

  /** One device status for each device, in order, healthy exactly when the self-test passed. */
  ghost predicate DevicesReported(ds: seq<DeviceStatus>, devices: seq<string>, runs: seq<Option<Ended>>)
    requires |runs| == |devices|
  {
    |ds| == |devices|
    && forall i | 0 <= i < |ds| :: ds[i].name == devices[i] && (ds[i].healthy <==> Passed(runs[i]))
  }

  ghost predicate Lists(ms: seq<MountStatus>, device: string) {
    exists i :: 0 <= i < |ms| && ms[i].dev == device
  }

  /** One mount status for each entry of the first table, mounted exactly when the second has the device too. */
  ghost predicate MountsReported(ms: seq<MountStatus>, fstab: map<string, MountInfo>, mtab: map<string, MountInfo>) {
    && (forall i, j | 0 <= i < j < |ms| :: ms[i].dev != ms[j].dev)
    && (forall i | 0 <= i < |ms| ::
          && ms[i].dev in fstab && ms[i].mountPoint == fstab[ms[i].dev].mountPoint
          && (ms[i].mounted <==> ms[i].dev in mtab))
    && (forall device | device in fstab :: Lists(ms, device))
  }

  ghost predicate Reports(status: MinionStatus, devices: seq<string>, runs: seq<Option<Ended>>,
                          fstab: Option<string>, mtab: Option<string>)
    requires |runs| == |devices|
  {
    && DevicesReported(status.devices, devices, runs)
    && (if fstab.Some? && mtab.Some?
        then MountsReported(status.mounts, TableOf(fstab.value), TableOf(mtab.value))
        else status.mounts == [])
    && (status.allIsWell <==>
          && (forall i | 0 <= i < |runs| :: Passed(runs[i]))
          && fstab.Some? && mtab.Some?
          && TableOf(fstab.value).Keys <= TableOf(mtab.value).Keys)
  }

  /** The mounts reported so far, when the devices in `todo` are still to be compared. */
  ghost predicate Compared(ms: seq<MountStatus>, fstab: map<string, MountInfo>, mtab: map<string, MountInfo>, todo: set<string>) {
    && (forall i, j | 0 <= i < j < |ms| :: ms[i].dev != ms[j].dev)
    && (forall i | 0 <= i < |ms| ::
          && ms[i].dev in fstab && ms[i].dev !in todo
          && ms[i].mountPoint == fstab[ms[i].dev].mountPoint
          && (ms[i].mounted <==> ms[i].dev in mtab))
    && (forall device | device in fstab && device !in todo :: Lists(ms, device))
  }

  lemma OneMoreCompared(ms: seq<MountStatus>, fstab: map<string, MountInfo>, mtab: map<string, MountInfo>,
                        todo: set<string>, device: string)
    requires Compared(ms, fstab, mtab, todo) && device in todo && device in fstab
    ensures Compared(ms + [MountStatus(device, fstab[device].mountPoint, device in mtab)], fstab, mtab, todo - {device})
  {
    var next := ms + [MountStatus(device, fstab[device].mountPoint, device in mtab)];
    forall d | d in fstab && d !in todo - {device} ensures Lists(next, d) {
      if d == device {
        assert next[|ms|].dev == d;
      } else {
        assert Lists(ms, d);
        var i :| 0 <= i < |ms| && ms[i].dev == d;
        assert next[i].dev == d;
      }
    }
  }

  /** The loop of `CheckMounts` over the entries of the first table. */
  method CompareTabs(fstab: map<string, MountInfo>, mtab: map<string, MountInfo>)
    returns (allMounted: bool, mounts: seq<MountStatus>)
    requires forall d | d in fstab :: fstab[d].device == d
    ensures forall i | 0 <= i < |mounts| ::
              && mounts[i].dev in fstab && mounts[i].mountPoint == fstab[mounts[i].dev].mountPoint
              && (mounts[i].mounted <==> mounts[i].dev in mtab)
    ensures MountsReported(mounts, fstab, mtab)
    ensures allMounted <==> fstab.Keys <= mtab.Keys
  {
    hide Lists;
    allMounted, mounts := true, [];
    var todo := fstab.Keys;
    while todo != {}
      invariant todo <= fstab.Keys
      invariant Compared(mounts, fstab, mtab, todo)
      invariant allMounted <==> forall d | d in fstab && d !in todo :: d in mtab
      decreases |todo|
    {
      hide Compared;
      var device :| device in todo;
      OneMoreCompared(mounts, fstab, mtab, todo, device);
      todo := todo - {device};
      var mounted := true;
      if device !in mtab {
        allMounted := false;
        mounted := false;
      }
      mounts := mounts + [MountStatus(fstab[device].device, fstab[device].mountPoint, mounted)];
    }
  }

  /** Whether a table was read to its end makes no difference. */
  method CheckMounts(fstab: Option<string>, mtab: Option<string>)
    returns (ret: bool, allMounted: bool, mounts: seq<MountStatus>)
    ensures ret <==> fstab.Some? && mtab.Some?
    ensures !ret ==> mounts == []
    ensures ret ==> MountsReported(mounts, TableOf(fstab.value), TableOf(mtab.value))
    ensures ret ==> (allMounted <==> TableOf(fstab.value).Keys <= TableOf(mtab.value).Keys)
  {
    hide TableOf, MountsReported;
    allMounted, mounts := false, [];
    if fstab.None? {
      return false, allMounted, mounts;
    }
    var _, fstabTable := ParseTab(fstab.value);
    if mtab.None? {
      return false, allMounted, mounts;
    }
    var _, mtabTable := ParseTab(mtab.value);
    forall d | d in fstabTable ensures fstabTable[d].device == d {
      var lines := Split(fstab.value, '\n');
      DeviceIsKey(lines[..ReadUpTo(lines)], fstabTable, d);
    }
    allMounted, mounts := CompareTabs(fstabTable, mtabTable);
    ret := true;
  }

  // ---------------------------------------------------------------- the agent

  /** Lost pings after which the agent reports that it is not well; a fresh agent starts with some on its count. */
  const MAX_LOST_PINGS := 10
  const INITIAL_LOST_PINGS := 4

  class LumiaAgent {
    var devices: seq<string>
    var status: MinionStatus
    var lostPing: nat

    constructor (devices: seq<string>)
      ensures this.devices == devices && lostPing == 4
      ensures status == MinionStatus([], [], 0, false)
    {
      this.devices, status, lostPing := devices, MinionStatus([], [], 0, false), INITIAL_LOST_PINGS;
    }

    method CheckDevices(runs: seq<Option<Ended>>) returns (ds: seq<DeviceStatus>, well: bool)
      requires |runs| == |devices|
      ensures |ds| == |devices|
      ensures forall i | 0 <= i < |ds| :: ds[i].name == devices[i] && (ds[i].healthy <==> Passed(runs[i]))
      ensures well <==> forall i | 0 <= i < |runs| :: Passed(runs[i])
    {
      ds, well := [], true;
      for i := 0 to |devices|
        invariant |ds| == i
        invariant forall j | 0 <= j < i :: ds[j].name == devices[j] && (ds[j].healthy <==> Passed(runs[j]))
        invariant well <==> forall j | 0 <= j < i :: Passed(runs[j])
      {
        var ret, ok := CheckDevice(runs[i]);
        if ret && ok {
          ds := ds + [DeviceStatus(devices[i], true)];
        } else {
          ds := ds + [DeviceStatus(devices[i], false)];
          well := false;
        }
      }
    }

    method DoCheck(runs: seq<Option<Ended>>, fstab: Option<string>, mtab: Option<string>, now: int)
      requires |runs| == |devices|
      modifies this`status
      ensures Reports(status, devices, runs, fstab, mtab) && status.datetime == now
    {
      hide TableOf, MountsReported, Passed;
      var ds, well := CheckDevices(runs);
      var ret, allMounted, mounts := CheckMounts(fstab, mtab);
      if !(ret && allMounted) {
        well := false;
      }
      status := MinionStatus(ds, mounts, now, well);
    }

    /** One ping of the controller: after too many failures in a row the status says so, and lists nothing. */
    method KeepAlive(answered: bool, now: int)
      modifies this`status, this`lostPing
      ensures lostPing == if answered then 0 else old(lostPing) + 1
      ensures status == if lostPing > 10 then MinionStatus([], [], now, false) else old(status)
    {
      if !answered {
        lostPing := lostPing + 1;
        if lostPing > MAX_LOST_PINGS {
          status := MinionStatus([], [], now, false);
        }
      } else {
        lostPing := 0;
      }
    }
  }
}
