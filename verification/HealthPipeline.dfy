/**
 From the health check of an agent to the overview of the controller: a status built by `DoCheck`, carried by
 a query reply, stored by `QueryCallBack` and shown by `GetOverview`.
 */
module HealthPipeline {
  import opened LumiaTypes
  import opened MinionRegistry
  import opened RepairProtocol
  import opened MountTable
  import opened AgentHealth
  import opened Overviews
  import opened Text

  /** An entry of fstab that is not mounted, and the mount point of which the overview excuses. */
  ghost predicate ExcusedHole(fstab: map<string, MountInfo>, mtab: map<string, MountInfo>, device: string) {
    device in fstab && device !in mtab && Contains(fstab[device].mountPoint, EXEMPT)
  }

  ghost predicate SomeExcusedHole(fstab: map<string, MountInfo>, mtab: map<string, MountInfo>) {
    exists device :: ExcusedHole(fstab, mtab, device)
  }

  /** The overview finds the mounts in order exactly when every entry of fstab is mounted or excused. */
  lemma MountsOkIff(ms: seq<MountStatus>, fstab: map<string, MountInfo>, mtab: map<string, MountInfo>)
    requires MountsReported(ms, fstab, mtab)
    ensures (forall i | 0 <= i < |ms| :: Excused(ms[i])) <==>
            forall device | device in fstab :: device in mtab || ExcusedHole(fstab, mtab, device)
  {
    if forall i | 0 <= i < |ms| :: Excused(ms[i]) {
      forall device | device in fstab ensures device in mtab || ExcusedHole(fstab, mtab, device) {
        assert Lists(ms, device);
        var i :| 0 <= i < |ms| && ms[i].dev == device;
        assert Excused(ms[i]);
      }
    }
    if forall device | device in fstab :: device in mtab || ExcusedHole(fstab, mtab, device) {
      forall i | 0 <= i < |ms| ensures Excused(ms[i]) {
        assert ms[i].dev in fstab;
      }
    }
  }

  /**
   The verdict of the agent against that of the overview, for every outcome of every check: all is well exactly
   when the overview finds devices and mounts in order, both files could be read, and the overview excused no
   entry that is not mounted.
   */
  lemma WellIffShownOk(status: MinionStatus, devices: seq<string>, runs: seq<Option<Ended>>, fstab: Option<string>,
                       mtab: Option<string>, m: MinionInfo, v: Overview)
    requires |runs| == |devices| && Reports(status, devices, runs, fstab, mtab)
    requires m.status == status && Shows(v, m)
    ensures status.allIsWell <==>
              && v.deviceOk && v.mountOk
              && fstab.Some? && mtab.Some?
              && !SomeExcusedHole(TableOf(fstab.value), TableOf(mtab.value))
    ensures v.deviceOk <==> forall i | 0 <= i < |runs| :: Passed(runs[i])
  {
    hide TableOf, Contains;
    DevicesOkIff(status.devices, devices, runs);
    if fstab.Some? && mtab.Some? {
      var f, t := TableOf(fstab.value), TableOf(mtab.value);
      MountsOkIff(status.mounts, f, t);
      if f.Keys <= t.Keys {
        assert !SomeExcusedHole(f, t);
      } else {
        var d :| d in f && d !in t;
        assert ExcusedHole(f, t, d) ==> SomeExcusedHole(f, t);
      }
    }
  }

  lemma DevicesOkIff(ds: seq<DeviceStatus>, devices: seq<string>, runs: seq<Option<Ended>>)
    requires |runs| == |devices| && DevicesReported(ds, devices, runs)
    ensures (forall i | 0 <= i < |ds| :: ds[i].healthy) <==> forall i | 0 <= i < |runs| :: Passed(runs[i])
  {
    if forall i | 0 <= i < |ds| :: ds[i].healthy {
      forall i | 0 <= i < |runs| ensures Passed(runs[i]) {
        assert ds[i].healthy;
      }
    }
  }

  /** Handling the reply stores the status with the minion it names, and with no other. */
  lemma ReplyStores(s: Ctrl, ip: string, status: MinionStatus)
    requires UniqueKeys(s.entries)
    ensures var s' := HealthStep(s, ip, status);
            && |s'.entries| == |s.entries| && s'.work == s.work
            && forall j | 0 <= j < |s.entries| ::
                 if s.entries[j].ip == ip
                 then && s'.entries[j].info.status == status
                      && s'.entries[j].info.state == (if status.allIsWell then s.entries[j].info.state else Busy)
                 else s'.entries[j] == s.entries[j]
  {
    forall j | 0 <= j < |s.entries| && s.entries[j].ip == ip ensures Lookup(s.entries, ByIp, ip) == Some(j) {
      LookupUnique(s.entries, ByIp, j);
    }
  }

  /**
   End to end: after the reply of a machine is handled, its minion is in the overview exactly when it has
   devices, and any view of it relates to the checks on the machine as said above; if a check failed it is Busy.
   */
  lemma CheckedMachineIsShown(s: Ctrl, j: nat, status: MinionStatus, devices: seq<string>, runs: seq<Option<Ended>>,
                              fstab: Option<string>, mtab: Option<string>, v: Overview)
    requires UniqueKeys(s.entries) && j < |s.entries|
    requires |runs| == |devices| && Reports(status, devices, runs, fstab, mtab)
    requires Shows(v, HealthStep(s, s.entries[j].ip, status).entries[j].info)
    ensures var s' := HealthStep(s, s.entries[j].ip, status);
            && (s'.entries[j].info in Listed(s'.entries) <==> devices != [])
            && (status.allIsWell <==>
                  && v.deviceOk && v.mountOk && fstab.Some? && mtab.Some?
                  && !SomeExcusedHole(TableOf(fstab.value), TableOf(mtab.value)))
            && (s'.entries[j].info.state == Busy <==> !status.allIsWell || s.entries[j].info.state == Busy)
  {
    hide TableOf, Shows, HealthStep, Listed, SomeExcusedHole, UniqueKeys, MountsReported, Passed;
    var s' := HealthStep(s, s.entries[j].ip, status);
    ReplyStores(s, s.entries[j].ip, status);
    WellIffShownOk(status, devices, runs, fstab, mtab, s'.entries[j].info, v);
    EntryListed(s'.entries, j);
    assert status.devices == [] <==> devices == [];
  }

  /** An agent that has lost its pings reports not well without devices: its minion turns Busy and leaves the overview. */
  lemma SilentAgentIsHidden(s: Ctrl, j: nat, now: int)
    requires UniqueKeys(s.entries) && j < |s.entries|
    ensures var s' := HealthStep(s, s.entries[j].ip, MinionStatus([], [], now, false));
            s'.entries[j].info.state == Busy && s'.entries[j].info !in Listed(s'.entries)
  {
    var status := MinionStatus([], [], now, false);
    ReplyStores(s, s.entries[j].ip, status);
    EntryListed(HealthStep(s, s.entries[j].ip, status).entries, j);
  }
}
