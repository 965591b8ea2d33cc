/**
 The job-session engine as the class that updates its session map and its two worker queues in place.
 Replies of the HTTP services and fresh session ids are inputs.
 */
module MinionControl {
  import opened LumiaTypes
  import opened Text
  import opened JobSessions
  import opened JobSessionSafety

  class MinionCtrl {
    var execSessions: map<string, Context>
    var httpWorkers: multiset<Cont>
    var callBackWorkers: seq<Call>
    ghost var lives: map<string, Life>

    ghost function State(): Jobs
      reads this
    {
      Jobs(execSessions, httpWorkers, callBackWorkers, lives)
    }

    ghost predicate Valid()
      reads this
    {
      Sound(State())
    }

    constructor ()
      ensures Valid() && State() == BOOTED
    {
      execSessions, httpWorkers, callBackWorkers, lives := map[], multiset{}, [], map[];
      new;
      BootsSound();
    }

    /** A session is opened only when the ticket was granted and the job was accepted. */
    method Exec(hosts: seq<string>, ticket: bool, reply: HttpReply<string>, uuid: string) returns (ok: bool)
      requires Valid() && uuid !in lives
      modifies this
      ensures Valid()
      ensures ok <==> ticket && reply.Doc? && reply.code == Some(0)
      ensures State() == if ok then Step(old(State()), Submit(uuid, hosts)) else old(State())
    {
      if !ticket {
        return false;
      }
      match reply
      case GetFailed => return false;
      case NotJson => return false;
      case Doc(code, data) =>
        if code != Some(0) {
          return false;
        }
        StepStaysSound(State(), Submit(uuid, hosts));
        hide Sound;
        execSessions := execSessions[uuid := Context(hosts, 0)];
        httpWorkers := httpWorkers + multiset{Check(uuid)};
        lives := lives[uuid := Life(false, hosts, Polling, 0, 0, None)];
        return true;
    }

    method Reboot(hosts: seq<string>, token: bool, status: HttpReply<string>, uuid: string) returns (ok: bool)
      requires Valid() && uuid !in lives
      modifies this
      ensures Valid()
      ensures ok <==> token && status.Doc? && status.code == Some(0)
      ensures State() == if ok then Step(old(State()), SubmitReboot(uuid, hosts)) else old(State())
    {
      if !token || !status.Doc? || status.code != Some(0) {
        return false;
      }
      StepStaysSound(State(), SubmitReboot(uuid, hosts));
      execSessions := execSessions[uuid := Context(hosts, 0)];
      httpWorkers := httpWorkers + multiset{RebootCheck(uuid)};
      lives := lives[uuid := Life(true, hosts, Rebooting, 0, 0, None)];
      return true;
    }

    method CheckExecJob(id: string, job: HttpReply<string>)
      requires Valid() && Check(id) in httpWorkers
      modifies this
      ensures Valid()
      ensures State() == Step(old(State()), Poll(id, job))
    {
      StepStaysSound(State(), Poll(id, job));
      assert id in execSessions ==> id in lives by { assert SoundAt(State(), id); }
      hide Sound, HostsWith;
      httpWorkers := httpWorkers - multiset{Check(id)};
      if id !in execSessions {
        return;
      }
      if !job.Doc? || job.code != Some(0) {
        httpWorkers := httpWorkers + multiset{Check(id)};
        return;
      }
      match job.data
      case None =>
        callBackWorkers := callBackWorkers + [Call(id, [], [])];
        execSessions := execSessions - {id};
        lives := lives[id := lives[id].(phase := Done)];
      case Some(status) =>
        if status == "FINISH" || status == "CANCELED" {
          httpWorkers := httpWorkers + multiset{Finish(id)};
          lives := lives[id := lives[id].(phase := Finishing)];
        } else {
          httpWorkers := httpWorkers + multiset{Check(id)};
        }
    }

    /** The loop that sorts the reported hosts. */
    static method SplitTasks(tasks: seq<TaskReport>) returns (succ: seq<string>, fails: seq<string>)
      ensures succ == HostsWith(tasks, true) && fails == HostsWith(tasks, false)
    {
      succ, fails := [], [];
      for i := 0 to |tasks|
        invariant succ + HostsWith(tasks[i..], true) == HostsWith(tasks, true)
        invariant fails + HostsWith(tasks[i..], false) == HostsWith(tasks, false)
      {
        assert tasks[i..][1..] == tasks[i + 1..];
        if tasks[i].status == "EXITED" && tasks[i].exitCode == 0 {
          succ := succ + [tasks[i].host];
        } else {
          fails := fails + [tasks[i].host];
        }
      }
    }

    /** A failed GET of the task list: tried again, or given up on with all hosts failed. */
    method TaskListFailed(id: string)
      requires Valid() && Finish(id) in httpWorkers && id in execSessions
      modifies this
      ensures Valid()
      ensures State() == Step(old(State()), Collect(id, GetFailed))
    {
      StepStaysSound(State(), Collect(id, GetFailed));
      assert id in lives by { assert SoundAt(State(), id); }
      hide Sound;
      var context := execSessions[id];
      ghost var missed := lives[id].(gets := lives[id].gets + 1, misses := lives[id].misses + 1);
      httpWorkers := httpWorkers - multiset{Finish(id)};
      if context.tryCount <= 5 {
        httpWorkers := httpWorkers + multiset{Finish(id)};
        execSessions := execSessions[id := context.(tryCount := context.tryCount + 1)];
        lives := lives[id := missed];
      } else {
        callBackWorkers := callBackWorkers + [Call(id, [], context.hosts)];
        execSessions := execSessions - {id};
        lives := lives[id := missed.(phase := Done)];
      }
    }

    method HandleJobFinished(id: string, tasks: HttpReply<seq<TaskReport>>)
      requires Valid() && Finish(id) in httpWorkers
      modifies this
      ensures Valid()
      ensures State() == Step(old(State()), Collect(id, tasks))
    {
      if id in execSessions && tasks.GetFailed? {
        TaskListFailed(id);
        return;
      }
      StepStaysSound(State(), Collect(id, tasks));
      assert id in execSessions ==> id in lives by { assert SoundAt(State(), id); }
      hide Sound, HostsWith;
      httpWorkers := httpWorkers - multiset{Finish(id)};
      if id !in execSessions {
        return;
      }
      ghost var life := lives[id].(gets := lives[id].gets + 1);
      if tasks.NotJson? || tasks.code != Some(0) || tasks.data.None? {
        lives := lives[id := life.(phase := Parked)];
        return;
      }
      var succ, fails := SplitTasks(tasks.data.value);
      callBackWorkers := callBackWorkers + [Call(id, succ, fails)];
      execSessions := execSessions - {id};
      lives := lives[id := life.(report := tasks.data, phase := Done)];
    }

    method CheckRebootJob(id: string, body: Option<string>)
      requires Valid() && RebootCheck(id) in httpWorkers
      modifies this
      ensures Valid()
      ensures State() == Step(old(State()), Watch(id, body))
    {
      StepStaysSound(State(), Watch(id, body));
      assert id in execSessions ==> id in lives by { assert SoundAt(State(), id); }
      hide Sound, HostsWith;
      httpWorkers := httpWorkers - multiset{RebootCheck(id)};
      if id !in execSessions {
        return;
      }
      var context := execSessions[id];
      match body
      case None =>
        ghost var missed := lives[id].(misses := lives[id].misses + 1);
        if context.tryCount <= 0 {
          execSessions := execSessions[id := context.(tryCount := context.tryCount + 1)];
          httpWorkers := httpWorkers + multiset{RebootCheck(id)};
          lives := lives[id := missed];
        } else {
          execSessions := execSessions - {id};
          lives := lives[id := missed.(phase := Done)];
          assert callBackWorkers == callBackWorkers + [];
        }
      case Some(text) =>
        if Contains(text, DELIVERED) {
          callBackWorkers := callBackWorkers + [Call(id, context.hosts, [])];
          execSessions := execSessions - {id};
          lives := lives[id := lives[id].(phase := Done)];
        } else {
          httpWorkers := httpWorkers + multiset{RebootCheck(id)};
        }
    }
  }
}
