/**
 * The start of a service after a crash: preparation settles the marker of every process that an earlier run
 * left behind, and only then is the package service constructed.
 */
module ServiceStart {
  import opened Basics
  import ProcessIdentity
  import Recovery
  import PackageJobs

  type Files = map<string, string>
  type Processes = map<int, Recovery.Process>

  /** The marker of a request's process and its PID. */
  datatype Handle = Handle(marker: string, pid: int)

  /** The marker names this very process, by PID, boot and start time. */
  predicate Names(record: string, pid: int, boot: string, process: Recovery.Process)
  {
    && record != "" && Recovery.RecordedPid(record) == Some(pid)
    && Recovery.SameProcess(record, boot, Some(process)) == Some(true)
  }

  /** What a crash leaves of a recorded request: its process runs as this user, and its marker names it. */
  predicate Left(id: Id, handles: map<Id, Handle>, files: Files, processes: Processes, uid: nat, boot: string)
  {
    && id in handles && handles[id].marker in files && handles[id].pid in processes
    && processes[handles[id].pid].uid == uid
    && Names(ProcessIdentity.Trim(files[handles[id].marker]), handles[id].pid, boot, processes[handles[id].pid])
  }

  /** The marker's process runs no more. */
  predicate Stopped(id: Id, handles: map<Id, Handle>, files: Files, processes: Processes, uid: nat, boot: string)
  {
    && id in handles && handles[id].marker in files
    && Recovery.Gone(ProcessIdentity.Trim(files[handles[id].marker]), uid, boot,
                     Recovery.At(processes, handles[id].pid))
  }

  /** The state once every recorded process has ended. */
  function Settled(s: PackageJobs.State): PackageJobs.State
  {
    s.(live := s.live - s.recorded, recorded := {}, working := s.working - s.recorded)
  }

  function Exits(ids: seq<Id>): (events: seq<PackageJobs.Event>)
  {
    if ids == [] then [] else [PackageJobs.Exited(ids[0])] + Exits(ids[1..])
  }

  lemma {:induction false} RunExits(s: PackageJobs.State, ids: seq<Id>, last: PackageJobs.Event)
    ensures var gone := set id | id in ids;
            PackageJobs.Run(s, Exits(ids) + [last])
            == PackageJobs.Step(s.(live := s.live - gone, recorded := s.recorded - gone, working := s.working - gone),
                                last)
    decreases |ids|
  {
    hide PackageJobs.Step;
    if ids == [] {
      assert Exits(ids) + [last] == [last] && [last][1..] == [];
      assert PackageJobs.Run(s, [last]) == PackageJobs.Step(s, last);
      var gone := set id | id in ids;
      assert gone == {} && s.live - gone == s.live && s.recorded - gone == s.recorded && s.working - gone == s.working;
    } else {
      var s1 := PackageJobs.Exit(s, ids[0]);
      ExitStep(s, ids[0]);
      var events := Exits(ids) + [last];
      assert events[0] == PackageJobs.Exited(ids[0]) && events[1..] == Exits(ids[1..]) + [last];
      assert PackageJobs.Run(s, events) == PackageJobs.Run(s1, events[1..]);
      RunExits(s1, ids[1..], last);
      var gone, rest := set id | id in ids, set id | id in ids[1..];
      assert gone == {ids[0]} + rest;
      assert s1.live - rest == s.live - gone;
      assert s1.recorded - rest == s.recorded - gone;
      assert s1.working - rest == s.working - gone;
    }
  }

  lemma ExitStep(s: PackageJobs.State, id: Id)
    ensures PackageJobs.Step(s, PackageJobs.Exited(id)) == PackageJobs.Exit(s, id)
  {
  }

  lemma InSomeOrder(ids: set<Id>) returns (order: seq<Id>)
    ensures (set id | id in order) == ids
  {
    order := [];
    var left := ids;
    while left != {}
      invariant (set id | id in order) + left == ids
    {
      var id :| id in left;
      order, left := order + [id], left - {id};
    }
  }

  /** A run of the jobs' model from `s`: recorded processes exit, then a service starts. */
  ghost predicate StartedFrom(s: PackageJobs.State, t: PackageJobs.State)
  {
    exists ids: seq<Id> ::
      (forall id | id in ids :: id in s.recorded) && t == PackageJobs.Run(s, Exits(ids) + [PackageJobs.Restarted])
  }

  /** The start is a run of the jobs' model: recorded processes exit, then the service is constructed. */
  lemma StartIsARun(s: PackageJobs.State)
    requires PackageJobs.Inv(s) && s.closed && s.job.None?
    ensures StartedFrom(s, PackageJobs.Renewed(Settled(s)))
    ensures PackageJobs.Inv(Settled(s)) && PackageJobs.CanStart(Settled(s))
  {
    var ids := InSomeOrder(s.recorded);
    RunExits(s, ids, PackageJobs.Restarted);
    PackageJobs.WorkingLive(s);
    PackageJobs.OutsideKeeps(s, Settled(s));
    assert s.recorded - s.recorded == {};
    hide PackageJobs.Inv, PackageJobs.Run, PackageJobs.Renewed;
    assert forall id | id in ids :: id in (set i | i in ids);
  }

  /**
   * Preparation and construction, in this order.  When there is a service, every process that its marker named
   * has ended, so that what is still alive is what no marker names; otherwise some marker could not be settled.
   */
  method StartService(runtime: Recovery.Runtime, names: seq<string>, s: PackageJobs.State,
                      ghost handles: map<Id, Handle>)
    returns (service: Option<PackageJobs.Service>)
    requires PackageJobs.Inv(s) && s.closed && s.job.None?
    requires forall i | 0 <= i < |names| :: names[i] in runtime.files
    requires forall i, j | 0 <= i < j < |names| :: names[i] != names[j]
    requires forall id | id in s.recorded ::
        Left(id, handles, runtime.files, runtime.processes, runtime.uid, runtime.boot) && handles[id].marker in names
    modifies runtime`files, runtime`processes, runtime`log
    ensures service.Some? ==>
              && fresh(service.value) && service.value.Valid()
              && service.value.Now() == PackageJobs.Renewed(Settled(s))
              && service.value.live == s.live - s.recorded && service.value.working == {}
    ensures service.Some? ==> forall id | id in s.recorded ::
                Stopped(id, handles, old(runtime.files), runtime.processes, runtime.uid, runtime.boot)
    ensures service.Some? ==> StartedFrom(s, service.value.Now())
    ensures Recovery.DistinctPids(old(runtime.files), names) ==>
              (service.Some? <==> forall n | n in names ::
                   Recovery.SettlesAmong(ProcessIdentity.Trim(old(runtime.files)[n]), runtime.uid, runtime.boot,
                                         old(runtime.processes), runtime.after))
  {
    PackageJobs.WorkingLive(s);
    StartIsARun(s);
    hide PackageJobs.Inv, PackageJobs.Run, ProcessIdentity.Trim, Recovery.RecordedPid, Recovery.SameProcess;
    var ok := runtime.RecoverPreviousProcesses(names);
    if !ok { return None; }
    var made := new PackageJobs.Service(Settled(s));
    service := Some(made);
  }
}
