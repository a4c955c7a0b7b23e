/**
 * Package jobs: one writer, a row per request on disk, a bounded log tail, and a cancellation that a
 * racing exit cannot erase.  Each function is one section under the monitor or one step of the worker.
 * Between the worker setting the final status and saving it the monitor is free (`Settled`).
 */
module PackageJobs {
  import opened Basics

  datatype Status = Running | CancelRequested | Completed | Failed | Cancelled | Interrupted

  datatype Row = Row(argv: seq<string>, status: Status, output: string, truncated: bool, exit: Option<int>)

  datatype Phase = Submitted | Executing | Settled

  /** The task in hand. `row` is the object that the worker and `cancel` share. */
  datatype Job = Job(id: Id, row: Row, cancelRequested: bool, launched: bool, phase: Phase)

  /**
   * Outside the service: `commands` and `logs` record every command launched and every line printed, `live`
   * the requests whose process has not exited, `recorded` those of them whose marker names the process, and
   * `working` those whose process holds the root's lock.  With no task and `closed` there is no service.
   */
  datatype State = State(
    rows: map<Id, Row>, job: Option<Job>, closed: bool,
    commands: seq<Id>, logs: map<Id, string>, live: set<Id>, recorded: set<Id>, working: set<Id>)

  datatype Reply = Accepted(row: Row) | Stored(row: Row) | Refused

  const LIMIT := 16384

  function Last(s: string, n: nat): string
  {
    if |s| <= n then s else s[|s| - n..]
  }

  // --- Request checks --------------------------------------------------------------

  predicate ArgumentsOk(argv: seq<string>)
  {
    1 <= |argv| <= 128 && forall a | a in argv :: !Blank(a) && |a| <= 4096 && '\0' !in a
  }

  predicate Supported(argv: seq<string>)
  {
    (argv != [] && argv[0] == "install")
    || argv in {["repo", "refresh"], ["app-runtime", "check"], ["app-runtime", "recover"], ["app-runtime", "migrate"]}
  }

  // --- Monitor sections and worker steps -----------------------------------------------

  function Submit(s: State, id: Id, argv: seq<string>): (State, Reply)
  {
    if s.closed || !IdOk(id) || !ArgumentsOk(argv) || !Supported(argv) then (s, Refused)
    else if id in s.rows then (s, if s.rows[id].argv == argv then Stored(s.rows[id]) else Refused)
    else if s.job.Some? then (s, Refused)
    else
      var row := Row(argv, Running, "", false, None);
      (s.(rows := s.rows[id := row], job := Some(Job(id, row, false, false, Submitted)), logs := s.logs[id := ""]),
          Accepted(row))
  }

  function Cancel(s: State, id: Id): (State, Reply)
  {
    if id !in s.rows then (s, Refused)
    else if s.job.Some? && s.job.value.id == id then
      var row := s.job.value.row.(status := CancelRequested);
      (s.(rows := s.rows[id := row], job := Some(s.job.value.(row := row, cancelRequested := true))), Accepted(row))
    else (s, Stored(s.rows[id]))
  }

  function Close(s: State): State
  {
    (if s.job.Some? then Cancel(s, s.job.value.id).0 else s).(closed := true)
  }

  /** The executor thread enters the task. */
  function Enter(s: State): State
  {
    if s.job.Some? && s.job.value.phase.Submitted? then s.(job := Some(s.job.value.(phase := Executing))) else s
  }

  /** The process of the requested command is started, unless the runtime was cancelled first. */
  function Launch(s: State): State
  {
    if s.job.Some? && s.job.value.phase.Executing? && !s.job.value.launched && !s.job.value.cancelRequested then
      s.(job := Some(s.job.value.(launched := true)), commands := s.commands + [s.job.value.id],
         live := s.live + {s.job.value.id})
    else s
  }

  /** The launch script moves the complete record onto the marker, before it becomes the launcher. */
  function Record(s: State, id: Id): State
  {
    if id in s.live then s.(recorded := s.recorded + {id}) else s
  }

  /** The launcher takes the root's lock without waiting; a process that does not get it ends. */
  function Lock(s: State, id: Id): State
  {
    if id !in s.recorded || id in s.working then s
    else if s.working == {} then s.(working := {id})
    else Exit(s, id)
  }

  function Exit(s: State, id: Id): State
  {
    s.(live := s.live - {id}, recorded := s.recorded - {id}, working := s.working - {id})
  }

  /** One output line: appended, cut to the limit, saved. */
  function Print(s: State, line: string): State
  {
    if s.job.Some? && s.job.value.phase.Executing? then
      var j := s.job.value;
      var output := j.row.output + line + "\n";
      var row := if |output| > LIMIT then j.row.(output := output[|output| - LIMIT..], truncated := true)
          else j.row.(output := output);
      s.(rows := s.rows[j.id := row], job := Some(j.(row := row)),
         logs := if j.id in s.logs then s.logs[j.id := s.logs[j.id] + line + "\n"] else s.logs)
    else s
  }

  /** Success means that the process was waited for; failure may leave it behind, when stopping it was not confirmed. */
  predicate MaySettle(s: State, ok: bool)
  {
    && s.job.Some? && s.job.value.phase.Executing?
    && (ok ==> s.job.value.launched && s.job.value.id !in s.live)
  }

  /** The command returned or failed: the final status is set in memory, not yet saved. */
  function Settle(s: State, ok: bool): State
  {
    if MaySettle(s, ok) then
      var j := s.job.value;
      var status := if j.cancelRequested then Cancelled else if ok then Completed else Failed;
      s.(job := Some(j.(row := j.row.(status := status), phase := Settled)))
    else s
  }

  /** The finally clause: the last save, then the fields are cleared, in one monitor section. */
  function Finish(s: State, exit: Option<int>): State
  {
    if s.job.Some? && s.job.value.phase.Settled? then
      s.(rows := s.rows[s.job.value.id := s.job.value.row.(exit := exit)], job := None)
    else s
  }

  function Recovered(row: Row): Row
  {
    if row.status.Running? || row.status.CancelRequested? then row.(status := Interrupted) else row
  }

  /** The app's process dies: the disk and the processes it started are left. */
  function Crash(s: State): State
  {
    s.(job := None, closed := true)
  }

  /** Preparation comes before the service: it ends every process that a marker names, or throws. */
  predicate CanStart(s: State)
  {
    s.closed && s.job.None? && s.recorded == {}
  }

  /** The service's constructor, over the rows an earlier one left. */
  function Renewed(s: State): State
  {
    s.(rows := map id | id in s.rows :: Recovered(s.rows[id]), job := None, closed := false)
  }

  function Restart(s: State): State
  {
    if CanStart(s) then Renewed(s) else s
  }

  datatype Event =
    | SubmitRequest(id: Id, argv: seq<string>) | CancelRequest(id: Id) | CloseService
    | Entered | Launched | Printed(line: string) | Returned(ok: bool) | Finished(exit: Option<int>)
    | Recorded(id: Id) | Locked(id: Id) | Exited(id: Id) | Crashed | Restarted

  function Step(s: State, e: Event): State
  {
    match e
    case SubmitRequest(id, argv) => Submit(s, id, argv).0
    case CancelRequest(id) => Cancel(s, id).0
    case CloseService => Close(s)
    case Entered => Enter(s)
    case Launched => Launch(s)
    case Printed(line) => Print(s, line)
    case Returned(ok) => Settle(s, ok)
    case Finished(exit) => Finish(s, exit)
    case Recorded(id) => Record(s, id)
    case Locked(id) => Lock(s, id)
    case Exited(id) => Exit(s, id)
    case Crashed => Crash(s)
    case Restarted => Restart(s)
  }

  function Run(s: State, events: seq<Event>): State
    decreases |events|
  {
    if events == [] then s else Run(Step(s, events[0]), events[1..])
  }

  const EMPTY := State(map[], None, false, [], map[], {}, {}, {})

  // --- The invariant ------------------------------------------------------------------------

  function Launches(commands: seq<Id>, id: Id): nat
    decreases |commands|
  {
    if commands == [] then 0
    else Launches(commands[..|commands| - 1], id) + if commands[|commands| - 1] == id then 1 else 0
  }

  /** A stored output is the tail of everything printed, and says truly whether something was cut. */
  predicate Tail(row: Row, log: string)
  {
    row.output == Last(log, LIMIT) && (row.truncated <==> |log| > LIMIT)
  }

  predicate JobOk(s: State)
    requires s.job.Some?
  {
    var j := s.job.value;
    && j.id in s.rows && j.id in s.logs
    && s.rows[j.id].argv == j.row.argv && Tail(j.row, s.logs[j.id])
    && (!j.launched ==> Launches(s.commands, j.id) == 0)
    && (j.phase.Submitted? ==> !j.launched && s.logs[j.id] == "")
    && (!j.phase.Settled? ==> s.rows[j.id] == j.row && j.row.status == if j.cancelRequested then CancelRequested
          else Running)
    && (j.phase.Settled? ==>
          j.row.status in (if j.cancelRequested then {Cancelled, CancelRequested} else {Completed, Failed}))
  }

  ghost predicate Inv(s: State)
  {
    && (s.job.Some? ==> JobOk(s))
    && (forall id | id in s.rows :: id in s.logs && Tail(s.rows[id], s.logs[id]) && Launches(s.commands, id) <= 1)
    && (forall id | id in s.rows && s.rows[id].status.Running? ::
          if s.job.Some? then s.job.value.id == id else s.closed)
    && (forall id: Id :: Launches(s.commands, id) > 0 ==> id in s.rows)
    && (forall id | id in s.live :: Launches(s.commands, id) > 0)
    && s.working <= s.recorded <= s.live && |s.working| <= 1
  }

  lemma LaunchesAppend(commands: seq<Id>, c: Id, id: Id)
    ensures Launches(commands + [c], id) == Launches(commands, id) + if c == id then 1 else 0
  {
    assert (commands + [c])[..|commands|] == commands;
  }

  /** Cutting after every line leaves the tail of the whole. */
  lemma TailExtends(row: Row, log: string, line: string)
    requires Tail(row, log)
    ensures var output := row.output + line + "\n";
            Last(output, LIMIT) == Last(log + line + "\n", LIMIT) && (|output| > LIMIT <==> |log + line + "\n"| > LIMIT)
  {
    var whole, output := log + line + "\n", row.output + line + "\n";
    if |log| > LIMIT {
      var cut := |log| - LIMIT;
      assert output == whole[cut..];
    }
  }

  lemma LaunchKeeps(s: State)
    requires Inv(s)
    ensures Inv(Launch(s))
  {
    if Launch(s) != s {
      var c := s.job.value.id;
      forall id: Id ensures Launches(s.commands + [c], id) == Launches(s.commands, id) + if c == id then 1 else 0 {
        LaunchesAppend(s.commands, c, id);
      }
      hide Launches;
    }
  }

  lemma PrintKeeps(s: State, line: string)
    requires Inv(s)
    ensures Inv(Print(s, line))
  {
    if s.job.Some? && s.job.value.phase.Executing? {
      TailExtends(s.job.value.row, s.logs[s.job.value.id], line);
      hide Launches;
    }
  }

  lemma StepKeeps(s: State, e: Event)
    requires Inv(s)
    ensures Inv(Step(s, e))
  {
    hide Inv;
    match e
    case Launched => LaunchKeeps(s);
    case Printed(line) => PrintKeeps(s, line);
    case SubmitRequest(id, argv) => SubmitKeeps(s, id, argv);
    case CancelRequest(id) => CancelKeeps(s, id);
    case CloseService => CloseKeeps(s);
    case Crashed => CrashKeeps(s);
    case Restarted => RestartKeeps(s);
    case Entered => EnterKeeps(s);
    case Returned(ok) => SettleKeeps(s, ok);
    case Finished(exit) => FinishKeeps(s, exit);
    case Recorded(id) => ProcessKeeps(s, id);
    case Locked(id) => ProcessKeeps(s, id);
    case Exited(id) => ProcessKeeps(s, id);
  }

  lemma EnterKeeps(s: State)
    requires Inv(s)
    ensures Inv(Enter(s))
  {
    hide Launches, Tail;
  }

  lemma SettleKeeps(s: State, ok: bool)
    requires Inv(s)
    ensures Inv(Settle(s, ok))
  {
    hide Launches, Last;
  }

  lemma FinishKeeps(s: State, exit: Option<int>)
    requires Inv(s)
    ensures Inv(Finish(s, exit))
  {
    hide Launches;
  }

  lemma ProcessKeeps(s: State, id: Id)
    requires Inv(s)
    ensures Inv(Record(s, id)) && Inv(Lock(s, id)) && Inv(Exit(s, id))
  {
    hide Inv;
    WorkingLive(s);
    LessWorking(s.working, id);
    OutsideKeeps(s, Record(s, id));
    OutsideKeeps(s, Lock(s, id));
    OutsideKeeps(s, Exit(s, id));
  }

  lemma WorkingLive(s: State)
    requires Inv(s)
    ensures s.working <= s.recorded <= s.live && |s.working| <= 1
  {
    hide Launches, JobOk, Tail;
  }

  /** Processes that are recorded, take the lock or end leave the rest of the invariant alone. */
  lemma OutsideKeeps(s: State, t: State)
    requires Inv(s) && t == s.(live := t.live, recorded := t.recorded, working := t.working)
    requires t.working <= t.recorded <= t.live <= s.live && |t.working| <= 1
    ensures Inv(t)
  {
    JobElsewhere(s, t);
    hide Launches, JobOk, Tail;
  }

  lemma LessWorking(working: set<Id>, id: Id)
    requires |working| <= 1
    ensures |working - {id}| <= 1 && |{id}| == 1
  {
    assert working == (working - {id}) + (working * {id});
  }

  lemma JobElsewhere(s: State, t: State)
    requires t == s.(live := t.live, recorded := t.recorded, working := t.working)
    ensures s.job.Some? ==> (JobOk(s) <==> JobOk(t))
  {
    hide Launches, Tail;
  }

  lemma CancelKeeps(s: State, id: Id)
    requires Inv(s)
    ensures Inv(Cancel(s, id).0)
  {
    hide Launches, Last;
  }

  lemma CloseKeeps(s: State)
    requires Inv(s)
    ensures Inv(Close(s))
  {
    if s.job.Some? { CancelKeeps(s, s.job.value.id); }
    hide Launches, Tail;
  }

  lemma CrashKeeps(s: State)
    requires Inv(s)
    ensures Inv(Crash(s))
  {
    hide Launches, Last;
  }

  lemma RenewedKeeps(s: State)
    requires Inv(s)
    ensures Inv(Renewed(s))
  {
    hide Launches, Last;
  }

  lemma RestartKeeps(s: State)
    requires Inv(s)
    ensures Inv(Restart(s))
  {
    RenewedKeeps(s);
    hide Inv;
  }

  lemma SubmitKeeps(s: State, id: Id, argv: seq<string>)
    requires Inv(s)
    ensures Inv(Submit(s, id, argv).0)
  {
    hide Launches, IdOk, ArgumentsOk, Supported;
  }

  lemma {:induction false} RunKeeps(s: State, events: seq<Event>)
    requires Inv(s)
    ensures Inv(Run(s, events))
    decreases |events|
  {
    if events != [] {
      StepKeeps(s, events[0]);
      RunKeeps(Step(s, events[0]), events[1..]);
    }
  }

  /**
   * Over every run, crashes and restarts included: each request's command is launched at most once and
   * only for a stored request, only the current request of a service is ever `running`, and every stored output is
   * exactly the last 16384 characters of all the lines printed, marked truncated just when more were.
   */
  lemma SingleWriter(events: seq<Event>, id: Id)
    ensures var s := Run(EMPTY, events);
            && Launches(s.commands, id) <= 1 && (Launches(s.commands, id) > 0 ==> id in s.rows)
            && (id in s.rows ==>
                  && id in s.logs && Tail(s.rows[id], s.logs[id])
                  && (s.rows[id].status.Running? ==> if s.job.Some? then s.job.value.id == id else s.closed))
  {
    assert Inv(EMPTY);
    RunKeeps(EMPTY, events);
  }

  // --- One command at a time ---------------------------------------------------------------------

  /**
   * The writer's slot is given up only after its process has exited, and a service starts only when no process
   * is alive that its marker does not name yet.
   */
  predicate FreedAfterExit(s: State, e: Event)
  {
    && (e.Finished? && s.job.Some? && s.job.value.phase.Settled? ==> s.job.value.id !in s.live)
    && (e.Restarted? && CanStart(s) ==> s.live <= s.recorded)
  }

  predicate Orderly(s: State, events: seq<Event>)
    decreases |events|
  {
    events == [] || (FreedAfterExit(s, events[0]) && Orderly(Step(s, events[0]), events[1..]))
  }

  /** Only the current request has a process; between two services one process may be left. */
  predicate Alone(s: State)
  {
    match s.job
    case Some(j) => s.live <= {j.id}
    case None => if s.closed then |s.live| <= 1 else s.live == {}
  }

  lemma StepKeepsAlone(s: State, e: Event)
    requires Inv(s) && Alone(s) && FreedAfterExit(s, e)
    ensures Alone(Step(s, e))
  {
    WorkingLive(s);
    AtMost(s.live, if s.job.Some? then s.job.value.id else "");
    if e.Exited? || e.Locked? { FewerLive(s.live, e.id); }
    hide IdOk, ArgumentsOk, Supported, Inv;
  }

  lemma FewerLive(live: set<Id>, id: Id)
    ensures |live - {id}| <= |live|
  {
    assert live == (live - {id}) + (live * {id});
  }

  lemma AtMost(live: set<Id>, id: Id)
    ensures live <= {id} ==> |live| <= 1
  {
    if live <= {id} {
      if id in live { assert live == {id}; } else { assert live == {}; }
    }
  }

  lemma {:induction false} RunKeepsAlone(s: State, events: seq<Event>, n: nat)
    requires Inv(s) && Alone(s) && Orderly(s, events) && n <= |events|
    ensures Alone(Run(s, events[..n]))
    decreases n
  {
    if n > 0 {
      StepKeeps(s, events[0]);
      StepKeepsAlone(s, events[0]);
      hide Inv, Alone, Step;
      RunKeepsAlone(Step(s, events[0]), events[1..], n - 1);
      assert events[..n][1..] == events[1..][..n - 1];
    }
  }

  /**
   * At most one package command is alive at any moment of any run, crashes at any point included, in which the
   * slot is freed only after an exit and no unrecorded process outlives a service: while there is a service,
   * the one alive is the current request's.
   */
  lemma OneCommandAtATime(events: seq<Event>, n: nat)
    requires Orderly(EMPTY, events) && n <= |events|
    ensures var s := Run(EMPTY, events[..n]);
            && |s.live| <= 1
            && (forall id | id in s.live :: if s.job.Some? then s.job.value.id == id else s.closed)
  {
    assert Inv(EMPTY);
    RunKeepsAlone(EMPTY, events, n);
    var s := Run(EMPTY, events[..n]);
    assert Alone(s);
    AtMost(s.live, if s.job.Some? then s.job.value.id else "");
    hide Run, Inv;
  }

  /**
   * The condition is exact: whatever frees the slot, the end of a task or the start of a service, the next
   * request's command overlaps an earlier one just when a process is alive then, which for a task is its own
   * and for a start one that its marker does not name.
   */
  lemma OverlapExactly(s: State, freed: Event, id: Id, argv: seq<string>)
    requires Inv(s) && (freed.Finished? || (freed.Restarted? && CanStart(s)))
    requires Submit(Step(s, freed), id, argv).1.Accepted?
    ensures var t := Run(s, [freed, SubmitRequest(id, argv), Entered, Launched]);
            && t.live == s.live + {id} && id !in s.live
            && (|t.live| > 1 <==> s.live != {})
            && (freed.Restarted? ==> (|t.live| > 1 <==> exists other :: other in s.live && other !in s.recorded))
            && (Alone(s) && s.job.Some? ==> (|t.live| > 1 <==> s.job.value.id in s.live))
            && (Alone(s) && (freed.Restarted? || s.job.Some?) ==> (|t.live| > 1 <==> !FreedAfterExit(s, freed)))
  {
    var s1 := Step(s, freed);
    FourSteps(s, freed, SubmitRequest(id, argv), Entered, Launched);
    FreedSlot(s, freed);
    NextLaunch(s1, id, argv);
    NeverLaunched(s, id);
    OneMore(s.live, id);
    hide *;
  }

  lemma FreedSlot(s: State, freed: Event)
    requires Inv(s) && (freed.Finished? || (freed.Restarted? && CanStart(s)))
    ensures var t := Step(s, freed); t.live == s.live && t.rows.Keys == s.rows.Keys
    ensures freed.Restarted? ==> (s.live != {} <==> exists other :: other in s.live && other !in s.recorded)
    ensures Alone(s) && s.job.Some? ==> (s.live != {} <==> s.job.value.id in s.live)
    ensures Step(s, freed).job.None? && (freed.Restarted? || s.job.Some?) && Alone(s) ==>
              (s.live != {} <==> !FreedAfterExit(s, freed))
  {
    hide Launches, Tail;
    if s.live != {} {
      var other :| other in s.live;
      if freed.Restarted? { assert other !in s.recorded; }
    }
  }

  lemma NextLaunch(s: State, id: Id, argv: seq<string>)
    requires Submit(s, id, argv).1.Accepted?
    ensures s.job.None? && id !in s.rows
    ensures Step(Step(Step(s, SubmitRequest(id, argv)), Entered), Launched).live == s.live + {id}
  {
    hide IdOk, ArgumentsOk, Supported;
  }

  lemma NeverLaunched(s: State, id: Id)
    requires Inv(s) && id !in s.rows
    ensures id !in s.live
  {
    hide Launches, JobOk, Tail;
  }

  lemma OneMore(live: set<Id>, id: Id)
    requires id !in live
    ensures |live + {id}| > 1 <==> live != {}
  {
    if live == {} { assert live + {id} == {id}; } else { assert |live + {id}| == |live| + 1; }
  }

  lemma FourSteps(s: State, a: Event, b: Event, c: Event, d: Event)
    ensures Run(s, [a, b, c, d]) == Step(Step(Step(Step(s, a), b), c), d)
  {
    hide Step;
    assert [a, b, c, d][1..] == [b, c, d] && [b, c, d][1..] == [c, d] && [c, d][1..] == [d] && [d][1..] == [];
    assert Run(Step(Step(Step(s, a), b), c), [d]) == Step(Step(Step(Step(s, a), b), c), d);
    assert Run(Step(Step(s, a), b), [c, d]) == Run(Step(Step(Step(s, a), b), c), [d]);
    assert Run(Step(s, a), [b, c, d]) == Run(Step(Step(s, a), b), [c, d]);
  }

  /** A request that the service takes when it has nothing to do. */
  predicate Fresh(id: Id, argv: seq<string>)
  {
    IdOk(id) && ArgumentsOk(argv) && Supported(argv)
  }

  /** Both cases occur.  After a read that failed and a stop that was not confirmed, the next command overlaps. */
  lemma OverlapAfterFailedStop(a: Id, b: Id, argv: seq<string>, exit: Option<int>)
    requires a != b && Fresh(a, argv) && Fresh(b, argv)
    ensures var first := Run(EMPTY, [SubmitRequest(a, argv), Entered, Launched, Returned(false)]);
            var s := Run(first, [Finished(exit), SubmitRequest(b, argv), Entered, Launched]);
            Inv(first) && s.live == {a, b}
  {
    hide *;
    FirstCommand(a, argv);
    FourSteps(EMPTY, SubmitRequest(a, argv), Entered, Launched, Returned(false));
    var up := Step(Step(Step(EMPTY, SubmitRequest(a, argv)), Entered), Launched);
    var first := Step(up, Returned(false));
    FreedByFailure(up, a, exit);
    StepKeeps(up, Returned(false));
    FourSteps(first, Finished(exit), SubmitRequest(b, argv), Entered, Launched);
    Accepts(Step(first, Finished(exit)), b, argv);
    NextLaunch(Step(first, Finished(exit)), b, argv);
  }

  /**
   * A crash before the launch script has recorded its process lets the next service overlap it; had it been
   * recorded, the service could not have started while it lived.
   */
  lemma OverlapAfterUnrecorded(a: Id, b: Id, argv: seq<string>)
    requires a != b && Fresh(a, argv) && Fresh(b, argv)
    ensures var down := Run(EMPTY, [SubmitRequest(a, argv), Entered, Launched, Crashed]);
            && Inv(down)
            && Run(down, [Restarted, SubmitRequest(b, argv), Entered, Launched]).live == {a, b}
            && var named := Step(down, Recorded(a));
               Run(named, [Restarted, SubmitRequest(b, argv), Entered, Launched]) == named
  {
    hide *;
    FirstCommand(a, argv);
    FourSteps(EMPTY, SubmitRequest(a, argv), Entered, Launched, Crashed);
    var up := Step(Step(Step(EMPTY, SubmitRequest(a, argv)), Entered), Launched);
    var down := Step(up, Crashed);
    FreedByCrash(up, a, b, argv);
    StepKeeps(up, Crashed);
    FourSteps(down, Restarted, SubmitRequest(b, argv), Entered, Launched);
    FourSteps(Step(down, Recorded(a)), Restarted, SubmitRequest(b, argv), Entered, Launched);
    Accepts(Step(down, Restarted), b, argv);
    NextLaunch(Step(down, Restarted), b, argv);
  }

  /** The first command of a first service. */
  lemma FirstCommand(a: Id, argv: seq<string>)
    requires Fresh(a, argv)
    ensures var up := Step(Step(Step(EMPTY, SubmitRequest(a, argv)), Entered), Launched);
            && Inv(up) && up.rows.Keys == up.live == {a} && up.recorded == {} && !up.closed
            && up.job.Some? && up.job.value.id == a && up.job.value.phase.Executing?
  {
    FirstKeeps(a, argv);
    hide Inv, IdOk, ArgumentsOk, Supported;
    Accepts(EMPTY, a, argv);
  }

  lemma FirstKeeps(a: Id, argv: seq<string>)
    ensures Inv(Step(Step(Step(EMPTY, SubmitRequest(a, argv)), Entered), Launched))
  {
    assert Inv(EMPTY);
    hide *;
    var s1 := Step(EMPTY, SubmitRequest(a, argv));
    StepKeeps(EMPTY, SubmitRequest(a, argv));
    StepKeeps(s1, Entered);
    StepKeeps(Step(s1, Entered), Launched);
  }

  lemma FreedByFailure(up: State, a: Id, exit: Option<int>)
    requires up.rows.Keys == {a} && up.job.Some? && up.job.value.id == a && up.job.value.phase.Executing?
    ensures var next := Step(Step(up, Returned(false)), Finished(exit));
            next.job.None? && next.rows.Keys == {a} && next.live == up.live && next.closed == up.closed
  {
  }

  lemma FreedByCrash(up: State, a: Id, b: Id, argv: seq<string>)
    requires up.rows.Keys == up.live == {a} && up.recorded == {}
    ensures var next := Step(Step(up, Crashed), Restarted);
            next.job.None? && next.rows.Keys == next.live == {a} && !next.closed
    ensures var named := Step(Step(up, Crashed), Recorded(a));
            Step(Step(Step(Step(named, Restarted), SubmitRequest(b, argv)), Entered), Launched) == named
  {
  }

  lemma Accepts(s: State, id: Id, argv: seq<string>)
    requires Fresh(id, argv) && !s.closed && s.job.None? && id !in s.rows
    ensures Submit(s, id, argv).1.Accepted?
  {
  }

  /**
   * Even then at most one process works on the root: the lock is exclusive, a process asks for it only once it
   * is recorded, and one that does not get it ends.
   */
  lemma OneWorksOnTheRoot(events: seq<Event>)
    ensures var s := Run(EMPTY, events); |s.working| <= 1 && s.working <= s.recorded <= s.live
  {
    assert Inv(EMPTY);
    RunKeeps(EMPTY, events);
    WorkingLive(Run(EMPTY, events));
  }

  // --- Cancellation ----------------------------------------------------------------------------

  /** The row is past a cancel: neither on disk nor in memory does it say that the command completed or failed. */
  predicate Marked(s: State, id: Id)
  {
    && id in s.rows && !s.rows[id].status.Completed? && !s.rows[id].status.Failed? && !s.rows[id].status.Running?
    && (s.job.Some? && s.job.value.id == id ==>
          s.job.value.cancelRequested && s.job.value.row.status in {CancelRequested, Cancelled})
  }

  lemma CancelMarks(s: State, id: Id)
    requires Cancel(s, id).1.Accepted?
    ensures Marked(Cancel(s, id).0, id) && Cancel(s, id).0.rows[id].status == CancelRequested
    ensures s.job.Some? && s.job.value.id == id
  {
  }

  lemma StepMarked(s: State, e: Event, id: Id)
    requires Marked(s, id)
    ensures Marked(Step(s, e), id)
    ensures s.job.Some? && s.job.value.id == id ==> Step(s, e).commands == s.commands
  {
  }

  lemma {:induction false} RunMarked(s: State, events: seq<Event>, id: Id)
    requires Marked(s, id)
    ensures Marked(Run(s, events), id)
    decreases |events|
  {
    if events != [] {
      StepMarked(s, events[0], id);
      RunMarked(Step(s, events[0]), events[1..], id);
    }
  }

  /**
   * After an accepted cancel the row never becomes `completed` or `failed`, whatever interleaving of
   * output, exit, further requests, crash and restart follows, and wherever the worker stood.
   */
  lemma CancelIsFinal(before: seq<Event>, id: Id, after: seq<Event>)
    requires Cancel(Run(EMPTY, before), id).1.Accepted?
    ensures var s := Run(Cancel(Run(EMPTY, before), id).0, after);
            id in s.rows && s.rows[id].status in {CancelRequested, Cancelled, Interrupted}
  {
    CancelMarks(Run(EMPTY, before), id);
    RunMarked(Cancel(Run(EMPTY, before), id).0, after, id);
  }

  /** The race the monitor leaves open: a cancel between the final status and its save ends as `cancel_requested`. */
  lemma CancelInTheGap(s: State, exit: Option<int>)
    requires s.job.Some? && s.job.value.phase.Settled? && s.job.value.id in s.rows
    ensures var id := s.job.value.id;
            var t := Finish(Cancel(s, id).0, exit);
            && t.job.None? && t.rows[id].status == CancelRequested
            && Renewed(t).rows[id].status == Interrupted
  {
  }

  /** Requests are idempotent by ID: the same arguments give the stored row, others are refused, nothing changes. */
  lemma RepeatedRequest(events: seq<Event>, id: Id, argv: seq<string>, more: seq<Event>, again: seq<string>)
    requires Submit(Run(EMPTY, events), id, argv).1.Accepted?
    ensures var s := Run(Submit(Run(EMPTY, events), id, argv).0, more);
            && id in s.rows && s.rows[id].argv == argv
            && Submit(s, id, again).0 == s
            && (Submit(s, id, again).1.Stored? ==> again == argv && Submit(s, id, again).1.row == s.rows[id])
            && (again == argv && !s.closed ==> Submit(s, id, again).1 == Stored(s.rows[id]))
  {
    assert Inv(EMPTY);
    RunKeeps(EMPTY, events);
    SubmitKeeps(Run(EMPTY, events), id, argv);
    RunStored(Submit(Run(EMPTY, events), id, argv).0, more, id);
  }

  lemma {:induction false} RunStored(s: State, events: seq<Event>, id: Id)
    requires Inv(s) && id in s.rows
    ensures id in Run(s, events).rows && Run(s, events).rows[id].argv == s.rows[id].argv
    decreases |events|
  {
    if events != [] {
      StepKeeps(s, events[0]);
      StepStored(s, events[0], id);
      RunStored(Step(s, events[0]), events[1..], id);
    }
  }

  lemma StepStored(s: State, e: Event, id: Id)
    requires Inv(s) && id in s.rows
    ensures id in Step(s, e).rows && Step(s, e).rows[id].argv == s.rows[id].argv
  {
    hide Launches, Last, Tail;
  }

  // --- The object --------------------------------------------------------------------------------

  /** The lines of an output. */
  function Text(lines: seq<string>): string
  {
    if lines == [] then "" else Text(lines[..|lines| - 1]) + lines[|lines| - 1] + "\n"
  }

  /** The service: `current` is the request in hand, `currentRow` the row its worker and `cancel` share. */
  class Service {
    var rows: map<Id, Row>
    var current: Option<Id>
    var currentRow: Row
    var cancelRequested: bool
    var launched: bool
    var phase: Phase
    var shutdown: bool
    var commands: seq<Id>
    var logs: map<Id, string>
    var live: set<Id>
    var recorded: set<Id>
    var working: set<Id>

    function Now(): State
      reads this
    {
      State(rows, if current.None? then None
          else Some(Job(current.value, currentRow, cancelRequested, launched, phase)),
            shutdown, commands, logs, live, recorded, working)
    }

    ghost predicate Valid()
      reads this
    {
      Inv(Now())
    }

    /** Starts over what a previous process left: no row says that its command still runs. */
    constructor (before: State)
      requires Inv(before)
      ensures Valid() && Now() == Renewed(before)
      ensures forall id | id in rows :: rows[id].status !in {Running, CancelRequested}
    {
      rows, current, shutdown, commands, logs := before.rows, None, false, before.commands, before.logs;
      live, recorded, working := before.live, before.recorded, before.working;
      new;
      hide Inv, Recovered;
      var left := rows.Keys;
      while left != {}
        invariant left <= rows.Keys == before.rows.Keys
        invariant forall id | id in rows :: rows[id] == if id in left then before.rows[id]
                  else Recovered(before.rows[id])
        invariant Now() == Renewed(before).(rows := rows)
      {
        var id :| id in left;
        RecoveredRow(rows[id]);
        if rows[id].status in {Running, CancelRequested} {
          rows := rows[id := rows[id].(status := Interrupted)];
        }
        left := left - {id};
      }
      assert rows == Renewed(before).rows;
      RenewedKeeps(before);
      forall id | id in rows ensures rows[id].status !in {Running, CancelRequested} { RecoveredRow(before.rows[id]); }
    }

    method SubmitArguments(id: Id, argv: seq<string>) returns (reply: Reply)
      requires Valid()
      modifies this
      ensures Valid() && (Now(), reply) == Submit(old(Now()), id, argv)
      ensures reply.Accepted? ==>
                old(current).None? && id !in old(rows) && current == Some(id) && rows[id].status == Running
    {
      hide Inv, IdOk, ArgumentsOk, Supported;
      SubmitKeeps(Now(), id, argv);
      if shutdown || !IdOk(id) || !ArgumentsOk(argv) || !Supported(argv) { return Refused; }
      if id in rows {
        return if rows[id].argv != argv then Refused else Stored(rows[id]);
      }
      if current.Some? { return Refused; }
      var row := Row(argv, Running, "", false, None);
      rows := rows[id := row];
      current, currentRow, cancelRequested, launched, phase := Some(id), row, false, false, Submitted;
      logs := logs[id := ""];
      reply := Accepted(row);
    }

    method CancelId(id: Id) returns (reply: Reply)
      requires Valid()
      modifies this
      ensures Valid() && (Now(), reply) == Cancel(old(Now()), id)
      ensures reply.Accepted? <==> old(current) == Some(id)
      ensures reply.Accepted? ==> rows[id].status == CancelRequested && Marked(Now(), id)
    {
      hide Inv, JobOk, Tail;
      CancelKeeps(Now(), id);
      if current == Some(id) { InvOf(Now()); }
      if id !in rows { return Refused; }
      if current != Some(id) { return Stored(rows[id]); }
      cancelRequested := true;
      currentRow := currentRow.(status := CancelRequested);
      rows := rows[id := currentRow];
      reply := Accepted(currentRow);
    }

    method CloseService()
      requires Valid()
      modifies this
      ensures Valid() && Now() == Close(old(Now())) && shutdown
      ensures current.Some? ==> Marked(Now(), current.value)
    {
      hide Inv;
      CloseKeeps(Now());
      if current.Some? { var reply := CancelId(current.value); }
      shutdown := true;
    }

    method EnterTask()
      requires Valid()
      modifies this`phase
      ensures Valid() && Now() == Enter(old(Now()))
      ensures current.Some? && old(phase).Submitted? ==> phase.Executing?
    {
      hide Inv;
      StepKeeps(Now(), Entered);
      if current.Some? && phase.Submitted? { phase := Executing; }
    }

    /** The process is started, unless the request was cancelled before. */
    method LaunchCommand() returns (started: bool)
      requires Valid()
      modifies this`launched, this`commands, this`live
      ensures Valid() && Now() == Launch(old(Now()))
      ensures started <==> current.Some? && phase.Executing? && !old(launched) && !cancelRequested
      ensures launched == (started || old(launched)) && (!started ==> live == old(live))
      ensures started ==>
                && Launches(old(commands), current.value) == 0
                && live == old(live) + {current.value} && current.value !in old(live)
    {
      hide Inv, Launches, JobOk, Tail;
      LaunchKeeps(Now());
      started := current.Some? && phase.Executing? && !launched && !cancelRequested;
      if started { InvOf(Now()); }
      if started {
        launched := true;
        commands := commands + [current.value];
        live := live + {current.value};
      }
    }

    /** flock with LOCK_NB in the launcher: the process holds the root's lock, or ends. */
    method LaunchedLocks(id: Id)
      requires Valid()
      modifies this`live, this`recorded, this`working
      ensures Valid() && Now() == Lock(old(Now()), id)
      ensures working <= live && |working| <= 1
    {
      hide Inv, Launches, JobOk;
      ProcessKeeps(Now(), id);
      WorkingLive(Lock(Now(), id));
      if id in recorded && id !in working {
        if working == {} {
          working := {id};
        } else {
          assert working - {id} == working;
          live, recorded := live - {id}, recorded - {id};
        }
      }
    }

    /** The launch script has moved its record onto the marker. */
    method ProcessRecorded(id: Id)
      requires Valid()
      modifies this`recorded
      ensures Valid() && Now() == Record(old(Now()), id)
    {
      hide Inv;
      ProcessKeeps(Now(), id);
      if id in live { recorded := recorded + {id}; }
    }

    method ProcessExits(id: Id)
      requires Valid()
      modifies this`live, this`recorded, this`working
      ensures Valid() && Now() == Exit(old(Now()), id)
      ensures id !in live && live == old(live) - {id}
    {
      hide Inv;
      ProcessKeeps(Now(), id);
      live, recorded, working := live - {id}, recorded - {id}, working - {id};
    }

    /** The line consumer given to the runtime. */
    method Line(line: string)
      requires Valid()
      modifies this`rows, this`currentRow, this`logs
      ensures Valid() && Now() == Print(old(Now()), line)
      ensures current.Some? && phase.Executing? ==>
                && logs == old(logs)[current.value := old(logs)[current.value] + line + "\n"]
                && Tail(rows[current.value], logs[current.value])
    {
      hide Inv, JobOk;
      if current.Some? { InvOf(Now()); }
      PrintKeeps(Now(), line);
      if current.Some? && phase.Executing? { TailExtends(currentRow, logs[current.value], line); }
      if current.None? || !phase.Executing? { return; }
      var output := currentRow.output + line + "\n";
      if |output| > LIMIT {
        output := output[|output| - LIMIT..];
        currentRow := currentRow.(truncated := true);
      }
      currentRow := currentRow.(output := output);
      rows := rows[current.value := currentRow];
      if current.value in logs { logs := logs[current.value := logs[current.value] + line + "\n"]; }
    }

    method SetStatus(ok: bool)
      requires Valid()
      modifies this`currentRow, this`phase
      ensures Valid() && Now() == Settle(old(Now()), ok)
      ensures old(MaySettle(Now(), ok)) ==>
                phase.Settled? && currentRow.status == if cancelRequested then Cancelled else if ok then Completed
                    else Failed
    {
      hide Inv;
      StepKeeps(Now(), Returned(ok));
      if current.None? || !phase.Executing? || (ok && (!launched || current.value in live)) { return; }
      currentRow := currentRow.(status := if cancelRequested then Cancelled else if ok then Completed else Failed);
      phase := Settled;
    }

    method SaveAndClear(exit: Option<int>)
      requires Valid()
      modifies this`rows, this`current
      ensures Valid() && Now() == Finish(old(Now()), exit)
      ensures old(current).Some? && phase.Settled? ==>
                && current.None?
                && rows[old(current).value].status in {Completed, Failed, Cancelled, CancelRequested}
    {
      hide Inv, JobOk, Tail;
      StepKeeps(Now(), Finished(exit));
      if current.Some? { InvOf(Now()); }
      if current.None? || !phase.Settled? { return; }
      rows := rows[current.value := currentRow.(exit := exit)];
      current := None;
    }

    /** `runPackages`, undisturbed: nothing when the request was cancelled, or a process that prints and exits. */
    method RunProcess(lines: seq<string>) returns (started: bool)
      requires Valid() && current.Some? && phase.Executing? && !launched
      requires current.value in logs && logs[current.value] == ""
      modifies this`rows, this`currentRow, this`logs, this`launched, this`commands,
        this`live, this`recorded, this`working
      ensures Valid() && (started <==> !cancelRequested) && live == old(live) - {current.value}
      ensures current.value in logs && logs[current.value] == if started then Text(lines) else ""
      ensures started ==> launched
    {
      hide Inv, JobOk, Tail, Last, Launches, Launch, Print, Exit;
      InvOf(Now());
      started := LaunchCommand();
      if started {
        for k := 0 to |lines|
          invariant Valid() && launched && current == old(current) && logs.Keys == old(logs).Keys
          invariant current.value in logs && logs[current.value] == Text(lines[..k])
          invariant live == old(live) + {current.value}
        {
          Line(lines[k]);
          assert lines[..k + 1][..k] == lines[..k];
        }
        assert lines[..|lines|] == lines;
        ProcessExits(current.value);
      }
      assert live == old(live) - {current.value};
    }

    /**
     * The worker's task, when nothing comes between its sections: the process runs to its exit, the row keeps
     * the tail of its lines and its verdict, and the slot is free again with the process gone.
     */
    method TaskBody(lines: seq<string>, code: int)
      requires Valid() && current.Some? && phase.Submitted?
      modifies this
      ensures Valid() && current.None? && live == old(live) - {old(current).value}
      ensures old(current).value in rows
      ensures var row := rows[old(current).value];
              && row.status == (if old(cancelRequested) then Cancelled else if code == 0 then Completed else Failed)
              && row.output == Last(if old(cancelRequested) then "" else Text(lines), LIMIT)
              && row.exit == (if old(cancelRequested) then None else Some(code))
    {
      hide Inv, JobOk, Last, Launches, Enter, Launch;
      InvOf(Now());
      EnterTask();
      var started := RunProcess(lines);
      InvOf(Now());
      SetStatus(started && code == 0);
      SaveAndClear(if started then Some(code) else None);
    }
  }

  lemma RecoveredRow(row: Row)
    ensures Recovered(row) == if row.status in {Running, CancelRequested} then row.(status := Interrupted) else row
    ensures Recovered(row).status !in {Running, CancelRequested}
  {
  }

  lemma InvOf(s: State)
    requires Inv(s) && s.job.Some?
    ensures JobOk(s) && s.job.value.id in s.rows && s.job.value.id in s.logs
    ensures Tail(s.job.value.row, s.logs[s.job.value.id])
    ensures var j := s.job.value;
            && (j.phase.Submitted? ==> s.logs[j.id] == "" && !j.launched)
            && (!j.launched ==> j.id !in s.live && Launches(s.commands, j.id) == 0)
            && (!j.phase.Settled? ==> j.row.status == if j.cancelRequested then CancelRequested else Running)
            && (j.phase.Settled? ==>
                  j.row.status in (if j.cancelRequested then {Cancelled, CancelRequested} else {Completed, Failed}))
  {
    hide Last;
  }
}
