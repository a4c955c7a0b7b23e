/**
 * How Android jobs end: what makes each status of a row, when the remote side is asked for what, and whole runs
 * of jobs that nothing disturbs.
 */
module AndroidOutcomes {
  import opened Basics
  import opened AndroidJobs

  // --- One step, row by row ------------------------------------------------------------------

  /** The event is a step of the worker, with this answer, in the task of this job at this point. */
  predicate At(s: State, e: Event, id: Id, at: Point)
  {
    e.WorkerStep? && s.worker.Busy? && TaskId(s.worker.task) == id && s.worker.at == at
  }

  /** The remote side reports this state and exit code, and the worker takes it in. */
  predicate Reports(s: State, e: Event, id: Id, state: Status)
  {
    At(s, e, id, Asking) && e.answer.Report? && e.answer.state == state
  }

  /** The last save of a task writes what the task ended with. */
  predicate SavesLast(s: State, e: Event, id: Id, status: Status)
  {
    At(s, e, id, Ending) && s.worker.task.row.status == status
  }

  predicate Flagged(s: State, id: Id)
  {
    id in s.controls && s.controls[id]
  }

  /** A status other than the one before, as an event brings it to the row. */
  predicate Turns(s: State, e: Event, id: Id, status: Status)
    requires id in s.rows
  {
    id in Step(s, e).rows && s.rows[id].status != status && Step(s, e).rows[id].status == status
  }

  /** `completed` is an exit with 0 that the remote side reports, or what an installation has ended with. */
  lemma TurnsCompleted(s: State, e: Event, id: Id)
    requires Inv(s) && id in s.rows && !s.rows[id].status.Completed?
    ensures Turns(s, e, id, Completed) <==>
              (Reports(s, e, id, Completed) && e.answer.exit == 0) || SavesLast(s, e, id, Completed)
  {
    TurnsWhen(s, e, id, Completed);
    if e.WorkerStep? && s.worker.Busy? { SavedExactly(s, e.answer); }
    RecoveredRow(s.rows[id]);
    hide Inv, Step, Turns, Recovered, Saved, Inspectable;
  }

  /** `failed` is a reported completion with any other exit, or a task that ended so. */
  lemma TurnsFailed(s: State, e: Event, id: Id)
    requires Inv(s) && id in s.rows && !s.rows[id].status.Failed?
    ensures Turns(s, e, id, Failed) <==>
              (Reports(s, e, id, Completed) && e.answer.exit != 0) || SavesLast(s, e, id, Failed)
  {
    TurnsWhen(s, e, id, Failed);
    if e.WorkerStep? && s.worker.Busy? { SavedExactly(s, e.answer); }
    RecoveredRow(s.rows[id]);
    hide Inv, Step, Turns, Recovered, Saved, Inspectable;
  }

  /** `unknown` is reported, or a task ended so, or the app died while a task held the job. */
  lemma TurnsUnknown(s: State, e: Event, id: Id)
    requires Inv(s) && id in s.rows && !s.rows[id].status.Unknown?
    ensures Turns(s, e, id, Unknown) <==>
              || Reports(s, e, id, Unknown) || SavesLast(s, e, id, Unknown)
              || (e.CrashAndRestart? && s.rows[id].status in {Starting, Checking, Running, CancelRequested})
  {
    TurnsWhen(s, e, id, Unknown);
    if e.WorkerStep? && s.worker.Busy? { SavedExactly(s, e.answer); }
    RecoveredRow(s.rows[id]);
    hide Inv, Step, Turns, Recovered, Saved, Inspectable;
  }

  /** `cancel_requested` is a cancellation of the current job, and nothing else. */
  lemma TurnsCancelRequested(s: State, e: Event, id: Id)
    requires Inv(s) && id in s.rows && !s.rows[id].status.CancelRequested?
    ensures Turns(s, e, id, CancelRequested) <==> e == CancelJob(id) && id in s.controls && s.current == Some(id)
  {
    TurnsWhen(s, e, id, CancelRequested);
    if e.WorkerStep? && s.worker.Busy? { SavedExactly(s, e.answer); }
    RecoveredRow(s.rows[id]);
    hide Inv, Step, Turns, Recovered, Saved, Inspectable;
  }

  /** `running` is reported by the remote side, or written before an installation is handed over. */
  lemma TurnsRunning(s: State, e: Event, id: Id)
    requires Inv(s) && id in s.rows && !s.rows[id].status.Running?
    ensures Turns(s, e, id, Running) <==>
              || Reports(s, e, id, Running)
              || (At(s, e, id, Proved) && e.answer.Good? && s.worker.task.row.request.action == "install"
                  && !(s.worker.task.create && Flagged(s, id)))
  {
    TurnsWhen(s, e, id, Running);
    if e.WorkerStep? && s.worker.Busy? { SavedExactly(s, e.answer); }
    RecoveredRow(s.rows[id]);
    hide Inv, Step, Turns, Recovered, Saved, Inspectable;
  }

  /** `checking` is a re-check: asked for when the outcome is unknown and no task holds the job, or under way. */
  lemma TurnsChecking(s: State, e: Event, id: Id)
    requires Inv(s) && id in s.rows && !s.rows[id].status.Checking?
    ensures Turns(s, e, id, Checking) <==>
              || ((e == InspectJob(id) || e == CancelJob(id)) && id !in s.controls && !s.closed
                  && s.rows[id].status.Unknown? && s.rows[id].request.action == "shell")
              || (At(s, e, id, Named) && !s.worker.task.create)
              || (At(s, e, id, Entered) && e.answer.Good? && !s.worker.task.create)
  {
    TurnsWhen(s, e, id, Checking);
    if e.WorkerStep? && s.worker.Busy? { SavedExactly(s, e.answer); }
    RecoveredRow(s.rows[id]);
    hide Inv, Step, Turns, Recovered, Saved;
  }

  /** `starting` is a creation that its flag does not stop, or is reported. */
  lemma TurnsStarting(s: State, e: Event, id: Id)
    requires Inv(s) && id in s.rows && !s.rows[id].status.Starting?
    ensures Turns(s, e, id, Starting) <==>
              || Reports(s, e, id, Starting)
              || (At(s, e, id, Named) && s.worker.task.create && !Flagged(s, id))
              || (At(s, e, id, Entered) && e.answer.Good? && s.worker.task.create)
  {
    TurnsWhen(s, e, id, Starting);
    if e.WorkerStep? && s.worker.Busy? { SavedExactly(s, e.answer); }
    RecoveredRow(s.rows[id]);
    hide Inv, Step, Turns, Recovered, Saved, Inspectable;
  }

  lemma TurnsWhen(s: State, e: Event, id: Id, status: Status)
    requires Inv(s) && id in s.rows && s.rows[id].status != status
    ensures Turns(s, e, id, status) <==> Written(s, e, id) == Some(status)
  {
    EventTurns(s, e, id);
    hide Inv, Step, Written;
  }

  lemma OwnStatusHolds(s: State)
    requires Inv(s) && s.worker.Busy?
    ensures OwnStatus(s.worker.task, s.worker.at)
  {
    hide Begun;
  }

  /** What a step of the worker writes to the row of its own task. */
  function Saved(s: State, answer: Answer): Option<Status>
    requires s.worker.Busy?
  {
    var t, at := s.worker.task, s.worker.at;
    var stops := t.create && Flagged(s, TaskId(t));
    match at
    case Named => if stops then None else Some(if t.create then Starting else Checking)
    case Entered => if answer.Good? then Some(t.row.status) else None
    case Proved => if !stops && answer.Good? && t.row.request.action == "install" then Some(Running) else None
    case Asking =>
      if !answer.Report? || answer.state !in {Starting, Running, Completed, Cancelled, Unknown} then None
      else Some(if answer.state.Completed? && answer.exit != 0 then Failed else answer.state)
    case Ending => Some(t.row.status)
    case _ => None
  }

  /** Which points of the body write which status. */
  lemma SavedExactly(s: State, answer: Answer)
    requires Inv(s) && s.worker.Busy?
    ensures var (at, t, saved) := (s.worker.at, s.worker.task, Saved(s, answer));
            && (saved == Some(Completed) <==>
                  (at.Asking? && answer == Report(Completed, 0)) || (at.Ending? && t.row.status.Completed?))
            && (saved == Some(Failed) <==>
                  || (at.Asking? && answer.Report? && answer.state.Completed? && answer.exit != 0)
                  || (at.Ending? && t.row.status.Failed?))
            && (saved == Some(Unknown) <==>
                  (at.Asking? && answer.Report? && answer.state.Unknown?) || (at.Ending? && t.row.status.Unknown?))
            && (saved == Some(Running) <==>
                  || (at.Asking? && answer.Report? && answer.state.Running?)
                  || (at.Proved? && answer.Good? && t.row.request.action == "install"
                      && !(t.create && Flagged(s, TaskId(t)))))
            && (saved == Some(Checking) <==>
                  !t.create && (at.Named? || (at.Entered? && answer.Good?)))
            && (saved == Some(Starting) <==>
                  || (at.Asking? && answer.Report? && answer.state.Starting?)
                  || (t.create && ((at.Named? && !Flagged(s, TaskId(t))) || (at.Entered? && answer.Good?))))
            && saved != Some(CancelRequested)
  {
    OwnStatusHolds(s);
    hide Inv, Flagged;
  }

  /** What an event writes to a row. */
  function Written(s: State, e: Event, id: Id): Option<Status>
    requires id in s.rows
  {
    match e
    case InspectJob(other) => if other == id && Inspectable(s, id) then Some(Checking) else None
    case CancelJob(other) =>
      if other != id then None
      else if id in s.controls then Some(if s.current == Some(id) then CancelRequested else Cancelled)
      else if Inspectable(s, id) then Some(Checking) else None
    case WorkerStep(answer) =>
      if s.worker.Busy? && TaskId(s.worker.task) == id then Saved(s, answer) else None
    case CrashAndRestart => Some(Recovered(s.rows[id]).status)
    case _ => None
  }

  lemma EventTurns(s: State, e: Event, id: Id)
    requires Inv(s) && id in s.rows
    ensures id in Step(s, e).rows
    ensures Step(s, e).rows[id].status == if Written(s, e, id).Some? then Written(s, e, id).value else s.rows[id].status
  {
    StepStored(s, e, id);
    hide Inv, Submit, Inspect, Cancel, Work, Restart, Saved;
    match e
    case SubmitJob(q) => SubmitStored(s, q, id);
    case InspectJob(other) => QueryTurns(s, other, id);
    case CancelJob(other) => QueryTurns(s, other, id);
    case CloseService =>
    case WorkerStep(answer) => WorkTurns(s, answer, id);
    case CrashAndRestart => RestartTurns(s, id);
  }

  lemma QueryTurns(s: State, other: Id, id: Id)
    requires Inv(s) && id in s.rows
    ensures var t := Inspect(s, other).0;
            && id in t.rows
            && t.rows[id].status == if other == id && Inspectable(s, id) then Checking else s.rows[id].status
    ensures var t := Cancel(s, other).0;
            && id in t.rows
            && t.rows[id].status ==
               if other != id then s.rows[id].status
               else if id in s.controls then (if s.current == Some(id) then CancelRequested else Cancelled)
               else if Inspectable(s, id) then Checking else s.rows[id].status
  {
    if other in s.rows { assert RowOk(s, other); }
    hide Inv, RowOk;
  }

  lemma RestartTurns(s: State, id: Id)
    requires id in s.rows
    ensures id in Restart(s).rows && Restart(s).rows[id] == Recovered(s.rows[id])
  {
  }

  lemma WorkTurns(s: State, answer: Answer, id: Id)
    requires Inv(s) && id in s.rows
    ensures var t := Work(s, answer);
            && id in t.rows
            && t.rows[id].status ==
               if s.worker.Busy? && TaskId(s.worker.task) == id && Saved(s, answer).Some?
               then Saved(s, answer).value else s.rows[id].status
  {
    WorkSplit(s, answer);
    WorkStored(s, answer, id);
    hide Inv, Work;
    if s.worker.Busy? && s.worker.at.Ending? { return; }
    hide Saved;
    if s.worker.Busy? {
      if TaskId(s.worker.task) == id { OwnTurns(s, answer); } else { WorkMoves(s, answer); }
    }
  }

  lemma OwnTurns(s: State, answer: Answer)
    requires s.worker.Busy? && !s.worker.at.Ending? && TaskId(s.worker.task) in s.rows
    ensures var id := TaskId(s.worker.task);
            && id in Work(s, answer).rows
            && Work(s, answer).rows[id].status ==
               if Saved(s, answer).Some? then Saved(s, answer).value else s.rows[id].status
  {
  }

  /** What a task that leaves its body at a point, with an answer, ends with. */
  predicate EndsAs(t: Task, at: Point, answer: Answer, flagged: bool, ends: Status)
  {
    && (ends.Completed? <==>
          || (at.Sent? && answer.Good? && t.row.request.action == "install")
          || (at.Asking? && answer == Report(Completed, 0)))
    && (ends.Failed? <==>
          || (at.Entered? && t.create && !answer.Good?)
          || (at.Asking? && answer.Report? && answer.state.Completed? && answer.exit != 0))
    && (ends.Cancelled? <==>
          || ((at.Named? || at.Proved?) && t.create && flagged)
          || (at.Asking? && answer.Report? && answer.state.Cancelled?))
    && (ends.Completed? || ends.Failed? || ends.Cancelled? || ends.Unknown?)
  }

  /**
   * How a task ends when it leaves its body.  `failed` without a report comes from the catch clause alone, and
   * only for a job whose start was never asked for; after that every error leaves the outcome `unknown`.
   */
  lemma BodyEnds(s: State, answer: Answer)
    requires Inv(s) && s.worker.Busy? && !s.worker.at.Ending?
    requires Work(s, answer).worker.Busy? && Work(s, answer).worker.at.Ending?
    ensures var t, at, ends := s.worker.task, s.worker.at, Work(s, answer).worker.task.row.status;
            && EndsAs(t, at, answer, Flagged(s, TaskId(t)), ends)
            && (at.Entered? && ends.Failed? ==> Begun(s.effects, TaskId(t)) == 0)
  {
    NotBegunYet(s);
    OwnStatusHolds(s);
    hide Inv, Begun, Work, Flagged, OwnStatus;
    if BeforeStart(s.worker.at) { EarlyEnds(s, answer); } else { LateEnds(s, answer); }
  }

  lemma EarlyEnds(s: State, answer: Answer)
    requires s.worker.Busy? && BeforeStart(s.worker.at) && OwnStatus(s.worker.task, s.worker.at)
    requires Work(s, answer).worker.Busy? && Work(s, answer).worker.at.Ending?
    ensures EndsAs(s.worker.task, s.worker.at, answer, Flagged(s, TaskId(s.worker.task)),
                   Work(s, answer).worker.task.row.status)
  {
  }

  lemma LateEnds(s: State, answer: Answer)
    requires s.worker.Busy? && !BeforeStart(s.worker.at) && !s.worker.at.Ending?
             && OwnStatus(s.worker.task, s.worker.at)
    requires Work(s, answer).worker.Busy? && Work(s, answer).worker.at.Ending?
    ensures EndsAs(s.worker.task, s.worker.at, answer, Flagged(s, TaskId(s.worker.task)),
                   Work(s, answer).worker.task.row.status)
  {
  }

  lemma NotBegunYet(s: State)
    requires Inv(s) && s.worker.Busy?
    ensures s.worker.task.create && s.worker.at.Entered? ==> Begun(s.effects, TaskId(s.worker.task)) == 0
  {
    hide Begun;
  }

  /** When the body is left at all. */
  lemma BodyLeft(s: State, answer: Answer)
    requires s.worker.Busy? && !s.worker.at.Ending?
    ensures var t, at := s.worker.task, s.worker.at;
            Work(s, answer).worker.Busy? && (Work(s, answer).worker.at.Ending? <==>
              || ((at.Named? || at.Proved?) && t.create && Flagged(s, TaskId(t)))
              || ((at.Entered? || at.Sent? || at.Aborting?) && !answer.Good?)
              || (at.Proved? && t.row.request.action == "install" && !answer.Good?)
              || (at.Sent? && t.row.request.action == "install")
              || (at.Asking? && !(answer.Report? && answer.state in {Starting, Running})))
  {
  }

  // --- Requests ---------------------------------------------------------------------------------

  /** A request whose form is in order. */
  predicate InOrder(q: Request)
  {
    && |q.id| == 36
    && (forall i | 0 <= i < 36 ::
          if i in {8, 13, 18, 23} then q.id[i] == '-' else '0' <= q.id[i] <= '9' || 'a' <= q.id[i] <= 'f')
    && (q.mode == "developer" || q.mode == "root") && (q.action == "shell" || q.action == "install")
    && 0 < |q.cwd| <= 4096 && q.cwd[0] == '/' && |q.command| <= 16384
    && (forall c | c in q.cwd + q.command :: c != '\0')
    && (q.action == "shell" ==> exists c :: c in q.command && !Whitespace(c))
  }

  /**
   * Which submissions are accepted, and what one does: the service is open, the form in order, the ID new and at
   * most fifteen jobs in hand; the row is `queued` on disk and a creation waits last in the queue, not flagged.
   */
  lemma SubmitExactly(s: State, q: Request)
    requires Inv(s)
    ensures var (t, reply) := Submit(s, q);
            && (reply.Accepted? <==> !s.closed && InOrder(q) && q.id !in s.rows && |Tasks(s)| < 16)
            && (reply.Accepted? ==>
                  t == s.(rows := s.rows[q.id := Row(q, Queued)], controls := s.controls[q.id := false],
                          queue := s.queue + [Task(Row(q, Queued), true)]))
            && (!reply.Accepted? ==> t == s)
  {
    CountControls(s);
    AcceptableExactly(q);
    hide Inv, Acceptable, InOrder;
  }

  lemma AcceptableExactly(q: Request)
    ensures Acceptable(q) <==> InOrder(q)
  {
    IdExactly(q.id);
    hide IdOk, Whitespace;
    assert forall c :: c in q.cwd + q.command <==> c in q.cwd || c in q.command;
    assert "/" <= q.cwd <==> |q.cwd| > 0 && q.cwd[0] == '/';
  }

  /** With a re-check of the job last in the queue. */
  function Reopened(s: State, id: Id, flag: bool): State
    requires id in s.rows
  {
    var row := s.rows[id].(status := Checking);
    s.(rows := s.rows[id := row], controls := s.controls[id := flag], queue := s.queue + [Task(row, false)])
  }

  /**
   * A job is looked at again only when its outcome is unknown, it is a shell job and no task holds it; the flag
   * of the re-check is down when it was asked for and up when it was cancelled.  Nothing else changes otherwise.
   */
  lemma RecheckExactly(s: State, id: Id)
    requires Inv(s) && id in s.rows
    ensures if id !in s.controls && !s.closed && s.rows[id].status.Unknown? && s.rows[id].request.action == "shell"
            then Inspect(s, id).0 == Reopened(s, id, false) && Cancel(s, id).0 == Reopened(s, id, true)
            else Inspect(s, id).0 == s && (id !in s.controls ==> Cancel(s, id).0 == s)
    ensures id !in s.controls ==> Cancel(s, id).1 == Inspect(s, id).1 == Stored(Inspect(s, id).0.rows[id])
  {
    assert RowOk(s, id);
    hide Inv, RowOk;
  }

  /** A cancellation of a job in hand raises its flag, and the row says which kind of cancellation it was. */
  lemma CancelExactly(s: State, id: Id)
    requires Inv(s) && id in s.controls
    ensures id in s.rows
    ensures Cancel(s, id).0 == s.(controls := s.controls[id := true],
                                  rows := s.rows[id := s.rows[id].(status := if s.current == Some(id)
                                                                             then CancelRequested else Cancelled)])
  {
    TaskHasRow(s, id);
    hide Inv;
  }

  // --- What the remote side is asked ------------------------------------------------------------

  /** The creation has been proved and not stopped, and an installation's package has been checked. */
  predicate ToBegin(s: State)
    requires s.worker.Busy?
  {
    var t := s.worker.task;
    || s.worker.at.Ready?
    || (s.worker.at.Proved? && t.create && !Flagged(s, TaskId(t)) && t.row.request.action != "install")
  }

  /** What a step of the worker asks of the remote side. */
  function Issued(s: State): seq<Effect>
  {
    if s.worker.Idle? then []
    else if ToBegin(s) then [Begin(TaskId(s.worker.task))]
    else if s.worker.at.Polling? && Flagged(s, TaskId(s.worker.task)) then [Abort(TaskId(s.worker.task))]
    else []
  }

  /**
   * The remote side is asked to begin a job by the job's own creation only, once its identity is proved and, for
   * an installation, its package checked; it is asked to abort one by a task that finds its flag raised before
   * the next status query; and nothing else ever leaves the phone.
   */
  lemma Asks(s: State, e: Event)
    requires Inv(s)
    ensures Step(s, e).effects == s.effects + if e.WorkerStep? then Issued(s) else []
  {
    assert s.effects + [] == s.effects;
    hide Inv, Inspectable, Acceptable, RecoveredRows, Work, Issued;
    match e
    case WorkerStep(answer) => WorkAsks(s, answer);
    case _ =>
  }

  lemma WorkAsks(s: State, answer: Answer)
    ensures Work(s, answer).effects == s.effects + Issued(s)
  {
    assert s.effects + [] == s.effects;
  }

  // --- Whole runs ---------------------------------------------------------------------------------

  /** A service with nothing to do. */
  ghost predicate Quiet(s: State)
  {
    Inv(s) && s.worker.Idle? && s.queue == [] && !s.closed
  }

  lemma QuietFree(s: State)
    requires Quiet(s)
    ensures s.controls == map[] && s.current.None?
  {
    CountControls(s);
    assert s.controls.Keys == {};
  }

  /** A start of the service, after any crash, is open and idle, with the rows as recovery leaves them. */
  lemma StartsQuiet(s: State)
    requires Inv(s)
    ensures var t := Restart(s);
            && Quiet(t) && t.controls == map[] && t.effects == s.effects && t.rows.Keys == s.rows.Keys
            && forall id | id in s.rows ::
                 && t.rows[id].request == s.rows[id].request
                 && t.rows[id].status == if s.rows[id].status.Queued? then Cancelled
                      else if s.rows[id].status in {Starting, Checking, Running, CancelRequested} then Unknown
                      else s.rows[id].status
  {
    RestartKeeps(s);
    forall id | id in s.rows ensures Recovered(s.rows[id]).request == s.rows[id].request { RecoveredRow(s.rows[id]); }
    hide Inv;
  }

  const THRICE := [WorkerStep(Good), WorkerStep(Good), WorkerStep(Good)]

  /** The job is being worked on, not cancelled, and alone. */
  predicate Busied(s: State, q: Request, status: Status, at: Point, before: State, effects: seq<Effect>)
  {
    s == State(before.rows[q.id := Row(q, status)], map[q.id := false], [], Busy(Task(Row(q, status), true), at),
               Some(q.id), false, effects)
  }

  /** From the submission to the saved `starting`, the connection made and the job current. */
  lemma Starts(s: State, q: Request)
    requires Quiet(s) && Acceptable(q) && q.id !in s.rows
    ensures Busied(Run(s, [SubmitJob(q)] + THRICE), q, Starting, Entered, s, s.effects)
  {
    QuietFree(s);
    RunConcat(s, [SubmitJob(q)], THRICE);
    var s1 := Submit(s, q).0;
    assert [SubmitJob(q)][1..] == [] && Run(s, [SubmitJob(q)]) == s1;
    Thrice(s1, Good, Good, Good);
    hide Acceptable, Inv, Run;
    EntersStarting(s1, q);
  }

  lemma EntersStarting(s1: State, q: Request)
    requires s1.worker.Idle? && s1.queue == [Task(Row(q, Queued), true)] && s1.controls == map[q.id := false]
    ensures Work(Work(Work(s1, Good), Good), Good)
         == State(s1.rows[q.id := Row(q, Starting)], map[q.id := false], [],
                  Busy(Task(Row(q, Starting), true), Entered), Some(q.id), s1.closed, s1.effects)
  {
    assert s1.queue[1..] == [];
  }

  predicate UnderWay(states: seq<Status>)
  {
    forall k | 0 <= k < |states| :: states[k] in {Starting, Running}
  }

  /** One status query and the answer that the job is still under way. */
  function Polls(states: seq<Status>): seq<Event>
  {
    if states == [] then []
    else Polls(states[..|states| - 1]) + [WorkerStep(Good), WorkerStep(Report(states[|states| - 1], -1))]
  }

  lemma Twice(s: State, a: Answer, b: Answer)
    ensures Run(s, [WorkerStep(a), WorkerStep(b)]) == Work(Work(s, a), b)
  {
    var events := [WorkerStep(a), WorkerStep(b)];
    assert events[1..] == [WorkerStep(b)] && [WorkerStep(b)][1..] == [];
    hide Work;
    assert Run(Work(s, a), [WorkerStep(b)]) == Work(Work(s, a), b);
  }

  lemma PolledOnce(s: State, q: Request, status: Status, state: Status, before: State, effects: seq<Effect>)
    requires Busied(s, q, status, Polling, before, effects) && state in {Starting, Running}
    ensures Busied(Work(Work(s, Good), Report(state, -1)), q, state, Polling, before, effects)
  {
    assert before.rows[q.id := Row(q, status)][q.id := Row(q, state)] == before.rows[q.id := Row(q, state)];
  }

  /** However often the remote side says that the job is under way, the worker keeps asking. */
  lemma {:induction false} Polled(s: State, q: Request, states: seq<Status>, before: State, effects: seq<Effect>)
    returns (status: Status)
    requires Busied(s, q, Starting, Polling, before, effects) && UnderWay(states)
    ensures Busied(Run(s, Polls(states)), q, status, Polling, before, effects)
  {
    hide Busied, Work;
    if states == [] {
      status := Starting;
    } else {
      var n := |states| - 1;
      var earlier := Polls(states[..n]);
      var was := Polled(s, q, states[..n], before, effects);
      RunConcat(s, earlier, [WorkerStep(Good), WorkerStep(Report(states[n], -1))]);
      Twice(Run(s, earlier), Good, Report(states[n], -1));
      PolledOnce(Run(s, earlier), q, was, states[n], before, effects);
      status := states[n];
    }
  }

  /** What a job that the remote side reports as ended is called. */
  function Verdict(state: Status, exit: int): Status
  {
    if state == Completed && exit != 0 then Failed else state
  }

  lemma Begins(s: State, q: Request, before: State)
    requires Busied(s, q, Starting, Entered, before, before.effects) && q.action == "shell"
    ensures Busied(Work(Work(Work(s, Good), Good), Good), q, Starting, Polling, before, before.effects + [Begin(q.id)])
  {
    assert before.rows[q.id := Row(q, Starting)][q.id := Row(q, Starting)] == before.rows[q.id := Row(q, Starting)];
  }

  lemma EndsReported(s: State, q: Request, status: Status, state: Status, exit: int, before: State,
                     effects: seq<Effect>)
    requires Busied(s, q, status, Polling, before, effects) && state in {Completed, Cancelled, Unknown}
    requires before.controls == map[] && before.worker.Idle? && before.queue == [] && before.current.None?
             && !before.closed
    ensures Work(Work(Work(s, Good), Report(state, exit)), Good)
         == before.(rows := before.rows[q.id := Row(q, Verdict(state, exit))], effects := effects)
  {
    var row := Row(q, Verdict(state, exit));
    assert before.rows[q.id := Row(q, status)][q.id := row][q.id := row] == before.rows[q.id := row];
    assert map[q.id := false] - {q.id} == map[];
  }

  /**
   * A shell job that nothing disturbs: it is begun once, asked for as long as it is under way, and ends
   * `completed` exactly when the remote side reports completion with 0; the service is as it was but for its row.
   */
  lemma UndisturbedShell(s: State, q: Request, states: seq<Status>, state: Status, exit: int)
    requires Quiet(s) && Acceptable(q) && q.id !in s.rows && q.action == "shell"
    requires UnderWay(states) && state in {Completed, Cancelled, Unknown}
    ensures var events := [SubmitJob(q)] + THRICE + THRICE + Polls(states)
                          + [WorkerStep(Good), WorkerStep(Report(state, exit)), WorkerStep(Good)];
            var t := Run(s, events);
            && t == s.(rows := s.rows[q.id := Row(q, Verdict(state, exit))], effects := s.effects + [Begin(q.id)])
            && (t.rows[q.id].status.Completed? <==> state.Completed? && exit == 0)
            && (t.rows[q.id].status.Failed? <==> state.Completed? && exit != 0)
  {
    Starts(s, q);
    QuietFree(s);
    assert s.controls == map[] && s.worker.Idle? && s.queue == [] && s.current.None? && !s.closed;
    var last := [WorkerStep(Good), WorkerStep(Report(state, exit)), WorkerStep(Good)];
    var e1 := [SubmitJob(q)] + THRICE;
    hide Quiet, Busied, Acceptable, Work, Polls;
    RunConcat(s, e1 + THRICE + Polls(states), last);
    RunConcat(s, e1 + THRICE, Polls(states));
    RunConcat(s, e1, THRICE);
    Thrice(Run(s, e1), Good, Good, Good);
    Begins(Run(s, e1), q, s);
    var begun := Run(s, e1 + THRICE);
    var effects := s.effects + [Begin(q.id)];
    var status := Polled(begun, q, states, s, effects);
    var polled := Run(begun, Polls(states));
    Thrice(polled, Good, Report(state, exit), Good);
    EndsReported(polled, q, status, state, exit, s, effects);
    hide Run;
  }

  /** A service that has nothing to do but for what has been written and asked. */
  predicate Settled(t: State, before: State, q: Request, status: Status, effects: seq<Effect>)
  {
    t == before.(rows := before.rows[q.id := Row(q, status)], effects := before.effects + effects)
  }

  lemma EndsUnproved(s: State, q: Request, before: State, answer: Answer)
    requires Busied(s, q, Starting, Entered, before, before.effects) && !answer.Good?
    requires before.controls == map[] && before.worker.Idle? && before.queue == [] && before.current.None?
             && !before.closed
    ensures Settled(Work(Work(s, answer), Good), before, q, Failed, [])
  {
    assert before.rows[q.id := Row(q, Starting)][q.id := Row(q, Failed)] == before.rows[q.id := Row(q, Failed)];
    assert map[q.id := false] - {q.id} == map[] && before.effects + [] == before.effects;
  }

  /** A job whose device cannot be proved ends `failed`, and nothing has been asked of the remote side. */
  lemma UnprovedFails(s: State, q: Request, answer: Answer)
    requires Quiet(s) && Acceptable(q) && q.id !in s.rows && !answer.Good?
    ensures Settled(Run(s, [SubmitJob(q)] + THRICE + [WorkerStep(answer), WorkerStep(Good)]), s, q, Failed, [])
  {
    Starts(s, q);
    QuietFree(s);
    assert s.controls == map[] && s.worker.Idle? && s.queue == [] && s.current.None? && !s.closed;
    hide Quiet, Busied, Acceptable, Work, Settled;
    RunConcat(s, [SubmitJob(q)] + THRICE, [WorkerStep(answer), WorkerStep(Good)]);
    var entered := Run(s, [SubmitJob(q)] + THRICE);
    Twice(entered, answer, Good);
    EndsUnproved(entered, q, s, answer);
    hide Run;
  }

  lemma EndsUnanswered(s: State, q: Request, before: State, answer: Answer)
    requires Busied(s, q, Starting, Entered, before, before.effects) && q.action == "shell" && !answer.Good?
    requires before.controls == map[] && before.worker.Idle? && before.queue == [] && before.current.None?
             && !before.closed
    ensures Settled(Work(Work(Work(Work(s, Good), Good), answer), Good), before, q, Unknown, [Begin(q.id)])
  {
    var rows := before.rows[q.id := Row(q, Starting)];
    assert rows[q.id := Row(q, Starting)] == rows;
    assert rows[q.id := Row(q, Unknown)] == before.rows[q.id := Row(q, Unknown)];
    assert map[q.id := false] - {q.id} == map[];
  }

  /** A job whose start brings no answer ends `unknown`, whatever became of it on the remote side. */
  lemma LostStartUnknown(s: State, q: Request, answer: Answer)
    requires Quiet(s) && Acceptable(q) && q.id !in s.rows && q.action == "shell" && !answer.Good?
    ensures var events := [SubmitJob(q)] + THRICE + [WorkerStep(Good), WorkerStep(Good)]
                          + [WorkerStep(answer), WorkerStep(Good)];
            Settled(Run(s, events), s, q, Unknown, [Begin(q.id)])
  {
    Starts(s, q);
    QuietFree(s);
    assert s.controls == map[] && s.worker.Idle? && s.queue == [] && s.current.None? && !s.closed;
    hide Quiet, Busied, Acceptable, Work, Settled;
    var e1 := [SubmitJob(q)] + THRICE;
    RunConcat(s, e1 + [WorkerStep(Good), WorkerStep(Good)], [WorkerStep(answer), WorkerStep(Good)]);
    RunConcat(s, e1, [WorkerStep(Good), WorkerStep(Good)]);
    Twice(Run(s, e1), Good, Good);
    Twice(Run(s, e1 + [WorkerStep(Good), WorkerStep(Good)]), answer, Good);
    EndsUnanswered(Run(s, e1), q, s, answer);
    hide Run;
  }

  lemma Installs(s: State, q: Request, before: State, answer: Answer)
    requires Busied(s, q, Starting, Entered, before, before.effects) && q.action == "install"
    requires before.controls == map[] && before.worker.Idle? && before.queue == [] && before.current.None?
             && !before.closed
    ensures Settled(Work(Work(Work(Work(Work(s, Good), Good), Good), answer), Good), before, q,
                    if answer.Good? then Completed else Unknown, [Begin(q.id)])
  {
    var rows, ends := before.rows[q.id := Row(q, Starting)], if answer.Good? then Completed else Unknown;
    assert rows[q.id := Row(q, Starting)] == rows;
    assert rows[q.id := Row(q, Running)][q.id := Row(q, ends)] == before.rows[q.id := Row(q, ends)];
    assert map[q.id := false] - {q.id} == map[];
  }

  /** An installation that nothing disturbs is handed over once, and is `completed` exactly when it is confirmed. */
  lemma UndisturbedInstall(s: State, q: Request, answer: Answer)
    requires Quiet(s) && Acceptable(q) && q.id !in s.rows && q.action == "install"
    ensures var events := [SubmitJob(q)] + THRICE + THRICE + [WorkerStep(answer), WorkerStep(Good)];
            Settled(Run(s, events), s, q, if answer.Good? then Completed else Unknown, [Begin(q.id)])
  {
    Starts(s, q);
    QuietFree(s);
    assert s.controls == map[] && s.worker.Idle? && s.queue == [] && s.current.None? && !s.closed;
    hide Quiet, Busied, Acceptable, Work, Settled;
    var e1 := [SubmitJob(q)] + THRICE;
    RunConcat(s, e1 + THRICE, [WorkerStep(answer), WorkerStep(Good)]);
    RunConcat(s, e1, THRICE);
    Thrice(Run(s, e1), Good, Good, Good);
    Twice(Run(s, e1 + THRICE), answer, Good);
    Installs(Run(s, e1), q, s, answer);
    hide Run;
  }

  /** A running job that is cancelled: the worker asks the remote side to abort it, then for its status. */
  lemma Aborts(s: State, q: Request, status: Status, before: State, effects: seq<Effect>, state: Status, exit: int)
    requires Busied(s, q, status, Polling, before, before.effects + effects) && state in {Completed, Cancelled, Unknown}
    requires before.controls == map[] && before.worker.Idle? && before.queue == [] && before.current.None?
             && !before.closed
    ensures Settled(Work(Work(Work(Work(Cancel(s, q.id).0, Good), Good), Report(state, exit)), Good), before, q,
                    Verdict(state, exit), effects + [Abort(q.id)])
  {
    var c, row := Cancel(s, q.id).0, Row(q, Verdict(state, exit));
    assert c == s.(controls := map[q.id := true], rows := before.rows[q.id := Row(q, CancelRequested)]) by {
      assert map[q.id := false][q.id := true] == map[q.id := true];
      assert before.rows[q.id := Row(q, status)][q.id := Row(q, CancelRequested)]
          == before.rows[q.id := Row(q, CancelRequested)];
    }
    assert before.rows[q.id := Row(q, CancelRequested)][q.id := row][q.id := row] == before.rows[q.id := row];
    assert map[q.id := true] - {q.id} == map[];
    assert before.effects + effects + [Abort(q.id)] == before.effects + (effects + [Abort(q.id)]);
  }

  /**
   * A cancellation while a job runs reaches the remote side: it is asked to abort the job before it is asked for
   * the status again, and the row ends as it then reports.
   */
  lemma CancelledRunning(s: State, q: Request, states: seq<Status>, state: Status, exit: int)
    requires Quiet(s) && Acceptable(q) && q.id !in s.rows && q.action == "shell"
    requires UnderWay(states) && state in {Completed, Cancelled, Unknown}
    ensures var events := [SubmitJob(q)] + THRICE + THRICE + Polls(states) + [CancelJob(q.id)]
                          + [WorkerStep(Good), WorkerStep(Good)] + [WorkerStep(Report(state, exit)), WorkerStep(Good)];
            Settled(Run(s, events), s, q, Verdict(state, exit), [Begin(q.id), Abort(q.id)])
  {
    Starts(s, q);
    QuietFree(s);
    assert s.controls == map[] && s.worker.Idle? && s.queue == [] && s.current.None? && !s.closed;
    var e1, e5 := [SubmitJob(q)] + THRICE, [WorkerStep(Good), WorkerStep(Good)];
    var e3, e6 := e1 + THRICE + Polls(states), [WorkerStep(Report(state, exit)), WorkerStep(Good)];
    hide Quiet, Busied, Acceptable, Work, Settled, Polls, Cancel;
    RunConcat(s, e3 + [CancelJob(q.id)] + e5, e6);
    RunConcat(s, e3 + [CancelJob(q.id)], e5);
    RunConcat(s, e3, [CancelJob(q.id)]);
    RunConcat(s, e1 + THRICE, Polls(states));
    RunConcat(s, e1, THRICE);
    Thrice(Run(s, e1), Good, Good, Good);
    Begins(Run(s, e1), q, s);
    var status := Polled(Run(s, e1 + THRICE), q, states, s, s.effects + [Begin(q.id)]);
    assert [CancelJob(q.id)][1..] == [];
    assert Run(s, e3 + [CancelJob(q.id)]) == Cancel(Run(s, e3), q.id).0;
    hide Run;
    Twice(Cancel(Run(s, e3), q.id).0, Good, Good);
    Twice(Run(s, e3 + [CancelJob(q.id)] + e5), Report(state, exit), Good);
    Aborts(Run(s, e3), q, status, s, [Begin(q.id)], state, exit);
    assert [Begin(q.id)] + [Abort(q.id)] == [Begin(q.id), Abort(q.id)];
  }
}
