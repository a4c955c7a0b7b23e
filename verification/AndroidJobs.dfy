/**
 * Durable Android jobs: a bounded FIFO of shell commands and APK installations, one worker, a row per
 * job on disk.  `State` is the whole machine; every function below is one section under the monitor or
 * one step of the worker, so any interleaving of clients, worker, crashes and restarts is a sequence of
 * their results.  Saves are taken to succeed.
 */
module AndroidJobs {
  import opened Basics

  datatype Request = Request(id: Id, mode: string, action: string, command: string, cwd: string, path: string)

  datatype Status =
    | Queued | Starting | Checking | Running | CancelRequested
    | Completed | Failed | Cancelled | Unknown

  datatype Row = Row(request: Request, status: Status)

  /** What left the phone: the start of a shell job or an installation, and cancellations of shell jobs. */
  datatype Effect = Begin(id: Id) | Abort(id: Id)

  /** `create` tells a new job from the re-inspection of an unknown one; `row` is the task's own copy. */
  datatype Task = Task(row: Row, create: bool)

  /** Where the worker stands inside the task body. */
  datatype Point =
    | Taken        // connection object made, `current` not yet set
    | Named        // `current` set
    | Entered      // starting/checking saved
    | Proved       // device identity proof saved
    | Ready        // installation: package checked and `running` saved
    | Sent         // remote start or installation issued, answer outstanding
    | Polling      // head of the status loop
    | Aborting     // remote cancel issued, answer outstanding
    | Asking       // status requested, answer outstanding
    | Ending       // body left; the final save and the bookkeeping remain

  datatype Worker = Idle | Busy(task: Task, at: Point)

  datatype State = State(
    rows: map<Id, Row>,
    controls: map<Id, bool>,
    queue: seq<Task>,
    worker: Worker,
    current: Option<Id>,
    closed: bool,
    effects: seq<Effect>)

  /** What the remote side does at a worker step. */
  datatype Answer = Good | Bad | Report(state: Status, exit: int)

  datatype Reply = Accepted(row: Row) | Stored(row: Row) | Refused

  const CAPACITY := 16

  // --- Request checks --------------------------------------------------------------

  predicate Acceptable(q: Request)
  {
    && IdOk(q.id)
    && q.mode in {"developer", "root"} && q.action in {"shell", "install"}
    && '\0' !in q.cwd && "/" <= q.cwd && |q.cwd| <= 4096
    && '\0' !in q.command && |q.command| <= 16384
    && (q.action == "shell" ==> !Blank(q.command))
  }

  // --- Monitor sections --------------------------------------------------------------

  predicate Terminal(status: Status)
  {
    status.Completed? || status.Failed? || status.Cancelled? || status.Unknown?
  }

  /** Recovery of one row in the constructor. */
  function Recovered(row: Row): Row
  {
    match row.status
    case Queued => row.(status := Cancelled)
    case Running | Starting | Checking | CancelRequested => row.(status := Unknown)
    case _ => row
  }

  function RecoveredRows(rows: map<Id, Row>): map<Id, Row>
  {
    map id | id in rows :: Recovered(rows[id])
  }

  /** A crash at any point, then a new process: the disk and the outside world are all that is left. */
  function Restart(s: State): State
  {
    State(RecoveredRows(s.rows), map[], [], Idle, None, false, s.effects)
  }

  /** `run`: registers the control flag and queues the task. */
  function Enqueue(s: State, row: Row, create: bool): State
  {
    var id := row.request.id;
    var r := if create then row else row.(status := Checking);
    s.(controls := s.controls[id := false], rows := s.rows[id := r], queue := s.queue + [Task(r, create)])
  }

  function Submit(s: State, q: Request): (State, Reply)
  {
    if s.closed || !Acceptable(q) then (s, Refused)
    else if q.id in s.rows then
      (s, if s.rows[q.id].request == q then Stored(s.rows[q.id]) else Refused)
    else if |s.controls| >= CAPACITY then (s, Refused)
    else (Enqueue(s, Row(q, Queued), true), Accepted(Row(q, Queued)))
  }

  /** An unknown shell job with no task may be looked at again. */
  predicate Inspectable(s: State, id: Id)
    requires id in s.rows
  {
    id !in s.controls && !s.closed && s.rows[id].status.Unknown? && s.rows[id].request.action == "shell"
  }

  function Inspect(s: State, id: Id): (State, Reply)
  {
    if id !in s.rows then (s, Refused)
    else if Inspectable(s, id) then
      (Enqueue(s, s.rows[id], false), Stored(s.rows[id].(status := Checking)))
    else (s, Stored(s.rows[id]))
  }

  function Cancel(s: State, id: Id): (State, Reply)
  {
    if id !in s.rows then (s, Refused)
    else if id in s.controls then
      var row := s.rows[id].(status := if s.current == Some(id) then CancelRequested else Cancelled);
      (s.(controls := s.controls[id := true], rows := s.rows[id := row]), Stored(row))
    else if Inspectable(s, id) then
      var s' := Enqueue(s, s.rows[id], false);
      (s'.(controls := s'.controls[id := true]), Stored(s.rows[id].(status := Checking)))
    else (s, Stored(s.rows[id]))
  }

  function Close(s: State): State
  {
    s.(closed := true, controls := map id | id in s.controls :: true)
  }

  // --- Worker steps ---------------------------------------------------------------------

  function Goto(s: State, at: Point): State
    requires s.worker.Busy?
  {
    s.(worker := s.worker.(at := at))
  }

  /** Sets the task's own row and writes it to disk. */
  function Save(s: State, status: Status, at: Point): State
    requires s.worker.Busy?
  {
    var row := s.worker.task.row.(status := status);
    s.(rows := s.rows[row.request.id := row], worker := Busy(s.worker.task.(row := row), at))
  }

  /** The body is left with a final status in the task's own row, not yet on disk. */
  function Leave(s: State, status: Status): State
    requires s.worker.Busy?
  {
    s.(worker := Busy(s.worker.task.(row := s.worker.task.row.(status := status)), Ending))
  }

  /** The catch clause: a job that may have been submitted becomes unknown, any other one failed. */
  function Catch(s: State): State
    requires s.worker.Busy?
  {
    var submitted := !s.worker.task.create || !(s.worker.at.Entered? || s.worker.at.Proved?);
    Leave(s, if submitted then Unknown else Failed)
  }

  function Issue(s: State, effect: Effect, at: Point): State
    requires s.worker.Busy?
  {
    Goto(s, at).(effects := s.effects + [effect])
  }

  /** The executor takes the oldest queued task. */
  function Take(s: State): State
    requires s.queue != []
  {
    s.(worker := Busy(s.queue[0], Taken), queue := s.queue[1..])
  }

  /** The finally clause: the last save, then the bookkeeping, in one monitor section. */
  function Finish(s: State): State
    requires s.worker.Busy?
  {
    var row := s.worker.task.row;
    var id := row.request.id;
    s.(rows := s.rows[id := row], worker := Idle, current := None, controls := s.controls - {id})
  }

  function Work(s: State, answer: Answer): State
  {
    if s.worker.Idle? then
      if s.queue == [] then s else Take(s)
    else
      var task := s.worker.task;
      var id := task.row.request.id;
      var flagged := id in s.controls && s.controls[id];
      match s.worker.at
      case Taken => Goto(s, Named).(current := Some(id))
      case Named =>
        if task.create && flagged then Leave(s, Cancelled)
        else Save(s, if task.create then Starting else Checking, Entered)
      case Entered => if answer.Good? then Save(s, task.row.status, Proved) else Catch(s)
      case Proved =>
        if task.create && flagged then Leave(s, Cancelled)
        else if task.row.request.action == "install" then
          if answer.Good? then Save(s, Running, Ready) else Leave(s, Unknown)
        else if task.create then Issue(s, Begin(id), Sent)
        else Goto(s, Polling)
      case Ready => Issue(s, Begin(id), Sent)
      case Sent =>
        if !answer.Good? then Catch(s)
        else if task.row.request.action == "install" then Leave(s, Completed)
        else Goto(s, Polling)
      case Polling => if flagged then Issue(s, Abort(id), Aborting) else Goto(s, Asking)
      case Aborting => if answer.Good? then Goto(s, Asking) else Catch(s)
      case Asking =>
        if !answer.Report? || answer.state !in {Starting, Running, Completed, Cancelled, Unknown} then Catch(s)
        else if answer.state in {Starting, Running} then Save(s, answer.state, Polling)
        else Save(s, if answer.state.Completed? && answer.exit != 0 then Failed else answer.state, Ending)
      case Ending => Finish(s)
  }

  datatype Event =
    | SubmitJob(request: Request) | InspectJob(id: Id) | CancelJob(id: Id) | CloseService
    | WorkerStep(answer: Answer) | CrashAndRestart

  function Step(s: State, e: Event): State
  {
    match e
    case SubmitJob(q) => Submit(s, q).0
    case InspectJob(id) => Inspect(s, id).0
    case CancelJob(id) => Cancel(s, id).0
    case CloseService => Close(s)
    case WorkerStep(answer) => Work(s, answer)
    case CrashAndRestart => Restart(s)
  }

  function Run(s: State, events: seq<Event>): State
    decreases |events|
  {
    if events == [] then s else Run(Step(s, events[0]), events[1..])
  }

  // --- The invariant -----------------------------------------------------------------------

  /** The task being worked on, then the queued ones. */
  function Tasks(s: State): seq<Task>
  {
    (if s.worker.Busy? then [s.worker.task] else []) + s.queue
  }

  function TaskId(t: Task): Id
  {
    t.row.request.id
  }

  /** How often the start or installation of a job was issued. */
  function Begun(effects: seq<Effect>, id: Id): nat
    decreases |effects|
  {
    if effects == [] then 0
    else Begun(effects[..|effects| - 1], id) + if effects[|effects| - 1] == Begin(id) then 1 else 0
  }

  function Creations(tasks: seq<Task>): nat
    decreases |tasks|
  {
    if tasks == [] then 0 else (if tasks[0].create then 1 else 0) + Creations(tasks[1..])
  }

  predicate DistinctTasks(tasks: seq<Task>)
  {
    forall i, j | 0 <= i < j < |tasks| :: TaskId(tasks[i]) != TaskId(tasks[j])
  }

  /** Tasks and IDs correspond one to one. */
  predicate OneToOne(tasks: seq<Task>, ids: set<Id>)
  {
    && DistinctTasks(tasks)
    && (forall i | 0 <= i < |tasks| :: TaskId(tasks[i]) in ids)
    && (forall id | id in ids :: exists i | 0 <= i < |tasks| :: TaskId(tasks[i]) == id)
  }

  predicate Registered(s: State)
  {
    OneToOne(Tasks(s), s.controls.Keys)
  }

  predicate QueuedOk(s: State, t: Task)
  {
    && TaskId(t) in s.rows && s.rows[TaskId(t)].request == t.row.request
    && (t.create ==> t.row.status.Queued? && Begun(s.effects, TaskId(t)) == 0)
    && (!t.create ==>
          && t.row.request.action == "shell" && t.row.status.Checking?
          && !s.rows[TaskId(t)].status.Queued?)
  }

  /** What the task's own row says at each point of the body. */
  predicate OwnStatus(t: Task, at: Point)
  {
    if at.Taken? || at.Named? then t.row.status == if t.create then Queued else Checking
    else if at.Entered? || at.Proved? then t.row.status == if t.create then Starting else Checking
    else if at.Ending? then Terminal(t.row.status)
    else t.row.status in {Starting, Running, Checking}
  }

  predicate BusyOk(s: State)
    requires s.worker.Busy?
  {
    var t, at := s.worker.task, s.worker.at;
    && TaskId(t) in s.rows && s.rows[TaskId(t)].request == t.row.request
    && s.current == (if at.Taken? then None else Some(TaskId(t)))
    && (!t.create ==> t.row.request.action == "shell" && !s.rows[TaskId(t)].status.Queued?)
    && (t.create && (at.Taken? || at.Named? || at.Entered? || at.Proved? || at.Ready?) ==>
          Begun(s.effects, TaskId(t)) == 0)
    && (t.create && !(at.Taken? || at.Named? || at.Ending?) ==> !s.rows[TaskId(t)].status.Queued?)
    && (at.Ready? ==> t.create)
    && OwnStatus(t, at)
  }

  /** Each row: begun at most once, durably past `queued` once begun, settled unless a task holds it. */
  predicate RowOk(s: State, id: Id)
    requires id in s.rows
  {
    && s.rows[id].request.id == id
    && Begun(s.effects, id) <= 1
    && (Begun(s.effects, id) > 0 ==> !s.rows[id].status.Queued?)
    && (id !in s.controls ==> Terminal(s.rows[id].status))
  }

  predicate QueueOk(s: State)
  {
    forall i | 0 <= i < |s.queue| :: QueuedOk(s, s.queue[i])
  }

  predicate WorkerOk(s: State)
  {
    if s.worker.Busy? then BusyOk(s) else s.current.None?
  }

  ghost predicate RowsOk(s: State)
  {
    && (forall id | id in s.rows :: RowOk(s, id))
    && (forall id: Id :: Begun(s.effects, id) > 0 ==> id in s.rows)
  }

  ghost predicate Inv(s: State)
  {
    Registered(s) && Creations(Tasks(s)) <= CAPACITY && QueueOk(s) && WorkerOk(s) && RowsOk(s)
  }

  // --- Every step keeps the invariant ----------------------------------------------------------

  lemma BegunAppend(effects: seq<Effect>, e: Effect, id: Id)
    ensures Begun(effects + [e], id) == Begun(effects, id) + if e == Begin(id) then 1 else 0
  {
    assert (effects + [e])[..|effects|] == effects;
  }

  lemma {:induction false} CreationsBound(tasks: seq<Task>)
    ensures Creations(tasks) <= |tasks|
    decreases |tasks|
  {
    if tasks != [] { CreationsBound(tasks[1..]); }
  }

  lemma {:induction false} CreationsAppend(tasks: seq<Task>, t: Task)
    ensures Creations(tasks + [t]) == Creations(tasks) + if t.create then 1 else 0
    decreases |tasks|
  {
    if tasks == [] {
      assert [t][1..] == [];
    } else {
      CreationsAppend(tasks[1..], t);
      assert (tasks + [t])[1..] == tasks[1..] + [t];
    }
  }

  lemma {:induction false} CreationsHead(tasks: seq<Task>, t: Task)
    requires tasks != [] && t.create == tasks[0].create
    ensures Creations([t] + tasks[1..]) == Creations(tasks)
  {
    assert ([t] + tasks[1..])[1..] == tasks[1..];
  }

  lemma DropFirst(tasks: seq<Task>, ids: set<Id>)
    requires OneToOne(tasks, ids) && tasks != []
    ensures OneToOne(tasks[1..], ids - {TaskId(tasks[0])}) && TaskId(tasks[0]) in ids
  {
    var rest, left := tasks[1..], ids - {TaskId(tasks[0])};
    forall i, j | 0 <= i < j < |rest| ensures TaskId(rest[i]) != TaskId(rest[j]) {
      assert rest[i] == tasks[i + 1] && rest[j] == tasks[j + 1];
    }
    forall i | 0 <= i < |rest| ensures TaskId(rest[i]) in left { assert rest[i] == tasks[i + 1]; }
    forall id | id in left ensures exists i | 0 <= i < |rest| :: TaskId(rest[i]) == id {
      var i :| 0 <= i < |tasks| && TaskId(tasks[i]) == id;
      assert i > 0 && rest[i - 1] == tasks[i];
    }
  }

  /** As many control flags as tasks. */
  lemma {:induction false} ControlCount(tasks: seq<Task>, ids: set<Id>)
    requires OneToOne(tasks, ids)
    ensures |ids| == |tasks|
    decreases |tasks|
  {
    if tasks != [] {
      DropFirst(tasks, ids);
      ControlCount(tasks[1..], ids - {TaskId(tasks[0])});
    }
  }

  lemma AddLast(tasks: seq<Task>, ids: set<Id>, t: Task)
    requires OneToOne(tasks, ids) && TaskId(t) !in ids
    ensures OneToOne(tasks + [t], ids + {TaskId(t)})
  {
    var more := tasks + [t];
    assert TaskId(more[|tasks|]) == TaskId(t);
    forall id | id in ids + {TaskId(t)} ensures exists i | 0 <= i < |more| :: TaskId(more[i]) == id {
      if id != TaskId(t) {
        var i :| 0 <= i < |tasks| && TaskId(tasks[i]) == id;
        assert more[i] == tasks[i];
      }
    }
  }

  lemma SameIds(tasks: seq<Task>, tasks': seq<Task>, ids: set<Id>)
    requires OneToOne(tasks, ids) && |tasks'| == |tasks|
    requires forall i | 0 <= i < |tasks| :: TaskId(tasks'[i]) == TaskId(tasks[i])
    ensures OneToOne(tasks', ids)
  {
    forall id | id in ids ensures exists i | 0 <= i < |tasks'| :: TaskId(tasks'[i]) == id {
      var i :| 0 <= i < |tasks| && TaskId(tasks[i]) == id;
      assert TaskId(tasks'[i]) == id;
    }
  }

  /** `run` on a fresh job or on an unknown one that has no task. */
  predicate MayEnqueue(s: State, row: Row, create: bool)
  {
    var id := row.request.id;
    && id !in s.controls
    && (create ==> id !in s.rows && row.status.Queued? && |s.controls| < CAPACITY)
    && (!create ==> id in s.rows && s.rows[id] == row && row.request.action == "shell" && row.status.Unknown?)
  }

  function Enqueued(s: State, row: Row, create: bool, flag: bool): State
  {
    var e := Enqueue(s, row, create);
    e.(controls := e.controls[row.request.id := flag])
  }

  lemma EnqueueRegistered(s: State, row: Row, create: bool, flag: bool)
    requires Registered(s) && MayEnqueue(s, row, create)
    ensures Registered(Enqueued(s, row, create, flag))
    ensures Tasks(Enqueued(s, row, create, flag))
              == Tasks(s) + [Task(if create then row else row.(status := Checking), create)]
  {
    var s' := Enqueued(s, row, create, flag);
    var t := Task(if create then row else row.(status := Checking), create);
    assert Tasks(s') == Tasks(s) + [t] && s'.controls.Keys == s.controls.Keys + {row.request.id};
    AddLast(Tasks(s), s.controls.Keys, t);
  }

  lemma EnqueueQueue(s: State, row: Row, create: bool, flag: bool)
    requires Inv(s) && MayEnqueue(s, row, create)
    ensures QueueOk(Enqueued(s, row, create, flag)) && WorkerOk(Enqueued(s, row, create, flag))
  {
    var id, s' := row.request.id, Enqueued(s, row, create, flag);
    forall i | 0 <= i < |s'.queue| ensures QueuedOk(s', s'.queue[i]) {
      if i < |s.queue| {
        assert QueuedOk(s, s.queue[i]);
        InControls(s, i);
      } else {
        assert create ==> Begun(s.effects, id) == 0;
      }
    }
    if s.worker.Busy? { assert Tasks(s)[0] == s.worker.task; }
  }

  lemma EnqueueRows(s: State, row: Row, create: bool, flag: bool)
    requires RowsOk(s) && MayEnqueue(s, row, create)
    ensures RowsOk(Enqueued(s, row, create, flag))
  {
    var s' := Enqueued(s, row, create, flag);
    hide Begun;
    forall other | other in s'.rows ensures RowOk(s', other) {
      if other in s.rows { assert RowOk(s, other); }
    }
  }

  lemma EnqueueKeeps(s: State, row: Row, create: bool, flag: bool)
    requires Inv(s) && MayEnqueue(s, row, create)
    ensures Inv(Enqueued(s, row, create, flag))
  {
    hide Registered, Tasks, WorkerOk, QueueOk, RowsOk, Creations;
    EnqueueRegistered(s, row, create, flag);
    EnqueueQueue(s, row, create, flag);
    EnqueueRows(s, row, create, flag);
    CreationsAppend(Tasks(s), Task(if create then row else row.(status := Checking), create));
    CreationsBound(Tasks(s));
    CountControls(s);
  }

  lemma CountControls(s: State)
    requires Registered(s)
    ensures |s.controls| == |Tasks(s)|
  {
    ControlCount(Tasks(s), s.controls.Keys);
  }

  lemma InControls(s: State, i: nat)
    requires Registered(s) && i < |s.queue|
    ensures TaskId(s.queue[i]) in s.controls
    ensures s.worker.Busy? ==> TaskId(s.worker.task) in s.controls && TaskId(s.queue[i]) != TaskId(s.worker.task)
  {
    var offset := if s.worker.Busy? then 1 else 0;
    assert Tasks(s)[i + offset] == s.queue[i];
    assert s.worker.Busy? ==> Tasks(s)[0] == s.worker.task;
  }

  lemma SubmitKeeps(s: State, q: Request)
    requires Inv(s)
    ensures Inv(Submit(s, q).0)
  {
    hide Inv, Acceptable;
    if !s.closed && Acceptable(q) && q.id !in s.rows && |s.controls| < CAPACITY {
      TaskHasRow(s, q.id);
      EnqueueKeeps(s, Row(q, Queued), true, false);
      assert Enqueued(s, Row(q, Queued), true, false) == Submit(s, q).0;
    }
  }

  lemma BusyStepping(s: State)
    requires Inv(s) && s.worker.Busy?
    ensures Stepping(s)
  {
    BusyControlled(s);
    assert RowOk(s, TaskId(s.worker.task));
  }

  lemma TaskHasRow(s: State, id: Id)
    requires Inv(s)
    ensures id in s.controls ==> id in s.rows
  {
    hide Creations, Begun, RowOk, RowsOk;
    if id in s.controls {
      var i :| 0 <= i < |Tasks(s)| && TaskId(Tasks(s)[i]) == id;
      if s.worker.Idle? || i > 0 {
        assert Tasks(s)[i] == s.queue[if s.worker.Idle? then i else i - 1];
      }
    }
  }

  lemma InspectableMay(s: State, id: Id)
    requires RowsOk(s) && id in s.rows && Inspectable(s, id)
    ensures s.rows[id].request.id == id && MayEnqueue(s, s.rows[id], false)
  {
    assert RowOk(s, id);
  }

  lemma InspectKeeps(s: State, id: Id)
    requires Inv(s)
    ensures Inv(Inspect(s, id).0)
  {
    if id in s.rows && Inspectable(s, id) {
      InspectableMay(s, id);
      hide *;
      EnqueueKeeps(s, s.rows[id], false, false);
      InspectEnqueues(s, id);
    }
  }

  lemma InspectEnqueues(s: State, id: Id)
    requires id in s.rows && Inspectable(s, id) && s.rows[id].request.id == id
    ensures Inspect(s, id).0 == Enqueued(s, s.rows[id], false, false)
    ensures Cancel(s, id).0 == Enqueued(s, s.rows[id], false, true)
  {
  }

  /** Raising flags, or marking a row that a task holds. */
  predicate Marks(s: State, s': State)
  {
    && s' == s.(rows := s'.rows, controls := s'.controls, closed := s'.closed)
    && s'.controls.Keys == s.controls.Keys && s'.rows.Keys == s.rows.Keys
    && (forall id | id in s.rows :: s'.rows[id].request == s.rows[id].request)
    && (forall id | id in s.rows && s'.rows[id] != s.rows[id] :: id in s.controls && !s'.rows[id].status.Queued?)
  }

  lemma MarkTasks(s: State, s': State)
    requires Registered(s) && QueueOk(s) && WorkerOk(s) && Marks(s, s')
    ensures Registered(s') && Tasks(s') == Tasks(s) && QueueOk(s') && WorkerOk(s')
  {
    hide Begun;
    assert Tasks(s') == Tasks(s);
    forall i | 0 <= i < |s'.queue| ensures QueuedOk(s', s'.queue[i]) { assert QueuedOk(s, s.queue[i]); }
  }

  lemma MarkRows(s: State, s': State)
    requires RowsOk(s) && Marks(s, s')
    ensures RowsOk(s')
  {
    hide Begun;
    forall id | id in s'.rows ensures RowOk(s', id) { assert RowOk(s, id); }
  }

  lemma MarkKeeps(s: State, s': State)
    requires Inv(s) && Marks(s, s')
    ensures Inv(s')
  {
    hide Registered, Tasks, WorkerOk, QueueOk, RowsOk, Creations, Marks;
    MarkTasks(s, s');
    MarkRows(s, s');
  }

  lemma CancelMarks(s: State, id: Id)
    requires id in s.rows && id in s.controls
    ensures Marks(s, Cancel(s, id).0)
  {
  }

  lemma CancelKeeps(s: State, id: Id)
    requires Inv(s)
    ensures Inv(Cancel(s, id).0)
  {
    if id in s.rows && id in s.controls {
      CancelMarks(s, id);
      hide *;
      MarkKeeps(s, Cancel(s, id).0);
    } else if id in s.rows && Inspectable(s, id) {
      InspectableMay(s, id);
      hide *;
      EnqueueKeeps(s, s.rows[id], false, true);
      InspectEnqueues(s, id);
    }
  }

  lemma CloseKeeps(s: State)
    requires Inv(s)
    ensures Inv(Close(s))
  {
    hide Inv;
    MarkKeeps(s, Close(s));
  }

  lemma RestartRows(s: State)
    requires RowsOk(s)
    ensures RowsOk(Restart(s))
  {
    hide Begun;
    var s' := Restart(s);
    forall id | id in s'.rows ensures RowOk(s', id) { assert RowOk(s, id); }
  }

  lemma RestartKeeps(s: State)
    requires Inv(s)
    ensures Inv(Restart(s))
  {
    RestartRows(s);
    RestartTasks(s);
    hide RowsOk, Registered, Creations, Tasks, RecoveredRows;
  }

  lemma RestartTasks(s: State)
    ensures Registered(Restart(s)) && Creations(Tasks(Restart(s))) == 0
  {
  }

  // --- Worker steps keep the invariant -------------------------------------------------------

  /** The busy task moves on: at most its own row changes, and at most one effect of its own is issued. */
  predicate Moves(s: State, s': State)
  {
    && s.worker.Busy? && s'.worker.Busy?
    && var t, t' := s.worker.task, s'.worker.task;
    && t'.create == t.create && t'.row.request == t.row.request
    && s'.queue == s.queue && s'.controls == s.controls && s'.closed == s.closed
    && (s'.rows == s.rows || s'.rows == s.rows[TaskId(t) := t'.row])
    && (s'.effects == s.effects || s'.effects == s.effects + [Begin(TaskId(t))]
          || s'.effects == s.effects + [Abort(TaskId(t))])
  }

  lemma MoveBegun(s: State, s': State, id: Id)
    requires Moves(s, s') && id != TaskId(s.worker.task)
    ensures Begun(s'.effects, id) == Begun(s.effects, id)
  {
    if s'.effects != s.effects {
      var e :| e in {Begin(TaskId(s.worker.task)), Abort(TaskId(s.worker.task))} && s'.effects == s.effects + [e];
      BegunAppend(s.effects, e, id);
    }
  }

  lemma MoveTasks(s: State, s': State)
    requires Registered(s) && Moves(s, s')
    ensures Registered(s') && Creations(Tasks(s')) == Creations(Tasks(s))
  {
    hide OneToOne, Creations;
    var tasks, tasks' := Tasks(s), Tasks(s');
    assert tasks' == [s'.worker.task] + tasks[1..];
    CreationsHead(tasks, s'.worker.task);
    SameIds(tasks, tasks', s.controls.Keys);
  }

  lemma MoveQueue(s: State, s': State)
    requires Registered(s) && QueueOk(s) && Moves(s, s')
    ensures QueueOk(s')
  {
    forall i | 0 <= i < |s'.queue| ensures QueuedOk(s', s'.queue[i]) {
      assert QueuedOk(s, s.queue[i]);
      InControls(s, i);
      MoveBegun(s, s', TaskId(s.queue[i]));
      hide Registered, Begun, Moves;
    }
  }

  /** What a step of the busy worker may rely on, and what it must establish. */
  predicate Stepping(s: State)
  {
    && s.worker.Busy? && BusyOk(s)
    && TaskId(s.worker.task) in s.controls && RowOk(s, TaskId(s.worker.task))
  }

  predicate Stepped(s: State, s': State)
    requires s.worker.Busy?
  {
    s'.worker.Busy? && BusyOk(s') && TaskId(s.worker.task) in s'.rows && RowOk(s', TaskId(s.worker.task))
  }

  lemma MoveKeeps(s: State, s': State)
    requires Inv(s) && s.worker.Busy? && Moves(s, s') && Stepped(s, s')
    ensures Inv(s')
  {
    MoveTasks(s, s');
    MoveQueue(s, s');
    MoveRows(s, s');
    hide Registered, QueueOk, RowsOk, Creations, Tasks, Begun, BusyOk, Moves;
  }

  lemma MoveRows(s: State, s': State)
    requires RowsOk(s) && s.worker.Busy? && Moves(s, s') && Stepped(s, s')
    ensures RowsOk(s')
  {
    hide Begun, BusyOk;
    forall id | id in s'.rows ensures RowOk(s', id) {
      if id != TaskId(s.worker.task) {
        assert RowOk(s, id);
        MoveBegun(s, s', id);
      }
    }
    forall id: Id | Begun(s'.effects, id) > 0 ensures id in s'.rows {
      if id != TaskId(s.worker.task) { MoveBegun(s, s', id); }
    }
  }

  lemma StepTaken(s: State, answer: Answer)
    requires Stepping(s) && (s.worker.at.Taken?)
    ensures Stepped(s, Work(s, answer))
  {
  }

  lemma StepNamed(s: State, answer: Answer)
    requires Stepping(s) && (s.worker.at.Named?)
    ensures Stepped(s, Work(s, answer))
  {
  }

  lemma StepEntered(s: State, answer: Answer)
    requires Stepping(s) && (s.worker.at.Entered?)
    ensures Stepped(s, Work(s, answer))
  {
  }

  lemma StepProved(s: State, answer: Answer)
    requires Stepping(s) && (s.worker.at.Proved?)
    ensures Stepped(s, Work(s, answer))
  {
    var s', id := Work(s, answer), TaskId(s.worker.task);
    BegunAppend(s.effects, Begin(id), id);
    assert s'.worker.Busy? && TaskId(s'.worker.task) == id;
    hide Begun;
  }

  lemma StepReady(s: State, answer: Answer)
    requires Stepping(s) && (s.worker.at.Ready?)
    ensures Stepped(s, Work(s, answer))
  {
    BegunAppend(s.effects, Begin(TaskId(s.worker.task)), TaskId(s.worker.task));
  }

  lemma StepSent(s: State, answer: Answer)
    requires Stepping(s) && (s.worker.at.Sent?)
    ensures Stepped(s, Work(s, answer))
  {
  }

  lemma StepPolling(s: State, answer: Answer)
    requires Stepping(s) && (s.worker.at.Polling?)
    ensures Stepped(s, Work(s, answer))
  {
    BegunAppend(s.effects, Abort(TaskId(s.worker.task)), TaskId(s.worker.task));
  }

  lemma StepAborting(s: State, answer: Answer)
    requires Stepping(s) && (s.worker.at.Aborting?)
    ensures Stepped(s, Work(s, answer))
  {
  }

  lemma StepAsking(s: State, answer: Answer)
    requires Stepping(s) && (s.worker.at.Asking?)
    ensures Stepped(s, Work(s, answer))
  {
  }

  lemma WorkBusy(s: State, answer: Answer)
    requires Stepping(s) && !s.worker.at.Ending?
    ensures Stepped(s, Work(s, answer))
  {
    var at := s.worker.at;
    hide *;
    match at
    case Taken => StepTaken(s, answer);
    case Named => StepNamed(s, answer);
    case Entered => StepEntered(s, answer);
    case Proved => StepProved(s, answer);
    case Ready => StepReady(s, answer);
    case Sent => StepSent(s, answer);
    case Polling => StepPolling(s, answer);
    case Aborting => StepAborting(s, answer);
    case Asking => StepAsking(s, answer);
    case Ending =>
  }

  lemma BusyControlled(s: State)
    requires Registered(s) && s.worker.Busy?
    ensures TaskId(s.worker.task) in s.controls
  {
    assert Tasks(s)[0] == s.worker.task;
  }

  lemma WorkMoves(s: State, answer: Answer)
    requires s.worker.Busy? && !s.worker.at.Ending?
    ensures Moves(s, Work(s, answer))
  {
    hide Work, Moves;
    if BeforeStart(s.worker.at) { EarlyMoves(s, answer); } else { LateMoves(s, answer); }
  }

  /** The points up to the remote start. */
  predicate BeforeStart(at: Point)
  {
    at.Taken? || at.Named? || at.Entered? || at.Proved? || at.Ready?
  }

  lemma EarlyMoves(s: State, answer: Answer)
    requires s.worker.Busy? && BeforeStart(s.worker.at)
    ensures Moves(s, Work(s, answer))
  {
  }

  lemma LateMoves(s: State, answer: Answer)
    requires s.worker.Busy? && !s.worker.at.Ending? && !BeforeStart(s.worker.at)
    ensures Moves(s, Work(s, answer))
  {
  }

  lemma TakeTasks(s: State)
    requires Registered(s) && s.worker.Idle? && s.queue != []
    ensures Tasks(Take(s)) == Tasks(s) && Registered(Take(s))
  {
    hide OneToOne;
    assert Tasks(Take(s)) == [s.queue[0]] + s.queue[1..] == s.queue == Tasks(s);
  }

  lemma TakeKeeps(s: State)
    requires Inv(s) && s.worker.Idle? && s.queue != []
    ensures Inv(Take(s))
  {
    var s' := Take(s);
    TakeTasks(s);
    assert QueuedOk(s, s.queue[0]);
    assert RowOk(s, TaskId(s.queue[0])) && BusyOk(s');
    hide Registered, Begun, Creations, Tasks, BusyOk;
    forall i | 0 <= i < |s'.queue| ensures QueuedOk(s', s'.queue[i]) { assert QueuedOk(s, s.queue[i + 1]); }
    forall id | id in s'.rows ensures RowOk(s', id) { assert RowOk(s, id); }
  }

  lemma FinishTasks(s: State)
    requires Registered(s) && s.worker.Busy?
    ensures Registered(Finish(s)) && Creations(Tasks(Finish(s))) <= Creations(Tasks(s))
  {
    hide OneToOne, Creations;
    var s', tasks := Finish(s), Tasks(s);
    assert Tasks(s') == s.queue == tasks[1..] && tasks[0] == s.worker.task;
    DropFirst(tasks, s.controls.Keys);
    FewerCreations(tasks);
  }

  lemma FewerCreations(tasks: seq<Task>)
    requires tasks != []
    ensures Creations(tasks[1..]) <= Creations(tasks)
  {
  }

  lemma FinishQueue(s: State)
    requires Registered(s) && QueueOk(s) && s.worker.Busy?
    ensures QueueOk(Finish(s))
  {
    forall i | 0 <= i < |s.queue| ensures QueuedOk(Finish(s), s.queue[i]) {
      assert QueuedOk(s, s.queue[i]);
      InControls(s, i);
    }
  }

  lemma FinishRows(s: State)
    requires RowsOk(s) && Stepping(s) && s.worker.at.Ending?
    ensures RowsOk(Finish(s))
  {
    hide Begun;
    var s' := Finish(s);
    forall id | id in s'.rows ensures RowOk(s', id) { assert RowOk(s, id); }
  }

  lemma FinishKeeps(s: State)
    requires Inv(s) && s.worker.Busy? && s.worker.at.Ending?
    ensures Inv(Finish(s))
  {
    BusyStepping(s);
    hide Registered, QueueOk, RowsOk, Creations, Tasks, Stepping;
    FinishTasks(s);
    FinishQueue(s);
    FinishRows(s);
  }

  lemma WorkKeeps(s: State, answer: Answer)
    requires Inv(s)
    ensures Inv(Work(s, answer))
  {
    WorkSplit(s, answer);
    hide *;
    if s.worker.Idle? {
      if s.queue != [] { TakeKeeps(s); }
    } else if s.worker.at.Ending? {
      FinishKeeps(s);
    } else {
      BusyStepping(s);
      WorkMoves(s, answer);
      WorkBusy(s, answer);
      MoveKeeps(s, Work(s, answer));
    }
  }

  lemma WorkSplit(s: State, answer: Answer)
    ensures s.worker.Idle? ==> Work(s, answer) == if s.queue == [] then s else Take(s)
    ensures s.worker.Busy? && s.worker.at.Ending? ==> Work(s, answer) == Finish(s)
  {
  }

  lemma StepKeeps(s: State, e: Event)
    requires Inv(s)
    ensures Inv(Step(s, e))
  {
    hide Inv;
    match e
    case SubmitJob(q) => SubmitKeeps(s, q);
    case InspectJob(id) => InspectKeeps(s, id);
    case CancelJob(id) => CancelKeeps(s, id);
    case CloseService => CloseKeeps(s);
    case WorkerStep(answer) => WorkKeeps(s, answer);
    case CrashAndRestart => RestartKeeps(s);
  }

  lemma {:induction false} RunKeeps(s: State, events: seq<Event>)
    requires Inv(s)
    ensures Inv(Run(s, events))
    decreases |events|
  {
    if events != [] {
      StepKeeps(s, events[0]);
      RunKeeps(Step(s, events[0]), events[1..]);
    }
  }

  const EMPTY := State(map[], map[], [], Idle, None, false, [])

  lemma EmptyKeeps()
    ensures Inv(EMPTY)
  {
  }

  /**
   * At most one remote effect per job, written ahead.  Over any run of submissions, inspections,
   * cancellations, worker steps, closings, crashes and restarts: the start or installation of a job is
   * issued at most once, only for a job with a row past `queued` on disk, so recovery never takes a
   * started job for one that was still queued.
   */
  lemma AtMostOnce(events: seq<Event>, id: Id)
    ensures var s := Run(EMPTY, events);
            && Begun(s.effects, id) <= 1
            && (Begun(s.effects, id) > 0 ==>
                  && id in s.rows && !s.rows[id].status.Queued?
                  && (Recovered(s.rows[id]).status.Cancelled? ==> s.rows[id].status.Cancelled?))
  {
    EmptyKeeps();
    RunKeeps(EMPTY, events);
    var s := Run(EMPTY, events);
    if Begun(s.effects, id) > 0 { assert RowOk(s, id); }
  }

  /**
   * Bookkeeping: control flags and tasks correspond one to one, at most sixteen created jobs are
   * unfinished, and every row without a task has a terminal status on disk.
   */
  lemma Bookkeeping(events: seq<Event>)
    ensures var s := Run(EMPTY, events);
            && Registered(s) && |s.controls| == |Tasks(s)|
            && Creations(Tasks(s)) <= CAPACITY
            && (s.worker.Idle? ==> s.current.None?)
            && (forall id | id in s.rows && id !in s.controls :: Terminal(s.rows[id].status))
  {
    EmptyKeeps();
    RunKeeps(EMPTY, events);
    CountControls(Run(EMPTY, events));
    assert forall id | id in Run(EMPTY, events).rows :: RowOk(Run(EMPTY, events), id);
  }

  // --- Cancelled before it became current -----------------------------------------------------

  /** No creation of this job can get past its flag: it was never begun and never will be. */
  predicate Spared(s: State, id: Id)
  {
    && id in s.rows && Begun(s.effects, id) == 0
    && (forall i | 0 <= i < |s.queue| && TaskId(s.queue[i]) == id && s.queue[i].create :: id in s.controls
          && s.controls[id])
    && (s.worker.Busy? && TaskId(s.worker.task) == id && s.worker.task.create ==>
          && id in s.controls && s.controls[id]
          && (s.worker.at.Taken? || s.worker.at.Named? || s.worker.at.Ending?))
  }

  /** Moreover its row is bound to end as `cancelled`. */
  predicate Held(s: State, id: Id)
  {
    && Spared(s, id)
    && s.rows[id].status in {Cancelled, CancelRequested}
    && (forall i | 0 <= i < |s.queue| && TaskId(s.queue[i]) == id :: s.queue[i].create)
    && (s.worker.Busy? && TaskId(s.worker.task) == id ==>
          s.worker.task.create && (s.worker.at.Ending? ==> s.worker.task.row.status.Cancelled?))
  }

  /** A job that has been created and is not yet current. */
  ghost predicate Waiting(s: State, id: Id)
  {
    && id in s.controls && s.current != Some(id)
    && forall i | 0 <= i < |Tasks(s)| && TaskId(Tasks(s)[i]) == id :: Tasks(s)[i].create
  }

  /** The tasks of a job that waits: its creation, queued or just taken, and not begun. */
  lemma WaitingTasks(s: State, id: Id)
    requires Inv(s) && Waiting(s, id)
    ensures id in s.rows && Begun(s.effects, id) == 0
    ensures forall j | 0 <= j < |s.queue| && TaskId(s.queue[j]) == id :: s.queue[j].create
    ensures s.worker.Busy? && TaskId(s.worker.task) == id ==> s.worker.task.create && s.worker.at.Taken?
  {
    TaskHasRow(s, id);
    assert Registered(s) && QueueOk(s) && WorkerOk(s);
    assert Waiting(s, id);
    hide Begun, Inv, RowOk, Creations;
    var i :| 0 <= i < |Tasks(s)| && TaskId(Tasks(s)[i]) == id;
    TaskWaits(s, id, i);
    WaitingCreates(s, id);
    hide QueuedOk, Waiting, Tasks, QueueOk, Registered;
  }

  lemma WaitingCreates(s: State, id: Id)
    requires Waiting(s, id)
    ensures forall j | 0 <= j < |s.queue| && TaskId(s.queue[j]) == id :: s.queue[j].create
    ensures s.worker.Busy? && TaskId(s.worker.task) == id ==> s.worker.task.create
  {
    var offset := if s.worker.Busy? then 1 else 0;
    assert s.worker.Busy? ==> s.worker.task == Tasks(s)[0];
    forall j | 0 <= j < |s.queue| && TaskId(s.queue[j]) == id ensures s.queue[j].create {
      assert Tasks(s)[j + offset] == s.queue[j];
    }
  }

  lemma TaskWaits(s: State, id: Id, i: nat)
    requires Registered(s) && QueueOk(s) && WorkerOk(s) && Waiting(s, id)
    requires i < |Tasks(s)| && TaskId(Tasks(s)[i]) == id
    ensures Begun(s.effects, id) == 0
  {
    hide Begun, Registered;
    if s.worker.Idle? {
      assert QueuedOk(s, s.queue[i]);
    } else if i > 0 {
      assert QueuedOk(s, s.queue[i - 1]);
    }
  }

  lemma CancelSpares(s: State, id: Id)
    requires Inv(s) && Waiting(s, id)
    ensures Held(Cancel(s, id).0, id)
  {
    WaitingTasks(s, id);
    hide Begun, Inv, Tasks;
  }

  lemma EnqueueSpares(s: State, row: Row, flag: bool, id: Id)
    requires Inv(s) && Spared(s, id) && MayEnqueue(s, row, false)
    ensures Spared(Enqueued(s, row, false, flag), id)
    ensures Held(s, id) && row.request.id != id ==> Held(Enqueued(s, row, false, flag), id)
  {
    InSpared(s, row.request.id);
  }

  /** An ID without a flag has no task. */
  lemma InSpared(s: State, id: Id)
    requires Registered(s) && id !in s.controls
    ensures forall i | 0 <= i < |s.queue| :: TaskId(s.queue[i]) != id
    ensures s.worker.Busy? ==> TaskId(s.worker.task) != id
  {
    forall i | 0 <= i < |s.queue| ensures TaskId(s.queue[i]) != id { InControls(s, i); }
    if s.worker.Busy? { BusyControlled(s); }
  }

  lemma SubmitSpares(s: State, q: Request, id: Id)
    requires Inv(s) && Spared(s, id)
    ensures Spared(Submit(s, q).0, id) && (Held(s, id) ==> Held(Submit(s, q).0, id))
  {
    hide Acceptable, Begun, Inv;
  }

  lemma ReopenSpares(s: State, other: Id, id: Id)
    requires Inv(s) && Spared(s, id) && other in s.rows && Inspectable(s, other)
    ensures Spared(Inspect(s, other).0, id) && (Held(s, id) ==> Held(Inspect(s, other).0, id))
    ensures Spared(Cancel(s, other).0, id) && (Held(s, id) ==> Held(Cancel(s, other).0, id))
  {
    assert Held(s, id) ==> other != id;
    InspectableMay(s, other);
    hide *;
    EnqueueSpares(s, s.rows[other], false, id);
    EnqueueSpares(s, s.rows[other], true, id);
    InspectEnqueues(s, other);
  }

  lemma QuerySpares(s: State, other: Id, id: Id)
    requires Inv(s) && Spared(s, id)
    ensures Spared(Inspect(s, other).0, id) && (Held(s, id) ==> Held(Inspect(s, other).0, id))
    ensures Spared(Cancel(s, other).0, id) && (Held(s, id) ==> Held(Cancel(s, other).0, id))
  {
    hide Begun, Inv;
    if other in s.rows && Inspectable(s, other) { ReopenSpares(s, other, id); }
  }

  lemma TakeSpares(s: State, id: Id)
    requires Spared(s, id) && s.worker.Idle? && s.queue != []
    ensures Spared(Take(s), id) && (Held(s, id) ==> Held(Take(s), id))
  {
    hide Begun;
    var s' := Take(s);
    forall i | 0 <= i < |s'.queue| ensures s'.queue[i] == s.queue[i + 1] {}
  }

  lemma FinishSpares(s: State, id: Id)
    requires Registered(s) && Spared(s, id) && s.worker.Busy? && s.worker.at.Ending?
    ensures Spared(Finish(s), id) && (Held(s, id) ==> Held(Finish(s), id))
  {
    forall i | 0 <= i < |s.queue| ensures TaskId(s.queue[i]) != TaskId(s.worker.task) { InControls(s, i); }
    hide Begun, Registered;
  }

  lemma OtherSpares(s: State, s': State, id: Id)
    requires Spared(s, id) && Moves(s, s') && TaskId(s.worker.task) != id
    ensures Spared(s', id) && (Held(s, id) ==> Held(s', id))
  {
    MoveBegun(s, s', id);
    hide Begun;
  }

  /** A spared creation is turned back at its flag; a re-inspection issues no start. */
  lemma OwnSpares(s: State, answer: Answer, id: Id)
    requires Spared(s, id) && s.worker.Busy? && BusyOk(s) && !s.worker.at.Ending? && TaskId(s.worker.task) == id
    ensures Spared(Work(s, answer), id) && (Held(s, id) ==> Held(Work(s, answer), id))
  {
    if s.worker.task.create {
      OwnCreation(s, answer, id);
    } else {
      OwnInspection(s, answer, id);
    }
  }

  lemma OwnCreation(s: State, answer: Answer, id: Id)
    requires Spared(s, id) && s.worker.Busy? && !s.worker.at.Ending? && TaskId(s.worker.task) == id
             && s.worker.task.create
    ensures Spared(Work(s, answer), id) && (Held(s, id) ==> Held(Work(s, answer), id))
  {
    hide Begun;
    var s' := Work(s, answer);
    assert s' == if s.worker.at.Taken? then Goto(s, Named).(current := Some(id)) else Leave(s, Cancelled);
  }

  lemma OwnInspection(s: State, answer: Answer, id: Id)
    requires Spared(s, id) && s.worker.Busy? && BusyOk(s) && !s.worker.at.Ending? && TaskId(s.worker.task) == id
             && !s.worker.task.create
    ensures Spared(Work(s, answer), id) && !Held(s, id)
  {
    var s' := Work(s, answer);
    WorkMoves(s, answer);
    BegunAppend(s.effects, Abort(id), id);
    assert s'.effects == s.effects || s'.effects == s.effects + [Abort(id)];
    hide Work, Begun, BusyOk;
  }

  lemma WorkSpares(s: State, answer: Answer, id: Id)
    requires Inv(s) && Spared(s, id)
    ensures Spared(Work(s, answer), id) && (Held(s, id) ==> Held(Work(s, answer), id))
  {
    WorkSplit(s, answer);
    if s.worker.Busy? {
      BusyStepping(s);
      assert Registered(s) && BusyOk(s);
    }
    hide *;
    if s.worker.Idle? {
      if s.queue != [] { TakeSpares(s, id); }
    } else if s.worker.at.Ending? {
      FinishSpares(s, id);
    } else {
      WorkMoves(s, answer);
      if TaskId(s.worker.task) != id { OtherSpares(s, Work(s, answer), id); } else { OwnSpares(s, answer, id); }
    }
  }

  lemma RestartSpares(s: State, id: Id)
    requires Spared(s, id)
    ensures Spared(Restart(s), id)
    ensures Held(s, id) ==> (Held(Restart(s), id) <==> s.rows[id].status.Cancelled?)
    ensures Held(s, id) && !s.rows[id].status.Cancelled? ==> Restart(s).rows[id].status.Unknown?
  {
    hide Begun;
  }

  lemma StepSpares(s: State, e: Event, id: Id)
    requires Inv(s) && Spared(s, id)
    ensures Spared(Step(s, e), id)
    ensures Held(s, id) && !e.CrashAndRestart? ==> Held(Step(s, e), id)
  {
    hide Spared, Held, Inv;
    match e
    case SubmitJob(q) => SubmitSpares(s, q, id);
    case InspectJob(other) => QuerySpares(s, other, id);
    case CancelJob(other) => QuerySpares(s, other, id);
    case CloseService => CloseSpares(s, id);
    case WorkerStep(answer) => WorkSpares(s, answer, id);
    case CrashAndRestart => RestartSpares(s, id);
  }

  lemma CloseSpares(s: State, id: Id)
    requires Spared(s, id)
    ensures Spared(Close(s), id) && (Held(s, id) ==> Held(Close(s), id))
  {
    hide Begun;
  }

  lemma {:induction false} RunSpares(s: State, events: seq<Event>, id: Id)
    requires Inv(s) && Spared(s, id)
    ensures Inv(Run(s, events)) && Spared(Run(s, events), id)
    ensures Held(s, id) && (forall e | e in events :: !e.CrashAndRestart?) ==> Held(Run(s, events), id)
    decreases |events|
  {
    if events != [] {
      StepKeeps(s, events[0]);
      StepSpares(s, events[0], id);
      RunSpares(Step(s, events[0]), events[1..], id);
      assert events[0] in events && forall e | e in events[1..] :: e in events;
    }
  }

  /**
   * A created job cancelled before it becomes current is never started remotely, whatever follows,
   * restarts included; and while the process lives its row ends as `cancelled`.
   */
  lemma CancelledBeforeCurrent(before: seq<Event>, id: Id, after: seq<Event>)
    requires Waiting(Run(EMPTY, before), id)
    ensures var s := Run(Cancel(Run(EMPTY, before), id).0, after);
            && Begun(s.effects, id) == 0
            && ((forall e | e in after :: !e.CrashAndRestart?) && id !in s.controls ==>
                  id in s.rows && s.rows[id].status.Cancelled?)
  {
    EmptyKeeps();
    RunKeeps(EMPTY, before);
    var s := Run(EMPTY, before);
    CancelSpares(s, id);
    CancelKeeps(s, id);
    RunSpares(Cancel(s, id).0, after, id);
    var end := Run(Cancel(s, id).0, after);
    assert RowOk(end, id);
  }

  /**
   * Whether the job has been cancelled again since it became current: an event sets the mark when it cancels
   * the current job, and the end of the task, or a crash, clears it.
   */
  function Again(s: State, e: Event, id: Id, again: bool): bool
  {
    if e == CancelJob(id) && s.current == Some(id) then true
    else if e.CrashAndRestart? || (e.WorkerStep? && s.worker.Busy? && s.worker.at.Ending?) then false
    else again
  }

  function CancelledAgain(s: State, events: seq<Event>, id: Id, again: bool): bool
    decreases |events|
  {
    if events == [] then again else CancelledAgain(Step(s, events[0]), events[1..], id, Again(s, events[0], id, again))
  }

  /** No crash comes while the mark is set. */
  predicate CrashesApart(s: State, events: seq<Event>, id: Id, again: bool)
    decreases |events|
  {
    events == [] ||
    (!(events[0].CrashAndRestart? && again) &&
     CrashesApart(Step(s, events[0]), events[1..], id, Again(s, events[0], id, again)))
  }

  /** The row on disk of a job held back by its flag, told by the mark. */
  predicate HeldMark(s: State, id: Id, again: bool)
  {
    && Held(s, id) && s.rows[id].status == (if again then CancelRequested else Cancelled)
    && (again ==> s.current == Some(id))
  }

  /** One event: the row is `cancel_requested` exactly while the mark is set, and `cancelled` otherwise. */
  lemma StepHeldMark(s: State, e: Event, id: Id, again: bool)
    requires Inv(s) && HeldMark(s, id, again) && !(e.CrashAndRestart? && again)
    ensures HeldMark(Step(s, e), id, Again(s, e, id, again))
  {
    assert id in s.rows;
    StepSpares(s, e, id);
    hide Inv, Held, Submit, Inspect, Cancel, Work, Restart;
    match e
    case SubmitJob(q) => SubmitHeldMark(s, q, id);
    case InspectJob(other) => QueryHeldMark(s, other, id);
    case CancelJob(other) => QueryHeldMark(s, other, id);
    case CloseService =>
    case WorkerStep(answer) => WorkHeldMark(s, answer, id, again);
    case CrashAndRestart => RestartSpares(s, id);
  }

  lemma SubmitHeldMark(s: State, q: Request, id: Id)
    requires id in s.rows
    ensures id in Submit(s, q).0.rows && Submit(s, q).0.rows[id] == s.rows[id] && Submit(s, q).0.current == s.current
  {
    hide Acceptable;
  }

  lemma QueryHeldMark(s: State, other: Id, id: Id)
    requires Inv(s) && Held(s, id)
    ensures var s' := Inspect(s, other).0;
            id in s'.rows && s'.rows[id].status == s.rows[id].status && s'.current == s.current
    ensures var s', status := Cancel(s, other).0, s.rows[id].status;
            && id in s'.rows && s'.current == s.current
            && (s'.rows[id].status == status || (other == id && id in s.controls
                && s'.rows[id].status == (if s.current == Some(id) then CancelRequested else Cancelled)))
            && (other == id && s.current == Some(id) ==> s'.rows[id].status == CancelRequested)
  {
    if other in s.rows { assert RowOk(s, other); }
    if s.current == Some(id) { BusyControlled(s); }
    hide Inv, RowOk, Begun;
  }

  lemma WorkHeldMark(s: State, answer: Answer, id: Id, again: bool)
    requires Inv(s) && HeldMark(s, id, again)
    ensures var s', now := Work(s, answer), Again(s, WorkerStep(answer), id, again);
            && id in s'.rows && s'.rows[id].status == (if now then CancelRequested else Cancelled)
            && (now ==> s'.current == Some(id))
  {
    WorkSplit(s, answer);
    if s.worker.Busy? {
      assert BusyOk(s);
      if !s.worker.at.Ending? { WorkHeldBusy(s, answer, id, again); }
    } else {
      assert s.current.None?;
    }
    hide Work, Inv, Begun;
  }

  lemma WorkHeldBusy(s: State, answer: Answer, id: Id, again: bool)
    requires s.worker.Busy? && !s.worker.at.Ending? && BusyOk(s) && HeldMark(s, id, again)
    ensures var s' := Work(s, answer);
            id in s'.rows && s'.rows[id] == s.rows[id] && (again ==> s'.current == s.current)
  {
    WorkMoves(s, answer);
    if TaskId(s.worker.task) == id { CreationSavesNothing(s, answer, id); }
    CurrentStays(s, answer);
    hide Work, Begun;
  }

  lemma CurrentStays(s: State, answer: Answer)
    requires s.worker.Busy? && !s.worker.at.Ending?
    ensures !s.worker.at.Taken? ==> Work(s, answer).current == s.current
  {
  }

  lemma CreationSavesNothing(s: State, answer: Answer, id: Id)
    requires Held(s, id) && s.worker.Busy? && !s.worker.at.Ending? && TaskId(s.worker.task) == id
    ensures Work(s, answer).rows == s.rows
  {
    hide Begun;
  }

  lemma {:induction false} RunHeldMark(s: State, events: seq<Event>, id: Id, again: bool)
    requires Inv(s) && HeldMark(s, id, again) && CrashesApart(s, events, id, again)
    ensures HeldMark(Run(s, events), id, CancelledAgain(s, events, id, again))
    decreases |events|
  {
    if events != [] {
      StepKeeps(s, events[0]);
      StepHeldMark(s, events[0], id, again);
      hide Step, Inv, HeldMark, Again;
      RunHeldMark(Step(s, events[0]), events[1..], id, Again(s, events[0], id, again));
    }
  }

  lemma WaitingHeld(s: State, id: Id)
    requires Inv(s) && Waiting(s, id)
    ensures Inv(Cancel(s, id).0) && HeldMark(Cancel(s, id).0, id, false)
  {
    CancelSpares(s, id);
    CancelKeeps(s, id);
    TaskHasRow(s, id);
    hide Inv, Begun, Tasks;
  }

  /**
   * What a cancellation before the job is current leaves, exactly: as long as no crash has come while the job
   * was cancelled again, the row on disk is `cancelled` unless it has been cancelled again, and a crash now
   * would turn it into `unknown` just in that case.
   */
  lemma CancelledExactly(before: seq<Event>, id: Id, after: seq<Event>)
    requires Waiting(Run(EMPTY, before), id)
    requires CrashesApart(Cancel(Run(EMPTY, before), id).0, after, id, false)
    ensures var s0 := Cancel(Run(EMPTY, before), id).0;
            var s, again := Run(s0, after), CancelledAgain(s0, after, id, false);
            && id in s.rows && s.rows[id].status == (if again then CancelRequested else Cancelled)
            && Restart(s).rows[id].status == (if again then Unknown else Cancelled)
  {
    hide *;
    EmptyKeeps();
    RunKeeps(EMPTY, before);
    var s0 := Cancel(Run(EMPTY, before), id).0;
    WaitingHeld(Run(EMPTY, before), id);
    RunHeldMark(s0, after, id, false);
    MarkedRow(Run(s0, after), id, CancelledAgain(s0, after, id, false));
  }

  lemma MarkedRow(s: State, id: Id, again: bool)
    requires HeldMark(s, id, again)
    ensures id in s.rows && s.rows[id].status == (if again then CancelRequested else Cancelled)
    ensures id in Restart(s).rows && Restart(s).rows[id].status == (if again then Unknown else Cancelled)
  {
    hide Begun;
  }

  lemma {:induction false} NeverAgain(s: State, events: seq<Event>, id: Id)
    requires CancelJob(id) !in events
    ensures CrashesApart(s, events, id, false) && !CancelledAgain(s, events, id, false)
    decreases |events|
  {
    if events != [] {
      assert events[0] in events;
      hide Step;
      NeverAgain(Step(s, events[0]), events[1..], id);
    }
  }

  /**
   * A created job cancelled before it becomes current stays `cancelled` on disk through everything that may
   * follow, crashes and restarts included, as long as it is not cancelled a second time.
   */
  lemma CancelledStays(before: seq<Event>, id: Id, after: seq<Event>)
    requires Waiting(Run(EMPTY, before), id) && CancelJob(id) !in after
    ensures var s := Run(Cancel(Run(EMPTY, before), id).0, after);
            id in s.rows && s.rows[id].status.Cancelled?
  {
    hide *;
    NeverAgain(Cancel(Run(EMPTY, before), id).0, after, id);
    CancelledExactly(before, id, after);
  }

  /**
   * A second cancellation defeats this: once the worker has made the job current it writes
   * `cancel_requested`, which a crash turns into `unknown` although the job was never started.
   */
  lemma CancelledTwiceThenCrash(q: Request)
    requires Acceptable(q)
    ensures var events := [SubmitJob(q), CancelJob(q.id), WorkerStep(Good), WorkerStep(Good),
                           CancelJob(q.id), CrashAndRestart];
            var s := Run(EMPTY, events);
            q.id in s.rows && s.rows[q.id].status.Unknown? && Begun(s.effects, q.id) == 0
  {
    hide Acceptable;
    var s1 := Submit(EMPTY, q).0;
    var s2 := Cancel(s1, q.id).0;
    var s3 := Take(s2);
    assert Work(s2, Good) == s3;
    var s4 := Work(s3, Good);
    assert s4 == Goto(s3, Named).(current := Some(q.id));
    var s5 := Cancel(s4, q.id).0;
    assert s5.rows[q.id].status.CancelRequested?;
    var tail := [CancelJob(q.id), CrashAndRestart];
    assert Run(s4, tail) == Restart(s5) by {
      assert tail[1..] == [CrashAndRestart] && [CrashAndRestart][1..] == [];
    }
    var steps := [WorkerStep(Good), WorkerStep(Good)] + tail;
    assert steps[1..][1..] == tail && steps[1..][0] == WorkerStep(Good);
    assert Run(s2, steps) == Run(s3, steps[1..]) == Run(s4, tail);
    var events := [SubmitJob(q), CancelJob(q.id)] + steps;
    assert events[1..][1..] == steps && events[1..][0] == CancelJob(q.id);
    assert Run(EMPTY, events) == Run(s1, events[1..]) == Run(s2, steps);
    assert events == [SubmitJob(q), CancelJob(q.id), WorkerStep(Good), WorkerStep(Good),
                      CancelJob(q.id), CrashAndRestart];
  }

  // --- Rows that say `cancelled` of a begun job -----------------------------------------------------

  /** The effects of one job, in order. */
  function EffectsOf(effects: seq<Effect>, id: Id): seq<Effect>
    decreases |effects|
  {
    if effects == [] then []
    else EffectsOf(effects[..|effects| - 1], id)
         + if effects[|effects| - 1] in {Begin(id), Abort(id)} then [effects[|effects| - 1]] else []
  }

  lemma EffectsOfOther(effects: seq<Effect>, e: Effect, id: Id)
    requires e !in {Begin(id), Abort(id)}
    ensures EffectsOf(effects + [e], id) == EffectsOf(effects, id)
  {
    assert (effects + [e])[..|effects|] == effects;
  }

  /** A task that the worker has not made current: in the queue, or just taken from it. */
  predicate Pending(s: State, id: Id)
  {
    id in s.controls && s.current != Some(id)
  }

  /** The worker is about to write `cancelled` for this job, because the remote side has reported it. */
  predicate ReportsCancelled(s: State, answer: Answer, id: Id)
  {
    && s.worker.Busy? && TaskId(s.worker.task) == id
    && ((s.worker.at.Asking? && answer.Report? && answer.state.Cancelled?)
        || (s.worker.at.Ending? && s.worker.task.row.status.Cancelled?))
  }

  /**
   * What makes the row of a begun job say `cancelled`: the remote side's own report, or a cancellation while a
   * re-check of the job waits its turn, which asks the remote side nothing.
   */
  lemma TurnsCancelled(s: State, e: Event, id: Id)
    requires Inv(s) && id in s.rows && Begun(s.effects, id) > 0 && !s.rows[id].status.Cancelled?
    ensures id in Step(s, e).rows
    ensures Step(s, e).rows[id].status.Cancelled? <==>
              || (e == CancelJob(id) && Pending(s, id))
              || (e.WorkerStep? && ReportsCancelled(s, e.answer, id))
    ensures e == CancelJob(id) ==> Step(s, e).effects == s.effects
  {
    assert RowOk(s, id);
    StepStored(s, e, id);
    hide Inv, RowOk, Begun, Submit, Inspect, Cancel, Work, Restart;
    match e
    case SubmitJob(q) => SubmitStored(s, q, id);
    case InspectJob(other) => QueryCancels(s, other, id);
    case CancelJob(other) => QueryCancels(s, other, id);
    case CloseService =>
    case WorkerStep(answer) => WorkCancels(s, answer, id);
    case CrashAndRestart => RestartCancels(s, id);
  }

  lemma QueryCancels(s: State, other: Id, id: Id)
    requires Inv(s) && id in s.rows && !s.rows[id].status.Cancelled?
    ensures id in Inspect(s, other).0.rows && !Inspect(s, other).0.rows[id].status.Cancelled?
    ensures id in Cancel(s, other).0.rows
    ensures Cancel(s, other).0.rows[id].status.Cancelled? <==> other == id && Pending(s, id)
    ensures Cancel(s, other).0.effects == s.effects
  {
    if other in s.rows { assert RowOk(s, other); }
    hide Inv, RowOk;
  }

  lemma RestartCancels(s: State, id: Id)
    requires id in s.rows && !s.rows[id].status.Cancelled? && !s.rows[id].status.Queued?
    ensures id in Restart(s).rows && !Restart(s).rows[id].status.Cancelled?
  {
  }

  lemma WorkCancels(s: State, answer: Answer, id: Id)
    requires Inv(s) && id in s.rows && !s.rows[id].status.Cancelled?
    ensures id in Work(s, answer).rows
    ensures Work(s, answer).rows[id].status.Cancelled? <==> ReportsCancelled(s, answer, id)
  {
    WorkSplit(s, answer);
    WorkStored(s, answer, id);
    if s.worker.Busy? { assert BusyOk(s); }
    hide Inv, BusyOk, Begun, Work;
    if s.worker.Busy? && !s.worker.at.Ending? {
      if TaskId(s.worker.task) == id { OwnCancels(s, answer, id); } else { WorkMoves(s, answer); }
    }
  }

  lemma OwnCancels(s: State, answer: Answer, id: Id)
    requires s.worker.Busy? && BusyOk(s) && !s.worker.at.Ending? && TaskId(s.worker.task) == id
    requires id in s.rows && !s.rows[id].status.Cancelled?
    ensures id in Work(s, answer).rows
    ensures Work(s, answer).rows[id].status.Cancelled? <==> ReportsCancelled(s, answer, id)
  {
    hide Begun;
  }

  /** The job has ended, and no task holds it. */
  predicate Final(s: State, id: Id)
  {
    && id in s.rows && id !in s.controls
    && (s.rows[id].status.Completed? || s.rows[id].status.Failed? || s.rows[id].status.Cancelled?)
  }

  lemma StepFinal(s: State, e: Event, id: Id)
    requires Inv(s) && Final(s, id)
    ensures Final(Step(s, e), id) && Step(s, e).rows[id] == s.rows[id]
    ensures EffectsOf(Step(s, e).effects, id) == EffectsOf(s.effects, id)
  {
    hide Inv, Submit, Inspect, Cancel, Work, Restart, EffectsOf;
    match e
    case SubmitJob(q) => SubmitFinal(s, q, id);
    case InspectJob(other) => QueryFinal(s, other, id);
    case CancelJob(other) => QueryFinal(s, other, id);
    case CloseService =>
    case WorkerStep(answer) => WorkFinal(s, answer, id);
    case CrashAndRestart => RestartFinal(s, id);
  }

  lemma SubmitFinal(s: State, q: Request, id: Id)
    requires Final(s, id)
    ensures var t := Submit(s, q).0; Final(t, id) && t.rows[id] == s.rows[id] && t.effects == s.effects
  {
    hide Acceptable;
  }

  lemma QueryFinal(s: State, other: Id, id: Id)
    requires Inv(s) && Final(s, id)
    ensures var t := Inspect(s, other).0; Final(t, id) && t.rows[id] == s.rows[id] && t.effects == s.effects
    ensures var t := Cancel(s, other).0; Final(t, id) && t.rows[id] == s.rows[id] && t.effects == s.effects
  {
    if other in s.rows { assert RowOk(s, other); }
    hide Inv, RowOk;
  }

  lemma RestartFinal(s: State, id: Id)
    requires Final(s, id)
    ensures var t := Restart(s); Final(t, id) && t.rows[id] == s.rows[id] && t.effects == s.effects
  {
  }

  lemma WorkFinal(s: State, answer: Answer, id: Id)
    requires Inv(s) && Final(s, id)
    ensures var t := Work(s, answer);
            Final(t, id) && t.rows[id] == s.rows[id] && EffectsOf(t.effects, id) == EffectsOf(s.effects, id)
  {
    WorkSplit(s, answer);
    if s.worker.Busy? { BusyControlled(s); }
    hide Inv, Work, EffectsOf, Moves;
    if s.worker.Busy? && !s.worker.at.Ending? {
      WorkMoves(s, answer);
      MoveFinal(s, Work(s, answer), id);
    }
  }

  lemma MoveFinal(s: State, s': State, id: Id)
    requires Final(s, id) && Moves(s, s') && TaskId(s.worker.task) != id
    ensures Final(s', id) && s'.rows[id] == s.rows[id] && EffectsOf(s'.effects, id) == EffectsOf(s.effects, id)
  {
    var own := TaskId(s.worker.task);
    EffectsOfOther(s.effects, Begin(own), id);
    EffectsOfOther(s.effects, Abort(own), id);
    hide EffectsOf;
  }

  /** A job that has ended as completed, failed or cancelled stays so, and nothing is asked of it any more. */
  lemma {:induction false} FinalForGood(s: State, events: seq<Event>, id: Id)
    requires Inv(s) && Final(s, id)
    ensures var t := Run(s, events);
            Final(t, id) && t.rows[id] == s.rows[id] && EffectsOf(t.effects, id) == EffectsOf(s.effects, id)
    decreases |events|
  {
    if events != [] {
      StepKeeps(s, events[0]);
      StepFinal(s, events[0], id);
      hide Step, Inv, Final, EffectsOf;
      FinalForGood(Step(s, events[0]), events[1..], id);
    }
  }

  /**
   * A begun job whose waiting re-check is cancelled just before a crash is lost: its row says `cancelled` for
   * good, and over no further run is the remote side asked to abort it, or asked about it at all.
   */
  lemma RecheckCancelLost(before: seq<Event>, id: Id, after: seq<Event>)
    requires Begun(Run(EMPTY, before).effects, id) > 0 && Pending(Run(EMPTY, before), id)
    ensures var s := Run(EMPTY, before);
            var t := Run(Restart(Cancel(s, id).0), after);
            && id in t.rows && t.rows[id].status.Cancelled? && EffectsOf(t.effects, id) == EffectsOf(s.effects, id)
  {
    var s := Run(EMPTY, before);
    EmptyKeeps();
    RunKeeps(EMPTY, before);
    TaskHasRow(s, id);
    CancelKeeps(s, id);
    RestartKeeps(Cancel(s, id).0);
    hide Inv, Begun, Run, EffectsOf;
    FinalForGood(Restart(Cancel(s, id).0), after, id);
  }

  lemma {:induction false} RunConcat(s: State, a: seq<Event>, b: seq<Event>)
    ensures Run(s, a + b) == Run(Run(s, a), b)
    decreases |a|
  {
    hide Step;
    if a == [] {
      assert a + b == b;
    } else {
      assert (a + b)[1..] == a[1..] + b;
      RunConcat(Step(s, a[0]), a[1..], b);
    }
  }

  /** Three steps of the worker. */
  lemma Thrice(s: State, a: Answer, b: Answer, c: Answer)
    ensures Run(s, [WorkerStep(a), WorkerStep(b), WorkerStep(c)]) == Work(Work(Work(s, a), b), c)
  {
    var events := [WorkerStep(a), WorkerStep(b), WorkerStep(c)];
    assert events[1..] == [WorkerStep(b), WorkerStep(c)] && events[1..][1..] == [WorkerStep(c)];
    assert [WorkerStep(c)][1..] == [];
    hide Work;
    assert Run(Work(Work(s, a), b), [WorkerStep(c)]) == Work(Work(Work(s, a), b), c);
    assert Run(Work(s, a), events[1..]) == Run(Work(Work(s, a), b), [WorkerStep(c)]);
  }

  /** A new job up to the answer of the remote start that never came. */
  function Unanswered(q: Request): seq<Event>
  {
    [SubmitJob(q)] + [WorkerStep(Good), WorkerStep(Good), WorkerStep(Good)]
    + [WorkerStep(Good), WorkerStep(Good), WorkerStep(Bad)]
  }

  lemma UnansweredUnknown(q: Request)
    requires Acceptable(q) && q.action == "shell"
    ensures var s := Run(EMPTY, Unanswered(q));
            && s.worker.Busy? && s.worker.at.Ending? && s.worker.task == Task(Row(q, Unknown), true)
            && s.queue == [] && !s.closed && s.controls == map[q.id := false] && s.effects == [Begin(q.id)]
  {
    var first, second := [WorkerStep(Good), WorkerStep(Good), WorkerStep(Good)],
                         [WorkerStep(Good), WorkerStep(Good), WorkerStep(Bad)];
    var s1 := Submit(EMPTY, q).0;
    assert [SubmitJob(q)][1..] == [] && Run(EMPTY, [SubmitJob(q)]) == s1;
    RunConcat(EMPTY, [SubmitJob(q)] + first, second);
    RunConcat(EMPTY, [SubmitJob(q)], first);
    Thrice(s1, Good, Good, Good);
    var s2 := Run(s1, first);
    Thrice(s2, Good, Good, Bad);
    FirstSteps(q);
    hide Run, Work, Submit;
    LaterSteps(s2, q);
  }

  lemma FirstSteps(q: Request)
    requires Acceptable(q)
    ensures var s := Work(Work(Work(Submit(EMPTY, q).0, Good), Good), Good);
            && s.worker == Busy(Task(Row(q, Starting), true), Entered)
            && s.queue == [] && !s.closed && s.controls == map[q.id := false] && s.effects == []
  {
    hide Acceptable;
  }

  lemma LaterSteps(s: State, q: Request)
    requires q.action == "shell" && s.worker == Busy(Task(Row(q, Starting), true), Entered)
    requires s.queue == [] && !s.closed && s.controls == map[q.id := false] && s.effects == []
    ensures var t := Work(Work(Work(s, Good), Good), Bad);
            && t.worker == Busy(Task(Row(q, Unknown), true), Ending)
            && t.queue == [] && !t.closed && t.controls == map[q.id := false] && t.effects == [Begin(q.id)]
  {
  }

  /** It does happen: the answer of a start is lost, the job is looked at again and cancelled, the app dies. */
  lemma RecheckCancelledThenCrash(q: Request)
    requires Acceptable(q) && q.action == "shell"
    ensures var s := Run(EMPTY, Unanswered(q) + [WorkerStep(Good), InspectJob(q.id)]);
            && Begun(s.effects, q.id) == 1 && Pending(s, q.id)
            && var t := Restart(Cancel(s, q.id).0);
            q.id in t.rows && t.rows[q.id].status.Cancelled? && t.effects == [Begin(q.id)]
  {
    UnansweredUnknown(q);
    var last := [WorkerStep(Good), InspectJob(q.id)];
    RunConcat(EMPTY, Unanswered(q), last);
    var s := Run(EMPTY, Unanswered(q));
    assert last[1..] == [InspectJob(q.id)] && [InspectJob(q.id)][1..] == [];
    assert Run(Work(s, Good), last[1..]) == Inspect(Work(s, Good), q.id).0;
    assert Run(s, last) == Inspect(Work(s, Good), q.id).0;
    hide Run, Unanswered, Acceptable;
    assert [Begin(q.id)][..0] == [];
  }

  // --- Repeated submissions ---------------------------------------------------------------------

  /** A row is never lost, and it always holds the request it was accepted with. */
  lemma StepStored(s: State, e: Event, id: Id)
    requires Inv(s) && id in s.rows
    ensures id in Step(s, e).rows && Step(s, e).rows[id].request == s.rows[id].request
  {
    hide Inv, Submit, Inspect, Cancel, Work, Restart;
    match e
    case SubmitJob(q) => SubmitStored(s, q, id);
    case InspectJob(other) => QueryStored(s, other, id);
    case CancelJob(other) => QueryStored(s, other, id);
    case CloseService =>
    case WorkerStep(answer) => WorkStored(s, answer, id);
    case CrashAndRestart => RestartStored(s, id);
  }

  lemma SubmitStored(s: State, q: Request, id: Id)
    requires id in s.rows
    ensures id in Submit(s, q).0.rows && Submit(s, q).0.rows[id] == s.rows[id]
  {
    hide Acceptable;
  }

  lemma QueryStored(s: State, other: Id, id: Id)
    requires Inv(s) && id in s.rows
    ensures id in Inspect(s, other).0.rows && Inspect(s, other).0.rows[id].request == s.rows[id].request
    ensures id in Cancel(s, other).0.rows && Cancel(s, other).0.rows[id].request == s.rows[id].request
  {
    if other in s.rows { assert RowOk(s, other); }
    hide Inv, RowOk;
  }

  lemma RestartStored(s: State, id: Id)
    requires id in s.rows
    ensures id in Restart(s).rows && Restart(s).rows[id].request == s.rows[id].request
  {
  }

  lemma WorkStored(s: State, answer: Answer, id: Id)
    requires Inv(s) && id in s.rows
    ensures id in Work(s, answer).rows && Work(s, answer).rows[id].request == s.rows[id].request
  {
    WorkSplit(s, answer);
    if s.worker.Busy? {
      assert BusyOk(s);
      if !s.worker.at.Ending? { WorkMoves(s, answer); }
    }
    hide Work, Begun, Inv;
  }

  lemma {:induction false} RunStored(s: State, events: seq<Event>, id: Id)
    requires Inv(s) && id in s.rows
    ensures id in Run(s, events).rows && Run(s, events).rows[id].request == s.rows[id].request
    decreases |events|
  {
    if events != [] {
      StepKeeps(s, events[0]);
      StepStored(s, events[0], id);
      hide Step, Inv;
      RunStored(Step(s, events[0]), events[1..], id);
    }
  }

  /**
   * Submissions are idempotent by ID: whatever happens in between, the same request again gives the stored
   * row, another request under that ID is refused, and nothing changes.
   */
  lemma RepeatedSubmission(before: seq<Event>, q: Request, after: seq<Event>, again: Request)
    requires Submit(Run(EMPTY, before), q).1.Accepted? && again.id == q.id
    ensures var s := Run(Submit(Run(EMPTY, before), q).0, after);
            && q.id in s.rows && s.rows[q.id].request == q
            && Submit(s, again).0 == s
            && (Submit(s, again).1.Stored? <==> !s.closed && again == q)
            && (Submit(s, again).1.Stored? ==> Submit(s, again).1.row == s.rows[q.id])
  {
    hide *;
    EmptyKeeps();
    RunKeeps(EMPTY, before);
    var s := Run(EMPTY, before);
    SubmitKeeps(s, q);
    AcceptedStores(s, q);
    RunStored(Submit(s, q).0, after, q.id);
    SubmitAgain(Run(Submit(s, q).0, after), q, again);
  }

  lemma AcceptedStores(s: State, q: Request)
    requires Submit(s, q).1.Accepted?
    ensures Acceptable(q) && q.id in Submit(s, q).0.rows && Submit(s, q).0.rows[q.id].request == q
  {
    hide Acceptable;
  }

  lemma SubmitAgain(s: State, q: Request, again: Request)
    requires Acceptable(q) && again.id == q.id && q.id in s.rows && s.rows[q.id].request == q
    ensures Submit(s, again).0 == s
    ensures Submit(s, again).1.Stored? <==> !s.closed && again == q
    ensures Submit(s, again).1.Stored? ==> Submit(s, again).1.row == s.rows[q.id]
  {
    hide Acceptable;
  }

  // --- First in, first out ------------------------------------------------------------------------

  /** a is b with some elements left out. */
  predicate Within(a: seq<Id>, b: seq<Id>)
    decreases |b|
  {
    a == [] ||
    (b != [] &&
     (Within(a, b[..|b| - 1]) || (a[|a| - 1] == b[|b| - 1] && Within(a[..|a| - 1], b[..|b| - 1]))))
  }

  lemma {:induction false} WithinSelf(a: seq<Id>)
    ensures Within(a, a)
    decreases |a|
  {
    if a != [] { WithinSelf(a[..|a| - 1]); }
  }

  lemma {:induction false} WithinBoth(a: seq<Id>, b: seq<Id>, c: seq<Id>)
    requires Within(a, b)
    ensures Within(a + c, b + c) && Within(a, b + c)
    decreases |c|
  {
    if c == [] {
      assert a + c == a && b + c == b;
    } else {
      var d := c[..|c| - 1];
      WithinBoth(a, b, d);
      assert (a + c)[..|a + c| - 1] == a + d && (b + c)[..|b + c| - 1] == b + d;
    }
  }

  lemma {:induction false} WithinTransitive(a: seq<Id>, b: seq<Id>, c: seq<Id>)
    requires Within(a, b) && Within(b, c)
    ensures Within(a, c)
    decreases |c|
  {
    if a != [] {
      var c' := c[..|c| - 1];
      if Within(b, c') {
        WithinTransitive(a, b, c');
      } else {
        var b' := b[..|b| - 1];
        if Within(a, b') { WithinTransitive(a, b', c'); } else { WithinTransitive(a[..|a| - 1], b', c'); }
      }
    }
  }

  /** The jobs begun, in order. */
  function Starts(effects: seq<Effect>): seq<Id>
    decreases |effects|
  {
    if effects == [] then []
    else
      var earlier := Starts(effects[..|effects| - 1]);
      if effects[|effects| - 1].Begin? then earlier + [effects[|effects| - 1].id] else earlier
  }

  lemma StartsAppend(effects: seq<Effect>, e: Effect)
    ensures Starts(effects + [e]) == if e.Begin? then Starts(effects) + [e.id] else Starts(effects)
  {
    assert (effects + [e])[..|effects|] == effects;
  }

  /** The new jobs among the tasks, in order. */
  function NewJobs(tasks: seq<Task>): seq<Id>
    decreases |tasks|
  {
    if tasks == [] then []
    else
      var earlier := NewJobs(tasks[..|tasks| - 1]);
      if tasks[|tasks| - 1].create then earlier + [TaskId(tasks[|tasks| - 1])] else earlier
  }

  lemma NewJobsAppend(tasks: seq<Task>, t: Task)
    ensures NewJobs(tasks + [t]) == if t.create then NewJobs(tasks) + [TaskId(t)] else NewJobs(tasks)
  {
    assert (tasks + [t])[..|tasks|] == tasks;
  }

  lemma {:induction false} NewJobsHead(t: Task, tasks: seq<Task>)
    ensures NewJobs([t] + tasks) == (if t.create then [TaskId(t)] else []) + NewJobs(tasks)
    decreases |tasks|
  {
    if tasks == [] {
      assert [t] + tasks == [] + [t];
      NewJobsAppend([], t);
    } else {
      var init, last := tasks[..|tasks| - 1], tasks[|tasks| - 1];
      assert [t] + tasks == ([t] + init) + [last] && tasks == init + [last];
      NewJobsHead(t, init);
      NewJobsAppend([t] + init, last);
      NewJobsAppend(init, last);
    }
  }

  /** The new job the worker has taken and not begun. */
  function Taking(s: State): seq<Id>
  {
    if s.worker.Busy? && s.worker.task.create && BeforeStart(s.worker.at) then [TaskId(s.worker.task)] else []
  }

  /** All new jobs in the order of their turn: begun, taken, queued. */
  function Line(s: State): seq<Id>
  {
    Starts(s.effects) + Taking(s) + NewJobs(s.queue)
  }

  /** The job an event adds. */
  function Added(s: State, e: Event): seq<Id>
  {
    if e.SubmitJob? && Submit(s, e.request).1.Accepted? then [e.request.id] else []
  }

  /** The jobs accepted in a run, in order. */
  function AcceptedIds(s: State, events: seq<Event>): seq<Id>
    decreases |events|
  {
    if events == [] then [] else Added(s, events[0]) + AcceptedIds(Step(s, events[0]), events[1..])
  }

  lemma RequestLine(s: State, e: Event)
    requires e.SubmitJob? || e.InspectJob? || e.CancelJob? || e.CloseService?
    ensures Line(Step(s, e)) == Line(s) + Added(s, e)
  {
    var s' := Step(s, e);
    hide Acceptable;
    assert s'.effects == s.effects && s'.worker == s.worker;
    hide Starts;
    assert Taking(s') == Taking(s);
    if s'.queue != s.queue {
      var t := s'.queue[|s.queue|];
      assert s'.queue == s.queue + [t];
      NewJobsAppend(s.queue, t);
    }
    hide NewJobs, Taking;
  }

  lemma StartsWithin(s: State)
    ensures Within(Starts(s.effects), Line(s))
  {
    var starts, rest := Starts(s.effects), Taking(s) + NewJobs(s.queue);
    assert Line(s) == starts + rest;
    hide *;
    WithinSelf(starts);
    WithinBoth(starts, starts, rest);
  }

  lemma RestartLine(s: State)
    ensures Within(Line(Restart(s)), Line(s))
  {
    assert NewJobs([]) == [] && Line(Restart(s)) == Starts(s.effects);
    StartsWithin(s);
  }

  lemma TakeLine(s: State)
    requires s.worker.Idle? && s.queue != []
    ensures Line(Take(s)) == Line(s)
  {
    assert s.queue == [s.queue[0]] + s.queue[1..];
    NewJobsHead(s.queue[0], s.queue[1..]);
    hide Starts, NewJobs;
  }

  lemma FinishLine(s: State)
    requires s.worker.Busy? && s.worker.at.Ending?
    ensures Line(Finish(s)) == Line(s)
  {
    hide Starts, NewJobs;
  }

  lemma TurnLine(s: State, answer: Answer)
    requires s.worker.Busy? && !s.worker.at.Ending? && BusyOk(s)
    ensures Within(Line(Work(s, answer)), Line(s))
  {
    WorkTurn(s, answer);
    var starts, taking, queued := Starts(s.effects), Taking(s), NewJobs(s.queue);
    assert Line(s) == starts + taking + queued;
    assert Line(Work(s, answer)) == starts + taking + queued || Line(Work(s, answer)) == starts + queued;
    hide *;
    WithinSelf(starts);
    WithinBoth(starts, starts, taking);
    WithinBoth(starts, starts + taking, queued);
    WithinSelf(starts + taking + queued);
  }

  lemma WorkLine(s: State, answer: Answer)
    requires Inv(s)
    ensures Within(Line(Work(s, answer)), Line(s))
  {
    WorkSplit(s, answer);
    assert s.worker.Busy? ==> BusyOk(s);
    hide *;
    WithinSelf(Line(s));
    if s.worker.Idle? {
      if s.queue != [] { TakeLine(s); }
    } else if s.worker.at.Ending? {
      FinishLine(s);
    } else {
      TurnLine(s, answer);
    }
  }

  /** The worker begins the job it has taken, keeps it, or gives it up. */
  lemma WorkTurn(s: State, answer: Answer)
    requires s.worker.Busy? && !s.worker.at.Ending? && BusyOk(s)
    ensures var s' := Work(s, answer);
            && s'.queue == s.queue
            && (|| Starts(s'.effects) + Taking(s') == Starts(s.effects) + Taking(s)
                || Starts(s'.effects) + Taking(s') == Starts(s.effects))
  {
    WorkMoves(s, answer);
    hide Begun, Starts;
    var s', id := Work(s, answer), TaskId(s.worker.task);
    StartsAppend(s.effects, Begin(id));
    StartsAppend(s.effects, Abort(id));
    if BeforeStart(s.worker.at) { EarlyTurn(s, answer); } else { LateTurn(s, answer); }
    hide *;
    assert Starts(s.effects) + [] == Starts(s.effects);
  }

  lemma EarlyTurn(s: State, answer: Answer)
    requires s.worker.Busy? && BeforeStart(s.worker.at) && BusyOk(s)
    ensures var s' := Work(s, answer);
            || (s'.effects == s.effects && (Taking(s') == Taking(s) || Taking(s') == []))
            || (s'.effects == s.effects + [Begin(TaskId(s.worker.task))] && Taking(s) == [TaskId(s.worker.task)]
                && Taking(s') == [])
  {
    hide Begun;
  }

  lemma LateTurn(s: State, answer: Answer)
    requires s.worker.Busy? && !s.worker.at.Ending? && !BeforeStart(s.worker.at)
    ensures var s' := Work(s, answer);
            && Taking(s) == [] && Taking(s') == []
            && (s'.effects == s.effects || s'.effects == s.effects + [Abort(TaskId(s.worker.task))])
  {
  }

  lemma {:induction false} RunLine(s: State, events: seq<Event>)
    requires Inv(s)
    ensures Within(Line(Run(s, events)), Line(s) + AcceptedIds(s, events))
    decreases |events|
  {
    if events == [] {
      WithinSelf(Line(s));
      assert AcceptedIds(s, events) == [] && Line(s) + [] == Line(s);
    } else {
      var e, next := events[0], Step(s, events[0]);
      assert Run(s, events) == Run(next, events[1..]);
      assert AcceptedIds(s, events) == Added(s, e) + AcceptedIds(next, events[1..]);
      hide *;
      StepKeeps(s, e);
      StepLine(s, e);
      RunLine(next, events[1..]);
      WithinOneMore(Line(Run(next, events[1..])), Line(next), Line(s), Added(s, e), AcceptedIds(next, events[1..]));
    }
  }

  lemma WithinOneMore(end: seq<Id>, next: seq<Id>, now: seq<Id>, added: seq<Id>, later: seq<Id>)
    requires Within(end, next + later) && Within(next, now + added)
    ensures Within(end, now + (added + later))
  {
    hide Within;
    WithinBoth(next, now + added, later);
    assert now + added + later == now + (added + later);
    WithinTransitive(end, next + later, now + (added + later));
  }

  lemma StepLine(s: State, e: Event)
    requires Inv(s)
    ensures Within(Line(Step(s, e)), Line(s) + Added(s, e))
  {
    hide Line, Within, Work, Restart, Inv;
    assert Line(s) + [] == Line(s);
    match e
    case WorkerStep(answer) => WorkLine(s, answer);
    case CrashAndRestart => RestartLine(s);
    case _ =>
      RequestLine(s, e);
      WithinSelf(Line(s) + Added(s, e));
  }

  /** First in, first out: jobs are begun in the order in which they were accepted, over any run. */
  lemma FirstInFirstOut(events: seq<Event>)
    ensures Within(Starts(Run(EMPTY, events).effects), AcceptedIds(EMPTY, events))
  {
    var s := Run(EMPTY, events);
    EmptyKeeps();
    RunLine(EMPTY, events);
    assert Line(EMPTY) == [] && [] + AcceptedIds(EMPTY, events) == AcceptedIds(EMPTY, events);
    StartsWithin(s);
    hide *;
    WithinTransitive(Starts(s.effects), Line(s), AcceptedIds(EMPTY, events));
  }

  // --- The object ------------------------------------------------------------------------------

  /** The service: the fields its synchronized methods and its worker change in place. */
  class Service {
    var rows: map<Id, Row>
    var controls: map<Id, bool>
    var queue: seq<Task>
    var worker: Worker
    var current: Option<Id>
    var closed: bool
    var effects: seq<Effect>

    function Now(): State
      reads this
    {
      State(rows, controls, queue, worker, current, closed, effects)
    }

    ghost predicate Valid()
      reads this
    {
      Inv(Now())
    }

    /** Starts over the rows a previous process left: nothing queued survives, nothing running is trusted. */
    constructor (before: State)
      requires Inv(before)
      ensures Valid() && Now() == Restart(before)
      ensures forall id | id in rows :: Terminal(rows[id].status)
    {
      rows, controls, queue, worker, current := before.rows, map[], [], Idle, None;
      closed, effects := false, before.effects;
      new;
      hide Inv, Recovered;
      var left := rows.Keys;
      while left != {}
        invariant left <= rows.Keys == before.rows.Keys
        invariant forall id | id in rows :: rows[id] == if id in left then before.rows[id]
                  else Recovered(before.rows[id])
        invariant Now() == Restart(before).(rows := rows)
      {
        var id :| id in left;
        var row := rows[id];
        RecoveredRow(row);
        if row.status.Queued? { rows := rows[id := row.(status := Cancelled)]; }
        if row.status in {Running, Starting, Checking, CancelRequested} {
          rows := rows[id := row.(status := Unknown)];
        }
        left := left - {id};
      }
      assert rows == RecoveredRows(before.rows);
      RestartKeeps(before);
      forall id | id in rows ensures Terminal(rows[id].status) { RecoveredRow(before.rows[id]); }
    }

    /** `run`: only for a fresh job or an unknown one that has no task. */
    method RunTask(row: Row, create: bool)
      requires Valid() && MayEnqueue(Now(), row, create)
      modifies this`rows, this`controls, this`queue
      ensures Valid() && Now() == Enqueue(old(Now()), row, create)
    {
      hide Inv, MayEnqueue;
      EnqueueKeeps(Now(), row, create, false);
      EnqueuedUnflagged(Now(), row, create);
      var r := row;
      controls := controls[row.request.id := false];
      if !create {
        r := row.(status := Checking);
      }
      rows := rows[r.request.id := r];
      queue := queue + [Task(r, create)];
    }

    method SubmitRequest(q: Request) returns (reply: Reply)
      requires Valid()
      modifies this`rows, this`controls, this`queue
      ensures Valid() && (Now(), reply) == Submit(old(Now()), q)
      ensures reply.Accepted? ==>
                q.id !in old(rows) && rows[q.id] == Row(q, Queued) && Begun(effects, q.id) == 0
    {
      hide Inv, Acceptable, Begun;
      TaskHasRow(Now(), q.id);
      NeverBegun(Now(), q.id);
      if closed || !Acceptable(q) { return Refused; }
      if q.id in rows {
        return if rows[q.id].request == q then Stored(rows[q.id]) else Refused;
      }
      if |controls| >= CAPACITY { return Refused; }
      RunTask(Row(q, Queued), true);
      reply := Accepted(Row(q, Queued));
    }

    method InspectId(id: Id) returns (reply: Reply)
      requires Valid()
      modifies this`rows, this`controls, this`queue
      ensures Valid() && (Now(), reply) == Inspect(old(Now()), id)
      ensures reply.Stored? ==> id in rows && rows[id] == reply.row
    {
      hide Inv, MayEnqueue;
      if id in rows && Inspectable(Now(), id) { InspectableAllowed(Now(), id); }
      if id !in rows { return Refused; }
      var row := rows[id];
      if id !in controls && !closed && row.status.Unknown? && row.request.action == "shell" {
        RunTask(row, false);
        row := row.(status := Checking);
      }
      reply := Stored(row);
    }

    method CancelId(id: Id) returns (reply: Reply)
      requires Valid()
      modifies this`rows, this`controls, this`queue
      ensures Valid() && (Now(), reply) == Cancel(old(Now()), id)
      ensures reply.Stored? ==> id in rows && rows[id] == reply.row && (id in controls ==> controls[id])
    {
      hide Inv, MayEnqueue;
      CancelKeeps(Now(), id);
      if id in rows && Inspectable(Now(), id) { InspectableAllowed(Now(), id); }
      if id !in rows { return Refused; }
      var row := rows[id];
      if id in controls {
        controls := controls[id := true];
        row := row.(status := if current == Some(id) then CancelRequested else Cancelled);
        rows := rows[id := row];
      } else if row.request.action == "shell" && row.status.Unknown? && !closed {
        RunTask(row, false);
        controls := controls[id := true];
        row := row.(status := Checking);
      }
      reply := Stored(row);
    }

    method CloseService()
      requires Valid()
      modifies this`controls, this`closed
      ensures Valid() && Now() == Close(old(Now()))
      ensures closed && forall id | id in controls :: controls[id]
    {
      hide Inv;
      CloseKeeps(Now());
      closed := true;
      controls := map id | id in controls :: true;
    }

    /** The next section of the task body, with what the remote side does in it. */
    method WorkerStep(answer: Answer)
      requires Valid()
      modifies this`rows, this`controls, this`queue, this`worker, this`current, this`effects
      ensures Valid() && Now() == Work(old(Now()), answer)
      ensures forall id: Id :: Begun(effects, id) <= 1
    {
      WorkKeeps(Now(), answer);
      OnceBegun(Work(Now(), answer));
      Perform(answer);
    }

    method Perform(answer: Answer)
      modifies this`rows, this`controls, this`queue, this`worker, this`current, this`effects
      ensures Now() == Work(old(Now()), answer)
    {
      if worker.Idle? {
        if queue != [] { worker, queue := Busy(queue[0], Taken), queue[1..]; }
        return;
      }
      var task, at := worker.task, worker.at;
      var id := task.row.request.id;
      var flagged := id in controls && controls[id];
      match at {
        case Taken =>
          current := Some(id);
          worker := Busy(task, Named);
        case Named =>
          if task.create && flagged {
            LeaveBody(Cancelled);
          } else {
            SaveRow(if task.create then Starting else Checking, Entered);
          }
        case Entered =>
          if answer.Good? { SaveRow(task.row.status, Proved); } else { CatchError(); }
        case Proved =>
          if task.create && flagged {
            LeaveBody(Cancelled);
          } else if task.row.request.action == "install" {
            if answer.Good? { SaveRow(Running, Ready); } else { LeaveBody(Unknown); }
          } else if task.create {
            Send(Begin(id), Sent);
          } else {
            worker := Busy(task, Polling);
          }
        case Ready => Send(Begin(id), Sent);
        case Sent =>
          if !answer.Good? {
            CatchError();
          } else if task.row.request.action == "install" {
            LeaveBody(Completed);
          } else {
            worker := Busy(task, Polling);
          }
        case Polling =>
          if flagged { Send(Abort(id), Aborting); } else { worker := Busy(task, Asking); }
        case Aborting =>
          if answer.Good? { worker := Busy(task, Asking); } else { CatchError(); }
        case Asking =>
          if !answer.Report? || answer.state !in {Starting, Running, Completed, Cancelled, Unknown} {
            CatchError();
          } else {
            var status := if answer.state.Completed? && answer.exit != 0 then Failed else answer.state;
            SaveRow(status, if answer.state in {Starting, Running} then Polling else Ending);
          }
        case Ending =>
          rows := rows[id := task.row];
          worker, current, controls := Idle, None, controls - {id};
      }
    }

    method SaveRow(status: Status, at: Point)
      requires worker.Busy?
      modifies this`rows, this`worker
      ensures Now() == Save(old(Now()), status, at)
    {
      var row := worker.task.row.(status := status);
      rows := rows[row.request.id := row];
      worker := Busy(worker.task.(row := row), at);
    }

    method LeaveBody(status: Status)
      requires worker.Busy?
      modifies this`worker
      ensures Now() == Leave(old(Now()), status)
    {
      worker := Busy(worker.task.(row := worker.task.row.(status := status)), Ending);
    }

    method CatchError()
      requires worker.Busy?
      modifies this`worker
      ensures Now() == Catch(old(Now()))
    {
      var submitted := !worker.task.create || !(worker.at.Entered? || worker.at.Proved?);
      LeaveBody(if submitted then Unknown else Failed);
    }

    method Send(effect: Effect, at: Point)
      requires worker.Busy?
      modifies this`worker, this`effects
      ensures Now() == Issue(old(Now()), effect, at)
    {
      effects := effects + [effect];
      worker := Busy(worker.task, at);
    }
  }

  lemma RecoveredRow(row: Row)
    ensures Recovered(row) == row.(status := match row.status
              case Queued => Cancelled
              case Running | Starting | Checking | CancelRequested => Unknown
              case other => other)
    ensures Terminal(Recovered(row).status)
  {
  }

  lemma EnqueuedUnflagged(s: State, row: Row, create: bool)
    ensures Enqueued(s, row, create, false) == Enqueue(s, row, create)
  {
  }

  lemma NeverBegun(s: State, id: Id)
    requires Inv(s)
    ensures id !in s.rows ==> Begun(s.effects, id) == 0
  {
    hide Begun, Registered, QueueOk, WorkerOk, RowOk;
  }

  lemma OnceBegun(s: State)
    requires Inv(s)
    ensures forall id: Id :: Begun(s.effects, id) <= 1
  {
    forall id: Id ensures Begun(s.effects, id) <= 1 {
      if Begun(s.effects, id) > 0 { assert RowOk(s, id); }
    }
    hide Begun, Registered, QueueOk, WorkerOk;
  }

  lemma InspectableAllowed(s: State, id: Id)
    requires Inv(s) && id in s.rows && Inspectable(s, id)
    ensures s.rows[id].request.id == id && MayEnqueue(s, s.rows[id], false)
  {
    InspectableMay(s, id);
    hide Begun, Registered, QueueOk, WorkerOk, RowOk, MayEnqueue;
  }
}
