/**
 * What package requests come to: which are accepted, what makes each status of a row, when a command is launched,
 * and what a row keeps of its output.
 */
module PackageOutcomes {
  import opened Basics
  import opened PackageJobs

  /** The request is one of those supported, with arguments in order. */
  predicate InOrder(id: Id, argv: seq<string>)
  {
    && |id| == 36
    && (forall i | 0 <= i < 36 ::
          if i in {8, 13, 18, 23} then id[i] == '-' else '0' <= id[i] <= '9' || 'a' <= id[i] <= 'f')
    && 1 <= |argv| <= 128
    && (forall k | 0 <= k < |argv| :: |argv[k]| <= 4096 && Visible(argv[k]) && forall c | c in argv[k] :: c != '\0')
    && (|| argv[0] == "install"
        || (|argv| == 2 && argv[0] == "repo" && argv[1] == "refresh")
        || (|argv| == 2 && argv[0] == "app-runtime"
            && (argv[1] == "check" || argv[1] == "recover" || argv[1] == "migrate")))
  }

  predicate Visible(s: string)
  {
    exists c :: c in s && !Whitespace(c)
  }

  /**
   * Which requests are accepted, and what an acceptance does: the service is open and has nothing to do, the form
   * is in order and the ID new; the row is `running` on disk and the request is the one in hand.
   */
  lemma SubmitExactly(s: State, id: Id, argv: seq<string>)
    ensures var (t, reply) := Submit(s, id, argv);
            && (reply.Accepted? <==> !s.closed && InOrder(id, argv) && id !in s.rows && s.job.None?)
            && (reply.Accepted? ==>
                  var row := Row(argv, Running, "", false, None);
                  t == s.(rows := s.rows[id := row], job := Some(Job(id, row, false, false, Submitted)),
                          logs := s.logs[id := ""]))
            && (!reply.Accepted? ==> t == s)
  {
    InOrderExactly(id, argv);
    hide InOrder, IdOk, ArgumentsOk, Supported;
  }

  lemma InOrderExactly(id: Id, argv: seq<string>)
    ensures InOrder(id, argv) <==> IdOk(id) && ArgumentsOk(argv) && Supported(argv)
  {
    IdExactly(id);
    ArgumentsExactly(argv);
    if argv != [] { SupportedExactly(argv); }
    hide IdOk, Visible, ArgumentsOk, Supported;
  }

  lemma ArgumentsExactly(argv: seq<string>)
    ensures ArgumentsOk(argv) <==>
              && 1 <= |argv| <= 128
              && forall k | 0 <= k < |argv| ::
                   |argv[k]| <= 4096 && Visible(argv[k]) && forall c | c in argv[k] :: c != '\0'
  {
    assert forall k | 0 <= k < |argv| :: argv[k] in argv;
    forall s: string ensures Visible(s) <==> !Blank(s) {}
    hide Visible, Blank;
  }

  lemma SupportedExactly(argv: seq<string>)
    requires argv != []
    ensures Supported(argv) <==>
              || argv[0] == "install"
              || (|argv| == 2 && argv[0] == "repo" && argv[1] == "refresh")
              || (|argv| == 2 && argv[0] == "app-runtime"
                  && (argv[1] == "check" || argv[1] == "recover" || argv[1] == "migrate"))
  {
    if |argv| == 2 { assert argv == [argv[0], argv[1]]; }
  }

  /** A cancellation of the request in hand is on disk at once and known to its task; any other changes nothing. */
  lemma CancelExactly(s: State, id: Id)
    ensures var (t, reply) := Cancel(s, id);
            if s.job.Some? && s.job.value.id == id && id in s.rows then
              var row := s.job.value.row.(status := CancelRequested);
              && reply == Accepted(row)
              && t == s.(rows := s.rows[id := row],
                         job := Some(s.job.value.(row := row, cancelRequested := true)))
            else t == s && reply == if id in s.rows then Stored(s.rows[id]) else Refused
  {
  }

  /** A service that is closed takes no request until a service starts again, whatever happens in between. */
  lemma CloseExactly(s: State, id: Id, argv: seq<string>, events: seq<Event>)
    requires forall e | e in events :: !e.Restarted?
    ensures var t := Run(Close(s), events);
            t.closed && Submit(t, id, argv) == (t, Refused)
    decreases |events|
  {
    CloseCloses(s);
    StaysClosed(Close(s), events);
    hide *;
    ClosedRefuses(Run(Close(s), events), id, argv);
  }

  lemma CloseCloses(s: State)
    ensures Close(s).closed
  {
  }

  lemma ClosedRefuses(s: State, id: Id, argv: seq<string>)
    requires s.closed
    ensures Submit(s, id, argv) == (s, Refused)
  {
  }

  lemma {:induction false} StaysClosed(s: State, events: seq<Event>)
    requires s.closed && forall e | e in events :: !e.Restarted?
    ensures Run(s, events).closed
    decreases |events|
  {
    if events != [] {
      assert events[0] in events;
      StepStaysClosed(s, events[0]);
      hide Step;
      StaysClosed(Step(s, events[0]), events[1..]);
    }
  }

  lemma StepStaysClosed(s: State, e: Event)
    requires s.closed && !e.Restarted?
    ensures Step(s, e).closed
  {
    hide IdOk, ArgumentsOk, Supported;
  }

  /** A request cancelled before its command was launched is never launched. */
  lemma {:induction false} CancelledNotLaunched(s: State, events: seq<Event>)
    requires s.job.Some? && s.job.value.cancelRequested && Marked(s, s.job.value.id)
    ensures Launches(Run(s, events).commands, s.job.value.id) == Launches(s.commands, s.job.value.id)
  {
    MarkedNotLaunched(s, events, s.job.value.id);
  }

  /** What a mark of a cancellation means for launches: the job in hand launches nothing, and others are others. */
  lemma {:induction false} MarkedNotLaunched(s: State, events: seq<Event>, id: Id)
    requires Marked(s, id)
    ensures Launches(Run(s, events).commands, id) == Launches(s.commands, id)
    decreases |events|
  {
    if events != [] {
      StepMarked(s, events[0], id);
      LaunchExactly(s, events[0]);
      if s.job.Some? { LaunchesAppend(s.commands, s.job.value.id, id); }
      assert s.commands + [] == s.commands;
      hide Step, Marked, Launches;
      MarkedNotLaunched(Step(s, events[0]), events[1..], id);
    }
  }

  // --- What makes a status -----------------------------------------------------------------------

  /** The task of this request saves what it ended with. */
  predicate SavesLast(s: State, e: Event, id: Id, status: Status)
  {
    e.Finished? && s.job.Some? && s.job.value.id == id && s.job.value.phase.Settled?
    && s.job.value.row.status == status
  }

  /** A status other than the one before, as an event brings it to the row. */
  predicate Turns(s: State, e: Event, id: Id, status: Status)
    requires id in s.rows
  {
    id in Step(s, e).rows && s.rows[id].status != status && Step(s, e).rows[id].status == status
  }

  /** `completed`, `failed` and `cancelled` are what a task ended with, and are written by its last save only. */
  lemma TurnsFinal(s: State, e: Event, id: Id, status: Status)
    requires Inv(s) && id in s.rows && status in {Completed, Failed, Cancelled} && s.rows[id].status != status
    ensures Turns(s, e, id, status) <==> SavesLast(s, e, id, status)
  {
    StepStored(s, e, id);
    StepStatus(s, e, id);
    hide Inv;
  }

  /** `interrupted` is what the start of a service makes of a request that was not finished. */
  lemma TurnsInterrupted(s: State, e: Event, id: Id)
    requires Inv(s) && id in s.rows && !s.rows[id].status.Interrupted?
    ensures Turns(s, e, id, Interrupted) <==>
              e.Restarted? && s.closed && s.job.None? && s.recorded == {}
              && s.rows[id].status in {Running, CancelRequested}
  {
    StepStored(s, e, id);
    StepStatus(s, e, id);
    hide Inv;
  }

  /** `cancel_requested` is a cancellation of the request in hand, its own or by the close of the service. */
  lemma TurnsCancelRequested(s: State, e: Event, id: Id)
    requires Inv(s) && id in s.rows && !s.rows[id].status.CancelRequested?
    ensures Turns(s, e, id, CancelRequested) <==>
              || (s.job.Some? && s.job.value.id == id && (e == CancelRequest(id) || e.CloseService?))
              || SavesLast(s, e, id, CancelRequested)
  {
    StepStored(s, e, id);
    StepStatus(s, e, id);
    hide Inv;
  }

  /** No stored row ever turns `running` again. */
  lemma NeverRunningAgain(s: State, e: Event, id: Id)
    requires Inv(s) && id in s.rows && !s.rows[id].status.Running?
    ensures !Turns(s, e, id, Running)
  {
    StepStored(s, e, id);
    StepStatus(s, e, id);
    hide Inv;
  }

  /** The status an event leaves in a row. */
  function StatusAfter(s: State, e: Event, id: Id): Status
    requires id in s.rows
  {
    var own := s.job.Some? && s.job.value.id == id;
    match e
    case CancelRequest(other) => if other == id && own then CancelRequested else s.rows[id].status
    case CloseService => if own then CancelRequested else s.rows[id].status
    case Finished(_) => if own && s.job.value.phase.Settled? then s.job.value.row.status else s.rows[id].status
    case Restarted => if CanStart(s) then Recovered(s.rows[id]).status else s.rows[id].status
    case _ => s.rows[id].status
  }

  lemma StepStatus(s: State, e: Event, id: Id)
    requires Inv(s) && id in s.rows
    ensures id in Step(s, e).rows && Step(s, e).rows[id].status == StatusAfter(s, e, id)
    ensures s.job.Some? && s.job.value.phase.Settled? ==>
              s.job.value.row.status in {Completed, Failed, Cancelled, CancelRequested}
  {
    if s.job.Some? { InvOf(s); }
    InHandOnDisk(s);
    hide Inv, Tail;
  }

  lemma InHandOnDisk(s: State)
    requires Inv(s)
    ensures s.job.Some? ==>
              && s.job.value.id in s.rows
              && (!s.job.value.phase.Settled? ==> s.rows[s.job.value.id].status == s.job.value.row.status)
  {
    hide Launches, Tail;
  }

  /** What a task ends with: a requested cancellation comes first, then whether the command returned. */
  lemma VerdictExactly(s: State, ok: bool)
    requires s.job.Some? && s.job.value.phase.Executing?
    requires ok ==> s.job.value.launched && s.job.value.id !in s.live
    ensures var t := Settle(s, ok);
            && t.rows == s.rows && t.job.Some? && t.job.value.phase.Settled?
            && (t.job.value.row.status.Cancelled? <==> s.job.value.cancelRequested)
            && (t.job.value.row.status.Completed? <==> ok && !s.job.value.cancelRequested)
            && (t.job.value.row.status.Failed? <==> !ok && !s.job.value.cancelRequested)
            && t.job.value.row == s.job.value.row.(status := t.job.value.row.status)
  {
  }

  /** A command is launched by its own task, when it was not cancelled before and has not been launched. */
  lemma LaunchExactly(s: State, e: Event)
    ensures var launches := e.Launched? && s.job.Some? && s.job.value.phase.Executing?
                            && !s.job.value.launched && !s.job.value.cancelRequested;
            && Step(s, e).commands == s.commands + (if launches then [s.job.value.id] else [])
            && (launches ==> Step(s, e).live == s.live + {s.job.value.id})
  {
    assert s.commands + [] == s.commands;
    hide IdOk, ArgumentsOk, Supported;
  }

  // --- Rows after a start, and what they keep of the output ----------------------------------------

  /** A start of the service rewrites the unfinished rows and nothing else. */
  lemma RenewedExactly(s: State)
    ensures var t := Renewed(s);
            && t == s.(rows := t.rows, job := None, closed := false) && t.rows.Keys == s.rows.Keys
            && forall id | id in s.rows ::
                 t.rows[id] == s.rows[id].(status := if s.rows[id].status in {Running, CancelRequested} then Interrupted
                                                     else s.rows[id].status)
  {
    forall id | id in s.rows
      ensures Renewed(s).rows[id] == s.rows[id].(status := if s.rows[id].status in {Running, CancelRequested}
                                                           then Interrupted else s.rows[id].status)
    {
      RecoveredRow(s.rows[id]);
    }
  }

  /** Over every run: a row keeps the end of all that was printed, 16384 characters at most, and says if that is all. */
  lemma OutputKept(events: seq<Event>, id: Id)
    ensures var s := Run(EMPTY, events);
            id in s.rows ==>
              && id in s.logs
              && var (log, output) := (s.logs[id], s.rows[id].output);
              && |output| == (if |log| < 16384 then |log| else 16384) && log[|log| - |output|..] == output
              && (s.rows[id].truncated <==> output != log)
  {
    SingleWriter(events, id);
    hide Run;
  }
}
