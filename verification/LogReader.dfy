/**
 * The package client: one submission, then polls until the job has ended, printing each time what is new
 * in the bounded log tail the job keeps.
 */
module LogReader {
  import opened Basics
  import opened PackageJobs

  /** What a call to the bridge brings: the job's row, a refusal, or no answer. */
  datatype Response = Answer(row: Row) | Refusal | Lost

  datatype Request = Get(id: string) | Delete(id: string) | Post(id: string, argv: seq<string>)

  const MARKER := "[package log tail refreshed]\n"

  /** What standard error shows of the log after the given outputs, beginning from nothing shown. */
  function Shown(outputs: seq<string>): string
  {
    if outputs == [] then ""
    else
      var earlier := outputs[..|outputs| - 1];
      Shown(earlier) + News(Latest(earlier), outputs[|outputs| - 1])
  }

  /** The last output, or nothing before the first. */
  function Latest(outputs: seq<string>): string
  {
    if outputs == [] then "" else outputs[|outputs| - 1]
  }

  /** What one poll prints. */
  function News(previous: string, output: string): string
  {
    if output == previous then ""
    else if previous <= output then output[|previous|..]
    else MARKER + output
  }

  /** What one poll adds to what is shown: the end of an output that goes on, or a notice and the whole output. */
  lemma NewsExactly(previous: string, output: string)
    ensures previous <= output ==> previous + News(previous, output) == output
    ensures !(previous <= output) ==> News(previous, output) == "[package log tail refreshed]\n" + output
  {
  }

  predicate Live(status: Status)
  {
    status == Running || status == CancelRequested
  }

  function Outputs(rows: seq<Row>): seq<string>
  {
    seq(|rows|, i requires 0 <= i < |rows| => rows[i].output)
  }

  /** The arguments submitted: an installation assumes yes. */
  function Arguments(operation: seq<string>): seq<string>
    requires operation != []
  {
    if operation[0] == "install" then ["install", "--assumeyes"] + operation[1..] else operation
  }

  /** What is submitted is what was asked for; an installation has the assumed yes after its first word. */
  lemma ArgumentsExactly(operation: seq<string>)
    requires operation != []
    ensures var argv := Arguments(operation);
            if operation[0] == "install" then
              && |argv| == |operation| + 1 && argv[0] == "install" && argv[1] == "--assumeyes"
              && argv[2..] == operation[1..]
            else argv == operation
  {
    var argv := Arguments(operation);
    if operation[0] == "install" { assert argv[2..] == operation[1..]; }
  }

  /**
   * The client waits for as long as the service may still write the row: a status is live exactly when a start
   * of the service over it would mark it interrupted.
   */
  lemma LiveExactly(row: Row)
    ensures Live(row.status) <==> row.status in {Running, CancelRequested}
    ensures Live(row.status) <==> Recovered(row) != row
  {
  }

  /** The bridge: it answers call n with the n-th response, and loses every call after the last. */
  class Bridge {
    const responses: seq<Response>
    var requests: seq<Request>

    constructor (responses: seq<Response>)
      ensures this.responses == responses && requests == []
    {
      this.responses, this.requests := responses, [];
    }

    function Response(n: nat): Response
    {
      if n < |responses| then responses[n] else Lost
    }

    method Call(request: Request) returns (response: Response)
      modifies this
      ensures requests == old(requests) + [request] && response == Response(|old(requests)|)
    {
      response := Response(|requests|);
      requests := requests + [request];
    }

    /** Every row seen is the answer to the call of that number. */
    ghost predicate Answered(rows: seq<Row>)
    {
      forall n | 0 <= n < |rows| :: Response(n) == Answer(rows[n])
    }

    /** All rows but the last are of a job still under way. */
    ghost predicate LiveBeforeLast(rows: seq<Row>)
    {
      forall n | 0 <= n < |rows| - 1 :: Live(rows[n].status)
    }

    /** One submission, then status queries only. */
    ghost predicate Submission(requests: seq<Request>, id: string, argv: seq<string>)
    {
      && requests != [] && requests[0] == Post(id, argv)
      && forall n | 0 < n < |requests| :: requests[n] == Get(id)
    }

    /** What one poll prints. */
    static method Print(previous: string, output: string) returns (text: string)
      ensures text == News(previous, output)
    {
      text := "";
      if output != previous {
        if previous <= output { text := output[|previous|..]; } else { text := MARKER + output; }
      }
    }

    /** The submission and the polling loop; `lost` when a call brought no answer. */
    method Follow(id: string, argv: seq<string>) returns (rows: seq<Row>, printed: string, lost: bool)
      requires requests == []
      modifies this
      ensures Answered(rows) && LiveBeforeLast(rows) && Submission(requests, id, argv)
      ensures lost <==> |requests| == |rows| + 1 && !Response(|rows|).Answer?
      ensures !lost ==> rows != [] && |requests| == |rows| && !Live(rows[|rows| - 1].status)
      ensures printed == Shown(Outputs(rows))
    {
      hide Shown, Outputs, News, Last;
      NothingShown();
      rows, printed, lost := [], "", false;
      var previous := "";
      var response := Call(Post(id, argv));
      while true
        invariant |requests| == |rows| + 1 && response == Response(|rows|)
        invariant Answered(rows) && LiveBeforeLast(rows) && Submission(requests, id, argv)
        invariant rows != [] ==> Live(rows[|rows| - 1].status)
        invariant previous == if rows == [] then "" else rows[|rows| - 1].output
        invariant printed == Shown(Outputs(rows))
        decreases |responses| - |rows|
      {
        if !response.Answer? { lost := true; return; }
        var row := response.row;
        ShowNext(rows, row);
        var text := Print(previous, row.output);
        printed := printed + text;
        previous := row.output;
        rows := rows + [row];
        if !Live(row.status) { return; }
        response := Call(Get(id));
      }
    }

    /**
     * The rows seen, what was printed of the log, and the exit code: 0 for a completed job, 1 for a row
     * with another status, 2 when a call failed and the outcome is unknown.
     */
    method Execute(operation: seq<string>, id: string) returns (rows: seq<Row>, printed: string, code: nat)
      requires operation != [] && requests == []
      modifies this
      ensures Answered(rows) && code <= 2
      ensures code == 2 <==> |requests| == |rows| + 1 && !Response(|rows|).Answer?
      ensures code != 2 ==> rows != [] && |requests| == |rows|
      ensures code == 0 <==> code != 2 && rows[|rows| - 1].status == Completed
      ensures operation == ["status"] ==> requests == [Get(id)] && printed == ""
      ensures operation == ["cancel"] ==> requests == [Delete(id)] && printed == ""
      ensures operation != ["status"] && operation != ["cancel"] ==>
                && Submission(requests, id, Arguments(operation)) && LiveBeforeLast(rows)
                && (code != 2 ==> !Live(rows[|rows| - 1].status))
                && printed == Shown(Outputs(rows))
                && (forall n | 0 <= n < |rows| - 1 :: rows[n].status in {Running, CancelRequested})
                && (code != 2 ==> rows[|rows| - 1].status in {Completed, Failed, Cancelled, Interrupted})
    {
      hide Shown, Outputs;
      var lost := false;
      if operation == ["status"] || operation == ["cancel"] {
        var response := Call(if operation == ["status"] then Get(id) else Delete(id));
        rows, printed, lost := if response.Answer? then [response.row] else [], "", !response.Answer?;
      } else {
        rows, printed, lost := Follow(id, Arguments(operation));
      }
      code := if lost then 2 else if rows[|rows| - 1].status == Completed then 0 else 1;
    }
  }

  lemma NothingShown()
    ensures Shown(Outputs([])) == ""
  {
  }

  lemma ShowNext(rows: seq<Row>, row: Row)
    ensures Shown(Outputs(rows + [row]))
              == Shown(Outputs(rows)) + News(if rows == [] then "" else rows[|rows| - 1].output, row.output)
  {
    assert Outputs(rows + [row])[..|rows|] == Outputs(rows);
  }

  /** Poll k brings an output that does not continue the one before. */
  predicate Refreshed(outputs: seq<string>, k: nat)
    requires k < |outputs|
  {
    k > 0 && !(outputs[k - 1] <= outputs[k])
  }

  predicate AnyRefresh(outputs: seq<string>)
  {
    exists k | 0 <= k < |outputs| :: Refreshed(outputs, k)
  }

  lemma AnyRefreshLast(outputs: seq<string>)
    requires outputs != []
    ensures AnyRefresh(outputs) <==> AnyRefresh(outputs[..|outputs| - 1]) || Refreshed(outputs, |outputs| - 1)
  {
    var earlier := outputs[..|outputs| - 1];
    forall k | 0 <= k < |earlier| ensures Refreshed(earlier, k) <==> Refreshed(outputs, k) {
      assert earlier[k] == outputs[k] && (k > 0 ==> earlier[k - 1] == outputs[k - 1]);
    }
    if AnyRefresh(earlier) {
      var k :| 0 <= k < |earlier| && Refreshed(earlier, k);
      assert Refreshed(outputs, k);
    }
  }

  /**
   * After every poll the text printed since the last marker is exactly the output polled; there is a
   * marker just when some output did not continue the one before, and otherwise it is all that was printed.
   */
  lemma {:induction false} ShownSinceMarker(outputs: seq<string>) returns (start: nat)
    ensures start <= |Shown(outputs)| && Shown(outputs)[start..] == Latest(outputs)
    ensures if AnyRefresh(outputs) then start >= |MARKER| && Shown(outputs)[start - |MARKER|..start] == MARKER
              else start == 0
  {
    if outputs == [] {
      start := 0;
    } else {
      var earlier, output := outputs[..|outputs| - 1], outputs[|outputs| - 1];
      var before := Shown(earlier);
      AnyRefreshLast(outputs);
      start := ShownSinceMarker(earlier);
      var shown := Shown(outputs);
      assert shown == before + News(Latest(earlier), output);
      if Refreshed(outputs, |outputs| - 1) {
        start := |before| + |MARKER|;
        assert shown == before + MARKER + output;
      } else {
        assert Latest(earlier) <= output;
        assert shown == before + output[|Latest(earlier)|..];
        hide *;
        Continued(before, start, Latest(earlier), output);
      }
    }
  }

  /** Printing what an output adds to the one shown from `start` on. */
  lemma Continued(before: string, start: nat, previous: string, output: string)
    requires start <= |before| && before[start..] == previous && previous <= output
    ensures var shown := before + output[|previous|..];
            shown[start..] == output && shown[..start] == before[..start]
  {
    var shown := before + output[|previous|..];
    assert shown[start..] == before[start..] + output[|previous|..];
  }

  /** The outputs of a log that grows from poll to poll. */
  ghost predicate TailsOf(outputs: seq<string>, logs: seq<string>)
  {
    && |outputs| == |logs|
    && (forall k | 0 <= k < |logs| :: outputs[k] == Last(logs[k], LIMIT))
    && (forall k | 0 <= k < |logs| :: Grows(logs, k))
  }

  predicate Grows(logs: seq<string>, k: nat)
    requires k < |logs|
  {
    k > 0 ==> logs[k - 1] <= logs[k]
  }

  /** While the whole log fits the tail, every character of it is printed exactly once and in order. */
  lemma {:induction false} SmallLogShownOnce(outputs: seq<string>, logs: seq<string>)
    requires TailsOf(outputs, logs) && logs != [] && |logs[|logs| - 1]| <= LIMIT
    ensures Shown(outputs) == logs[|logs| - 1]
  {
    if |logs| == 1 {
      assert Shown([]) == "" && outputs[..0] == [];
      assert outputs[0] == logs[0];
    } else {
      var n := |logs| - 1;
      assert Grows(logs, n) && outputs[n] == logs[n] && outputs[n - 1] == logs[n - 1];
      forall k | 0 <= k < n ensures Grows(logs[..n], k) { assert Grows(logs, k); }
      SmallLogShownOnce(outputs[..n], logs[..n]);
      assert Latest(outputs[..n]) == outputs[n - 1];
      hide Last, Latest, Grows;
      assert Shown(outputs) == logs[n - 1] + News(outputs[n - 1], outputs[n]);
    }
  }

  /**
   * From job to screen: with the rows of one job, whose outputs are the tails of its growing log, the
   * printed text ends with the last tail, and is the whole log as long as that fits.
   */
  lemma JobLogShown(rows: seq<Row>, logs: seq<string>)
    requires rows != [] && |rows| == |logs|
    requires forall k | 0 <= k < |rows| :: Tail(rows[k], logs[k])
    requires forall k | 0 <= k < |logs| :: Grows(logs, k)
    ensures var shown, log := Shown(Outputs(rows)), logs[|logs| - 1];
            && |Last(log, LIMIT)| <= |shown| && shown[|shown| - |Last(log, LIMIT)|..] == Last(log, LIMIT)
            && (!rows[|rows| - 1].truncated ==> shown == log)
  {
    var outputs := Outputs(rows);
    assert TailsOf(outputs, logs);
    var start := ShownSinceMarker(outputs);
    assert Tail(rows[|rows| - 1], logs[|logs| - 1]);
    if !rows[|rows| - 1].truncated { SmallLogShownOnce(outputs, logs); }
  }
}
