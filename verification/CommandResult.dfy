/**
 * The success gate of a package command: the last terminal object of its output decides, and for a
 * verification every package journal must be in an accepted state.
 */
module CommandResult {
  import opened Basics

  datatype Value = Absent | Text(s: string) | Number(n: real) | Flag(b: bool) | List(items: seq<Value>) | Composite

  /** A decoded output object; `states` is its message decoded as a list, when it is one. */
  datatype Terminal = Terminal(schema: string, exitCode: Value, errors: Value, command: string, status: string,
                               message: Value, actions: Value, states: Option<seq<Value>>)

  /** A line of output: it may begin an object, mention the result schema, and decode. */
  datatype Line = Line(braced: bool, mentions: bool, decoded: Option<Terminal>)

  const SCHEMA := "dnfast.cli.v1"
  const UNCHANGED := "no changes; requested state is already satisfied"

  /** A line that should have been a result and is not. */
  predicate Truncated(line: Line)
  {
    line.braced && line.decoded.None? && line.mentions
  }

  predicate IsResult(line: Line)
  {
    line.braced && line.decoded.Some? && line.decoded.value.schema == SCHEMA
  }

  /** The last result among the lines. */
  function LastResult(lines: seq<Line>): (t: Option<Terminal>)
    ensures t.None? <==> forall i | 0 <= i < |lines| :: !IsResult(lines[i])
  {
    if lines == [] then None
    else if IsResult(lines[|lines| - 1]) then lines[|lines| - 1].decoded
    else LastResult(lines[..|lines| - 1])
  }

  predicate Successful(t: Terminal)
  {
    t.exitCode.Number? && t.exitCode.n == 0.0 && t.errors == List([])
  }

  /** The result fits the action it was asked for. */
  predicate Fits(action: string, t: Terminal)
  {
    var satisfied := t.command == "install" && t.status == "planned" && t.message == Text(UNCHANGED)
        && t.actions == List([]);
    if action == "install" then satisfied || (t.command == "apply" && t.status == "applied")
    else if action == "plan" then satisfied || (t.command == "install" && t.status == "aborted")
    else if action == "refresh" then t.command == "repo" && t.status == "planned"
    else
      && action in {"check", "verify", "upgrade-check", "recover", "migrate"}
      && t.command == "app-runtime" && t.status == "planned"
  }

  /** A journal row: an ID, a state and a flag. */
  predicate RowShaped(row: Value)
  {
    && row.List? && |row.items| == 3
    && row.items[0].Text? && !Blank(row.items[0].s) && row.items[1].Text? && row.items[2].Flag?
  }

  predicate StateAccepted(action: string, state: string)
  {
    state == "reconciled" || (action == "upgrade-check" && state == "prepared")
  }

  /** Rows with different IDs, each in an accepted state. */
  ghost predicate JournalsAccepted(action: string, rows: seq<Value>)
  {
    && (forall i | 0 <= i < |rows| :: RowShaped(rows[i]) && StateAccepted(action, rows[i].items[1].s))
    && (forall i, j | 0 <= i < j < |rows| :: rows[i].items[0] != rows[j].items[0])
  }

  ghost predicate Accepted(action: string, processExit: int, lines: seq<Line>)
  {
    && (forall i | 0 <= i < |lines| :: !Truncated(lines[i]))
    && processExit == 0 && LastResult(lines).Some?
    && var t := LastResult(lines).value;
       && Successful(t) && Fits(action, t)
       && (action in {"verify", "upgrade-check"} ==>
             t.message.Text? && t.states.Some? && JournalsAccepted(action, t.states.value))
  }

  /** The gate: the accepted result, or nothing where the original throws. */
  method Require(action: string, processExit: int, lines: seq<Line>) returns (result: Option<Terminal>)
    ensures result.Some? <==> Accepted(action, processExit, lines)
    ensures result.Some? ==> result == LastResult(lines)
  {
    var terminal: Option<Terminal> := None;
    for i := 0 to |lines|
      invariant terminal == LastResult(lines[..i])
      invariant forall k | 0 <= k < i :: !Truncated(lines[k])
    {
      assert lines[..i + 1][..i] == lines[..i];
      var line := lines[i];
      if line.braced {
        if line.decoded.None? {
          if line.mentions {
            assert Truncated(lines[i]);
            return None;
          }
        } else if line.decoded.value.schema == SCHEMA {
          terminal := line.decoded;
        }
      }
    }
    assert lines[..|lines|] == lines;
    if processExit != 0 || terminal.None? || !Successful(terminal.value) { return None; }
    var t := terminal.value;
    if !Fits(action, t) { return None; }
    if action == "verify" || action == "upgrade-check" {
      if !t.message.Text? || t.states.None? { return None; }
      var settled := JournalsSettled(action, t.states.value);
      if !settled { return None; }
    }
    result := terminal;
  }

  /** The row loop, with the set of IDs seen. */
  method JournalsSettled(action: string, rows: seq<Value>) returns (ok: bool)
    ensures ok <==> JournalsAccepted(action, rows)
  {
    var ids: set<string> := {};
    for i := 0 to |rows|
      invariant forall k | 0 <= k < i :: RowShaped(rows[k]) && StateAccepted(action, rows[k].items[1].s)
      invariant forall k | 0 <= k < i :: RowShaped(rows[k]) && rows[k].items[0].s in ids
      invariant forall id | id in ids :: SeenBefore(rows, i, id)
      invariant forall k, l | 0 <= k < l < i :: rows[k].items[0] != rows[l].items[0]
    {
      var row := rows[i];
      if !RowShaped(row) { return false; }
      var id := row.items[0].s;
      if id in ids {
        var k :| 0 <= k < i && rows[k].List? && |rows[k].items| == 3 && rows[k].items[0] == Text(id);
        assert rows[k].items[0] == rows[i].items[0];
        return false;
      }
      if !StateAccepted(action, row.items[1].s) { return false; }
      ids := ids + {id};
    }
    ok := true;
  }

  ghost predicate SeenBefore(rows: seq<Value>, n: nat, id: string)
    requires n <= |rows|
  {
    exists k | 0 <= k < n :: rows[k].List? && |rows[k].items| == 3 && rows[k].items[0] == Text(id)
  }

  predicate Reconciled(row: Value)
  {
    RowShaped(row) && row.items[1].s == "reconciled"
  }

  ghost predicate AllReconciled(rows: seq<Value>)
  {
    forall i | 0 <= i < |rows| :: Reconciled(rows[i])
  }

  lemma JournalsStricter(rows: seq<Value>)
    ensures JournalsAccepted("verify", rows) <==> JournalsAccepted("upgrade-check", rows) && AllReconciled(rows)
  {
    if JournalsAccepted("verify", rows) {
      forall i | 0 <= i < |rows| ensures Reconciled(rows[i]) && StateAccepted("upgrade-check", rows[i].items[1].s) {
        assert RowShaped(rows[i]) && StateAccepted("verify", rows[i].items[1].s);
      }
    }
    if JournalsAccepted("upgrade-check", rows) && AllReconciled(rows) {
      forall i | 0 <= i < |rows| ensures RowShaped(rows[i]) && StateAccepted("verify", rows[i].items[1].s) {
        assert Reconciled(rows[i]);
      }
    }
  }

  /** Verification asks for more than the check before an upgrade: no journal may still be prepared. */
  lemma VerifyStricter(processExit: int, lines: seq<Line>)
    ensures Accepted("verify", processExit, lines) <==>
              Accepted("upgrade-check", processExit, lines) && AllReconciled(LastResult(lines).value.states.value)
  {
    var t := LastResult(lines);
    if t.Some? && t.value.states.Some? { JournalsStricter(t.value.states.value); }
    hide LastResult, JournalsAccepted, AllReconciled, Successful, Truncated;
  }

  // --- What is accepted, case by case --------------------------------------------------------

  /** The last line that decodes to an object of the schema. */
  predicate LastAt(lines: seq<Line>, k: nat)
    requires k < |lines|
  {
    && lines[k].braced && lines[k].decoded.Some? && lines[k].decoded.value.schema == "dnfast.cli.v1"
    && forall i | k < i < |lines| ::
         !(lines[i].braced && lines[i].decoded.Some? && lines[i].decoded.value.schema == "dnfast.cli.v1")
  }

  lemma {:induction false} LastResultExactly(lines: seq<Line>)
    ensures LastResult(lines).Some? <==> exists k | 0 <= k < |lines| :: LastAt(lines, k)
    ensures forall k | 0 <= k < |lines| && LastAt(lines, k) :: LastResult(lines) == lines[k].decoded
  {
    if lines != [] {
      var earlier, last := lines[..|lines| - 1], |lines| - 1;
      if IsResult(lines[last]) {
        assert LastAt(lines, last);
        forall k | 0 <= k < |lines| && LastAt(lines, k) ensures k == last {}
      } else {
        LastResultExactly(earlier);
        forall k | 0 <= k < |earlier| ensures LastAt(lines, k) <==> LastAt(earlier, k) {
          assert forall i | 0 <= i < |earlier| :: earlier[i] == lines[i];
        }
        forall k | 0 <= k < |lines| && LastAt(lines, k) ensures k < |earlier| && LastAt(earlier, k) {}
      }
    }
  }

  /** Which command and status answers which action. */
  predicate Answers(action: string, t: Terminal)
  {
    || (action == "install" && t.command == "apply" && t.status == "applied")
    || (action == "plan" && t.command == "install" && t.status == "aborted")
    || ((action == "install" || action == "plan") && t.command == "install" && t.status == "planned"
        && t.message == Text("no changes; requested state is already satisfied") && t.actions == List([]))
    || (action == "refresh" && t.command == "repo" && t.status == "planned")
    || ((action == "check" || action == "verify" || action == "upgrade-check" || action == "recover"
         || action == "migrate") && t.command == "app-runtime" && t.status == "planned")
  }

  /** A row of three, an ID that is not blank, the wanted state and a flag. */
  predicate RowIn(row: Value, states: set<string>)
  {
    && row.List? && |row.items| == 3 && row.items[0].Text? && row.items[1].Text? && row.items[2].Flag?
    && !Blank(row.items[0].s) && row.items[1].s in states
  }

  predicate RowsIn(rows: seq<Value>, states: set<string>)
  {
    && (forall i | 0 <= i < |rows| :: RowIn(rows[i], states))
    && forall i, j | 0 <= i < j < |rows| :: rows[i].items[0].s != rows[j].items[0].s
  }

  lemma JournalsExactly(rows: seq<Value>)
    ensures JournalsAccepted("verify", rows) <==> RowsIn(rows, {"reconciled"})
    ensures JournalsAccepted("upgrade-check", rows) <==> RowsIn(rows, {"reconciled", "prepared"})
  {
    forall i | 0 <= i < |rows|
      ensures RowIn(rows[i], {"reconciled"}) <==> RowShaped(rows[i]) && StateAccepted("verify", rows[i].items[1].s)
      ensures RowIn(rows[i], {"reconciled", "prepared"})
          <==> RowShaped(rows[i]) && StateAccepted("upgrade-check", rows[i].items[1].s)
    {
    }
    hide RowShaped, StateAccepted, RowIn;
  }

  /**
   * The gate in full: the process exited with 0, no line that mentions the schema is cut short, and the last
   * result among the lines exits with 0, has no errors, answers the action, and for a verification lists journals
   * of different IDs in accepted states only.
   */
  lemma AcceptedExactly(action: string, processExit: int, lines: seq<Line>)
    ensures Accepted(action, processExit, lines) <==>
              && processExit == 0
              && (forall i | 0 <= i < |lines| :: lines[i].braced && lines[i].mentions ==> lines[i].decoded.Some?)
              && exists k | 0 <= k < |lines| ::
                   && LastAt(lines, k)
                   && var t := lines[k].decoded.value;
                   && t.exitCode == Number(0.0) && t.errors == List([]) && Answers(action, t)
                   && (action == "verify" ==>
                         t.message.Text? && t.states.Some? && RowsIn(t.states.value, {"reconciled"}))
                   && (action == "upgrade-check" ==>
                         t.message.Text? && t.states.Some? && RowsIn(t.states.value, {"reconciled", "prepared"}))
  {
    LastResultExactly(lines);
    if LastResult(lines).Some? {
      var k :| 0 <= k < |lines| && LastAt(lines, k);
      var t := lines[k].decoded.value;
      FitsExactly(action, t);
      if t.states.Some? { JournalsExactly(t.states.value); }
      hide Fits, Answers, JournalsAccepted, RowsIn;
    }
  }

  lemma FitsExactly(action: string, t: Terminal)
    ensures Fits(action, t) <==> Answers(action, t)
  {
  }
}
