/**
 * Recovery of processes a previous run left behind: each marker file names one process, which is signalled
 * only when it is recognised, and the marker goes only when that process no longer runs.
 */
module Recovery {
  import opened Basics
  import opened ProcessIdentity

  datatype Process = Process(uid: nat, stat: string)

  datatype Event =
    | Signalled(pid: int, record: string, process: Process)
    | Deleted(record: string, found: Option<Process>)

  function Value(digits: string): nat
    requires forall i | 0 <= i < |digits| :: '0' <= digits[i] <= '9'
  {
    if digits == "" then 0 else 10 * Value(digits[..|digits| - 1]) + (digits[|digits| - 1] as int - '0' as int)
  }

  /** A number in 32 bits with an optional sign. */
  function Parsed(line: string): Option<int>
  {
    var signed := line != "" && line[0] in {'+', '-'};
    var digits := if signed then line[1..] else line;
    if !Digits(digits) then None
    else
      var size: int := Value(digits);
      var n := if signed && line[0] == '-' then -size else size;
      if -0x8000_0000 <= n < 0x8000_0000 then Some(n) else None
  }

  /** The number the record's first line stands for. */
  function RecordedPid(record: string): Option<int>
  {
    Parsed(match FirstLine(record) case None => record case Some((first, _)) => first)
  }

  /** A stat line whose state is Z; nothing when the line is too short to look at. */
  function Zombie(stat: string): Option<bool>
  {
    var start := LastClose(stat) + 2;
    if start > |stat| then None else Some("Z " <= stat[start..])
  }

  /** Whether the recorded process still runs; nothing when a stat line cannot be read. */
  function SameProcess(record: string, boot: string, process: Option<Process>): Option<bool>
  {
    match process
    case None => Some(false)
    case Some(p) =>
      match Zombie(p.stat)
      case None => None
      case Some(zombie) => if zombie then Some(false) else Matches(record, boot, p.stat)
  }

  function At(processes: map<int, Process>, pid: int): Option<Process>
  {
    if pid in processes then Some(processes[pid]) else None
  }

  /** No process of this user that the record names runs under the PID. */
  predicate Gone(record: string, uid: nat, boot: string, process: Option<Process>)
  {
    process.None? || process.value.uid != uid || SameProcess(record, boot, process) == Some(false)
  }

  /** A signal went to a process of this user that the record names; a marker went when it names none that runs. */
  ghost predicate Justified(e: Event, uid: nat, boot: string)
  {
    match e
    case Signalled(pid, record, process) =>
      && RecordedPid(record) == Some(pid) && pid > 1 && process.uid == uid
      && SameProcess(record, boot, Some(process)) == Some(true)
    case Deleted(record, found) =>
      record != "" ==>
        RecordedPid(record).Some? && RecordedPid(record).value > 1 && Gone(record, uid, boot, found)
  }

  ghost predicate AllJustified(log: seq<Event>, uid: nat, boot: string)
  {
    forall k | 0 <= k < |log| :: Justified(log[k], uid, boot)
  }

  /** Whether a marker can be settled, given what becomes of a process by the deadline after a signal. */
  predicate Settles(record: string, uid: nat, boot: string, before: Option<Process>, after: Option<Process>)
  {
    record == "" ||
    match RecordedPid(record)
    case None => false
    case Some(pid) =>
      && pid > 1
      && (before.None? || before.value.uid != uid ||
          (|Lines(record)| == 3 &&
           (SameProcess(record, boot, before) == Some(false) ||
            (SameProcess(record, boot, before) == Some(true) && SameProcess(record, boot, after) == Some(false)))))
  }

  /** As `Settles`, among the processes before and those after the signals. */
  predicate SettlesAmong(record: string, uid: nat, boot: string, before: map<int, Process>, after: map<int, Process>)
  {
    var pid := RecordedPid(record);
    Settles(record, uid, boot, if pid.None? then None else At(before, pid.value),
            if pid.None? then None else At(after, pid.value))
  }

  class Runtime {
    const uid: nat
    const boot: string
    /** What a process has become by the deadline, once signalled. */
    const after: map<int, Process>
    var files: map<string, string>
    var processes: map<int, Process>
    ghost var log: seq<Event>

    constructor (uid: nat, boot: string, after: map<int, Process>, files: map<string, string>, processes: map<int,
            Process>)
      ensures this.uid == uid && this.boot == boot && this.after == after && this.files == files
                && this.processes == processes
      ensures log == []
    {
      this.uid, this.boot, this.after, this.files, this.processes, this.log := uid, boot, after, files, processes, [];
    }

    method Delete(name: string, record: string, ghost process: Option<Process>)
      modifies this`files, this`log
      ensures files == old(files) - {name} && log == old(log) + [Deleted(record, process)]
    {
      files := files - {name};
      log := log + [Deleted(record, process)];
    }

    /** The check of the identity and the signal are one step; the process is then given until the deadline. */
    method Quit(pid: int, record: string)
      requires pid in processes
      modifies this`processes, this`log
      ensures log == old(log) + [Signalled(pid, record, old(processes)[pid])]
      ensures processes - {pid} == old(processes) - {pid} && At(processes, pid) == At(after, pid)
    {
      log := log + [Signalled(pid, record, processes[pid])];
      processes := processes - {pid};
      if pid in after { processes := processes[pid := after[pid]]; }
    }

    /** One marker; a marker that cannot be settled stops the recovery and stays. */
    method Recover(name: string) returns (ok: bool)
      requires name in files
      modifies this`files, this`processes, this`log
      ensures files == if ok then old(files) - {name} else old(files)
      ensures old(log) <= log && AllJustified(log[|old(log)|..], uid, boot)
      ensures var record := Trim(old(files)[name]);
              var pid := RecordedPid(record);
              && (ok <==> SettlesAmong(record, uid, boot, old(processes), after))
              && (pid.None? ==> processes == old(processes))
              && (pid.Some? ==>
                    && processes - {pid.value} == old(processes) - {pid.value}
                    && (processes == old(processes) || At(processes, pid.value) == At(after, pid.value)))
              && (ok && record != "" ==> pid.Some? && Gone(record, uid, boot, At(processes, pid.value)))
    {
      hide Trim, RecordedPid, Lines, SameProcess;
      var record := Trim(files[name]);
      if record == "" {
        Delete(name, record, None);
        return true;
      }
      var parsed := RecordedPid(record);
      if parsed.None? { return false; }
      var pid := parsed.value;
      if pid <= 1 { return false; }
      if pid in processes {
        if processes[pid].uid != uid {
          Delete(name, record, At(processes, pid));
          return true;
        }
        if |Lines(record)| != 3 { return false; }
        var same := SameProcess(record, boot, At(processes, pid));
        if same.None? { return false; }
        if same.value {
          Quit(pid, record);
          var still := SameProcess(record, boot, At(processes, pid));
          if still != Some(false) { return false; }
        }
      }
      Delete(name, record, At(processes, pid));
      ok := true;
    }

    /**
     * All the markers of a directory, in the order listed, up to the first that cannot be settled.  When it
     * returns normally, no process that one of them named runs any more; no other process is touched.
     */
    method RecoverPreviousProcesses(names: seq<string>) returns (ok: bool)
      requires forall i | 0 <= i < |names| :: names[i] in files
      requires forall i, j | 0 <= i < j < |names| :: names[i] != names[j]
      modifies this`files, this`processes, this`log
      ensures old(log) <= log && AllJustified(log[|old(log)|..], uid, boot)
      ensures ok ==> files == old(files) - (set n | n in names)
      ensures !ok ==> exists k | 0 <= k < |names| :: files == old(files) - (set n | n in names[..k])
      ensures ok ==> forall n | n in names ::
                  Ended(Trim(old(files)[n]), uid, boot, old(processes), after, processes)
      ensures OnlyNamed(old(files), names, old(processes), after, processes)
      ensures DistinctPids(old(files), names) ==>
                (ok <==> forall n | n in names ::
                     SettlesAmong(Trim(old(files)[n]), uid, boot, old(processes), after))
    {
      hide Trim, RecordedPid, Gone, SettlesAmong;
      ghost var start, was, all := |log|, processes, files;
      for i := 0 to |names|
        invariant files == all - (set n | n in names[..i])
        invariant old(log) <= log && AllJustified(log[start..], uid, boot)
        invariant OnlyNamed(all, names[..i], was, after, processes)
        invariant forall n | n in names[..i] :: Ended(Trim(all[n]), uid, boot, was, after, processes)
        invariant DistinctPids(all, names) ==>
            forall n | n in names[..i] :: SettlesAmong(Trim(all[n]), uid, boot, was, after)
      {
        assert names[i] !in names[..i];
        ghost var earlier, here := log, processes;
        var settled := Recover(names[i]);
        assert log[start..] == earlier[start..] + log[|earlier|..];
        assert names[..i + 1] == names[..i] + [names[i]];
        OneMoreMarker(all, names, i, uid, boot, was, after, here, processes);
        if !settled { return false; }
      }
      assert names[..|names|] == names;
      ok := true;
    }
  }

  /** The process a marker names is gone: it was before, or it is after the signal. */
  predicate Ended(record: string, uid: nat, boot: string, before: map<int, Process>, after: map<int, Process>,
                  now: map<int, Process>)
  {
    record == "" ||
    match RecordedPid(record)
    case None => false
    case Some(pid) =>
      || Gone(record, uid, boot, At(before, pid))
      || (At(now, pid) == At(after, pid) && Gone(record, uid, boot, At(now, pid)))
  }

  /** Every process is as before, or what it becomes after a signal and named by one of the markers. */
  ghost predicate OnlyNamed(files: map<string, string>, names: seq<string>, before: map<int, Process>,
                            after: map<int, Process>, now: map<int, Process>)
    requires forall i | 0 <= i < |names| :: names[i] in files
  {
    forall pid: int :: At(now, pid) == At(before, pid) ||
        (At(now, pid) == At(after, pid) && exists n :: n in names && RecordedPid(Trim(files[n])) == Some(pid))
  }

  ghost predicate DistinctPids(files: map<string, string>, names: seq<string>)
    requires forall i | 0 <= i < |names| :: names[i] in files
  {
    forall i, j | 0 <= i < j < |names| :: RecordedPid(Trim(files[names[i]])).Some? ==>
        RecordedPid(Trim(files[names[i]])) != RecordedPid(Trim(files[names[j]]))
  }

  /** Settling one more marker keeps what the ones before it have reached. */
  lemma OneMoreMarker(files: map<string, string>, names: seq<string>, i: nat, uid: nat, boot: string,
                      was: map<int, Process>, after: map<int, Process>, here: map<int, Process>,
                      now: map<int, Process>)
    requires (forall k | 0 <= k < |names| :: names[k] in files) && i < |names|
    requires OnlyNamed(files, names[..i], was, after, here)
    requires var pid := RecordedPid(Trim(files[names[i]]));
             && (pid.None? ==> now == here)
             && (pid.Some? ==>
                   && now - {pid.value} == here - {pid.value}
                   && (now == here || At(now, pid.value) == At(after, pid.value)))
    ensures OnlyNamed(files, names[..i + 1], was, after, now)
    ensures forall record | Ended(record, uid, boot, was, after, here) :: Ended(record, uid, boot, was, after, now)
    ensures var record := Trim(files[names[i]]);
            DistinctPids(files, names) ==>
              SettlesAmong(record, uid, boot, here, after) == SettlesAmong(record, uid, boot, was, after)
  {
    hide Trim, RecordedPid, Gone, Settles;
    assert names[..i + 1] == names[..i] + [names[i]];
    var named := RecordedPid(Trim(files[names[i]]));
    forall pid: int | named != Some(pid) ensures At(now, pid) == At(here, pid) {
      if named.Some? {
        var gone := named.value;
        assert pid in now <==> pid in now - {gone};
        assert pid in here <==> pid in here - {gone};
        assert pid in now ==> now[pid] == (now - {gone})[pid];
        assert pid in here ==> here[pid] == (here - {gone})[pid];
      }
    }
    assert names[i] in names[..i + 1];
    forall record | Ended(record, uid, boot, was, after, here) ensures Ended(record, uid, boot, was, after, now) {
      if record != "" && !Gone(record, uid, boot, At(was, RecordedPid(record).value)) {
        var pid := RecordedPid(record).value;
        assert At(here, pid) == At(after, pid);
        assert At(now, pid) == At(after, pid);
      }
    }
  }

  /**
   * From launcher to recovery: the trimmed record of a process matches a live stat line exactly when it is
   * the same process of the same boot and no zombie.
   */
  lemma LauncherRecordRecognised(pid: string, boot: string, name: string, fields: seq<string>,
                                 pid': string, boot': string, name': string, fields': seq<string>, uid: nat)
    requires Digits(pid) && Digits(pid') && StatFields(fields) && StatFields(fields')
    requires (forall i | 0 <= i < |boot| :: !LineBreak(boot[i]))
             && (boot' == "" || (boot'[0] > ' ' && boot'[|boot'| - 1] > ' '))
    ensures SameProcess(Trim(Record(pid, boot, Stat(pid, name, fields, "\n"))), boot' + "\n",
                        Some(Process(uid, Stat(pid', name', fields', "\n"))))
         == Some(fields'[0] != "Z" && pid == pid' && boot == boot' && fields[19] == fields'[19])
  {
    RecordTrimmed(pid, boot, name, fields);
    IdentityExact(pid, boot, name, fields, "", pid', boot', name', fields', "\n");
    StateOfStat(pid', name', fields');
    hide Matches, Trim, Record, Stat, Zombie, StatFields;
  }

  lemma RecordTrimmed(pid: string, boot: string, name: string, fields: seq<string>)
    requires Digits(pid) && StatFields(fields)
    ensures Trim(Record(pid, boot, Stat(pid, name, fields, "\n"))) == Record(pid, boot, Stat(pid, name, fields, ""))
  {
    var record := Record(pid, boot, Stat(pid, name, fields, ""));
    JoinedPlain(fields);
    assert record[0] == pid[0];
    assert record[|record| - 1] == Joined(fields)[|Joined(fields)| - 1];
    assert Record(pid, boot, Stat(pid, name, fields, "\n")) == record + "\n";
    TrimBlankEnd(record, "\n");
  }

  lemma StateOfStat(pid: string, name: string, fields: seq<string>)
    requires StatFields(fields)
    ensures Zombie(Stat(pid, name, fields, "\n")) == Some(fields[0] == "Z")
  {
    var stat, tail := Stat(pid, name, fields, "\n"), Joined(fields) + "\n";
    JoinedPlain(fields);
    assert stat == (pid + " (" + name) + ") " + tail;
    CloseIsLast(pid + " (" + name, tail);
    assert stat[LastClose(stat) + 2..] == tail;
    StateFirst(fields, "\n");
  }

  lemma StateFirst(fields: seq<string>, end: string)
    requires StatFields(fields)
    ensures "Z " <= Joined(fields) + end <==> fields[0] == "Z"
  {
    var f, rest := fields[0], " " + (Joined(fields[1..]) + end);
    assert PlainField(f);
    assert Joined(fields) == f + (" " + Joined(fields[1..]));
    assert Joined(fields) + end == f + rest;
    hide Joined;
    ZombieWord(f, rest);
  }

  lemma ZombieWord(word: string, rest: string)
    requires word != "" && (forall i | 0 <= i < |word| :: !Space(word[i])) && rest != "" && rest[0] == ' '
    ensures "Z " <= word + rest <==> word == "Z"
  {
    var all := word + rest;
    WordOf(word, rest);
    if "Z " <= all {
      assert all == "Z" + all[1..] && all[1..][0] == all[1];
      WordOf("Z", all[1..]);
    }
  }

  // --- The number and the process a record stands for --------------------------------

  /** A number as the launch script prints it. */
  function Decimal(n: nat): (s: string)
    ensures Digits(s)
  {
    if n < 10 then [(n + '0' as int) as char] else Decimal(n / 10) + [(n % 10 + '0' as int) as char]
  }

  lemma {:induction false} DecimalValue(n: nat)
    ensures Value(Decimal(n)) == n
  {
    if n < 10 {
      assert Decimal(n)[..0] == "";
    } else {
      DecimalValue(n / 10);
      assert Decimal(n)[..|Decimal(n)| - 1] == Decimal(n / 10);
    }
  }

  lemma {:induction false} TrimRightKeeps(s: string, end: string)
    requires s != "" && s[|s| - 1] > ' '
    ensures exists k | 0 <= k <= |end| :: TrimRight(s + end) == s + end[..k]
  {
    if end == "" {
      assert s + end == s + end[..0];
    } else if Trimmable(end[|end| - 1]) {
      var shorter := end[..|end| - 1];
      assert (s + end)[..|s + end| - 1] == s + shorter;
      TrimRightKeeps(s, shorter);
      var k :| 0 <= k <= |shorter| && TrimRight(s + shorter) == s + shorter[..k];
      assert shorter[..k] == end[..k];
    } else {
      assert s + end == s + end[..|end|];
    }
  }

  lemma {:induction false} NoBreak(s: string)
    requires forall i | 0 <= i < |s| :: !LineBreak(s[i])
    ensures FirstLine(s) == None
  {
    if s != "" { NoBreak(s[1..]); }
  }

  /** The first line decides, whatever is trimmed after it. */
  lemma FirstLineTrimmed(line: string, rest: string)
    requires line != "" && (forall i | 0 <= i < |line| :: line[i] > ' ' && !LineBreak(line[i]))
    ensures var record := Trim(line + "\n" + rest);
            record != "" && line == match FirstLine(record) case None => record case Some((first, _)) => first
  {
    var end := "\n" + rest;
    assert line + "\n" + rest == line + end;
    assert TrimLeft(line + end) == line + end;
    TrimRightKeeps(line, end);
    var k :| 0 <= k <= |end| && TrimRight(line + end) == line + end[..k];
    if k == 0 {
      assert line + end[..0] == line;
      NoBreak(line);
    } else {
      assert end[..k] == "\n" + end[1..k];
      assert line + end[..k] == line + "\n" + end[1..k];
      FirstLineOf(line, end[1..k]);
    }
  }

  lemma ParsedSays(n: nat, sign: string)
    requires sign in {"", "+", "-"}
    ensures var value: int := if sign == "-" then 0 - n as int else n as int;
            Parsed(sign + Decimal(n)) == if -0x8000_0000 <= value < 0x8000_0000 then Some(value) else None
  {
    var line := sign + Decimal(n);
    DecimalValue(n);
    hide Value, Decimal;
    if sign == "" {
      assert line == Decimal(n);
    } else {
      assert line[0] == sign[0] && line[1..] == Decimal(n);
    }
  }

  /** Nothing else is a number: not an empty text, nor a sign alone, nor one with another character in it. */
  lemma NotANumber(line: string)
    ensures Parsed(line).Some? ==>
              && line != "" && '0' <= line[|line| - 1] <= '9'
              && forall i | 1 <= i < |line| :: '0' <= line[i] <= '9'
    ensures Parsed(line).Some? ==> '0' <= line[0] <= '9' || line[0] in {'+', '-'}
  {
    var signed := line != "" && line[0] in {'+', '-'};
    var digits := if signed then line[1..] else line;
    if Digits(digits) {
      forall i | 1 <= i < |line| ensures '0' <= line[i] <= '9' {
        assert line[i] == digits[if signed then i - 1 else i];
      }
      assert line[|line| - 1] == digits[|digits| - 1];
    }
  }

  /** The PID of a record is the number its first line says, signed or not, as far as it fits in 32 bits. */
  lemma RecordedPidSays(n: nat, sign: string, rest: string)
    requires sign in {"", "+", "-"}
    ensures var value: int := if sign == "-" then 0 - n as int else n as int;
            RecordedPid(Trim(sign + Decimal(n) + "\n" + rest))
            == if -0x8000_0000 <= value < 0x8000_0000 then Some(value) else None
  {
    FirstLineTrimmed(sign + Decimal(n), rest);
    ParsedSays(n, sign);
    hide Trim, FirstLine, Parsed, Decimal;
  }

  /** A process as the system shows it: its user, its name and the fields of its stat line. */
  datatype Running = Running(uid: nat, name: string, fields: seq<string>)

  function Seen(n: nat, r: Option<Running>): Option<Process>
  {
    match r
    case None => None
    case Some(p) => Some(Process(p.uid, Stat(Decimal(n), p.name, p.fields, "\n")))
  }

  /** The process is no zombie and began, in this boot, when the recorded one did. */
  predicate IsRecorded(r: Option<Running>, boot: string, fields: seq<string>, boot': string)
    requires |fields| >= 20 && (r.Some? ==> |r.value.fields| >= 20)
  {
    r.Some? && r.value.fields[0] != "Z" && boot == boot' && r.value.fields[19] == fields[19]
  }

  /**
   * The marker of process n, as its launch script left it, names process n.  It is settled exactly when n is not
   * 1 and no process of the user that the marker recorded runs under n, before the signal or after it.
   */
  lemma LauncherMarkerSettled(n: nat, boot: string, name: string, fields: seq<string>, boot': string, uid: nat,
                              before: Option<Running>, after: Option<Running>)
    requires n < 0x8000_0000 && StatFields(fields)
    requires (before.Some? ==> StatFields(before.value.fields)) && (after.Some? ==> StatFields(after.value.fields))
    requires (forall i | 0 <= i < |boot| :: !LineBreak(boot[i]))
             && (boot' == "" || (boot'[0] > ' ' && boot'[|boot'| - 1] > ' '))
    ensures var record := Trim(Record(Decimal(n), boot, Stat(Decimal(n), name, fields, "\n")));
            && record != "" && RecordedPid(record) == Some(n)
            && (Gone(record, uid, boot' + "\n", Seen(n, before)) <==>
                  before.None? || before.value.uid != uid || !IsRecorded(before, boot, fields, boot'))
            && (Settles(record, uid, boot' + "\n", Seen(n, before), Seen(n, after)) <==>
                  n > 1 && (before.None? || before.value.uid != uid || !IsRecorded(before, boot, fields, boot')
                            || !IsRecorded(after, boot, fields, boot')))
  {
    var pid := Decimal(n);
    var record := Trim(Record(pid, boot, Stat(pid, name, fields, "\n")));
    assert Record(pid, boot, Stat(pid, name, fields, "\n"))
        == "" + Decimal(n) + "\n" + (boot + "\n" + Stat(pid, name, fields, "\n"));
    RecordedPidSays(n, "", boot + "\n" + Stat(pid, name, fields, "\n"));
    FirstLineTrimmed(pid, boot + "\n" + Stat(pid, name, fields, "\n"));
    RecordTrimmed(pid, boot, name, fields);
    LinesOfRecord(pid, boot, Stat(pid, name, fields, ""));
    SeenRecognised(n, boot, name, fields, boot', before);
    SeenRecognised(n, boot, name, fields, boot', after);
    hide Trim, Record, RecordedPid, Lines, SameProcess, Stat, Decimal, StatFields, IsRecorded;
  }

  lemma SeenRecognised(n: nat, boot: string, name: string, fields: seq<string>, boot': string, r: Option<Running>)
    requires StatFields(fields) && (r.Some? ==> StatFields(r.value.fields))
    requires (forall i | 0 <= i < |boot| :: !LineBreak(boot[i]))
             && (boot' == "" || (boot'[0] > ' ' && boot'[|boot'| - 1] > ' '))
    ensures SameProcess(Trim(Record(Decimal(n), boot, Stat(Decimal(n), name, fields, "\n"))), boot' + "\n", Seen(n, r))
         == Some(IsRecorded(r, boot, fields, boot'))
  {
    if r.Some? {
      var p := r.value;
      LauncherRecordRecognised(Decimal(n), boot, name, fields, Decimal(n), boot', p.name, p.fields, p.uid);
      hide Trim, Record, SameProcess, Stat, Decimal;
    }
  }

  /** A process of this user that cannot be told from the recorded one keeps its marker, before a signal and after. */
  lemma UnreadableStays(record: string, uid: nat, boot: string, before: Process, after: Option<Process>)
    requires record != "" && before.uid == uid
    ensures SameProcess(record, boot, Some(before)) == None ==>
              !Settles(record, uid, boot, Some(before), after) && !Gone(record, uid, boot, Some(before))
    ensures SameProcess(record, boot, Some(before)) == Some(true) && SameProcess(record, boot, after) == None ==>
              !Settles(record, uid, boot, Some(before), after)
    ensures SameProcess(record, boot, Some(before)) == Some(true) ==> !Gone(record, uid, boot, Some(before))
    ensures |Lines(record)| != 3 ==> !Settles(record, uid, boot, Some(before), after)
  {
    hide SameProcess, RecordedPid, Lines;
  }
}
