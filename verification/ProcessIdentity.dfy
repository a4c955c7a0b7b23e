/**
 * Identity of a process across PID reuse and reboot: the record a launcher leaves, its comparison with a
 * current stat line, and the recovery that signals only a process it recognises.
 */
module ProcessIdentity {
  import opened Basics

  /** The characters a regular expression's \s matches. */
  predicate Space(c: char)
  {
    c == ' ' || '\t' <= c <= '\r'
  }

  /** What trimming removes: the space and every control character below it. */
  predicate Trimmable(c: char)
  {
    c <= ' '
  }

  predicate LineBreak(c: char)
  {
    '\n' <= c <= '\r' || c == '\U{0085}' || c == '\U{2028}' || c == '\U{2029}'
  }

  predicate Digits(s: string)
  {
    s != "" && forall i | 0 <= i < |s| :: '0' <= s[i] <= '9'
  }

  function TrimLeft(s: string): string
  {
    if s != "" && Trimmable(s[0]) then TrimLeft(s[1..]) else s
  }

  function TrimRight(s: string): string
  {
    if s != "" && Trimmable(s[|s| - 1]) then TrimRight(s[..|s| - 1]) else s
  }

  function Trim(s: string): string
  {
    TrimRight(TrimLeft(s))
  }

  /** The text up to the first white space. */
  function Word(s: string): (w: string)
    ensures w <= s && (|w| < |s| ==> Space(s[|w|])) && forall i | 0 <= i < |w| :: !Space(w[i])
  {
    if s == "" || Space(s[0]) then "" else [s[0]] + Word(s[1..])
  }

  /** The fields of a trimmed text, separated by runs of white space. */
  function Fields(s: string): seq<string>
    decreases |s|
  {
    if s == "" then []
    else if Space(s[0]) then Fields(s[1..])
    else [Word(s)] + Fields(s[|Word(s)|..])
  }

  /** Where the last ") " begins, or -1. */
  function LastClose(s: string): (k: int)
    ensures -1 <= k && (k >= 0 ==> k + 2 <= |s| && s[k..k + 2] == ") ")
  {
    if |s| < 2 then -1
    else if s[|s| - 2..] == ") " then |s| - 2
    else
      var k := LastClose(s[..|s| - 1]);
      assert k >= 0 ==> s[..|s| - 1][k..k + 2] == s[k..k + 2];
      k
  }

  /** The start time of a stat line; nothing when the line is malformed. */
  function StartTicks(stat: string): Option<string>
  {
    var end := LastClose(stat);
    if end < 0 then None
    else
      var fields := Fields(Trim(stat[end + 2..]));
      if |fields| < 20 || !Digits(fields[19]) then None else Some(fields[19])
  }

  /** Length of the line break a text begins with. */
  function BreakLength(s: string): nat
    requires s != "" && LineBreak(s[0])
  {
    if s[0] == '\r' && |s| > 1 && s[1] == '\n' then 2 else 1
  }

  /** The text before the first line break and the text after it. */
  function FirstLine(s: string): Option<(string, string)>
  {
    if s == "" then None
    else if LineBreak(s[0]) then Some(("", s[BreakLength(s)..]))
    else
      match FirstLine(s[1..])
      case None => None
      case Some((line, rest)) => Some(([s[0]] + line, rest))
  }

  /** At most three lines, the last keeping any further breaks. */
  function Lines(s: string): seq<string>
  {
    match FirstLine(s)
    case None => [s]
    case Some((first, rest)) =>
      match FirstLine(rest)
      case None => [first, rest]
      case Some((second, third)) => [first, second, third]
  }

  /** Whether a record names the process of a stat line; nothing when a start time cannot be read. */
  function Matches(record: string, boot: string, stat: string): Option<bool>
  {
    var lines := Lines(record);
    if !(|lines| == 3 && Digits(lines[0]) && lines[1] == Trim(boot)
         && lines[0] + " (" <= stat && lines[0] + " (" <= lines[2]) then Some(false)
    else
      var recorded, current := StartTicks(lines[2]), StartTicks(stat);
      if recorded.None? || current.None? then None else Some(recorded == current)
  }

  /** A field of a stat line after the name: the state letter or a number. */
  predicate PlainField(f: string)
  {
    f != "" && forall i | 0 <= i < |f| :: f[i] > ' ' && f[i] != ')' && !Space(f[i])
  }

  /** The fields of a stat line after the name: the state, 18 numbers, the start time and the rest. */
  predicate StatFields(fields: seq<string>)
  {
    |fields| >= 20 && Digits(fields[19]) && forall f | f in fields :: PlainField(f)
  }

  function Joined(fields: seq<string>): string
  {
    if fields == [] then "" else if |fields| == 1 then fields[0] else fields[0] + " " + Joined(fields[1..])
  }

  /** A stat line: the PID, the name in parentheses, the fields and perhaps the final newline. */
  function Stat(pid: string, name: string, fields: seq<string>, end: string): string
  {
    pid + " (" + name + ") " + Joined(fields) + end
  }

  /** The record a launcher leaves: the PID, the boot ID and its own stat line. */
  function Record(pid: string, boot: string, stat: string): string
  {
    pid + "\n" + boot + "\n" + stat
  }

  /** A text without parentheses or control characters that neither begins nor ends with a space. */
  predicate PlainText(s: string)
  {
    && (forall i | 0 <= i < |s| :: s[i] >= ' ' && s[i] != ')')
    && (s != "" ==> s[0] > ' ' && s[|s| - 1] > ' ')
  }

  lemma {:induction false} JoinedPlain(fields: seq<string>)
    requires forall f | f in fields :: PlainField(f)
    ensures PlainText(Joined(fields)) && (fields != [] ==> Joined(fields) != "")
  {
    if fields != [] {
      assert PlainField(fields[0]);
      if |fields| > 1 {
        JoinedPlain(fields[1..]);
        assert fields[1..] != [];
      }
    }
  }

  lemma {:induction false} WordOf(f: string, rest: string)
    requires (forall i | 0 <= i < |f| :: !Space(f[i])) && (rest == "" || Space(rest[0]))
    ensures Word(f + rest) == f
  {
    if f == "" {
      assert f + rest == rest;
    } else {
      assert (f + rest)[1..] == f[1..] + rest;
      WordOf(f[1..], rest);
    }
  }

  lemma {:induction false} FieldsOfJoined(fields: seq<string>)
    requires forall f | f in fields :: PlainField(f)
    ensures Fields(Joined(fields)) == fields
  {
    if fields != [] {
      var f := fields[0];
      assert PlainField(f);
      var rest := if |fields| == 1 then "" else " " + Joined(fields[1..]);
      assert Joined(fields) == f + rest;
      WordOf(f, rest);
      FieldsOfJoined(fields[1..]);
      FirstField(f, rest);
      hide Joined;
      if |fields| > 1 {
        assert rest[1..] == Joined(fields[1..]);
        LeadingSpace(rest);
      } else {
        assert fields[1..] == [];
      }
      assert fields == [f] + fields[1..];
    }
  }

  lemma FirstField(f: string, rest: string)
    requires f != "" && !Space(f[0]) && Word(f + rest) == f
    ensures Fields(f + rest) == [f] + Fields(rest)
  {
    assert (f + rest)[|f|..] == rest;
  }

  lemma LeadingSpace(rest: string)
    requires rest != "" && Space(rest[0])
    ensures Fields(rest) == Fields(rest[1..])
  {
  }

  /** Trimming stops at the visible characters on both ends. */
  lemma {:induction false} TrimBlankEnd(s: string, end: string)
    requires (s == "" || (s[0] > ' ' && s[|s| - 1] > ' ')) && (forall i | 0 <= i < |end| :: Trimmable(end[i]))
    ensures Trim(s + end) == s
  {
    if s != "" {
      assert TrimLeft(s + end) == s + end;
    } else {
      TrimLeftBlank(end);
      assert s + end == end;
    }
    if s != "" { TrimRightBlank(s, end); }
  }

  lemma {:induction false} TrimLeftBlank(end: string)
    requires forall i | 0 <= i < |end| :: Trimmable(end[i])
    ensures TrimLeft(end) == ""
  {
    if end != "" { TrimLeftBlank(end[1..]); }
  }

  lemma {:induction false} TrimRightBlank(s: string, end: string)
    requires s != "" && s[|s| - 1] > ' ' && forall i | 0 <= i < |end| :: Trimmable(end[i])
    ensures TrimRight(s + end) == s
  {
    if end == "" {
      assert s + end == s;
    } else {
      assert (s + end)[..|s + end| - 1] == s + end[..|end| - 1];
      TrimRightBlank(s, end[..|end| - 1]);
    }
  }

  /** With no parenthesis after it, a ") " is the last one. */
  lemma {:induction false} CloseIsLast(s: string, tail: string)
    requires forall i | 0 <= i < |tail| :: tail[i] != ')'
    ensures LastClose(s + ") " + tail) == |s|
  {
    var all := s + ") " + tail;
    if tail == "" {
      assert all[|all| - 2..] == ") ";
    } else {
      assert all[|all| - 1] == tail[|tail| - 1];
      assert all[..|all| - 1] == s + ") " + tail[..|tail| - 1];
      CloseIsLast(s, tail[..|tail| - 1]);
      assert all[|all| - 2] == if |tail| > 1 then tail[|tail| - 2] else ' ' by {
        assert |tail| == 1 ==> all[|all| - 2] == (s + ") ")[|s| + 1];
      }
      assert all[|all| - 2..][0] == all[|all| - 2] && ") "[0] == ')';
      assert all[|all| - 2..] != ") ";
    }
  }

  /** Whatever the process is called, even with ") " or line breaks in its name, its start time is read. */
  lemma StartTicksOfStat(pid: string, name: string, fields: seq<string>, end: string)
    requires StatFields(fields) && forall i | 0 <= i < |end| :: Trimmable(end[i])
    ensures StartTicks(Stat(pid, name, fields, end)) == Some(fields[19])
  {
    var stat, tail := Stat(pid, name, fields, end), Joined(fields) + end;
    JoinedPlain(fields);
    assert stat == (pid + " (" + name) + ") " + tail;
    CloseIsLast(pid + " (" + name, tail);
    assert stat[LastClose(stat) + 2..] == tail;
    TrimBlankEnd(Joined(fields), end);
    FieldsOfJoined(fields);
  }

  lemma {:induction false} FirstLineOf(line: string, rest: string)
    requires forall i | 0 <= i < |line| :: !LineBreak(line[i])
    ensures FirstLine(line + "\n" + rest) == Some((line, rest))
  {
    var all := line + "\n" + rest;
    if line == "" {
      assert all == "\n" + rest && all[1..] == rest;
    } else {
      assert all[0] == line[0] && all[1..] == line[1..] + "\n" + rest;
      FirstLineOf(line[1..], rest);
      assert [line[0]] + line[1..] == line;
    }
  }

  /** Two PIDs in digits begin a stat line in the same way only if they are equal. */
  lemma SamePid(pid: string, other: string, text: string)
    requires Digits(pid) && Digits(other)
    ensures pid + " (" <= other + " (" + text <==> pid == other
  {
    var all := other + " (" + text;
    assert all == other + (" (" + text);
    WordOf(other, " (" + text);
    if pid + " (" <= all {
      var rest := all[|pid|..];
      assert all == pid + rest && rest[0] == (pid + " (")[|pid|];
      WordOf(pid, rest);
    }
  }

  lemma LinesOfRecord(pid: string, boot: string, stat: string)
    requires (forall i | 0 <= i < |pid| :: !LineBreak(pid[i])) && (forall i | 0 <= i < |boot| :: !LineBreak(boot[i]))
    ensures Lines(Record(pid, boot, stat)) == [pid, boot, stat]
  {
    FirstLineOf(pid, boot + "\n" + stat);
    FirstLineOf(boot, stat);
    assert Record(pid, boot, stat) == pid + "\n" + (boot + "\n" + stat);
  }

  /**
   * A record matches a current stat line exactly when the PID, the boot ID and the start time agree; the
   * names play no part.
   */
  lemma IdentityExact(pid: string, boot: string, name: string, fields: seq<string>, end: string,
                      pid': string, boot': string, name': string, fields': seq<string>, end': string)
    requires Digits(pid) && Digits(pid') && StatFields(fields) && StatFields(fields')
    requires (forall i | 0 <= i < |end| :: Trimmable(end[i])) && (forall i | 0 <= i < |end'| :: Trimmable(end'[i]))
    requires forall i | 0 <= i < |boot| :: !LineBreak(boot[i])
    requires boot' == "" || (boot'[0] > ' ' && boot'[|boot'| - 1] > ' ')
    ensures Matches(Record(pid, boot, Stat(pid, name, fields, end)), boot' + "\n", Stat(pid', name', fields', end'))
         == Some(pid == pid' && boot == boot' && fields[19] == fields'[19])
  {
    hide Stat, StartTicks, Lines, Trim, Record, Joined;
    LinesOfRecord(pid, boot, Stat(pid, name, fields, end));
    TrimBlankEnd(boot', "\n");
    StartTicksOfStat(pid, name, fields, end);
    StartTicksOfStat(pid', name', fields', end');
    StatBegins(pid, pid, name, fields, end);
    StatBegins(pid, pid', name', fields', end');
    hide StatFields;
  }

  lemma StatBegins(pid: string, other: string, name: string, fields: seq<string>, end: string)
    requires Digits(pid) && Digits(other)
    ensures pid + " (" <= Stat(other, name, fields, end) <==> pid == other
  {
    var rest := name + ") " + Joined(fields) + end;
    assert Stat(other, name, fields, end) == other + " (" + rest;
    SamePid(pid, other, rest);
  }

  // --- Characters and lines, spelled out ----------------------------------------------

  lemma CharactersExactly(c: char)
    ensures Space(c) <==> c as int in {9, 10, 11, 12, 13, 32}
    ensures Trimmable(c) <==> c as int <= 32
    ensures LineBreak(c) <==> c as int in {10, 11, 12, 13, 0x85, 0x2028, 0x2029}
  {
  }

  /** A line ends at any line break, and a carriage return with its line feed is one. */
  lemma {:induction false} FirstLineEnds(line: string, end: string, rest: string)
    requires forall i | 0 <= i < |line| :: !LineBreak(line[i])
    requires end == "\r\n" || (|end| == 1 && LineBreak(end[0]) && (end == "\r" ==> rest == "" || rest[0] != '\n'))
    ensures FirstLine(line + end + rest) == Some((line, rest))
  {
    var all := line + end + rest;
    if line == "" {
      assert all == end + rest && all[0] == end[0];
      if |end| == 2 { assert all[1] == end[1] && all[2..] == rest; } else { assert all[1..] == rest; }
    } else {
      assert all[0] == line[0] && all[1..] == line[1..] + end + rest;
      FirstLineEnds(line[1..], end, rest);
      assert [line[0]] + line[1..] == line;
    }
  }

  /**
   * Any record at all, and any stat line: it matches only with three lines, a PID in digits that both the record's
   * stat line and the current one begin with, the current boot ID, and one and the same start time.
   */
  lemma MatchesOnly(record: string, boot: string, stat: string)
    ensures Matches(record, boot, stat) == Some(true) ==>
              var lines := Lines(record);
              && |lines| == 3 && Digits(lines[0]) && lines[1] == Trim(boot)
              && lines[0] + " (" <= lines[2] && lines[0] + " (" <= stat
              && StartTicks(stat).Some? && StartTicks(lines[2]) == StartTicks(stat)
    ensures Matches(record, boot, stat) == None ==>
              |Lines(record)| == 3 && (StartTicks(stat).None? || StartTicks(Lines(record)[2]).None?)
  {
    hide Lines, Trim, StartTicks, Digits;
  }
}
