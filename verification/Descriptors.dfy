/**
 * File descriptors handed to another program: the executor's parallel move of a plan, a manifest and any
 * number of artifacts onto consecutive descriptors, its receiver, and the launcher's locked root.
 * A table maps each open descriptor to its open file description and its close-on-exec flag.
 */
module Descriptors {
  import opened Basics

  datatype Fd = Fd(description: nat, cloexec: bool)

  type Table = map<int, Fd>

  /** Descriptors are numbers from 0 up to the process limit. */
  predicate Bounded(t: Table, limit: nat)
  {
    forall fd | fd in t :: 0 <= fd < limit
  }

  /** Descriptors still free from `minimum` up. */
  function Free(t: Table, minimum: nat, limit: int): set<int>
  {
    set fd | minimum <= fd < limit && fd !in t
  }

  /** The kernel's choice for F_DUPFD: the lowest free descriptor not below `minimum`. */
  function Lowest(t: Table, minimum: nat, limit: nat): (fd: Option<int>)
    ensures fd.Some? ==> fd.value in Free(t, minimum, limit) && forall k | minimum <= k < fd.value :: k in t
    ensures fd.None? <==> Free(t, minimum, limit) == {}
    decreases limit - minimum
  {
    if minimum >= limit then None
    else if minimum !in t then Some(minimum)
    else
      assert Free(t, minimum, limit) == Free(t, minimum + 1, limit);
      Lowest(t, minimum + 1, limit)
  }

  /** The duplicates of the sources, taken one after the other above `minimum`. */
  function Duplicated(t: Table, sources: seq<int>, minimum: nat, limit: nat): Option<(Table, seq<int>)>
  {
    if sources == [] then Some((t, []))
    else
      match Duplicated(t, sources[..|sources| - 1], minimum, limit)
      case None => None
      case Some((t', copies)) =>
        var source := sources[|sources| - 1];
        var fd := Lowest(t', minimum, limit);
        if source in t' && fd.Some? then Some((t'[fd.value := Fd(t'[source].description, true)], copies + [fd.value]))
        else None
  }

  predicate AllOpen(t: Table, sources: seq<int>)
  {
    forall i | 0 <= i < |sources| :: sources[i] in t
  }

  function Members(copies: seq<int>): set<int>
  {
    set fd | fd in copies
  }

  lemma MembersAppend(copies: seq<int>, fd: int)
    ensures Members(copies + [fd]) == Members(copies) + {fd}
  {
  }

  /** What a duplication run leaves: the original table plus one new descriptor per source. */
  ghost predicate IsDuplication(t: Table, sources: seq<int>, minimum: nat, t': Table, copies: seq<int>)
  {
    && |copies| == |sources|
    && (forall i, j | 0 <= i < j < |copies| :: copies[i] != copies[j])
    && (forall i | 0 <= i < |copies| :: minimum <= copies[i] && copies[i] !in t)
    && t'.Keys == t.Keys + Members(copies)
    && (forall fd | fd in t :: t'[fd] == t[fd])
    && (forall i | 0 <= i < |copies| && sources[i] in t :: t'[copies[i]].description == t[sources[i]].description)
    && (forall i | 0 <= i < |copies| :: t'[copies[i]].cloexec)
  }

  lemma {:induction false} DuplicationEffect(t: Table, sources: seq<int>, minimum: nat, limit: nat)
    ensures var d := Duplicated(t, sources, minimum, limit);
            d.Some? ==>
              && IsDuplication(t, sources, minimum, d.value.0, d.value.1)
              && (Bounded(t, limit) ==> Bounded(d.value.0, limit))
              && |Free(d.value.0, minimum, limit)| == |Free(t, minimum, limit)| - |sources|
  {
    if sources != [] {
      var earlier, source := sources[..|sources| - 1], sources[|sources| - 1];
      assert sources == earlier + [source];
      DuplicationEffect(t, earlier, minimum, limit);
      var d := Duplicated(t, earlier, minimum, limit);
      DuplicatedLast(t, earlier, source, minimum, limit);
      if d.Some? && source in d.value.0 && Lowest(d.value.0, minimum, limit).Some? {
        var fd := Lowest(d.value.0, minimum, limit).value;
        hide Duplicated, Lowest, IsDuplication;
        OneLessFree(d.value.0, minimum, limit, fd, Fd(d.value.0[source].description, true));
        assert fd !in d.value.0 && minimum <= fd;
        ExtendDuplication(t, earlier, minimum, d.value.0, d.value.1, source, fd);
      }
    }
  }

  lemma OneLessFree(t: Table, minimum: nat, limit: nat, fd: int, entry: Fd)
    requires fd in Free(t, minimum, limit)
    ensures |Free(t[fd := entry], minimum, limit)| == |Free(t, minimum, limit)| - 1
  {
    assert Free(t[fd := entry], minimum, limit) == Free(t, minimum, limit) - {fd};
  }

  /** Closing every duplicate restores the table. */
  lemma CopiesClosed(t: Table, sources: seq<int>, minimum: nat, t': Table, copies: seq<int>)
    requires IsDuplication(t, sources, minimum, t', copies)
    ensures t' - Members(copies) == t
  {
    assert Members(copies) !! t.Keys;
    var left := t' - Members(copies);
    assert left.Keys == t.Keys;
    assert forall fd | fd in left :: left[fd] == t[fd];
    assert left == t;
  }

  lemma ExtendDuplication(t: Table, sources: seq<int>, minimum: nat, t': Table, copies: seq<int>, source: int, fd: int)
    requires IsDuplication(t, sources, minimum, t', copies)
    requires source in t' && fd !in t' && minimum <= fd
    ensures IsDuplication(t, sources + [source], minimum, t'[fd := Fd(t'[source].description, true)], copies + [fd])
  {
    MembersAppend(copies, fd);
    assert forall i | 0 <= i < |copies| :: copies[i] in Members(copies);
  }

  /** What a run finds at source i: the number is open, or it has been given to an earlier duplicate. */
  predicate Reachable(t: Table, source: int, minimum: nat, limit: nat, i: nat)
  {
    source in t || (minimum <= source < limit && |Free(t, minimum, source)| < i)
  }

  /** Decided before the run: enough descriptors are free, and every source is open or will have been filled. */
  predicate Duplicable(t: Table, sources: seq<int>, minimum: nat, limit: nat)
  {
    && |Free(t, minimum, limit)| >= |sources|
    && forall i | 0 <= i < |sources| :: Reachable(t, sources[i], minimum, limit, i)
  }

  /** The descriptors filled by n duplications are the n lowest free ones. */
  ghost predicate LowestFilled(t: Table, t': Table, minimum: nat, limit: nat, n: nat)
  {
    forall fd :: fd in t' <==> Reachable(t, fd, minimum, limit, n)
  }

  lemma FreeBelow(t: Table, minimum: nat, a: int, b: int)
    requires minimum <= a < b && a !in t
    ensures |Free(t, minimum, a)| < |Free(t, minimum, b)|
  {
    assert Free(t, minimum, a) + {a} <= Free(t, minimum, b);
    SubsetSize(Free(t, minimum, a) + {a}, Free(t, minimum, b));
  }

  lemma {:induction false} SubsetSize(a: set<int>, b: set<int>)
    requires a <= b
    ensures |a| <= |b|
  {
    assert b == a + (b - a);
  }

  /** Up to a point where everything is filled, at most n descriptors were free. */
  lemma {:induction false} FilledCount(t: Table, t': Table, minimum: nat, limit: nat, n: nat, fd: int)
    requires LowestFilled(t, t', minimum, limit, n) && minimum <= fd <= limit
    requires forall k | minimum <= k < fd :: k in t'
    ensures |Free(t, minimum, fd)| <= n
    decreases fd
  {
    if fd == minimum {
      assert Free(t, minimum, fd) == {};
    } else {
      FilledCount(t, t', minimum, limit, n, fd - 1);
      assert fd - 1 in t';
      if fd - 1 in t {
        assert Free(t, minimum, fd) == Free(t, minimum, fd - 1);
      } else {
        assert Free(t, minimum, fd) == Free(t, minimum, fd - 1) + {fd - 1};
      }
    }
  }

  /** The next duplicate fills the lowest descriptor still free. */
  lemma FillNext(t: Table, t': Table, minimum: nat, limit: nat, n: nat, fd: int, entry: Fd)
    requires LowestFilled(t, t', minimum, limit, n) && Lowest(t', minimum, limit) == Some(fd)
    ensures |Free(t, minimum, fd)| == n
    ensures LowestFilled(t, t'[fd := entry], minimum, limit, n + 1)
  {
    FilledCount(t, t', minimum, limit, n, fd);
    assert fd !in t' && !Reachable(t, fd, minimum, limit, n);
    var next: Table := t'[fd := entry];
    forall k ensures k in next <==> Reachable(t, k, minimum, limit, n + 1) {
      assert k in t' <==> Reachable(t, k, minimum, limit, n);
      if k !in t && minimum <= k < limit {
        if k < fd { FreeBelow(t, minimum, k, fd); }
        if fd < k { FreeBelow(t, minimum, fd, k); }
      }
    }
  }

  /** Every successful run fills the lowest free descriptors, the i-th duplicate the i-th of them. */
  lemma {:induction false} DuplicationFills(t: Table, sources: seq<int>, minimum: nat, limit: nat)
    ensures var d := Duplicated(t, sources, minimum, limit);
            d.Some? ==>
              && LowestFilled(t, d.value.0, minimum, limit, |sources|)
              && |d.value.1| == |sources|
              && forall i | 0 <= i < |sources| :: |Free(t, minimum, d.value.1[i])| == i
  {
    if sources != [] {
      var earlier, source := sources[..|sources| - 1], sources[|sources| - 1];
      assert sources == earlier + [source];
      DuplicationFills(t, earlier, minimum, limit);
      DuplicatedLast(t, earlier, source, minimum, limit);
      var d := Duplicated(t, earlier, minimum, limit);
      if d.Some? && source in d.value.0 && Lowest(d.value.0, minimum, limit).Some? {
        var fd := Lowest(d.value.0, minimum, limit).value;
        FillNext(t, d.value.0, minimum, limit, |earlier|, fd, Fd(d.value.0[source].description, true));
        hide Lowest, LowestFilled, Free;
      }
    }
  }

  /** A duplication succeeds exactly when enough descriptors are free and no source fails to be reached. */
  lemma {:induction false} DuplicationExact(t: Table, sources: seq<int>, minimum: nat, limit: nat)
    ensures Duplicated(t, sources, minimum, limit).Some? <==> Duplicable(t, sources, minimum, limit)
  {
    if sources != [] {
      var earlier, source := sources[..|sources| - 1], sources[|sources| - 1];
      assert sources == earlier + [source];
      DuplicationExact(t, earlier, minimum, limit);
      DuplicationFills(t, earlier, minimum, limit);
      DuplicationEffect(t, earlier, minimum, limit);
      DuplicatedLast(t, earlier, source, minimum, limit);
      DuplicableLast(t, earlier, source, minimum, limit);
      var d := Duplicated(t, earlier, minimum, limit);
      if d.Some? {
        var left := Free(d.value.0, minimum, limit);
        assert left == {} <==> |left| == 0;
        assert source in d.value.0 <==> Reachable(t, source, minimum, limit, |earlier|);
      }
      hide Duplicated, Duplicable, IsDuplication, LowestFilled, Reachable;
    }
  }

  lemma DuplicableLast(t: Table, earlier: seq<int>, source: int, minimum: nat, limit: nat)
    ensures Duplicable(t, earlier + [source], minimum, limit) <==>
              && Duplicable(t, earlier, minimum, limit)
              && |Free(t, minimum, limit)| > |earlier| && Reachable(t, source, minimum, limit, |earlier|)
  {
    var all := earlier + [source];
    assert all[|earlier|] == source && forall i | 0 <= i < |earlier| :: all[i] == earlier[i];
    hide Reachable;
  }

  /** With every source open, duplication fails only for want of free descriptors. */
  lemma DuplicationSucceeds(t: Table, sources: seq<int>, minimum: nat, limit: nat)
    requires AllOpen(t, sources)
    ensures Duplicated(t, sources, minimum, limit).Some? <==> |Free(t, minimum, limit)| >= |sources|
  {
    DuplicationExact(t, sources, minimum, limit);
  }

  /**
   * Closed sources are refused exactly when, descriptors being plenty, one of them is not among the lowest
   * free numbers that the sources before it fill.
   */
  lemma ClosedSourcesRefused(t: Table, sources: seq<int>, minimum: nat, limit: nat)
    requires |Free(t, minimum, limit)| >= |sources|
    ensures Duplicated(t, sources, minimum, limit).None? <==>
              exists i | 0 <= i < |sources| ::
                sources[i] !in t && !(minimum <= sources[i] < limit && |Free(t, minimum, sources[i])| < i)
  {
    DuplicationExact(t, sources, minimum, limit);
  }

  /** A closed source that is not refused passes for an earlier one: the one whose duplicate took its number. */
  lemma ClosedSourceAliases(t: Table, sources: seq<int>, minimum: nat, limit: nat, i: nat)
    requires Duplicated(t, sources, minimum, limit).Some? && i < |sources| && sources[i] !in t
    ensures var (t', copies) := Duplicated(t, sources, minimum, limit).value;
            var j := |Free(t, minimum, sources[i])|;
            && j < i < |copies| && copies[j] == sources[i] && copies[j] in t' && copies[i] in t'
            && t'[copies[i]].description == t'[copies[j]].description
  {
    var (t', copies) := Duplicated(t, sources, minimum, limit).value;
    var part := sources[..i];
    DuplicationExact(t, sources, minimum, limit);
    DuplicationFills(t, sources, minimum, limit);
    DuplicationEffect(t, sources, minimum, limit);
    CopiesOpen(t, sources, minimum, t', copies);
    assert Reachable(t, sources[i], minimum, limit, i);
    var j := |Free(t, minimum, sources[i])|;
    if copies[j] < sources[i] { FreeBelow(t, minimum, copies[j], sources[i]); }
    if sources[i] < copies[j] { FreeBelow(t, minimum, sources[i], copies[j]); }
    CopyOfSource(t, sources, minimum, limit, i);
  }

  /** The i-th duplicate has the description its source number stands for at the end. */
  lemma {:induction false} CopyOfSource(t: Table, sources: seq<int>, minimum: nat, limit: nat, i: nat)
    requires Duplicated(t, sources, minimum, limit).Some? && i < |sources|
    ensures var (t', copies) := Duplicated(t, sources, minimum, limit).value;
            && i < |copies| && copies[i] in t' && sources[i] in t'
            && t'[copies[i]].description == t'[sources[i]].description
    decreases |sources|
  {
    var earlier, source := sources[..|sources| - 1], sources[|sources| - 1];
    assert sources == earlier + [source];
    DuplicatedLast(t, earlier, source, minimum, limit);
    DuplicationEffect(t, earlier, minimum, limit);
    if i < |earlier| { CopyOfSource(t, earlier, minimum, limit, i); }
    hide Duplicated, IsDuplication, Free;
  }

  lemma CopiesOpen(t: Table, sources: seq<int>, minimum: nat, t': Table, copies: seq<int>)
    requires IsDuplication(t, sources, minimum, t', copies)
    ensures AllOpen(t', copies)
  {
    forall i | 0 <= i < |copies| ensures copies[i] in t' { assert copies[i] in Members(copies); }
  }

  /** The manifest, descriptor 5, is closed, yet the run succeeds and hands over the plan twice. */
  lemma PlanHandedTwice()
    ensures var t: Table := map[0 := Fd(7, false)];
            Duplicable(t, [0, 5], 5, 64) && !AllOpen(t, [0, 5])
  {
    var t: Table := map[0 := Fd(7, false)];
    assert Free(t, 5, 5) == {};
    assert {5, 6} <= Free(t, 5, 64);
    SubsetSize({5, 6}, Free(t, 5, 64));
    assert [0, 5][1] !in t;
  }

  lemma DuplicatedLast(t: Table, earlier: seq<int>, source: int, minimum: nat, limit: nat)
    ensures Duplicated(t, earlier + [source], minimum, limit)
         == match Duplicated(t, earlier, minimum, limit)
            case None => None
            case Some((t', copies)) =>
              var fd := Lowest(t', minimum, limit);
              if source in t' && fd.Some?
                  then Some((t'[fd.value := Fd(t'[source].description, true)], copies + [fd.value]))
              else None
  {
    assert (earlier + [source])[..|earlier|] == earlier;
  }

  /**
   * The table a completed hand-off leaves: 0 to 2 as they were, one inheritable descriptor per source
   * from 3 on, and nothing else.
   */
  ghost predicate HandedOff(t: Table, sources: seq<int>, t': Table)
    requires AllOpen(t, sources)
  {
    && (forall fd :: fd in t' <==> (fd in t && fd < 3) || 3 <= fd < 3 + |sources|)
    && (forall fd | fd in t && fd < 3 :: t'[fd] == t[fd])
    && (forall i | 0 <= i < |sources| :: t'[3 + i] == Fd(t[sources[i]].description, false))
  }

  /** The descriptors n sources are handed over on. */
  function Targets(n: nat): (targets: set<int>)
    ensures forall fd :: fd in targets <==> 3 <= fd < 3 + n
  {
    if n == 0 then {} else Targets(n - 1) + {n + 2}
  }

  /** The table after the move, when copy i of the sources is descriptor copies[i] of `copied`. */
  function Moved(t: Table, copied: Table, copies: seq<int>, closed: bool): Table
    requires AllOpen(copied, copies)
  {
    map fd | fd in t.Keys + Targets(|copies|) && (fd < 3 + |copies| || !closed)
      :: if 3 <= fd < 3 + |copies| then Fd(copied[copies[fd - 3]].description, false) else t[fd]
  }

  /** What execve leaves of a table: descriptors marked close-on-exec are gone. */
  function Inherited(t: Table): Table
  {
    map fd | fd in t && !t[fd].cloexec :: t[fd]
  }

  /** The table the new program starts with: the hand-off, less what was marked close-on-exec below 3. */
  ghost predicate Delivered(t: Table, sources: seq<int>, t': Table)
    requires AllOpen(t, sources)
  {
    && (forall fd :: fd in t' <==> (fd in t && fd < 3 && !t[fd].cloexec) || 3 <= fd < 3 + |sources|)
    && (forall fd | fd in t' && fd < 3 :: t'[fd] == t[fd])
    && (forall i | 0 <= i < |sources| :: t'[3 + i] == Fd(t[sources[i]].description, false))
  }

  lemma HandedOffDelivers(t: Table, sources: seq<int>, t': Table)
    requires AllOpen(t, sources) && HandedOff(t, sources, t')
    ensures Delivered(t, sources, Inherited(t'))
  {
    var i := Inherited(t');
    forall fd | 3 <= fd < 3 + |sources| ensures fd in i {
      assert t'[3 + (fd - 3)] == Fd(t[sources[fd - 3]].description, false);
    }
  }

  /** How an exec attempt ends: refused with the table as it was, stranded after the move, or in the new program. */
  datatype Outcome = Refused | Stranded | Executed

  /** Whether each call outside the table succeeds, and whether the approval is a known one. */
  datatype Circumstances = Circumstances(root: bool, memory: bool, closeRange: bool, environment: bool, approval: bool,
      exec: bool)

  predicate Execs(c: Circumstances)
  {
    c.closeRange && c.environment && c.approval && c.exec
  }

  /** A table with the first n copies placed on the descriptors from 3 on. */
  function Overlaid(copied: Table, copies: seq<int>, n: nat): Table
    requires n <= |copies| && AllOpen(copied, copies)
  {
    map fd | fd in copied.Keys + Targets(n)
      :: if 3 <= fd < 3 + n then Fd(copied[copies[fd - 3]].description, false) else copied[fd]
  }

  lemma MovedClosed(t: Table, copied: Table, copies: seq<int>)
    requires AllOpen(copied, copies)
    ensures var open := Moved(t, copied, copies, false);
            Moved(t, copied, copies, true) == map fd | fd in open && fd < 3 + |copies| :: open[fd]
  {
  }

  /** How a hand-off may end: refused and unchanged, or moved, with execution when every later call succeeds. */
  ghost predicate Outcomes(t: Table, sources: seq<int>, limit: nat, c: Circumstances, outcome: Outcome, t': Table)
  {
    var d := Duplicated(t, sources, |sources| + 3, limit);
    && (outcome == Refused ==> t' == t)
    && (outcome == Executed <==> outcome != Refused && Execs(c))
    && (outcome != Refused ==>
          && d.Some? && AllOpen(d.value.0, d.value.1)
          && var moved := Moved(t, d.value.0, d.value.1, c.closeRange);
             t' == if outcome == Executed then Inherited(moved) else moved)
  }

  lemma ExecutedWhen(t: Table, sources: seq<int>, limit: nat, c: Circumstances, outcome: Outcome, t': Table)
    requires Outcomes(t, sources, limit, c, outcome, t')
    ensures outcome == Executed <==>
              outcome != Refused && c.closeRange && c.environment && c.approval && c.exec
  {
  }

  lemma NothingMoved(t: Table, sources: seq<int>, limit: nat, c: Circumstances)
    ensures Outcomes(t, sources, limit, c, Refused, t)
  {
  }

  /**
   * The hand-off's promise, for sources that are open and otherwise of any numbers, repeated or inside the
   * target range: the new program gets exactly the sources.
   */
  lemma HandOffDelivers(t: Table, sources: seq<int>, limit: nat, c: Circumstances, outcome: Outcome, t': Table)
    requires AllOpen(t, sources) && Outcomes(t, sources, limit, c, outcome, t')
    ensures outcome == Executed ==> Delivered(t, sources, t')
    ensures outcome == Stranded && c.closeRange ==> HandedOff(t, sources, t')
  {
    DuplicationEffect(t, sources, |sources| + 3, limit);
    var d := Duplicated(t, sources, |sources| + 3, limit);
    if outcome != Refused {
      ParallelMove(t, sources, |sources| + 3, d.value.0, d.value.1);
      HandedOffDelivers(t, sources, Moved(t, d.value.0, d.value.1, true));
    }
  }

  lemma OverlaidNone(copied: Table, copies: seq<int>)
    requires AllOpen(copied, copies)
    ensures Overlaid(copied, copies, 0) == copied
  {
    assert Targets(0) == {};
    assert Overlaid(copied, copies, 0).Keys == copied.Keys;
    assert forall fd | fd in copied :: Overlaid(copied, copies, 0)[fd] == copied[fd];
  }

  /** Every copy is open and out of the way of the targets. */
  ghost predicate Clear(copied: Table, copies: seq<int>, limit: nat)
  {
    AllOpen(copied, copies) && forall i | 0 <= i < |copies| :: |copies| + 3 <= copies[i] < limit
  }

  lemma OverlaidStep(copied: Table, copies: seq<int>, limit: nat, n: nat)
    requires n < |copies| && Clear(copied, copies, limit)
    ensures var overlaid := Overlaid(copied, copies, n);
            && copies[n] in overlaid && overlaid[copies[n]] == copied[copies[n]] && 3 + n < copies[n] < limit
            && overlaid[3 + n := Fd(copied[copies[n]].description, false)] == Overlaid(copied, copies, n + 1)
  {
  }

  lemma OverlaidLess(t: Table, sources: seq<int>, copied: Table, copies: seq<int>, left: Table)
    requires IsDuplication(t, sources, |copies| + 3, copied, copies) && AllOpen(copied, copies)
    requires left == Overlaid(copied, copies, |copies|) - Members(copies)
    ensures left == Moved(t, copied, copies, false)
  {
    assert Members(copies) !! t.Keys;
    assert forall fd | fd in Members(copies) :: |copies| + 3 <= fd;
    assert copied.Keys == t.Keys + Members(copies);
    assert forall fd | fd in t :: copied[fd] == t[fd];
    var open := Members(copies);
    assert left == Overlaid(copied, copies, |copies|) - open;
    hide IsDuplication, Members;
    LessThanMoved(t, copied, copies, open);
  }

  lemma LessThanMoved(t: Table, copied: Table, copies: seq<int>, open: set<int>)
    requires AllOpen(copied, copies) && copied.Keys == t.Keys + open && open !! t.Keys
    requires (forall fd | fd in open :: |copies| + 3 <= fd) && (forall fd | fd in t :: copied[fd] == t[fd])
    ensures Overlaid(copied, copies, |copies|) - open == Moved(t, copied, copies, false)
  {
    var left, moved := Overlaid(copied, copies, |copies|) - open, Moved(t, copied, copies, false);
    assert left.Keys == moved.Keys;
    assert forall fd | fd in left :: left[fd] == moved[fd];
  }

  /**
   * The parallel move: with every source open, whatever their numbers and however often they repeat,
   * moving the copies down hands off exactly the sources.
   */
  lemma ParallelMove(t: Table, sources: seq<int>, minimum: nat, copied: Table, copies: seq<int>)
    requires AllOpen(t, sources) && IsDuplication(t, sources, minimum, copied, copies)
    ensures AllOpen(copied, copies) && HandedOff(t, sources, Moved(t, copied, copies, true))
  {
    CopiesOpen(t, sources, minimum, copied, copies);
    forall i | 0 <= i < |sources| ensures copied[copies[i]].description == t[sources[i]].description {}
    assert |copies| == |sources|;
    hide IsDuplication;
    MovedEntries(t, sources, copied, copies);
  }

  lemma MovedEntries(t: Table, sources: seq<int>, copied: Table, copies: seq<int>)
    requires AllOpen(t, sources) && AllOpen(copied, copies) && |copies| == |sources|
    requires forall i | 0 <= i < |sources| :: copied[copies[i]].description == t[sources[i]].description
    ensures HandedOff(t, sources, Moved(t, copied, copies, true))
  {
    hide AllOpen;
  }

  const MAX_ARTIFACTS := 1024

  class Process {
    const limit: nat
    var fds: Table
    ghost var trail: seq<Table>

    constructor (limit: nat, fds: Table)
      requires Bounded(fds, limit)
      ensures Valid() && this.limit == limit && this.fds == fds && trail == [fds]
    {
      this.limit, this.fds, this.trail := limit, fds, [fds];
    }

    ghost predicate Valid()
      reads this
    {
      Bounded(fds, limit) && trail != [] && trail[|trail| - 1] == fds
    }

    /** fcntl(source, F_DUPFD_CLOEXEC, minimum): the new descriptor, or -1. */
    method DupFd(source: int, minimum: nat) returns (fd: int)
      requires Valid()
      modifies this`fds, this`trail
      ensures Valid() && trail == old(trail) + [fds]
      ensures fd < 0 <==> source !in old(fds) || Free(old(fds), minimum, limit) == {}
      ensures fd < 0 ==> fds == old(fds)
      ensures fd >= 0 ==>
                && Some(fd) == Lowest(old(fds), minimum, limit)
                && fds == old(fds)[fd := Fd(old(fds)[source].description, true)]
    {
      var free := Lowest(fds, minimum, limit);
      if source in fds && free.Some? {
        fd := free.value;
        fds := fds[fd := Fd(fds[source].description, true)];
      } else {
        fd := -1;
      }
      trail := trail + [fds];
    }

    /** dup3(source, target, 0). */
    method Dup3(source: int, target: int) returns (ok: bool)
      requires Valid()
      modifies this`fds, this`trail
      ensures Valid() && trail == old(trail) + [fds]
      ensures ok <==> source in old(fds) && source != target && 0 <= target < limit
      ensures fds == if ok then old(fds)[target := Fd(old(fds)[source].description, false)] else old(fds)
    {
      ok := source in fds && source != target && 0 <= target < limit;
      if ok { fds := fds[target := Fd(fds[source].description, false)]; }
      trail := trail + [fds];
    }

    /** F_SETFD after F_GETFD, changing the close-on-exec flag only. */
    method SetCloexec(fd: int, cloexec: bool) returns (ok: bool)
      requires Valid()
      modifies this`fds, this`trail
      ensures Valid() && trail == old(trail) + [fds]
      ensures ok <==> fd in old(fds)
      ensures fds == if ok then old(fds)[fd := old(fds)[fd].(cloexec := cloexec)] else old(fds)
    {
      ok := fd in fds;
      if ok { fds := fds[fd := fds[fd].(cloexec := cloexec)]; }
      trail := trail + [fds];
    }

    /** open, openat or memfd_create: the lowest free descriptor, or -1. */
    method Open(description: nat, cloexec: bool) returns (fd: int)
      requires Valid()
      modifies this`fds, this`trail
      ensures Valid() && trail == old(trail) + [fds]
      ensures fd < 0 <==> Free(old(fds), 0, limit) == {}
      ensures fd < 0 ==> fds == old(fds)
      ensures fd >= 0 ==> Some(fd) == Lowest(old(fds), 0, limit) && fds == old(fds)[fd := Fd(description, cloexec)]
    {
      var free := Lowest(fds, 0, limit);
      if free.Some? {
        fd := free.value;
        fds := fds[fd := Fd(description, cloexec)];
      } else {
        fd := -1;
      }
      trail := trail + [fds];
    }

    method Close(fd: int)
      requires Valid()
      modifies this`fds, this`trail
      ensures Valid() && trail == old(trail) + [fds]
      ensures fds == old(fds) - {fd}
    {
      fds := fds - {fd};
      trail := trail + [fds];
    }

    /** close_range(first, UINT_MAX). */
    method CloseFrom(first: nat)
      requires Valid()
      modifies this`fds, this`trail
      ensures Valid() && trail == old(trail) + [fds]
      ensures fds == map fd | fd in old(fds) && fd < first :: old(fds)[fd]
    {
      fds := map fd | fd in fds && fd < first :: fds[fd];
      trail := trail + [fds];
    }

    /** The duplication loop of the hand-off, with its cleanup on failure. */
    method DuplicateAll(sources: seq<int>, minimum: nat, temporary: array<int>) returns (ok: bool)
      requires Valid() && temporary.Length == |sources|
      modifies this`fds, this`trail, temporary
      ensures Valid()
      ensures ok <==> Duplicable(old(fds), sources, minimum, limit)
      ensures ok ==> Duplicated(old(fds), sources, minimum, limit) == Some((fds, temporary[..]))
      ensures !ok ==> fds == old(fds)
    {
      ghost var before := fds;
      DuplicationExact(before, sources, minimum, limit);
      hide Lowest, IsDuplication, Members, Duplicable;
      for index := 0 to |sources|
        invariant Valid()
        invariant Duplicated(before, sources[..index], minimum, limit) == Some((fds, temporary[..index]))
      {
        DuplicationEffect(before, sources[..index], minimum, limit);
        assert sources[..index + 1][..index] == sources[..index] && sources[..index + 1][index] == sources[index];
        var fd := DupFd(sources[index], minimum);
        temporary[index] := fd;
        if fd < 0 {
          CopiesClosed(before, sources[..index], minimum, fds, temporary[..index]);
          CloseAll(temporary, index);
          assert Duplicated(before, sources[..index + 1], minimum, limit).None?;
          StaysFailed(before, sources, minimum, limit, index + 1);
          return false;
        }
        assert temporary[..index + 1] == temporary[..index] + [fd];
      }
      assert sources[..|sources|] == sources && temporary[..|sources|] == temporary[..];
      ok := true;
    }

    /** Closes the first `count` temporaries. */
    method CloseAll(temporary: array<int>, count: nat)
      requires Valid() && count <= temporary.Length
      modifies this`fds, this`trail
      ensures Valid() && fds == old(fds) - Members(temporary[..count])
    {
      ghost var copies := temporary[..count];
      for index := 0 to count
        invariant Valid()
        invariant fds == old(fds) - Members(copies[..index])
      {
        MembersAppend(copies[..index], copies[index]);
        assert copies[..index + 1] == copies[..index] + [copies[index]];
        Close(temporary[index]);
      }
      assert copies[..count] == copies;
    }

    /** Hands the plan, the manifest and the artifacts to the executor as descriptors 3, 4 and 5 onwards. */
    method ExecCompact(plan: int, manifest: int, artifacts: array?<int>, count: nat, c: Circumstances)
            returns (outcome: Outcome)
      requires Valid() && (artifacts != null ==> count <= artifacts.Length)
      modifies this`fds, this`trail
      ensures Valid()
      ensures var sources := Sources(plan, manifest, artifacts, count);
              && Outcomes(old(fds), sources, limit, c, outcome, fds)
              && (outcome != Refused <==>
                    && plan >= 0 && manifest >= 0 && c.root && c.memory && count <= 1024
                    && (count == 0 || artifacts != null)
                    && Duplicable(old(fds), sources, |sources| + 3, limit))
              && (outcome == Executed <==>
                    outcome != Refused && c.closeRange && c.environment && c.approval && c.exec)
    {
      hide Outcomes, Duplicated, Duplicable;
      if plan < 0 || manifest < 0 || !c.root || count > MAX_ARTIFACTS || (count != 0 && artifacts == null)
          || !c.memory {
        NothingMoved(fds, Sources(plan, manifest, artifacts, count), limit, c);
        return Refused;
      }
      outcome := HandOver(Sources(plan, manifest, artifacts, count), c);
      ExecutedWhen(old(fds), Sources(plan, manifest, artifacts, count), limit, c, outcome, fds);
    }

    /** The duplication, the move and the exec of a hand-off of any sources. */
    method HandOver(sources: seq<int>, c: Circumstances) returns (outcome: Outcome)
      requires Valid()
      modifies this`fds, this`trail
      ensures Valid()
      ensures Outcomes(old(fds), sources, limit, c, outcome, fds)
      ensures outcome != Refused <==> Duplicable(old(fds), sources, |sources| + 3, limit)
    {
      hide Outcomes, Duplicated, IsDuplication, Duplicable;
      var temporary := new int[|sources|];
      var duplicated := DuplicateAll(sources, |sources| + 3, temporary);
      if !duplicated {
        NothingMoved(fds, sources, limit, c);
        return Refused;
      }
      DuplicationEffect(old(fds), sources, |sources| + 3, limit);
      outcome := MoveAndExec(old(fds), sources, temporary, c);
    }

    /** What follows the duplication loop: the move, the sweep of everything above it, and the exec. */
    method MoveAndExec(ghost before: Table, ghost sources: seq<int>, temporary: array<int>, c: Circumstances)
            returns (outcome: Outcome)
      requires Valid() && Bounded(before, limit) && temporary.Length == |sources|
      requires Duplicated(before, sources, |sources| + 3, limit) == Some((fds, temporary[..]))
      requires IsDuplication(before, sources, |sources| + 3, fds, temporary[..])
      modifies this`fds, this`trail
      ensures Valid() && outcome != Refused
      ensures Outcomes(before, sources, limit, c, outcome, fds)
    {
      hide Duplicated, IsDuplication, Moved;
      MoveDown(before, sources, temporary);
      MovedClosed(before, old(fds), temporary[..]);
      if !c.closeRange { return Stranded; }
      CloseFrom(temporary.Length + 3);
      if !c.environment || !c.approval || !c.exec { return Stranded; }
      Exec();
      outcome := Executed;
    }

    static function Sources(plan: int, manifest: int, artifacts: array?<int>, count: nat): (sources: seq<int>)
      requires artifacts != null ==> count <= artifacts.Length
      reads artifacts
      ensures artifacts != null || count == 0 ==> |sources| == count + 2
    {
      [plan, manifest] + if artifacts == null then [] else artifacts[..count]
    }

    /** The second loop: each duplicate onto its target, inheritable. */
    method PlaceAll(temporary: array<int>)
      requires Valid() && Clear(fds, temporary[..], limit)
      modifies this`fds, this`trail
      ensures Valid() && fds == Overlaid(old(fds), temporary[..], temporary.Length)
    {
      ghost var copied, copies := fds, temporary[..];
      OverlaidNone(copied, copies);
      assert AllOpen(copied, copies);
      hide Overlaid, Clear, AllOpen, Bounded;
      for index := 0 to temporary.Length
        invariant Valid()
        invariant fds == Overlaid(copied, copies, index)
      {
        OverlaidStep(copied, copies, limit, index);
        assert temporary[index] == copies[index];
        PlaceOne(temporary[index], index + 3);
      }
    }

    /** One turn of the second loop, for an open duplicate and a target of another number. */
    method PlaceOne(source: int, target: int)
      requires Valid() && source in fds && source != target && 0 <= target < limit
      modifies this`fds, this`trail
      ensures Valid() && fds == old(fds)[target := Fd(old(fds)[source].description, false)]
    {
      var ok := Dup3(source, target);
      var flagged := SetCloexec(target, false);
      assert ok && flagged;
      assert fds == old(fds)[target := Fd(old(fds)[source].description, false)];
    }

    /** The second and third loops: the copies placed on their targets, then closed. */
    method MoveDown(ghost before: Table, ghost sources: seq<int>, temporary: array<int>)
      requires Valid() && Bounded(before, limit)
      requires IsDuplication(before, sources, temporary.Length + 3, fds, temporary[..])
      modifies this`fds, this`trail
      ensures Valid()
      ensures AllOpen(old(fds), temporary[..])
      ensures fds == Moved(before, old(fds), temporary[..], false)
    {
      CopiesOpen(before, sources, temporary.Length + 3, fds, temporary[..]);
      assert Clear(fds, temporary[..], limit);
      assert temporary[..temporary.Length] == temporary[..];
      hide Overlaid, Moved, Members, Clear;
      PlaceAll(temporary);
      CloseAll(temporary, temporary.Length);
      OverlaidLess(before, sources, old(fds), temporary[..], fds);
    }

    /** Hands the plan alone to the executor, as descriptor 3. */
    method ExecFixed(plan: int, c: Circumstances) returns (outcome: Outcome)
      requires Valid()
      modifies this`fds, this`trail
      ensures Valid()
      ensures outcome == Refused ==> fds == old(fds)
      ensures outcome != Refused <==> c.root && plan in old(fds) && 3 < limit
      ensures outcome == Executed <==>
                outcome != Refused && c.closeRange && c.environment && c.approval && c.exec
      ensures outcome == Executed ==> Delivered(old(fds), [plan], fds)
      ensures outcome == Stranded && c.closeRange ==> HandedOff(old(fds), [plan], fds)
      ensures outcome == Stranded && !c.closeRange ==> fds == old(fds)[3 := Fd(old(fds)[plan].description, false)]
    {
      if plan < 0 || !c.root { return Refused; }
      if plan != 3 {
        var ok := Dup3(plan, 3);
        if !ok { return Refused; }
      }
      var flagged := SetCloexec(3, false);
      if !flagged { return Refused; }
      if !c.closeRange { return Stranded; }
      CloseFrom(4);
      assert HandedOff(old(fds), [plan], fds);
      if !c.environment || !c.approval || !c.exec { return Stranded; }
      HandedOffDelivers(old(fds), [plan], fds);
      hide HandedOff;
      Exec();
      outcome := Executed;
    }

    /** Marks an inherited descriptor close-on-exec and returns a private duplicate, or -1. */
    method TakeInherited(source: int, minimum: nat) returns (fd: int)
      requires Valid()
      modifies this`fds, this`trail
      ensures Valid() && (fds, fd) == Taken(old(fds), source, minimum, limit)
    {
      var flagged := SetCloexec(source, true);
      if !flagged { return -1; }
      fd := DupFd(source, minimum);
      if fd < 0 { fd := -1; }
    }

    method TakePlan() returns (fd: int)
      requires Valid()
      modifies this`fds, this`trail
      ensures Valid() && (fds, fd) == TakeStep(old(fds), PlanSlot, limit)
    {
      fd := TakeInherited(3, 4);
    }

    method TakeCompact() returns (fd: int)
      requires Valid()
      modifies this`fds, this`trail
      ensures Valid() && (fds, fd) == TakeStep(old(fds), ManifestSlot, limit)
    {
      fd := TakeInherited(4, 5);
    }

    method TakeArtifact(index: nat) returns (fd: int)
      requires Valid()
      modifies this`fds, this`trail
      ensures Valid() && (fds, fd) == TakeStep(old(fds), ArtifactSlot(index), limit)
    {
      if index > 1023 { return -1; }
      fd := TakeInherited(index + 5, index + 6);
    }

    /** The identity file opened, read and closed again; when it is made first, the descriptor is the staged one's. */
    method ReadIdentity(identity: Found) returns (ok: bool)
      requires Valid()
      modifies this`fds, this`trail
      ensures Valid() && old(trail) <= trail && OpenSince(trail, |old(trail)|, old(fds))
      ensures ok <==> identity.Accepted? && Free(old(fds), 0, limit) != {}
      ensures ok ==> fds == old(fds)
    {
      if identity.Absent? { return false; }
      var fd := Open(identity.description, true);
      if fd < 0 || identity.Rejected? { return false; }
      Close(fd);
      ok := true;
    }

    /** A duplicate of the root walked down to the state directory, each directory opened before the last is closed. */
    method StateDirectory(root: int, parts: seq<Found>) returns (fd: int)
      requires Valid() && root in fds && parts != []
      modifies this`fds, this`trail
      ensures Valid() && old(trail) <= trail && OpenSince(trail, |old(trail)|, old(fds))
      ensures fd >= 0 <==>
                && (forall i | 0 <= i < |parts| :: parts[i].Accepted?)
                && Free(old(fds), 10, limit) != {} && |Free(old(fds), 0, limit)| >= 2
      ensures fd >= 0 ==>
                && fd !in old(fds) && fds == old(fds)[fd := Fd(parts[|parts| - 1].description, true)]
                && OneFreeBelow(old(fds), fd)
    {
      ghost var before := fds;
      fd := DupFd(root, 10);
      if fd < 0 { return -1; }
      for i := 0 to |parts|
        invariant Valid() && old(trail) <= trail && OpenSince(trail, |old(trail)|, before)
        invariant fd in Free(before, 0, limit) && fd in fds && fds == before[fd := fds[fd]]
        invariant forall j | 0 <= j < i :: parts[j].Accepted?
        invariant i > 0 ==>
            && fds[fd] == Fd(parts[i - 1].description, true) && |Free(before, 0, limit)| >= 2
            && OneFreeBelow(before, fd)
      {
        hide Free, OneFreeBelow;
        fd := Descend(parts[i], fd, before);
        if fd < 0 { return -1; }
      }
    }

    /** One directory further down, the one before it closed once the next is open. */
    method Descend(part: Found, held: int, ghost before: Table) returns (fd: int)
      requires Valid() && held in Free(before, 0, limit) && held in fds && fds == before[held := fds[held]]
      modifies this`fds, this`trail
      ensures Valid() && old(trail) <= trail && OpenSince(trail, |old(trail)|, before)
      ensures fd >= 0 <==> part.Accepted? && |Free(before, 0, limit)| >= 2
      ensures fd >= 0 ==>
                && fd in Free(before, 0, limit) && OneFreeBelow(before, fd)
                && fds == before[fd := Fd(part.description, true)]
    {
      if part.Absent? { return -1; }
      OneLessFree(before, 0, limit, held, fds[held]);
      fd := Open(part.description, true);
      if fd < 0 || part.Rejected? { return -1; }
      forall k | 0 <= k < fd && k !in before ensures k == held { assert k in old(fds); }
      hide Free;
      Close(held);
      assert fds == before[fd := Fd(part.description, true)];
    }

    /** The context in an anonymous file, whose label is compared with the process's own. */
    method SealedContext(memory: Found, process: Found) returns (fd: int)
      requires Valid()
      modifies this`fds, this`trail
      ensures Valid() && old(trail) <= trail && OpenSince(trail, |old(trail)|, old(fds))
      ensures fd >= 0 <==> memory.Accepted? && process.Accepted? && |Free(old(fds), 0, limit)| >= 2
      ensures fd >= 0 ==>
                && Some(fd) == Lowest(old(fds), 0, limit)
                && fds == old(fds)[fd := Fd(memory.description, true)]
    {
      if memory.Absent? || process.Absent? { return -1; }
      ghost var before := fds;
      fd := Open(memory.description, true);
      if fd < 0 { return -1; }
      OneLessFree(before, 0, limit, fd, fds[fd]);
      var text := Open(process.description, false);
      if text < 0 { return -1; }
      Close(text);
      if memory.Rejected? || process.Rejected? { return -1; }
      assert fds == before[fd := Fd(memory.description, true)];
    }

    /**
     * The launcher from the lock to the exec.  Whatever fails on the way, some open descriptor always names the
     * root's description; it succeeds exactly when nothing is refused and there are descriptors enough, and then
     * the runtime starts with the root on 5 and the context on 6.
     */
    method Launch(root: int, files: LaunchFiles, exec: bool) returns (ok: bool)
      requires Valid() && root in fds && files.parts != []
      modifies this`fds, this`trail
      ensures Valid() && old(trail) <= trail
      ensures NamesSince(trail, |old(trail)|, old(fds)[root].description)
      ensures ok <==>
                && AllAccepted(files) && exec
                && |Free(old(fds), 10, limit)| >= 2 && |Free(old(fds), 0, limit)| >= 4
      ensures ok ==> fds == Inherited(old(fds) - {root})
                            [5 := Fd(old(fds)[root].description, false)][6 := Fd(files.memory.description, false)]
      ensures ok ==> forall fd :: fd in fds <==>
                  fd in {5, 6} || (fd in old(fds) && fd != root && !old(fds)[fd].cloexec)
    {
      ghost var before := fds;
      ok := ReadIdentity(files.identity);
      OpenNames(trail, |old(trail)|, before, root);
      if !ok { return; }
      var state := StateDirectory(root, files.parts);
      OpenNames(trail, |old(trail)|, before, root);
      if state < 0 { return false; }
      ghost var walked := fds;
      OneLessFree(before, 0, limit, state, fds[state]);
      var context := SealedContext(files.memory, files.process);
      OpenNames(trail, |old(trail)|, before, root);
      if context < 0 { return false; }
      RoomLeft(before, state, walked[state], context, fds[context], limit);
      LaunchedFrom(before, root, context, state, walked[state], fds[context]);
      ok := PublishLaunch(root, context, state, exec);
    }

    /**
     * The launcher's last steps: the locked root becomes descriptor 5 and the context 6 of the runtime.
     * Some open descriptor names the root's description all the time.
     */
    method PublishLaunch(root: int, context: int, state: int, exec: bool) returns (ok: bool)
      requires Valid() && root in fds && context in fds && state in fds
      modifies this`fds, this`trail
      ensures Valid()
      ensures ok <==> exec && |Free(old(fds), 10, limit)| >= 2
      ensures ok ==> fds == Inherited(Launched(old(fds), root, context, state))
      ensures ok ==> 5 in fds && fds[5] == Fd(old(fds)[root].description, false)
      ensures ok ==> 6 in fds && fds[6] == Fd(old(fds)[context].description, false)
      ensures old(trail) <= trail && NamesSince(trail, |old(trail)|, old(fds)[root].description)
    {
      ghost var before := fds;
      var safeRoot, safeContext;
      ok, safeRoot, safeContext := DuplicateSafely(root, context);
      if !ok { return; }
      hide Free, Names;
      MoveToFixed(before, root, context, state, safeRoot, safeContext);
      if !exec { return false; }
      NamedBy(Inherited(fds), 5, before[root].description);
      Exec();
    }

    /** The root and the context duplicated above the descriptors that are about to be written. */
    method DuplicateSafely(root: int, context: int) returns (ok: bool, safeRoot: int, safeContext: int)
      requires Valid() && root in fds && context in fds
      modifies this`fds, this`trail
      ensures Valid() && |trail| == |old(trail)| + 2 && old(trail) <= trail
      ensures ok <==> |Free(old(fds), 10, limit)| >= 2
      ensures ok ==> safeRoot >= 10 && safeContext >= 10 && safeRoot != safeContext
      ensures ok ==> safeRoot !in old(fds) && safeContext !in old(fds)
      ensures ok ==> fds == Protected(old(fds), root, context, safeRoot, safeContext)
      ensures NamesSince(trail, |old(trail)|, old(fds)[root].description)
    {
      ghost var before := fds;
      TwoFree(before, root, context, 10, limit);
      safeRoot := DupFd(root, 10);
      NamedBy(fds, root, before[root].description);
      safeContext := DupFd(context, 10);
      NamedBy(fds, root, before[root].description);
      ok := safeRoot >= 0 && safeContext >= 0;
    }

    /** The original root, context and state closed, none of which is the safe root. */
    method CloseOriginals(root: int, context: int, state: int, safeRoot: int)
      requires Valid() && safeRoot in fds && safeRoot !in {root, context, state}
      modifies this`fds, this`trail
      ensures Valid() && old(trail) <= trail
      ensures fds == old(fds) - {root} - {context} - {state}
      ensures NamesSince(trail, |old(trail)|, old(fds)[safeRoot].description)
    {
      hide Names;
      Close(root);
      NamedBy(fds, safeRoot, old(fds)[safeRoot].description);
      Close(context);
      NamedBy(fds, safeRoot, old(fds)[safeRoot].description);
      Close(state);
      NamedBy(fds, safeRoot, old(fds)[safeRoot].description);
    }

    /** The originals closed, the duplicates moved to 5 and 6, and the duplicates closed. */
    method MoveToFixed(ghost before: Table, root: int, context: int, state: int, safeRoot: int, safeContext: int)
      requires Valid() && root in before && context in before && state in before
      requires safeRoot >= 10 && safeContext >= 10 && safeRoot != safeContext
      requires safeRoot !in before && safeContext !in before
      requires fds == Protected(before, root, context, safeRoot, safeContext)
      modifies this`fds, this`trail
      ensures Valid() && old(trail) <= trail
      ensures fds == Launched(before, root, context, state)
      ensures NamesSince(trail, |old(trail)|, before[root].description)
    {
      LaunchedBySteps(before, root, context, state, safeRoot, safeContext);
      hide Names, Launched;
      ghost var d := before[root].description;
      CloseOriginals(root, context, state, safeRoot);
      var five := Dup3(safeRoot, 5);
      NamedBy(fds, safeRoot, d);
      var six := Dup3(safeContext, 6);
      NamedBy(fds, safeRoot, d);
      assert five && six;
      Close(safeRoot);
      NamedBy(fds, 5, d);
      Close(safeContext);
      NamedBy(fds, 5, d);
    }

    /** execve: the new program keeps the descriptors that are not marked close-on-exec. */
    method Exec()
      requires Valid()
      modifies this`fds, this`trail
      ensures Valid() && trail == old(trail) + [fds]
      ensures fds == Inherited(old(fds))
    {
      fds := Inherited(fds);
      trail := trail + [fds];
    }
  }

  /** A take of an inherited descriptor: the new table and the duplicate, or -1. */
  function Taken(t: Table, source: int, minimum: nat, limit: nat): (Table, int)
  {
    if source !in t then (t, -1)
    else
      var flagged: Table := t[source := t[source].(cloexec := true)];
      match Lowest(flagged, minimum, limit)
      case None => (flagged, -1)
      case Some(fd) => (flagged[fd := Fd(t[source].description, true)], fd)
  }

  datatype Take = PlanSlot | ManifestSlot | ArtifactSlot(index: nat)

  function Slot(take: Take): nat
  {
    match take
    case PlanSlot => 3
    case ManifestSlot => 4
    case ArtifactSlot(index) => index + 5
  }

  function TakeStep(t: Table, take: Take, limit: nat): (Table, int)
  {
    if take.ArtifactSlot? && take.index > 1023 then (t, -1)
    else Taken(t, Slot(take), Slot(take) + 1, limit)
  }

  /** The table and the results after a series of takes. */
  function Received(t: Table, takes: seq<Take>, limit: nat): (Table, seq<int>)
  {
    if takes == [] then (t, [])
    else
      var (t', results) := Received(t, takes[..|takes| - 1], limit);
      var (t'', fd) := TakeStep(t', takes[|takes| - 1], limit);
      (t'', results + [fd])
  }

  /** What a program that was handed n descriptors may count on: they are open, and nothing above them is. */
  predicate Handed(t: Table, n: nat, limit: nat)
  {
    && 3 + n <= limit && (forall fd | 3 <= fd < 3 + n :: fd in t) && (forall fd | fd in t :: fd < 3 + n)
  }

  /** The description a take duplicates: a slot's, or above the slots an earlier duplicate's. */
  function Wanted(t: Table, n: nat, kept: seq<nat>, take: Take, limit: nat): Option<nat>
    requires Handed(t, n, limit)
  {
    var slot := Slot(take);
    if take.ArtifactSlot? && take.index > 1023 then None
    else if slot < 3 + n then Some(t[slot].description)
    else if slot - 3 - n < |kept| then Some(kept[slot - 3 - n])
    else None
  }

  /** The descriptions of the duplicates that a series of takes yields, one after the other from 3 + n up. */
  function Kept(t: Table, n: nat, takes: seq<Take>, limit: nat): seq<nat>
    requires Handed(t, n, limit)
  {
    if takes == [] then []
    else
      var kept := Kept(t, n, takes[..|takes| - 1], limit);
      var wanted := Wanted(t, n, kept, takes[|takes| - 1], limit);
      if wanted.Some? && 3 + n + |kept| < limit then kept + [wanted.value] else kept
  }

  /** After the takes: the slots keep their descriptions, the duplicates follow them, and no other is open. */
  ghost predicate Holding(t: Table, n: nat, kept: seq<nat>, t': Table)
  {
    && (forall fd :: fd in t' <==> fd in t || 3 + n <= fd < 3 + n + |kept|)
    && (forall fd | fd in t :: t'[fd].description == t[fd].description)
    && (forall fd | fd in t && fd < 3 :: t'[fd] == t[fd])
    && (forall k | 0 <= k < |kept| :: t'[3 + n + k] == Fd(kept[k], true))
  }

  /** One take: the first number above the slots and the earlier duplicates, or -1. */
  lemma TakeFinds(t: Table, n: nat, kept: seq<nat>, t': Table, take: Take, limit: nat)
    requires Handed(t, n, limit) && Holding(t, n, kept, t') && 3 + n + |kept| <= limit
    ensures var wanted := Wanted(t, n, kept, take, limit);
            var (t'', fd) := TakeStep(t', take, limit);
            if wanted.Some? && 3 + n + |kept| < limit
            then fd == 3 + n + |kept| && Holding(t, n, kept + [wanted.value], t'')
            else fd == -1 && Holding(t, n, kept, t'')
  {
    var slot, next := Slot(take), 3 + n + |kept|;
    var wanted := Wanted(t, n, kept, take, limit);
    if wanted.Some? {
      WantedOpen(t, n, kept, t', take, limit);
      var flagged: Table := t'[slot := t'[slot].(cloexec := true)];
      FlaggedHolds(t, n, kept, t', slot, limit);
      NextFree(flagged, slot + 1, next, limit);
      if next < limit { OneMoreHeld(t, n, kept, flagged, wanted.value, limit); }
    }
    hide Lowest, Holding, Handed;
  }

  lemma WantedOpen(t: Table, n: nat, kept: seq<nat>, t': Table, take: Take, limit: nat)
    requires Handed(t, n, limit) && Holding(t, n, kept, t')
    ensures Slot(take) in t' && !(take.ArtifactSlot? && take.index > 1023)
            <==> Wanted(t, n, kept, take, limit).Some?
    ensures Wanted(t, n, kept, take, limit).Some? ==>
              t'[Slot(take)].description == Wanted(t, n, kept, take, limit).value
  {
  }

  lemma FlaggedHolds(t: Table, n: nat, kept: seq<nat>, t': Table, slot: nat, limit: nat)
    requires Handed(t, n, limit) && Holding(t, n, kept, t') && slot >= 3 && slot in t'
    ensures var flagged: Table := t'[slot := t'[slot].(cloexec := true)];
            && Holding(t, n, kept, flagged)
            && (forall k | slot < k < 3 + n + |kept| :: k in flagged)
            && (forall k | k in flagged :: k < 3 + n + |kept|)
  {
  }

  lemma NextFree(t: Table, minimum: nat, next: nat, limit: nat)
    requires minimum <= next <= limit && (forall k | minimum <= k < next :: k in t) && next !in t
    requires forall k | k in t :: k < next
    ensures Lowest(t, minimum, limit) == if next < limit then Some(next) else None
  {
    assert next < limit ==> next in Free(t, minimum, limit);
  }

  lemma OneMoreHeld(t: Table, n: nat, kept: seq<nat>, t': Table, description: nat, limit: nat)
    requires Handed(t, n, limit) && Holding(t, n, kept, t') && 3 + n + |kept| < limit
    ensures Holding(t, n, kept + [description], t'[3 + n + |kept| := Fd(description, true)])
  {
  }

  /** What a take returns after others have yielded the duplicates `kept`. */
  function Result(t: Table, n: nat, kept: seq<nat>, take: Take, limit: nat): int
    requires Handed(t, n, limit)
  {
    if Wanted(t, n, kept, take, limit).Some? && 3 + n + |kept| < limit then 3 + n + |kept| else -1
  }

  /**
   * Any series of takes, whatever it asks for: take j returns the next number above the slots and the earlier
   * duplicates when it asks for one of them and numbers last, else -1.
   */
  lemma {:induction false} TakesExact(t: Table, n: nat, takes: seq<Take>, limit: nat)
    requires Handed(t, n, limit)
    ensures var (t', results) := Received(t, takes, limit);
            && |results| == |takes| && |Kept(t, n, takes, limit)| <= limit - 3 - n
            && Holding(t, n, Kept(t, n, takes, limit), t')
            && forall j | 0 <= j < |takes| ::
                 results[j] == Result(t, n, Kept(t, n, takes[..j], limit), takes[j], limit)
  {
    if takes == [] {
      NothingTaken(t, n, limit);
    } else {
      var earlier, take := takes[..|takes| - 1], takes[|takes| - 1];
      assert takes == earlier + [take];
      hide *;
      TakesExact(t, n, earlier, limit);
      LastTake(t, n, earlier, take, limit);
      var results := Received(t, takes, limit).1;
      forall j | 0 <= j < |takes|
        ensures results[j] == Result(t, n, Kept(t, n, takes[..j], limit), takes[j], limit)
      {
        assert takes[..j] == earlier[..j];
      }
    }
  }

  lemma NothingTaken(t: Table, n: nat, limit: nat)
    requires Handed(t, n, limit)
    ensures Received(t, [], limit) == (t, []) && Kept(t, n, [], limit) == [] && Holding(t, n, [], t)
  {
  }

  lemma ReceivedLast(t: Table, earlier: seq<Take>, take: Take, limit: nat)
    ensures var (t', results) := Received(t, earlier, limit);
            var (t'', fd) := TakeStep(t', take, limit);
            Received(t, earlier + [take], limit) == (t'', results + [fd])
  {
    var takes := earlier + [take];
    assert takes[..|takes| - 1] == earlier && takes[|takes| - 1] == take;
    hide TakeStep;
  }

  lemma KeptLast(t: Table, n: nat, earlier: seq<Take>, take: Take, limit: nat)
    requires Handed(t, n, limit)
    ensures var kept := Kept(t, n, earlier, limit);
            var wanted := Wanted(t, n, kept, take, limit);
            Kept(t, n, earlier + [take], limit)
            == if wanted.Some? && 3 + n + |kept| < limit then kept + [wanted.value] else kept
  {
    var takes := earlier + [take];
    assert takes[..|takes| - 1] == earlier && takes[|takes| - 1] == take;
    hide Wanted, Handed;
  }

  lemma LastTake(t: Table, n: nat, earlier: seq<Take>, take: Take, limit: nat)
    requires Handed(t, n, limit) && Holding(t, n, Kept(t, n, earlier, limit), Received(t, earlier, limit).0)
    requires |Kept(t, n, earlier, limit)| <= limit - 3 - n
    ensures var (t', results) := Received(t, earlier + [take], limit);
            && Holding(t, n, Kept(t, n, earlier + [take], limit), t')
            && |Kept(t, n, earlier + [take], limit)| <= limit - 3 - n
            && results == Received(t, earlier, limit).1 + [Result(t, n, Kept(t, n, earlier, limit), take, limit)]
  {
    hide Handed, TakeStep, Holding, Wanted, Received, Kept;
    ReceivedLast(t, earlier, take, limit);
    KeptLast(t, n, earlier, take, limit);
    TakeFinds(t, n, Kept(t, n, earlier, limit), Received(t, earlier, limit).0, take, limit);
  }

  ghost predicate AmongHanded(t: Table, n: nat, description: nat)
  {
    exists i :: 3 <= i < 3 + n && i in t && t[i].description == description
  }

  /** No take returns a description that was not handed over. */
  lemma {:induction false} OnlyHandedOver(t: Table, n: nat, takes: seq<Take>, limit: nat, k: nat)
    requires Handed(t, n, limit) && k < |Kept(t, n, takes, limit)|
    ensures AmongHanded(t, n, Kept(t, n, takes, limit)[k])
  {
    var earlier, take := takes[..|takes| - 1], takes[|takes| - 1];
    var kept := Kept(t, n, earlier, limit);
    if k < |kept| {
      OnlyHandedOver(t, n, earlier, limit, k);
    } else if Slot(take) >= 3 + n {
      OnlyHandedOver(t, n, earlier, limit, Slot(take) - 3 - n);
    }
  }

  /** Every take names one of the n descriptors handed over. */
  predicate InRange(takes: seq<Take>, n: nat)
  {
    forall j | 0 <= j < |takes| :: Slot(takes[j]) < 3 + n
  }

  /** Takes of slots handed over each yield a duplicate of their slot, as long as numbers last. */
  lemma {:induction false} InRangeKept(t: Table, n: nat, takes: seq<Take>, limit: nat)
    requires Handed(t, n, limit) && n <= MAX_ARTIFACTS + 2 && InRange(takes, n)
    ensures var kept := Kept(t, n, takes, limit);
            && |kept| == (if |takes| <= limit - 3 - n then |takes| else limit - 3 - n)
            && forall k | 0 <= k < |kept| :: kept[k] == t[Slot(takes[k])].description
  {
    if takes != [] {
      InRangeKept(t, n, takes[..|takes| - 1], limit);
    }
  }

  /** Which descriptor the next take returns: the first above the slots and the earlier duplicates. */
  function Next(n: nat, taken: nat, limit: nat): int
  {
    if 3 + n + taken < limit then 3 + n + taken else -1
  }

  /** Take j of slots handed over returns descriptor 3 + n + j while numbers last, and -1 from then on. */
  lemma TakesHold(t: Table, n: nat, takes: seq<Take>, limit: nat, j: nat)
    requires Handed(t, n, limit) && n <= MAX_ARTIFACTS + 2 && InRange(takes, n) && j < |takes|
    ensures var (t', results) := Received(t, takes, limit);
            && |results| == |takes| && results[j] == Next(n, j, limit)
            && (results[j] >= 0 ==>
                  results[j] in t' && t'[results[j]] == Fd(t[Slot(takes[j])].description, true))
  {
    TakesExact(t, n, takes, limit);
    InRangeKept(t, n, takes, limit);
    InRangeKept(t, n, takes[..j], limit);
    hide Received, Kept;
  }

  /**
   * End to end: what the program receives by take j of any series is the description its caller named as
   * the source of that slot, on a descriptor of its own above the slots.
   */
  lemma HandOffReceived(t: Table, sources: seq<int>, delivered: Table, takes: seq<Take>, limit: nat, j: nat)
    requires AllOpen(t, sources) && |sources| <= MAX_ARTIFACTS + 2 && 3 + |sources| <= limit
    requires Delivered(t, sources, delivered) && InRange(takes, |sources|) && j < |takes|
    ensures var (t', results) := Received(delivered, takes, limit);
            && |results| == |takes|
            && results[j] == Next(|sources|, j, limit)
            && (results[j] >= 0 ==>
                  results[j] in t' && t'[results[j]] == Fd(t[sources[Slot(takes[j]) - 3]].description, true))
  {
    TakesHold(delivered, |sources|, takes, limit, j);
    var i := Slot(takes[j]) - 3;
    assert delivered[3 + i] == Fd(t[sources[i]].description, false);
    hide Received, Delivered;
  }

  /** Whatever is taken, every slot keeps the description it was handed over with, and nothing else is received. */
  lemma SlotsUndisturbed(t: Table, sources: seq<int>, delivered: Table, takes: seq<Take>, limit: nat)
    requires AllOpen(t, sources) && 3 + |sources| <= limit && Delivered(t, sources, delivered)
    ensures var t' := Received(delivered, takes, limit).0;
            && (forall i | 0 <= i < |sources| :: 3 + i in t' && t'[3 + i].description == t[sources[i]].description)
            && forall fd | fd in t' && fd >= 3 ::
                 exists i | 0 <= i < |sources| :: t'[fd].description == t[sources[i]].description
  {
    var n, kept := |sources|, Kept(delivered, |sources|, takes, limit);
    TakesExact(delivered, n, takes, limit);
    forall k | 0 <= k < |kept| ensures AmongHanded(delivered, n, kept[k]) {
      OnlyHandedOver(delivered, n, takes, limit, k);
    }
    HeldFrom(t, sources, delivered, kept, Received(delivered, takes, limit).0);
    hide *;
  }

  lemma HeldFrom(t: Table, sources: seq<int>, delivered: Table, kept: seq<nat>, t': Table)
    requires AllOpen(t, sources) && Delivered(t, sources, delivered) && Holding(delivered, |sources|, kept, t')
    requires forall k | 0 <= k < |kept| :: AmongHanded(delivered, |sources|, kept[k])
    ensures forall i | 0 <= i < |sources| :: 3 + i in t' && t'[3 + i].description == t[sources[i]].description
    ensures forall fd | fd in t' && fd >= 3 ::
              exists i | 0 <= i < |sources| :: t'[fd].description == t[sources[i]].description
  {
    var n := |sources|;
    forall i | 0 <= i < n ensures 3 + i in t' && t'[3 + i].description == t[sources[i]].description {
      assert delivered[3 + i] == Fd(t[sources[i]].description, false);
    }
    forall fd | fd in t' && fd >= 3
      ensures exists i | 0 <= i < n :: t'[fd].description == t[sources[i]].description
    {
      if fd < 3 + n {
        assert t'[fd].description == t[sources[fd - 3]].description;
      } else {
        var i :| 3 <= i < 3 + n && i in delivered && delivered[i].description == kept[fd - 3 - n];
        assert t'[fd].description == t[sources[i - 3]].description;
      }
    }
  }

  /** The take asks for this descriptor, within the index limit. */
  predicate Asks(take: Take, fd: int)
  {
    Slot(take) == fd && (take.ArtifactSlot? ==> take.index <= 1023)
  }

  predicate Asked(takes: seq<Take>, fd: int)
  {
    exists j | 0 <= j < |takes| :: Asks(takes[j], fd)
  }

  lemma TakeMarks(t: Table, take: Take, limit: nat, fd: int)
    requires fd in t
    ensures var t' := TakeStep(t, take, limit).0;
            fd in t' && t'[fd] == t[fd].(cloexec := t[fd].cloexec || Asks(take, fd))
  {
    hide Lowest;
  }

  /** Every open descriptor that is asked for gets marked close-on-exec, and no other mark or description changes. */
  lemma {:induction false} TakesMark(t: Table, takes: seq<Take>, limit: nat, fd: int)
    requires fd in t
    ensures var t' := Received(t, takes, limit).0;
            fd in t' && t'[fd] == t[fd].(cloexec := t[fd].cloexec || Asked(takes, fd))
  {
    if takes != [] {
      var earlier, take := takes[..|takes| - 1], takes[|takes| - 1];
      TakesMark(t, earlier, limit, fd);
      TakeMarks(Received(t, earlier, limit).0, take, limit, fd);
      AskedLast(earlier, take, fd);
      assert takes == earlier + [take];
      hide TakeStep, Asks, Asked;
    }
  }

  lemma AskedLast(earlier: seq<Take>, take: Take, fd: int)
    ensures Asked(earlier + [take], fd) <==> Asked(earlier, fd) || Asks(take, fd)
  {
    var takes := earlier + [take];
    assert takes[|earlier|] == take;
    if j :| 0 <= j < |earlier| && Asks(earlier[j], fd) { assert takes[j] == earlier[j]; }
    if j :| 0 <= j < |takes| && Asks(takes[j], fd) { assert j < |earlier| ==> earlier[j] == takes[j]; }
  }

  /**
   * What a program that has taken its descriptors passes on to the next one: neither a descriptor it asked for
   * nor any duplicate, and everything else that was inheritable, as it was.
   */
  lemma TakenNotInherited(t: Table, n: nat, takes: seq<Take>, limit: nat, fd: int)
    requires Handed(t, n, limit)
    ensures var passed := Inherited(Received(t, takes, limit).0);
            && (fd in passed <==> fd in t && !t[fd].cloexec && !Asked(takes, fd))
            && (fd in passed ==> passed[fd] == t[fd])
  {
    var t', kept := Received(t, takes, limit).0, Kept(t, n, takes, limit);
    TakesExact(t, n, takes, limit);
    if fd in t {
      TakesMark(t, takes, limit, fd);
    } else if fd in t' {
      assert t'[3 + n + (fd - 3 - n)] == Fd(kept[fd - 3 - n], true);
    }
    hide Received, Kept, Asked, Handed;
  }

  /**
   * By the names of the interface: the plan, the manifest and artifact i are received as what the caller named
   * plan, manifest and artifact i, and an artifact that was not named is not received.
   */
  lemma ReceivedAsNamed(t: Table, plan: int, manifest: int, artifacts: seq<int>, delivered: Table, limit: nat, i: nat)
    requires plan in t && manifest in t && AllOpen(t, artifacts) && AllOpen(t, [plan, manifest] + artifacts)
    requires |artifacts| <= 1024 && 5 + |artifacts| < limit
    requires Delivered(t, [plan, manifest] + artifacts, delivered)
    ensures var next := 5 + |artifacts|;
            && TakeStep(delivered, PlanSlot, limit).1 == next
            && TakeStep(delivered, PlanSlot, limit).0[next] == Fd(t[plan].description, true)
            && TakeStep(delivered, ManifestSlot, limit).1 == next
            && TakeStep(delivered, ManifestSlot, limit).0[next] == Fd(t[manifest].description, true)
            && TakeStep(delivered, ArtifactSlot(i), limit).1 == (if i < |artifacts| then next else -1)
            && (i < |artifacts| ==>
                  TakeStep(delivered, ArtifactSlot(i), limit).0[next] == Fd(t[artifacts[i]].description, true))
  {
    var sources := [plan, manifest] + artifacts;
    assert sources[0] == plan && sources[1] == manifest;
    OneTake(t, sources, delivered, PlanSlot, limit);
    OneTake(t, sources, delivered, ManifestSlot, limit);
    if i < |artifacts| {
      assert sources[2 + i] == artifacts[i];
      OneTake(t, sources, delivered, ArtifactSlot(i), limit);
    }
  }

  lemma OneTake(t: Table, sources: seq<int>, delivered: Table, take: Take, limit: nat)
    requires AllOpen(t, sources) && |sources| <= MAX_ARTIFACTS + 2 && 3 + |sources| < limit
    requires Delivered(t, sources, delivered) && Slot(take) < 3 + |sources|
    ensures var next := 3 + |sources|;
            && TakeStep(delivered, take, limit).1 == next && next in TakeStep(delivered, take, limit).0
            && TakeStep(delivered, take, limit).0[next] == Fd(t[sources[Slot(take) - 3]].description, true)
  {
    HandOffReceived(t, sources, delivered, [take], limit, 0);
    ReceivedLast(delivered, [], take, limit);
    NothingTaken(delivered, |sources|, limit);
    assert [] + [take] == [take];
    hide TakeStep, Delivered;
  }

  /** Some open descriptor refers to the description, so a lock held through it is still held. */
  ghost predicate Names(t: Table, description: nat)
  {
    exists fd :: fd in t && t[fd].description == description
  }

  /** Every table from a given moment on names the description. */
  ghost predicate NamesSince(trail: seq<Table>, start: nat, description: nat)
  {
    forall k | start <= k < |trail| :: Names(trail[k], description)
  }

  lemma NamedBy(t: Table, fd: int, description: nat)
    requires fd in t && t[fd].description == description
    ensures Names(t, description)
  {
  }

  /** Every table from a given moment on has all the descriptors of one table, unchanged. */
  ghost predicate OpenSince(trail: seq<Table>, start: nat, t: Table)
  {
    forall k, fd | start <= k < |trail| && fd in t :: fd in trail[k] && trail[k][fd] == t[fd]
  }

  lemma OpenNames(trail: seq<Table>, start: nat, t: Table, root: int)
    requires root in t && OpenSince(trail, start, t)
    ensures NamesSince(trail, start, t[root].description)
  {
    forall k | start <= k < |trail| ensures Names(trail[k], t[root].description) {
      NamedBy(trail[k], root, t[root].description);
    }
  }

  predicate OneFreeBelow(t: Table, fd: int)
  {
    forall a, b | 0 <= a < fd && 0 <= b < fd && a !in t && b !in t :: a == b
  }

  /** With at most one free number below it, `state` and then `context` take the two lowest free numbers. */
  lemma RoomLeft(t: Table, state: int, e: Fd, context: int, e': Fd, limit: nat)
    requires state in Free(t, 0, limit) && OneFreeBelow(t, state)
    requires Some(context) == Lowest(t[state := e], 0, limit)
    ensures |Free(t[state := e][context := e'], 10, limit)| >= 2
            <==> |Free(t, 10, limit)| >= 2 && |Free(t, 0, limit)| >= 4
  {
    var high := Free(t, 10, limit);
    var low := Free(t, 0, limit) - high;
    assert low !! high && Free(t, 0, limit) == low + high by { hide OneFreeBelow, Lowest; }
    assert Free(t[state := e][context := e'], 10, limit) == high - {state, context} by { hide OneFreeBelow, Lowest; }
    LowFilled(t, state, e, context, limit);
    hide *;
    TwoTaken(low, high, state, context);
  }

  lemma LowFilled(t: Table, state: int, e: Fd, context: int, limit: nat)
    requires state in Free(t, 0, limit) && OneFreeBelow(t, state)
    requires Some(context) == Lowest(t[state := e], 0, limit)
    ensures state != context && context in Free(t, 0, limit)
    ensures state in Free(t, 10, limit) || context in Free(t, 10, limit) ==>
              Free(t, 0, limit) - Free(t, 10, limit) <= {state, context}
  {
    assert context in Free(t[state := e], 0, limit);
    forall k | k in Free(t, 0, limit) && k != state ensures context <= k { assert k !in t[state := e]; }
    hide Lowest;
  }

  /** Two numbers taken, from `low` as long as it has any. */
  lemma TwoTaken(low: set<int>, high: set<int>, a: int, b: int)
    requires low !! high && a != b && {a, b} <= low + high
    requires a in high || b in high ==> low <= {a, b}
    ensures |high - {a, b}| >= 2 <==> |high| >= 2 && |low + high| >= 4
  {
    Without(high, a, b);
    Without(low, a, b);
    assert |low + high| == |low| + |high|;
    assert a in high || b in high ==> low - {a, b} == {};
  }

  lemma Without(s: set<int>, a: int, b: int)
    requires a != b
    ensures |s - {a, b}| == |s| - (if a in s then 1 else 0) - (if b in s then 1 else 0)
  {
    assert s - {a} - {b} == s - {a, b};
    WithoutOne(s, a);
    WithoutOne(s - {a}, b);
  }

  lemma WithoutOne(s: set<int>, a: int)
    ensures |s - {a}| == |s| - if a in s then 1 else 0
  {
    assert s == (s - {a}) + (s * {a});
    assert s * {a} == if a in s then {a} else {};
  }

  /** What the launcher finds when it opens a file or a directory: nothing, or one that its checks accept or reject. */
  datatype Found = Absent | Rejected(description: nat) | Accepted(description: nat)

  /** The files of a launch: the identity, the directories down to the state, the context and the label. */
  datatype LaunchFiles = LaunchFiles(identity: Found, parts: seq<Found>, memory: Found, process: Found)

  predicate AllAccepted(files: LaunchFiles)
  {
    && files.identity.Accepted? && files.memory.Accepted? && files.process.Accepted?
    && forall i | 0 <= i < |files.parts| :: files.parts[i].Accepted?
  }

  /** The table with safe duplicates of the root and the context. */
  function Protected(t: Table, root: int, context: int, safeRoot: int, safeContext: int): Table
    requires root in t && context in t
  {
    t[safeRoot := Fd(t[root].description, true)][safeContext := Fd(t[context].description, true)]
  }

  /** The launcher's table at exec. */
  function Launched(t: Table, root: int, context: int, state: int): Table
    requires root in t && context in t
  {
    (t - {root, context, state})[5 := Fd(t[root].description, false)][6 := Fd(t[context].description, false)]
  }

  /** State and context leave nothing but descriptor 6. */
  lemma LaunchedFrom(t: Table, root: int, context: int, state: int, e: Fd, e': Fd)
    requires root in t && state !in t && context !in t
    ensures var d := t[state := e][context := e'];
            Inherited(Launched(d, root, context, state))
            == Inherited(t - {root})[5 := Fd(t[root].description, false)][6 := Fd(e'.description, false)]
  {
    var d := t[state := e][context := e'];
    assert d - {root, context, state} == t - {root};
  }

  lemma LaunchedBySteps(t: Table, root: int, context: int, state: int, safeRoot: int, safeContext: int)
    requires root in t && context in t
    requires safeRoot >= 10 && safeContext >= 10 && safeRoot !in t && safeContext !in t && safeRoot != safeContext
    ensures var r, c := t[root].description, t[context].description;
            (Protected(t, root, context, safeRoot, safeContext) - {root} - {context} - {state})
              [5 := Fd(r, false)][6 := Fd(c, false)] - {safeRoot} - {safeContext}
            == Launched(t, root, context, state)
  {
    var r, c := t[root].description, t[context].description;
    var left := (t[safeRoot := Fd(r, true)][safeContext := Fd(c, true)] - {root} - {context} - {state})
                  [5 := Fd(r, false)][6 := Fd(c, false)] - {safeRoot} - {safeContext};
    assert left.Keys == Launched(t, root, context, state).Keys;
    assert forall fd | fd in left :: left[fd] == Launched(t, root, context, state)[fd];
  }

  lemma TwoFree(t: Table, root: int, context: int, minimum: nat, limit: nat)
    requires root in t && context in t
    ensures var first := Lowest(t, minimum, limit);
            (first.Some? && Lowest(t[first.value := Fd(t[root].description, true)], minimum, limit).Some?)
            <==> |Free(t, minimum, limit)| >= 2
  {
    var first := Lowest(t, minimum, limit);
    if first.Some? {
      OneLessFree(t, minimum, limit, first.value, Fd(t[root].description, true));
    }
  }

  lemma {:induction false} StaysFailed(t: Table, sources: seq<int>, minimum: nat, limit: nat, n: nat)
    requires n <= |sources| && Duplicated(t, sources[..n], minimum, limit).None?
    ensures Duplicated(t, sources, minimum, limit).None?
  {
    if n == |sources| {
      assert sources[..n] == sources;
    } else {
      assert sources[..|sources| - 1][..n] == sources[..n];
      StaysFailed(t, sources[..|sources| - 1], minimum, limit, n);
    }
  }
}
