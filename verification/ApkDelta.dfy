/**
 * APK deltas: a plan of copies from the old file and literal bytes, its application with a staged output,
 * and the script of positioned copies that replays the same plan on a phone.  Digests are collision-free,
 * so a plan's digests are the contents themselves.
 */
module ApkDelta {
  import opened Basics

  datatype Entry = Entry(name: string, start: nat, size: nat)

  datatype Span = Copy(start: int, size: int) | Literal(data: Bytes)

  datatype Plan = Plan(base: Bytes, target: Bytes, size: int, spans: seq<Span>)

  const MIN_REUSE := 4096

  /** A slice in the original's language: bounds beyond the end are cut off. */
  function Slice(s: Bytes, start: nat, end: nat): Bytes
    requires start <= end
  {
    s[(if start < |s| then start else |s|)..(if end < |s| then end else |s|)]
  }

  /** Where the old file keeps a payload of this name: the last entry of that name counts. */
  function Previous(entries: seq<Entry>): map<string, (nat, nat)>
  {
    if entries == [] then map[]
    else
      var last := entries[|entries| - 1];
      Previous(entries[..|entries| - 1])[last.name := (last.start, last.size)]
  }

  /** An entry whose bytes are taken from the old file. */
  predicate Reused(base: Bytes, previous: map<string, (nat, nat)>, target: Bytes, e: Entry)
  {
    && e.size >= MIN_REUSE && e.name in previous && e.size == previous[e.name].1
    && Slice(base, previous[e.name].0, previous[e.name].0 + e.size) == Slice(target, e.start, e.start + e.size)
  }

  function ReusedEntries(base: Bytes, previous: map<string, (nat, nat)>, target: Bytes, entries: seq<Entry>): seq<Entry>
  {
    if entries == [] then []
    else
      var last := entries[|entries| - 1];
      var earlier := ReusedEntries(base, previous, target, entries[..|entries| - 1]);
      if Reused(base, previous, target, last) then earlier + [last] else earlier
  }

  /** Entries that follow each other without overlap inside a file of `size` bytes. */
  predicate Laid(entries: seq<Entry>, size: nat)
  {
    forall i | 0 <= i < |entries| :: LaidAt(entries, i, size)
  }

  /** Entry i lies inside the file and does not begin before the end of the entry before it. */
  predicate LaidAt(entries: seq<Entry>, i: nat, size: nat)
    requires i < |entries|
  {
    entries[i].start + entries[i].size <= size
        && (i > 0 ==> entries[i - 1].start + entries[i - 1].size <= entries[i].start)
  }

  /** The copies a plan makes, in order. */
  function CopiesOf(spans: seq<Span>): seq<Span>
  {
    if spans == [] then []
    else
      var earlier := CopiesOf(spans[..|spans| - 1]);
      if spans[|spans| - 1].Copy? then earlier + [spans[|spans| - 1]] else earlier
  }

  predicate Inside(base: Bytes, span: Span)
  {
    span.Copy? ==> 0 <= span.start <= |base| && 0 <= span.size <= |base| - span.start
  }

  function SpanBytes(base: Bytes, span: Span): Bytes
    requires Inside(base, span)
  {
    match span
    case Copy(start, size) => base[start..start + size]
    case Literal(data) => data
  }

  /** What the spans stand for, when every copy lies inside the old file. */
  function Denoted(base: Bytes, spans: seq<Span>): Option<Bytes>
  {
    if spans == [] then Some([])
    else
      var last := spans[|spans| - 1];
      match Denoted(base, spans[..|spans| - 1])
      case None => None
      case Some(bytes) => if Inside(base, last) then Some(bytes + SpanBytes(base, last)) else None
  }

  lemma DenotedLast(base: Bytes, spans: seq<Span>, last: Span)
    ensures Denoted(base, spans + [last])
         == match Denoted(base, spans)
            case None => None
            case Some(bytes) => if Inside(base, last) then Some(bytes + SpanBytes(base, last)) else None
    ensures CopiesOf(spans + [last]) == if last.Copy? then CopiesOf(spans) + [last] else CopiesOf(spans)
  {
    assert (spans + [last])[..|spans|] == spans;
  }

  lemma {:induction false} DenotedFails(base: Bytes, spans: seq<Span>, n: nat)
    requires n <= |spans| && Denoted(base, spans[..n]).None?
    ensures Denoted(base, spans).None?
  {
    if n == |spans| {
      assert spans[..n] == spans;
    } else {
      assert spans[..|spans| - 1][..n] == spans[..n];
      DenotedFails(base, spans[..|spans| - 1], n);
    }
  }

  lemma {:induction false} DenotedGrows(base: Bytes, spans: seq<Span>, n: nat)
    requires n <= |spans| && Denoted(base, spans).Some?
    ensures Denoted(base, spans[..n]).Some? && |Denoted(base, spans[..n]).value| <= |Denoted(base, spans).value|
  {
    if n == |spans| {
      assert spans[..n] == spans;
    } else {
      assert spans[..|spans| - 1][..n] == spans[..n];
      DenotedGrows(base, spans[..|spans| - 1], n);
    }
  }

  /** Applying a plan to a file: the new bytes, or nothing when any check fails. */
  function Applied(base: Bytes, plan: Plan): Option<Bytes>
  {
    var denoted := Denoted(base, plan.spans);
    if base == plan.base && denoted.Some? && |denoted.value| == plan.size && denoted.value == plan.target then denoted
        else None
  }

  /** The delta of two files, from the entry layouts of both. */
  method Create(base: Bytes, baseEntries: seq<Entry>, target: Bytes, entries: seq<Entry>) returns (plan: Plan)
    ensures plan.base == base && plan.target == target && plan.size == |target|
    ensures Applied(base, plan) == if Laid(Copied(base, baseEntries, target, entries), |target|) then Some(target)
              else None
    ensures Laid(entries, |target|) ==> Applied(base, plan) == Some(target)
    ensures |CopiesOf(plan.spans)| == |Copied(base, baseEntries, target, entries)|
    ensures forall i | 0 <= i < |CopiesOf(plan.spans)| ::
              CopyOf(Previous(baseEntries), Copied(base, baseEntries, target, entries)[i], CopiesOf(plan.spans)[i])
  {
    if Laid(entries, |target|) { LayoutKept(base, Previous(baseEntries), target, entries); }
    var previous := Locate(baseEntries);
    var spans := Reconstruction(base, previous, target, entries);
    plan := Plan(base, target, |target|, spans);
  }

  /** The dictionary of the old file's payloads. */
  method Locate(entries: seq<Entry>) returns (previous: map<string, (nat, nat)>)
    ensures previous == Previous(entries)
  {
    previous := map[];
    for i := 0 to |entries|
      invariant previous == Previous(entries[..i])
    {
      var e := entries[i];
      assert entries[..i + 1][..i] == entries[..i];
      previous := previous[e.name := (e.start, e.size)];
    }
    assert entries[..|entries|] == entries;
  }

  /** The span loop over the new file's payloads, and the span that closes it. */
  method Reconstruction(base: Bytes, previous: map<string, (nat, nat)>, target: Bytes, entries: seq<Entry>)
      returns (spans: seq<Span>)
    ensures var reused := ReusedEntries(base, previous, target, entries);
            && (Denoted(base, spans) == Some(target) <==> Laid(reused, |target|))
            && |CopiesOf(spans)| == |reused|
            && forall i | 0 <= i < |reused| :: CopyOf(previous, reused[i], CopiesOf(spans)[i])
  {
    var cursor: nat := 0;
    spans := [];
    assert target[..0] == [] && entries[..0] == [];
    assert Progress(base, previous, target, [], spans, cursor);
    hide Progress, Denoted, CopiesOf, Laid, CopyOf, Slice, Rest;
    for i := 0 to |entries|
      invariant Progress(base, previous, target, ReusedEntries(base, previous, target, entries[..i]), spans, cursor)
    {
      var e := entries[i];
      assert entries[..i + 1][..i] == entries[..i] && entries[..i + 1][i] == e;
      if Reused(base, previous, target, e) {
        Reuse(base, previous, target, ReusedEntries(base, previous, target, entries[..i]), spans, cursor, e);
        ghost var extended := Extended(previous, target, spans, cursor, e);
        if e.start > cursor { spans := spans + [Literal(Slice(target, cursor, e.start))]; }
        spans := spans + [Copy(previous[e.name].0, e.size)];
        cursor := e.start + e.size;
        assert spans == extended;
      }
    }
    assert entries[..|entries|] == entries;
    Closing(base, previous, target, ReusedEntries(base, previous, target, entries), spans, cursor);
    spans := spans + [Literal(Rest(target, cursor))];
  }

  /** The entries of the new file whose payload the plan copies. */
  function Copied(base: Bytes, baseEntries: seq<Entry>, target: Bytes, entries: seq<Entry>): seq<Entry>
  {
    ReusedEntries(base, Previous(baseEntries), target, entries)
  }

  function Rest(s: Bytes, start: nat): Bytes
  {
    if start <= |s| then s[start..] else []
  }

  /** The copy a reused entry becomes. */
  ghost predicate CopyOf(previous: map<string, (nat, nat)>, e: Entry, span: Span)
  {
    e.name in previous && span == Copy(previous[e.name].0, e.size)
  }

  /** End of the last entry laid so far. */
  function End(entries: seq<Entry>): nat
  {
    if entries == [] then 0 else entries[|entries| - 1].start + entries[|entries| - 1].size
  }

  /**
   * The invariant of the span loop: while the copied entries are laid properly the spans stand for exactly
   * the new file up to the cursor; once they are not, they stand for nothing, or for more than that.
   */
  ghost predicate Progress(base: Bytes, previous: map<string, (nat, nat)>, target: Bytes, done: seq<Entry>,
          spans: seq<Span>, cursor: nat)
  {
    && cursor == End(done)
    && |CopiesOf(spans)| == |done|
    && (forall i | 0 <= i < |done| :: CopyOf(previous, done[i], CopiesOf(spans)[i]))
    && (if Laid(done, |target|) then cursor <= |target| && Denoted(base, spans) == Some(target[..cursor])
        else Denoted(base, spans).None? || |Denoted(base, spans).value| > cursor)
  }

  lemma LaidExtends(done: seq<Entry>, e: Entry, size: nat)
    ensures Laid(done + [e], size) <==> Laid(done, size) && End(done) <= e.start && e.start + e.size <= size
  {
    var all := done + [e];
    forall i | 0 <= i < |done| ensures LaidAt(all, i, size) <==> LaidAt(done, i, size) {
      assert all[i] == done[i] && (i > 0 ==> all[i - 1] == done[i - 1]);
    }
    assert all[|done|] == e;
    assert LaidAt(all, |done|, size) <==> End(done) <= e.start && e.start + e.size <= size;
  }

  /** A reused payload that runs past the end of the new file also runs past the end of the old one. */
  lemma ReusedInside(base: Bytes, previous: map<string, (nat, nat)>, target: Bytes, e: Entry)
    requires Reused(base, previous, target, e)
    ensures e.start + e.size <= |target| <==> Inside(base, Copy(previous[e.name].0, e.size))
    ensures e.start + e.size <= |target| ==>
              SpanBytes(base, Copy(previous[e.name].0, e.size)) == target[e.start..e.start + e.size]
  {
    var source := previous[e.name].0;
    assert |Slice(base, source, source + e.size)| == |Slice(target, e.start, e.start + e.size)|;
  }

  /** The spans after a reused entry: what lies between the cursor and the entry, then the copy. */
  function Extended(previous: map<string, (nat, nat)>, target: Bytes, spans: seq<Span>, cursor: nat,
          e: Entry): seq<Span>
    requires e.name in previous
  {
    (if e.start > cursor then spans + [Literal(Slice(target, cursor, e.start))]
        else spans) + [Copy(previous[e.name].0, e.size)]
  }

  lemma Gap(base: Bytes, target: Bytes, spans: seq<Span>, cursor: nat, start: nat)
    ensures var gapped := if start > cursor then spans + [Literal(Slice(target, cursor, start))] else spans;
            && CopiesOf(gapped) == CopiesOf(spans)
            && Denoted(base, gapped) == if start > cursor && Denoted(base, spans).Some?
                 then Some(Denoted(base, spans).value + Slice(target, cursor, start)) else Denoted(base, spans)
  {
    if start > cursor { DenotedLast(base, spans, Literal(Slice(target, cursor, start))); }
  }

  lemma ExtendedDenotes(base: Bytes, previous: map<string, (nat, nat)>, target: Bytes, spans: seq<Span>, cursor: nat,
          e: Entry)
    requires Reused(base, previous, target, e)
    ensures var all := Extended(previous, target, spans, cursor, e);
            var gap := if e.start > cursor then Slice(target, cursor, e.start) else [];
            && CopiesOf(all) == CopiesOf(spans) + [Copy(previous[e.name].0, e.size)]
            && Denoted(base, all) == if Denoted(base, spans).Some? && e.start + e.size <= |target|
                 then Some(Denoted(base, spans).value + gap + target[e.start..e.start + e.size]) else None
  {
    ReusedInside(base, previous, target, e);
    Gap(base, target, spans, cursor, e.start);
    var gapped := if e.start > cursor then spans + [Literal(Slice(target, cursor, e.start))] else spans;
    DenotedLast(base, gapped, Copy(previous[e.name].0, e.size));
    hide Denoted, CopiesOf, Reused;
    if Denoted(base, spans).Some? {
      assert Denoted(base, spans).value + [] == Denoted(base, spans).value;
    }
  }

  lemma Reuse(base: Bytes, previous: map<string, (nat, nat)>, target: Bytes, done: seq<Entry>, spans: seq<Span>,
          cursor: nat, e: Entry)
    requires Progress(base, previous, target, done, spans, cursor) && Reused(base, previous, target, e)
    ensures Progress(base, previous, target, done + [e], Extended(previous, target, spans, cursor, e), e.start + e.size)
  {
    LaidExtends(done, e, |target|);
    ExtendedDenotes(base, previous, target, spans, cursor, e);
    assert CopyOf(previous, e, Copy(previous[e.name].0, e.size));
    if Denoted(base, spans).Some? && e.start + e.size <= |target| {
      Appended(target, Denoted(base, spans).value, cursor, e, Laid(done, |target|));
    }
    hide Denoted, CopiesOf, Laid, Reused, Extended, Slice;
  }

  /** Appending a payload and what precedes it keeps the prefix without overlap, and the excess once there is one. */
  lemma Appended(target: Bytes, bytes: Bytes, cursor: nat, e: Entry, laid: bool)
    requires e.start + e.size <= |target| && e.size > 0
    requires if laid then cursor <= |target| && bytes == target[..cursor] else |bytes| > cursor
    ensures var gap := if e.start > cursor then Slice(target, cursor, e.start) else [];
            var all := bytes + gap + target[e.start..e.start + e.size];
            if laid && cursor <= e.start then all == target[..e.start + e.size] else |all| > e.start + e.size
  {
    if laid && cursor <= e.start {
      assert target[..cursor] + target[cursor..e.start] == target[..e.start];
    }
  }

  lemma Closing(base: Bytes, previous: map<string, (nat, nat)>, target: Bytes, done: seq<Entry>, spans: seq<Span>,
          cursor: nat)
    requires Progress(base, previous, target, done, spans, cursor)
    ensures var all := spans + [Literal(Rest(target, cursor))];
            && (Denoted(base, all) == Some(target) <==> Laid(done, |target|))
            && |CopiesOf(all)| == |done|
            && forall i | 0 <= i < |done| :: CopyOf(previous, done[i], CopiesOf(all)[i])
  {
    var all := spans + [Literal(Rest(target, cursor))];
    DenotedLast(base, spans, Literal(Rest(target, cursor)));
    if Laid(done, |target|) {
      assert target[..cursor] + target[cursor..] == target;
    } else if Denoted(base, all).Some? {
      assert |Denoted(base, all).value| > |target|;
    }
  }

  /** A new file whose entries follow each other inside it satisfies the condition, whatever the old file holds. */
  lemma {:induction false} LayoutKept(base: Bytes, previous: map<string, (nat, nat)>, target: Bytes,
          entries: seq<Entry>)
    requires Laid(entries, |target|)
    ensures Laid(ReusedEntries(base, previous, target, entries), |target|)
    ensures End(ReusedEntries(base, previous, target, entries)) <= End(entries)
  {
    if entries != [] {
      var earlier, last := entries[..|entries| - 1], entries[|entries| - 1];
      assert entries == earlier + [last];
      LaidExtends(earlier, last, |target|);
      LayoutKept(base, previous, target, earlier);
      LaidExtends(ReusedEntries(base, previous, target, earlier), last, |target|);
      hide Laid, Reused;
    }
  }

  /** Entry k is the last of its name. */
  predicate LastOfName(entries: seq<Entry>, k: nat, name: string)
    requires k < |entries|
  {
    entries[k].name == name && forall i | k < i < |entries| :: entries[i].name != name
  }

  /** The dictionary knows exactly the names of the entries, and for each the place of its last entry. */
  lemma {:induction false} PreviousExactly(entries: seq<Entry>, name: string)
    ensures name in Previous(entries) <==> exists k | 0 <= k < |entries| :: LastOfName(entries, k, name)
    ensures forall k | 0 <= k < |entries| && LastOfName(entries, k, name) ::
              name in Previous(entries) && Previous(entries)[name] == (entries[k].start, entries[k].size)
  {
    if entries != [] {
      var earlier, last := entries[..|entries| - 1], |entries| - 1;
      if entries[last].name == name {
        assert LastOfName(entries, last, name);
        forall k | 0 <= k < |entries| && LastOfName(entries, k, name) ensures k == last {}
      } else {
        PreviousExactly(earlier, name);
        forall k | 0 <= k < |earlier| ensures LastOfName(entries, k, name) <==> LastOfName(earlier, k, name) {
          assert forall i | 0 <= i < |earlier| :: earlier[i] == entries[i];
        }
        forall k | 0 <= k < |entries| && LastOfName(entries, k, name) ensures k < |earlier| {}
      }
    }
  }

  /** The old file's last entry of the same name has the same size and bytes. */
  ghost predicate SameBefore(base: Bytes, baseEntries: seq<Entry>, target: Bytes, e: Entry)
  {
    exists k | 0 <= k < |baseEntries| ::
      && LastOfName(baseEntries, k, e.name) && baseEntries[k].size == e.size
      && Slice(base, baseEntries[k].start, baseEntries[k].start + e.size) == Slice(target, e.start, e.start + e.size)
  }

  /**
   * What a delta copies: every entry of the new file of 4096 bytes or more that is, byte for byte, the old
   * file's last entry of that name, and no other.
   */
  lemma {:induction false} CopiedExactly(base: Bytes, baseEntries: seq<Entry>, target: Bytes, entries: seq<Entry>,
                                         e: Entry)
    ensures e in Copied(base, baseEntries, target, entries) <==>
              e in entries && e.size >= 4096 && SameBefore(base, baseEntries, target, e)
  {
    PreviousExactly(baseEntries, e.name);
    if entries != [] {
      var earlier, last := entries[..|entries| - 1], entries[|entries| - 1];
      CopiedExactly(base, baseEntries, target, earlier, e);
      assert entries == earlier + [last];
      hide Slice, Previous, LastOfName;
    }
  }

  /** A plan applies to the file it was made from, when its spans stand for the bytes it promises, and to no other. */
  lemma AppliesExactly(base: Bytes, plan: Plan)
    ensures Applied(base, plan).Some? <==>
              base == plan.base && Denoted(base, plan.spans) == Some(plan.target) && |plan.target| == plan.size
    ensures Applied(base, plan).Some? ==> Applied(base, plan) == Some(plan.target)
  {
  }

  /** Files by name, changed one operation at a time; the trail keeps every state a crash could leave. */
  class Directory {
    var files: map<string, Bytes>
    ghost var trail: seq<map<string, Bytes>>

    constructor (files: map<string, Bytes>)
      ensures this.files == files && trail == [files]
    {
      this.files, this.trail := files, [files];
    }

    method Put(name: string, bytes: Bytes)
      modifies this
      ensures files == old(files)[name := bytes] && trail == old(trail) + [files]
    {
      files := files[name := bytes];
      trail := trail + [files];
    }

    method Remove(name: string)
      modifies this
      ensures files == old(files) - {name} && trail == old(trail) + [files]
    {
      files := files - {name};
      trail := trail + [files];
    }

    method Replace(source: string, target: string)
      requires source in files
      modifies this
      ensures files == old(files)[target := old(files)[source]] - {source} && trail == old(trail) + [files]
    {
      files := files[target := files[source]] - {source};
      trail := trail + [files];
    }

    /**
     * Rebuilds the new file beside the output, and renames it there only when it is complete and right.
     * The output never holds anything else, and a failure leaves every file as it was.
     */
    method Apply(base: Bytes, plan: Plan, output: string) returns (ok: bool)
      modifies this
      ensures ok <==> output !in old(files) && output + ".part" !in old(files) && Applied(base, plan).Some?
      ensures files == if ok then old(files)[output := plan.target] else old(files)
      ensures old(trail) <= trail
      ensures output !in old(files) ==>
                forall k | |old(trail)| <= k < |trail| :: output in trail[k] ==> trail[k][output] == plan.target
    {
      if base != plan.base { return false; }
      if output in files { return false; }
      var temporary := output + ".part";
      if temporary in files { return false; }
      ghost var before := files;
      Put(temporary, []);
      var written := WriteSpans(base, plan, temporary, output, before);
      if written.None? || |written.value| != plan.size || written.value != plan.target {
        Remove(temporary);
        return false;
      }
      Replace(temporary, output);
      ok := true;
    }

    /** The span loop: the staging file grows span by span, until one is out of range or too much is written. */
    method WriteSpans(base: Bytes, plan: Plan, temporary: string, output: string, ghost before: map<string, Bytes>)
        returns (written: Option<Bytes>)
      requires temporary !in before && output !in before && output != temporary && files == before[temporary := []]
      modifies this
      ensures written.Some? ==> written == Denoted(base, plan.spans) && files == before[temporary := written.value]
      ensures written.None? ==> Denoted(base, plan.spans).None? || |Denoted(base, plan.spans).value| > plan.size
      ensures temporary in files && files == before[temporary := files[temporary]]
      ensures old(trail) <= trail && AbsentSince(trail, |old(trail)|, output)
    {
      var bytes: Bytes := [];
      assert Denoted(base, []) == Some(bytes) && plan.spans[..0] == [];
      assert AbsentSince(trail, |trail|, output);
      hide *;
      for i := 0 to |plan.spans|
        invariant Denoted(base, plan.spans[..i]) == Some(bytes)
        invariant files == before[temporary := bytes]
        invariant old(trail) <= trail && AbsentSince(trail, |old(trail)|, output)
      {
        var span := plan.spans[i];
        SpanTurn(base, plan.spans, i, bytes);
        if !Inside(base, span) { return None; }
        var data := SpanBytes(base, span);
        if |bytes| + |data| > plan.size { return None; }
        bytes := bytes + data;
        AbsentMore(trail, |old(trail)|, files[temporary := bytes], output);
        Put(temporary, bytes);
      }
      assert plan.spans[..|plan.spans|] == plan.spans;
      written := Some(bytes);
    }
  }

  /** One turn of the span loop: what is denoted so far, or why all the spans denote nothing or something longer. */
  lemma SpanTurn(base: Bytes, spans: seq<Span>, i: nat, bytes: Bytes)
    requires i < |spans| && Denoted(base, spans[..i]) == Some(bytes)
    ensures !Inside(base, spans[i]) ==> Denoted(base, spans).None?
    ensures Inside(base, spans[i]) ==>
              && Denoted(base, spans[..i + 1]) == Some(bytes + SpanBytes(base, spans[i]))
              && (Denoted(base, spans).Some? ==> |bytes| + |SpanBytes(base, spans[i])| <= |Denoted(base, spans).value|)
  {
    assert spans[..i + 1] == spans[..i] + [spans[i]];
    DenotedLast(base, spans[..i], spans[i]);
    if !Inside(base, spans[i]) {
      DenotedFails(base, spans, i + 1);
    } else if Denoted(base, spans).Some? {
      DenotedGrows(base, spans, i + 1);
    }
  }

  /** No state from a given moment on has the file. */
  ghost predicate AbsentSince(trail: seq<map<string, Bytes>>, start: nat, name: string)
  {
    forall k | start <= k < |trail| :: name !in trail[k]
  }

  lemma AbsentMore(trail: seq<map<string, Bytes>>, start: nat, files: map<string, Bytes>, name: string)
    requires AbsentSince(trail, start, name) && name !in files
    ensures AbsentSince(trail + [files], start, name)
  {
  }

  /** Which file a positioned copy reads: the old package or the literal payload. */
  datatype Source = FromBase | FromPayload

  /** dd with byte offsets: `count` bytes of a source from `skip`, written at `seek` without truncating. */
  datatype Command = Dd(source: Source, skip: nat, count: nat, seek: nat)

  datatype Export = Export(payload: Bytes, commands: seq<Command>, position: nat)

  /** A command is left out when it would copy nothing. */
  function CopyUnlessEmpty(source: Source, skip: nat, count: nat, seek: nat): seq<Command>
  {
    if count == 0 then [] else [Dd(source, skip, count, seek)]
  }

  /** One turn of the export loop; nothing when a copy has a negative start or size. */
  function ExportSpan(e: Export, span: Span): Option<Export>
  {
    match span
    case Copy(start, size) =>
      if start < 0 || size < 0 then None
      else Some(Export(e.payload, e.commands + CopyUnlessEmpty(FromBase, start, size, e.position), e.position + size))
    case Literal(data) =>
      Some(Export(e.payload + data, e.commands + CopyUnlessEmpty(FromPayload, |e.payload|, |data|, e.position),
          e.position + |data|))
  }

  /** The payload and the commands a span list becomes. */
  function Exported(spans: seq<Span>): Option<Export>
  {
    if spans == [] then Some(Export([], [], 0))
    else
      match Exported(spans[..|spans| - 1])
      case None => None
      case Some(earlier) => ExportSpan(earlier, spans[|spans| - 1])
  }

  lemma {:induction false} ExportFails(spans: seq<Span>, n: nat)
    requires n <= |spans| && Exported(spans[..n]).None?
    ensures Exported(spans).None?
  {
    if n == |spans| {
      assert spans[..n] == spans;
    } else {
      assert spans[..|spans| - 1][..n] == spans[..n];
      ExportFails(spans[..|spans| - 1], n);
    }
  }

  /** The exporter: the payload file and the script's commands, unless a span or the size is wrong. */
  method ExportPlan(plan: Plan) returns (result: Option<Export>)
    ensures result == match Exported(plan.spans)
                      case None => None
                      case Some(e) => if e.position == plan.size then Some(e) else None
  {
    var payload: Bytes, commands: seq<Command>, position: nat := [], [], 0;
    for i := 0 to |plan.spans|
      invariant Exported(plan.spans[..i]) == Some(Export(payload, commands, position))
    {
      var span := plan.spans[i];
      assert plan.spans[..i + 1][..i] == plan.spans[..i];
      var source, start, size;
      match span {
        case Copy(first, count) =>
          if first < 0 || count < 0 {
            ExportFails(plan.spans, i + 1);
            return None;
          }
          source, start, size := FromBase, first, count;
        case Literal(data) =>
          source, start, size := FromPayload, |payload|, |data|;
          payload := payload + data;
      }
      commands := commands + CopyUnlessEmpty(source, start, size, position);
      position := position + size;
    }
    assert plan.spans[..|plan.spans|] == plan.spans;
    result := if position == plan.size then Some(Export(payload, commands, position)) else None;
  }

  /** Bytes written at an offset: a gap before it reads as zeros, and what lies beyond stays. */
  function WrittenAt(out: Bytes, seek: nat, data: Bytes): Bytes
  {
    if data == [] then out
    else
      var padded := if |out| < seek then out + seq(seek - |out|, i => 0) else out;
      padded[..seek] + data + Rest(padded, seek + |data|)
  }

  function Input(source: Source, base: Bytes, payload: Bytes): Bytes
  {
    if source == FromBase then base else payload
  }

  /** The output file after the commands, run in order on an empty file. */
  function Ran(commands: seq<Command>, base: Bytes, payload: Bytes): Bytes
  {
    if commands == [] then []
    else
      var last := commands[|commands| - 1];
      WrittenAt(Ran(commands[..|commands| - 1], base, payload), last.seek,
                Slice(Input(last.source, base, payload), last.skip, last.skip + last.count))
  }

  /** The script's verdict: its output, when the inputs and the output have the digests it expects. */
  function Scripted(base: Bytes, plan: Plan): Option<Bytes>
  {
    match Exported(plan.spans)
    case None => None
    case Some(e) =>
      var out := Ran(e.commands, base, e.payload);
      if e.position == plan.size && base == plan.base && out == plan.target then Some(out) else None
  }

  predicate AllInside(base: Bytes, spans: seq<Span>)
  {
    forall i | 0 <= i < |spans| :: Inside(base, spans[i])
  }

  lemma WrittenAtEnd(out: Bytes, data: Bytes)
    ensures WrittenAt(out, |out|, data) == out + data
  {
    if data == [] {
      assert out + data == out;
    } else {
      assert out[..|out|] == out;
    }
  }

  lemma RanLast(commands: seq<Command>, last: Command, base: Bytes, payload: Bytes)
    ensures Ran(commands + [last], base, payload)
         == WrittenAt(Ran(commands, base, payload), last.seek,
             Slice(Input(last.source, base, payload), last.skip, last.skip + last.count))
  {
    assert (commands + [last])[..|commands|] == commands;
  }

  /** One command appends exactly the bytes it reads. */
  lemma RanAppend(commands: seq<Command>, base: Bytes, payload: Bytes, source: Source, skip: nat, count: nat)
    requires skip + count <= |Input(source, base, payload)|
    ensures var out := Ran(commands, base, payload);
            Ran(commands + CopyUnlessEmpty(source, skip, count, |out|), base, payload)
            == out + Input(source, base, payload)[skip..skip + count]
  {
    hide Ran, Input;
    var out := Ran(commands, base, payload);
    var input := Input(source, base, payload);
    if count == 0 {
      assert commands + CopyUnlessEmpty(source, skip, count, |out|) == commands;
      assert input[skip..skip] == [] && out + [] == out;
    } else {
      RanLast(commands, Dd(source, skip, count, |out|), base, payload);
      WrittenAtEnd(out, input[skip..skip + count]);
      hide WrittenAt;
    }
  }

  /** One span's command appends what the span stands for, once the payload sent holds its literal bytes. */
  lemma SpanReplays(base: Bytes, e: Export, span: Span, payload: Bytes)
    requires Inside(base, span) && ExportSpan(e, span).value.payload <= payload
    requires e.position == |Ran(e.commands, base, payload)|
    ensures var e' := ExportSpan(e, span).value;
            && Ran(e'.commands, base, payload) == Ran(e.commands, base, payload) + SpanBytes(base, span)
            && e'.position == e.position + |SpanBytes(base, span)|
  {
    hide Ran, CopyUnlessEmpty;
    match span
    case Copy(start, size) => RanAppend(e.commands, base, payload, FromBase, start, size);
    case Literal(data) =>
      assert payload[|e.payload|..|e.payload| + |data|] == data;
      RanAppend(e.commands, base, payload, FromPayload, |e.payload|, |data|);
  }

  /** With every copy inside the old file, the commands write what the spans stand for, one after the other. */
  lemma {:induction false} ExportReplays(base: Bytes, spans: seq<Span>, payload: Bytes)
    requires AllInside(base, spans)
    ensures Denoted(base, spans).Some? && Exported(spans).Some?
    ensures Exported(spans).value.payload <= payload ==>
              && Ran(Exported(spans).value.commands, base, payload) == Denoted(base, spans).value
              && Exported(spans).value.position == |Denoted(base, spans).value|
  {
    if spans != [] {
      var earlier, last := spans[..|spans| - 1], spans[|spans| - 1];
      assert Inside(base, last);
      ExportReplays(base, earlier, payload);
      var e := Exported(earlier).value;
      assert Exported(spans) == ExportSpan(e, last);
      if Exported(spans).value.payload <= payload {
        assert e.payload <= payload;
        SpanReplays(base, e, last, payload);
        hide Ran, ExportSpan, Exported;
      }
    }
  }

  lemma {:induction false} DenotedInside(base: Bytes, spans: seq<Span>)
    ensures Denoted(base, spans).Some? <==> AllInside(base, spans)
  {
    if spans != [] {
      var earlier := spans[..|spans| - 1];
      DenotedInside(base, earlier);
      assert forall i | 0 <= i < |earlier| :: earlier[i] == spans[i];
      assert AllInside(base, spans) <==> AllInside(base, earlier) && Inside(base, spans[|spans| - 1]);
    }
  }

  /**
   * The two executors agree on every plan whose copies lie inside the old file, which every plan that
   * applies does: same verdict, same bytes.
   */
  lemma ExecutorsAgree(base: Bytes, plan: Plan)
    ensures AllInside(base, plan.spans) ==> Scripted(base, plan) == Applied(base, plan)
    ensures Applied(base, plan).Some? ==> Scripted(base, plan) == Applied(base, plan) == Some(plan.target)
    ensures Applied(base, plan).Some? <==> AllInside(base, plan.spans) && Scripted(base, plan).Some?
  {
    DenotedInside(base, plan.spans);
    if AllInside(base, plan.spans) {
      ExportReplays(base, plan.spans, []);
      ExportReplays(base, plan.spans, Exported(plan.spans).value.payload);
    }
  }

  const SHORT: seq<Span> := [Copy(0, 1), Literal([7])]
  const SHORT_COMMANDS: seq<Command> := [Dd(FromBase, 0, 1, 0), Dd(FromPayload, 0, 1, 1)]

  lemma ShortExported()
    ensures Exported(SHORT) == Some(Export([7], SHORT_COMMANDS, 2))
  {
    var e, data: Bytes := Export([], [], 0), [7];
    assert Exported([]) == Some(e) && SHORT[..1] == [Copy(0, 1)] && [Copy(0, 1)][..0] == [];
    var e1 := Export([], [SHORT_COMMANDS[0]], 1);
    assert [] + CopyUnlessEmpty(FromBase, 0, 1, 0) == e1.commands;
    assert ExportSpan(e, SHORT[0]) == Some(e1) && Exported([Copy(0, 1)]) == Some(e1);
    assert e1.commands + CopyUnlessEmpty(FromPayload, 0, 1, 1) == SHORT_COMMANDS && [] + data == data;
    assert SHORT[1] == Literal(data);
  }

  lemma ShortRan()
    ensures Ran(SHORT_COMMANDS, [], [7]) == [0, 7]
  {
    assert [] + [SHORT_COMMANDS[0]] == [SHORT_COMMANDS[0]]
        && [SHORT_COMMANDS[0]] + [SHORT_COMMANDS[1]] == SHORT_COMMANDS;
    assert Ran([], [], [7]) == [];
    RanLast([], SHORT_COMMANDS[0], [], [7]);
    RanLast([SHORT_COMMANDS[0]], SHORT_COMMANDS[1], [], [7]);
    hide Ran;
    assert WrittenAt([], 0, Slice([], 0, 1)) == [];
    assert WrittenAt([], 1, Slice([7], 0, 1)) == [0, 7];
  }

  /**
   * The script accepts more: a copy past the end of the old file writes nothing, and the gap it leaves
   * reads as zeros.  Here it yields the promised bytes from a plan that does not apply.
   */
  lemma ScriptAcceptsMore()
    ensures var plan := Plan([], [0, 7], 2, SHORT);
            Applied([], plan).None? && Scripted([], plan) == Some([0, 7])
  {
    DenotedInside([], SHORT);
    assert !Inside([], SHORT[0]);
    ShortExported();
    ShortRan();
    hide Exported, Ran;
  }
}
