/**
 * What one run of the upgrade helper does to the files of the root, as values:
 * the ordered list of files it puts in place, the single durable steps of that
 * list, and what every sequence of such steps keeps.
 *
 * A run that dies stops between two steps; a torn write has stopped at some
 * prefix.  The next run starts its own steps from the files it finds, so a chain
 * of steps is any number of interrupted runs one after the other.
 */
module Publication {
  import opened Basics

  /** The paths a run reads or writes. `Staged(p)` is the `.tinyagent-new` sibling of `p`. */
  datatype Path =
    | RootId
    | Installed(name: string)
    | Backup(tag: string, root: Bytes, name: string)
    | Staged(target: Path)

  /** The folders above a name, outermost first. */
  function Parents(name: string): seq<string>
  {
    if name == "" then []
    else
      var shorter := name[..|name| - 1];
      Parents(shorter) + if name[|name| - 1] == '/' then [shorter] else []
  }

  function Text(data: Bytes): string
  {
    seq(|data|, i requires 0 <= i < |data| => data[i] as int as char)
  }

  /** The folders a publication makes before it stages a file. */
  function FoldersOf(p: Path): seq<string>
  {
    match p
    case RootId => []
    case Installed(name) => Parents(name)
    case Backup(tag, root, _) => Parents("var/lib/dnfast-upgrades/" + tag + "/" + Text(root) + "/")
    case Staged(target) => FoldersOf(target)
  }

  /** Every folder comes after the folders above it. */
  lemma {:induction false} ParentsNested(name: string, k: nat)
    requires k < |Parents(name)|
    ensures Parents(Parents(name)[k]) == Parents(name)[..k]
  {
    var shorter := name[..|name| - 1];
    if k < |Parents(shorter)| {
      ParentsNested(shorter, k);
      assert Parents(name)[..k] == Parents(shorter)[..k];
    } else {
      assert Parents(name)[..k] == Parents(shorter);
    }
  }

  /** The folders above a name are its parts that end before a slash. */
  lemma {:induction false} ParentsExactly(name: string, d: string)
    ensures d in Parents(name) <==> d + "/" <= name
  {
    if name != "" {
      var shorter := name[..|name| - 1];
      ParentsExactly(shorter, d);
      PrefixOneMore(d + "/", name);
      assert d + "/" == name <==> d == shorter && name[|name| - 1] == '/' by {
        assert name == shorter + [name[|name| - 1]];
      }
      hide *;
    }
    OneMoreParent(name, d);
  }

  lemma OneMoreParent(name: string, d: string)
    ensures name != "" ==> (d in Parents(name) <==>
              d in Parents(name[..|name| - 1]) || (name[|name| - 1] == '/' && d == name[..|name| - 1]))
    ensures name == "" ==> Parents(name) == []
  {
  }

  lemma PrefixOneMore(a: string, name: string)
    requires name != ""
    ensures a <= name <==> a == name || a <= name[..|name| - 1]
  {
  }

  lemma {:induction false} ParentsPlain(above: string, part: string)
    requires '/' !in part
    ensures Parents(above + part) == Parents(above)
  {
    if part == "" {
      assert above + part == above;
    } else {
      var name, shorter := above + part, part[..|part| - 1];
      assert name[..|name| - 1] == above + shorter && name[|name| - 1] == part[|part| - 1];
      ParentsPlain(above, shorter);
    }
  }

  lemma ParentsBelow(above: string, part: string)
    requires '/' !in part
    ensures Parents(above + part + "/") == Parents(above) + [above + part]
  {
    var name := above + part + "/";
    assert name[..|name| - 1] == above + part;
    ParentsPlain(above, part);
  }

  /** The folders of a backup, from the outermost to the one named by the identity of the root. */
  lemma BackupFolders(tag: string, root: Bytes, name: string)
    requires '/' !in tag && '/' !in Text(root)
    ensures FoldersOf(Backup(tag, root, name))
         == ["var", "var/lib", "var/lib/dnfast-upgrades", "var/lib/dnfast-upgrades/" + tag,
             "var/lib/dnfast-upgrades/" + tag + "/" + Text(root)]
    ensures FoldersOf(Staged(Backup(tag, root, name))) == FoldersOf(Backup(tag, root, name))
    ensures |Text(root)| == |root| && forall i | 0 <= i < |root| :: Text(root)[i] as int == root[i] as int
  {
    UpgradesFolders();
    var base := "var/lib/dnfast-upgrades/";
    ParentsBelow(base, tag);
    var below := base + tag + "/";
    ParentsBelow(below, Text(root));
    hide Parents, Text;
    assert FoldersOf(Backup(tag, root, name)) == Parents(below + Text(root) + "/");
  }

  lemma UpgradesFolders()
    ensures Parents("var/lib/dnfast-upgrades/") == ["var", "var/lib", "var/lib/dnfast-upgrades"]
  {
    LibFolders();
    ParentsBelow("var/lib/", "dnfast-upgrades");
    hide Parents;
    assert "var/lib/" + "dnfast-upgrades" == "var/lib/dnfast-upgrades";
    assert "var/lib/dnfast-upgrades" + "/" == "var/lib/dnfast-upgrades/";
  }

  lemma LibFolders()
    ensures Parents("var/lib/") == ["var", "var/lib"]
  {
    assert Parents("") == [];
    ParentsBelow("", "var");
    ParentsBelow("var/", "lib");
    hide Parents;
    assert "" + "var" == "var" && "var" + "/" == "var/";
    assert "var/" + "lib" == "var/lib" && "var/lib" + "/" == "var/lib/";
  }

  /** `Odd` is whatever the reader refuses: links, directories, foreign or multiply linked files. */
  datatype Item = Regular(data: Bytes) | Odd

  type Files = map<Path, Item>

  /**
   * One pinned upgrade: the executables it replaces and the files it installs, in archive order.  Its backups go
   * below a tag of its own and the identity of the root, which is read from the root before anything else.
   */
  datatype Release = Release(
    tag: string, root: Bytes,
    originals: seq<string>, original: map<string, Bytes>,
    members: seq<string>, payload: map<string, Bytes>)

  predicate Distinct<T(==)>(s: seq<T>)
  {
    forall i, j | 0 <= i < j < |s| :: s[i] != s[j]
  }

  /** What the pinned constants and the pinned manifest provide. */
  predicate WellFormed(r: Release)
  {
    && Distinct(r.originals) && Distinct(r.members)
    && (forall n | n in r.members :: n in r.payload)
    && (forall n | n in r.originals :: n in r.members && n in r.original && r.original[n] != r.payload[n])
  }

  // --- The plan -------------------------------------------------------------

  /** Put `data` at `target`; a backup copies it from an installed file, and only an executable is written over. */
  datatype Step = Step(target: Path, data: Bytes, source: Option<Path>, over: bool)

  function Keep(names: seq<string>, executables: seq<string>, wanted: bool): (r: seq<string>)
    ensures forall n :: n in r <==> n in names && (n in executables) == wanted
    ensures Distinct(names) ==> Distinct(r)
  {
    if names == [] then []
    else
      var rest := Keep(names[1..], executables, wanted);
      if (names[0] in executables) == wanted then [names[0]] + rest else rest
  }

  /** `sorted(payloads, key=lambda name: name in OLD)`: a stable sort, so libraries come first. */
  function PublishOrder(r: Release): (names: seq<string>)
    ensures forall n :: n in names <==> n in r.members
    ensures Distinct(r.members) ==> Distinct(names)
  {
    var libraries, executables := Keep(r.members, r.originals, false), Keep(r.members, r.originals, true);
    assert forall i, j | 0 <= i < |libraries| && 0 <= j < |executables| :: libraries[i] != executables[j] by {
      forall i, j | 0 <= i < |libraries| && 0 <= j < |executables| ensures libraries[i] != executables[j] {
        assert libraries[i] in libraries && executables[j] in executables;
      }
    }
    libraries + executables
  }

  lemma {:induction false} KeepStable(names: seq<string>, executables: seq<string>, wanted: bool, i: nat, j: nat)
      returns (a: nat, b: nat)
    requires i < j < |Keep(names, executables, wanted)|
    ensures a < b < |names| && names[a] == Keep(names, executables, wanted)[i]
    ensures names[b] == Keep(names, executables, wanted)[j]
  {
    var rest, kept := Keep(names[1..], executables, wanted), (names[0] in executables) == wanted;
    assert Keep(names, executables, wanted) == if kept then [names[0]] + rest else rest;
    hide Keep;
    if !kept {
      a, b := KeepStable(names[1..], executables, wanted, i, j);
      a, b := a + 1, b + 1;
    } else if i == 0 {
      assert rest[j - 1] in rest;
      var k :| 0 <= k < |names[1..]| && names[1..][k] == rest[j - 1];
      a, b := 0, k + 1;
    } else {
      a, b := KeepStable(names[1..], executables, wanted, i - 1, j - 1);
      a, b := a + 1, b + 1;
    }
  }

  /** The sort is stable: libraries before executables, and each kind in the order of the archive. */
  lemma PublishOrderStable(r: Release, i: nat, j: nat) returns (a: nat, b: nat)
    requires i < j < |PublishOrder(r)|
    ensures PublishOrder(r)[i] in r.originals ==> PublishOrder(r)[j] in r.originals
    ensures a < |r.members| && r.members[a] == PublishOrder(r)[i]
    ensures b < |r.members| && r.members[b] == PublishOrder(r)[j]
    ensures (PublishOrder(r)[i] in r.originals) == (PublishOrder(r)[j] in r.originals) ==> a < b
  {
    var libraries, executables := Keep(r.members, r.originals, false), Keep(r.members, r.originals, true);
    var n := |libraries|;
    assert i < n ==> PublishOrder(r)[i] == libraries[i] && libraries[i] in libraries;
    assert j < n ==> PublishOrder(r)[j] == libraries[j] && libraries[j] in libraries;
    assert i >= n ==> PublishOrder(r)[i] == executables[i - n] && executables[i - n] in executables;
    assert j >= n ==> PublishOrder(r)[j] == executables[j - n] && executables[j - n] in executables;
    if j < n {
      a, b := KeepStable(r.members, r.originals, false, i, j);
    } else if i >= n {
      a, b := KeepStable(r.members, r.originals, true, i - n, j - n);
    } else {
      a :| 0 <= a < |r.members| && r.members[a] == libraries[i];
      b :| 0 <= b < |r.members| && r.members[b] == executables[j - n];
    }
  }

  function BackupStep(r: Release, n: string): Step
    requires n in r.original
  {
    Step(Backup(r.tag, r.root, n), r.original[n], Some(Installed(n)), false)
  }

  function InstallStep(r: Release, n: string): Step
    requires n in r.payload
  {
    Step(Installed(n), r.payload[n], None, n in r.originals)
  }

  function BackupPlan(r: Release): (plan: seq<Step>)
    requires WellFormed(r)
    ensures |plan| == |r.originals|
  {
    seq(|r.originals|, i requires 0 <= i < |r.originals| => BackupStep(r, r.originals[i]))
  }

  function InstallPlan(r: Release): (plan: seq<Step>)
    requires WellFormed(r)
    ensures |plan| == |PublishOrder(r)|
  {
    seq(|PublishOrder(r)|, i requires 0 <= i < |PublishOrder(r)| => InstallStep(r, PublishOrder(r)[i]))
  }

  function Plan(r: Release): seq<Step>
    requires WellFormed(r)
  {
    BackupPlan(r) + InstallPlan(r)
  }

  /** No two steps share a target and no step targets a staging file. */
  predicate Separate(plan: seq<Step>)
  {
    && (forall i, j | 0 <= i < j < |plan| :: plan[i].target != plan[j].target)
    && (forall i | 0 <= i < |plan| :: !plan[i].target.Staged?
          && (plan[i].source.Some? ==> !plan[i].source.value.Staged?))
  }

  lemma PlanSeparate(r: Release)
    requires WellFormed(r)
    ensures Separate(Plan(r))
  {
  }

  lemma BackupIndex(r: Release, n: string) returns (i: nat)
    requires WellFormed(r) && n in r.originals
    ensures i < |r.originals| && Plan(r)[i] == BackupStep(r, n)
  {
    i :| 0 <= i < |r.originals| && r.originals[i] == n;
  }

  lemma InstallIndex(r: Release, n: string) returns (i: nat)
    requires WellFormed(r) && n in r.members
    ensures |r.originals| <= i < |Plan(r)| && Plan(r)[i] == InstallStep(r, n)
    ensures n !in r.originals ==> i < |r.originals| + |Libraries(r)|
    ensures n in r.originals ==> i >= |r.originals| + |Libraries(r)|
  {
    var part := Keep(r.members, r.originals, n in r.originals);
    assert n in part;
    var k :| 0 <= k < |part| && part[k] == n;
    i := |r.originals| + k + if n in r.originals then |Libraries(r)| else 0;
    assert PublishOrder(r)[i - |r.originals|] == n;
  }

  lemma InstallEntry(r: Release, i: nat)
    requires WellFormed(r) && |r.originals| <= i < |Plan(r)|
    ensures i - |r.originals| < |PublishOrder(r)|
    ensures var n := PublishOrder(r)[i - |r.originals|]; n in r.members && Plan(r)[i] == InstallStep(r, n)
  {
    assert PublishOrder(r)[i - |r.originals|] in PublishOrder(r);
  }

  /** Every entry is the backup of an original or the installation of a member. */
  lemma PlanEntry(r: Release, i: nat) returns (n: string)
    requires WellFormed(r) && i < |Plan(r)|
    ensures i < |r.originals| ==> n in r.originals && Plan(r)[i] == BackupStep(r, n)
    ensures i >= |r.originals| ==> n in r.members && Plan(r)[i] == InstallStep(r, n)
    ensures |r.originals| <= i < |r.originals| + |Libraries(r)| ==> n !in r.originals
    ensures i >= |r.originals| + |Libraries(r)| ==> n in r.originals
  {
    if i < |r.originals| {
      n := r.originals[i];
    } else {
      n := PublishOrder(r)[i - |r.originals|];
      InOrder(r, i - |r.originals|);
    }
    hide Keep, Libraries, PublishOrder;
  }

  /** A place of the publication order: a library first, then an executable. */
  lemma InOrder(r: Release, k: nat)
    requires k < |PublishOrder(r)|
    ensures PublishOrder(r)[k] in r.members
    ensures PublishOrder(r)[k] in r.originals <==> k >= |Libraries(r)|
  {
    var libraries, executables := Libraries(r), Keep(r.members, r.originals, true);
    assert PublishOrder(r)[k] in PublishOrder(r);
    hide Keep;
    if k < |libraries| {
      assert libraries[k] in libraries;
    } else {
      assert executables[k - |libraries|] in executables;
    }
  }

  // --- Effect of a plan -------------------------------------------------------

  predicate Holds(f: Files, p: Path, data: Bytes)
  {
    p in f && f[p] == Regular(data)
  }

  predicate Placed(f: Files, s: Step)
  {
    Holds(f, s.target, s.data)
  }

  /** The bytes to back up are there, and nothing but an executable stands in the way. */
  predicate Ready(f: Files, s: Step)
  {
    (s.source.Some? ==> Holds(f, s.source.value, s.data)) && (s.target in f ==> s.over)
  }

  predicate AllPlaced(f: Files, plan: seq<Step>)
  {
    forall i | 0 <= i < |plan| :: Placed(f, plan[i])
  }

  /** Staging may start afresh, or resume a file that is a prefix of the bytes to come. */
  predicate CanStage(f: Files, s: Step)
  {
    Staged(s.target) in f ==> f[Staged(s.target)].Regular? && f[Staged(s.target)].data <= s.data
  }

  /** The rename: the staging file takes the place of the target. */
  function Place(f: Files, s: Step): Files
  {
    (f - {Staged(s.target)})[s.target := Regular(s.data)]
  }

  function PlaceAll(f: Files, plan: seq<Step>): Files
    decreases |plan|
  {
    if plan == [] then f
    else PlaceAll(if Placed(f, plan[0]) then f else Place(f, plan[0]), plan[1..])
  }

  /** The final files, path by path: targets hold their bytes, used staging is gone, the rest is untouched. */
  ghost predicate IsResult(f: Files, plan: seq<Step>, g: Files)
  {
    && AllPlaced(g, plan)
    && (forall i | 0 <= i < |plan| ::
          var t := Staged(plan[i].target);
          && (t in g <==> t in f && Placed(f, plan[i]))
          && (t in g ==> g[t] == f[t]))
    && (forall p | Untouched(plan, p) :: (p in g <==> p in f) && (p in f ==> g[p] == f[p]))
  }

  predicate Untouched(plan: seq<Step>, p: Path)
  {
    forall i | 0 <= i < |plan| :: p != plan[i].target && p != Staged(plan[i].target)
  }

  lemma {:induction false} PlaceAllResult(f: Files, plan: seq<Step>)
    requires Separate(plan)
    ensures IsResult(f, plan, PlaceAll(f, plan))
    decreases |plan|
  {
    if plan != [] {
      var f1 := if Placed(f, plan[0]) then f else Place(f, plan[0]);
      var rest := plan[1..];
      PlaceAllResult(f1, rest);
      var g := PlaceAll(f1, rest);
      var t := plan[0].target;
      assert Untouched(rest, t) && Untouched(rest, Staged(t)) by {
        forall j | 0 <= j < |rest| ensures t != rest[j].target && Staged(t) != rest[j].target
            && t != Staged(rest[j].target) && Staged(t) != Staged(rest[j].target) {
          assert rest[j] == plan[j + 1];
        }
      }
      forall i | 0 <= i < |plan|
        ensures Placed(g, plan[i])
        ensures Staged(plan[i].target) in g <==> Staged(plan[i].target) in f && Placed(f, plan[i])
        ensures Staged(plan[i].target) in g ==> g[Staged(plan[i].target)] == f[Staged(plan[i].target)]
      {
        if i > 0 { assert rest[i - 1] == plan[i]; }
      }
      forall p | Untouched(plan, p) ensures (p in g <==> p in f) && (p in f ==> g[p] == f[p]) {
        assert p != plan[0].target && p != Staged(plan[0].target);
        assert Untouched(rest, p);
      }
    }
  }

  lemma ResultUnique(f: Files, plan: seq<Step>, g: Files, h: Files)
    requires IsResult(f, plan, g) && IsResult(f, plan, h)
    ensures g == h
  {
    forall p ensures (p in g <==> p in h) && (p in g ==> g[p] == h[p]) {
      if !Untouched(plan, p) {
        var i :| 0 <= i < |plan| && (p == plan[i].target || p == Staged(plan[i].target));
        assert Placed(g, plan[i]) && Placed(h, plan[i]);
      }
    }
    assert g.Keys == h.Keys;
  }

  lemma {:induction false} PlaceAllStep(f: Files, plan: seq<Step>, i: nat)
    requires i < |plan|
    ensures PlaceAll(f, plan[..i + 1])
         == (var g := PlaceAll(f, plan[..i]); if Placed(g, plan[i]) then g else Place(g, plan[i]))
    decreases i
  {
    if i == 0 {
      assert plan[..1][1..] == [];
    } else {
      var f1 := if Placed(f, plan[0]) then f else Place(f, plan[0]);
      PlaceAllStep(f1, plan[1..], i - 1);
      assert plan[..i + 1][1..] == plan[1..][..i] && plan[..i][1..] == plan[1..][..i - 1];
    }
  }

  // --- Single durable steps -----------------------------------------------------

  /** One durable change while plan entry `i` is being put in place and all before it are. */
  ghost predicate StepAt(plan: seq<Step>, i: nat, f: Files, g: Files)
    requires i < |plan|
  {
    var s, t := plan[i], Staged(plan[i].target);
    && AllPlaced(f, plan[..i]) && !Placed(f, s) && Ready(f, s)
    && (|| (t !in f && g == f[t := Regular([])])
        || (t in f && f[t].Regular? && f[t].data < s.data && g == f[t := Regular(s.data[..|f[t].data| + 1])])
        || (t in f && f[t] == Regular(s.data) && g == Place(f, s)))
  }

  ghost predicate FileStep(plan: seq<Step>, f: Files, g: Files)
  {
    exists i | 0 <= i < |plan| :: StepAt(plan, i, f, g)
  }

  /** Interruption does not change the outcome: every step keeps the final files. */
  lemma StepKeepsResult(plan: seq<Step>, f: Files, g: Files)
    requires Separate(plan) && FileStep(plan, f, g)
    ensures PlaceAll(f, plan) == PlaceAll(g, plan)
  {
    var i :| 0 <= i < |plan| && StepAt(plan, i, f, g);
    var s, t := plan[i], Staged(plan[i].target);
    PlaceAllResult(f, plan);
    PlaceAllResult(g, plan);
    var h := PlaceAll(g, plan);
    forall j | 0 <= j < |plan|
      ensures Staged(plan[j].target) in h <==> Staged(plan[j].target) in f && Placed(f, plan[j])
      ensures Staged(plan[j].target) in h ==> h[Staged(plan[j].target)] == f[Staged(plan[j].target)]
    {
      StepKeepsUsed(plan, i, f, g, j);
    }
    forall p | Untouched(plan, p) ensures (p in h <==> p in f) && (p in f ==> h[p] == f[p]) {
      assert p != s.target && p != t;
      StepFrame(plan, i, f, g);
    }
    assert IsResult(f, plan, h);
    ResultUnique(f, plan, PlaceAll(f, plan), h);
  }

  /** A step changes neither which targets beside a staging file are placed, nor those staging files. */
  lemma StepKeepsUsed(plan: seq<Step>, i: nat, f: Files, g: Files, j: nat)
    requires Separate(plan) && i < |plan| && j < |plan| && StepAt(plan, i, f, g)
    ensures var t := Staged(plan[j].target);
            && (t in g && Placed(g, plan[j]) <==> t in f && Placed(f, plan[j]))
            && (t in f && Placed(f, plan[j]) ==> g[t] == f[t])
  {
    if j != i { assert plan[j].target != plan[i].target; }
  }

  /** A step touches its own target and staging file only. */
  lemma StepFrame(plan: seq<Step>, i: nat, f: Files, g: Files)
    requires i < |plan| && StepAt(plan, i, f, g)
    ensures forall p | p != plan[i].target && p != Staged(plan[i].target) :: (p in g <==> p in f)
              && (p in f ==> g[p] == f[p])
    ensures !Placed(g, plan[i]) ==>
              (plan[i].target in g <==> plan[i].target in f)
                  && (plan[i].target in f ==> g[plan[i].target] == f[plan[i].target])
    ensures Placed(g, plan[i]) ==> Staged(plan[i].target) !in g
    ensures !Placed(g, plan[i]) ==> CanStage(g, plan[i])
  {
  }

  // --- What every reachable root looks like -----------------------------------------

  function Libraries(r: Release): seq<string>
  {
    Keep(r.members, r.originals, false)
  }

  /**
   * The untouched root before its first upgrade: the original executables, no backup and no staging.  A
   * private library may be there already, as the older releases installed it, with the bytes it is to have.
   */
  ghost predicate AllOriginal(r: Release, f: Files)
    requires WellFormed(r)
  {
    && (forall n | n in r.originals :: Holds(f, Installed(n), r.original[n]) && Backup(r.tag, r.root, n) !in f)
    && (forall n | n in Libraries(r) :: Installed(n) in f ==> Holds(f, Installed(n), r.payload[n]))
    && (forall s | s in Plan(r) :: Staged(s.target) !in f)
  }

  /** The state between two durable steps of any run. */
  ghost predicate Resumable(r: Release, f: Files)
    requires WellFormed(r)
  {
    && WholeExecutables(r, f)
    && (forall n | n in Libraries(r) :: Installed(n) in f ==> Holds(f, Installed(n), r.payload[n]))
    && (forall n | n in r.originals ::
          if Backup(r.tag, r.root, n) in f then Holds(f, Backup(r.tag, r.root, n), r.original[n])
          else Holds(f, Installed(n), r.original[n]))
    && StagingPrefixes(r, f)
    && LibrariesFirst(r, f)
  }

  /** Each installed executable is wholly its original or wholly its new bytes. */
  ghost predicate WholeExecutables(r: Release, f: Files)
    requires WellFormed(r)
  {
    forall n | n in r.originals :: Holds(f, Installed(n), r.original[n]) || Holds(f, Installed(n), r.payload[n])
  }

  /** A staging file only exists beside a target still to be placed, and is a prefix of its bytes. */
  ghost predicate StagingPrefixes(r: Release, f: Files)
    requires WellFormed(r)
  {
    forall s | s in Plan(r) && Staged(s.target) in f :: !Placed(f, s) && CanStage(f, s)
  }

  /** Once an executable is new, every library is in place and every original is backed up. */
  ghost predicate LibrariesFirst(r: Release, f: Files)
    requires WellFormed(r)
  {
    (exists n | n in r.originals :: Holds(f, Installed(n), r.payload[n])) ==>
      && (forall n | n in Libraries(r) :: Holds(f, Installed(n), r.payload[n]))
      && (forall n | n in r.originals :: Holds(f, Backup(r.tag, r.root, n), r.original[n]))
  }

  // --- Every chain of steps ---------------------------------------------------------

  lemma OriginalIsResumable(r: Release, f: Files)
    requires WellFormed(r) && AllOriginal(r, f)
    ensures Resumable(r, f)
  {
    if n :| n in r.originals && Holds(f, Installed(n), r.payload[n]) { assert false; }
  }

  /** Where a step acts, everything before it in the plan is in place. */
  lemma BeforeExecutable(r: Release, i: nat, f: Files)
    requires WellFormed(r) && i < |Plan(r)| && AllPlaced(f, Plan(r)[..i])
    ensures i >= |r.originals| ==> forall n | n in r.originals :: Holds(f, Backup(r.tag, r.root, n), r.original[n])
    ensures i >= |r.originals| + |Libraries(r)| ==> forall n | n in Libraries(r) :: Holds(f, Installed(n), r.payload[n])
  {
    if i >= |r.originals| {
      forall n | n in r.originals ensures Holds(f, Backup(r.tag, r.root, n), r.original[n]) {
        var j := BackupIndex(r, n);
        assert Plan(r)[..i][j] == BackupStep(r, n);
      }
    }
    if i >= |r.originals| + |Libraries(r)| {
      forall n | n in Libraries(r) ensures Holds(f, Installed(n), r.payload[n]) {
        var j := InstallIndex(r, n);
        assert Plan(r)[..i][j] == InstallStep(r, n);
      }
    }
  }

  lemma StepKeepsStaging(r: Release, f: Files, g: Files)
    requires WellFormed(r) && Resumable(r, f) && FileStep(Plan(r), f, g)
    ensures StagingPrefixes(r, g)
  {
    PlanSeparate(r);
    var i :| 0 <= i < |Plan(r)| && StepAt(Plan(r), i, f, g);
    forall s | s in Plan(r) && Staged(s.target) in g ensures !Placed(g, s) && CanStage(g, s) {
      var j :| 0 <= j < |Plan(r)| && Plan(r)[j] == s;
      StepKeepsStaged(Plan(r), i, f, g, j);
    }
  }

  lemma StepKeepsStaged(plan: seq<Step>, i: nat, f: Files, g: Files, j: nat)
    requires Separate(plan) && i < |plan| && j < |plan| && StepAt(plan, i, f, g)
    requires Staged(plan[j].target) in f ==> !Placed(f, plan[j]) && CanStage(f, plan[j])
    ensures Staged(plan[j].target) in g ==> !Placed(g, plan[j]) && CanStage(g, plan[j])
  {
    StepFrame(plan, i, f, g);
    if j != i { assert plan[j].target != plan[i].target; }
  }

  /** Outside staging files a step changes one path at most: its target, which then holds its bytes. */
  lemma StepEffect(r: Release, f: Files, g: Files) returns (m: string, s: Step)
    requires WellFormed(r) && FileStep(Plan(r), f, g)
    ensures m in r.members && (s == InstallStep(r, m) || (m in r.originals && s == BackupStep(r, m)))
    ensures forall p: Path | !p.Staged? && p != s.target :: (p in g <==> p in f) && (p in f ==> g[p] == f[p])
    ensures Placed(g, s) || (s.target !in g && s.target !in f)
              || (s.target in g && s.target in f && g[s.target] == f[s.target])
    ensures s == InstallStep(r, m) && m in r.originals ==>
              forall n | n in r.originals :: Holds(f, Backup(r.tag, r.root, n), r.original[n])
  {
    var i :| 0 <= i < |Plan(r)| && StepAt(Plan(r), i, f, g);
    StepFrame(Plan(r), i, f, g);
    BeforeExecutable(r, i, f);
    m := PlanEntry(r, i);
    s := Plan(r)[i];
  }

  lemma StepKeepsExecutables(r: Release, f: Files, g: Files)
    requires WellFormed(r) && WholeExecutables(r, f) && FileStep(Plan(r), f, g)
    ensures WholeExecutables(r, g)
  {
    var m, s := StepEffect(r, f, g);
    hide Plan, FileStep, StagingPrefixes, LibrariesFirst;
  }

  lemma StepKeepsLibraries(r: Release, f: Files, g: Files)
    requires WellFormed(r) && Resumable(r, f) && FileStep(Plan(r), f, g)
    ensures forall n | n in Libraries(r) :: Installed(n) in g ==> Holds(g, Installed(n), r.payload[n])
    ensures forall n | n in Libraries(r) && Installed(n) in f :: Installed(n) in g
  {
    var m, s := StepEffect(r, f, g);
    hide Plan, FileStep, StagingPrefixes, LibrariesFirst;
  }

  lemma StepKeepsBackups(r: Release, f: Files, g: Files)
    requires WellFormed(r) && Resumable(r, f) && FileStep(Plan(r), f, g)
    ensures forall n | n in r.originals ::
              if Backup(r.tag, r.root, n) in g then Holds(g, Backup(r.tag, r.root, n), r.original[n])
              else Holds(g, Installed(n), r.original[n])
    ensures forall n | n in r.originals && Backup(r.tag, r.root, n) in f :: Backup(r.tag, r.root, n) in g
  {
    var m, s := StepEffect(r, f, g);
    hide Plan, FileStep, StagingPrefixes, LibrariesFirst;
  }

  lemma StepKeepsOrder(r: Release, f: Files, g: Files)
    requires WellFormed(r) && Resumable(r, f) && FileStep(Plan(r), f, g)
    ensures LibrariesFirst(r, g)
  {
    StepKeepsLibraries(r, f, g);
    StepKeepsBackups(r, f, g);
    if n :| n in r.originals && Holds(g, Installed(n), r.payload[n]) {
      NewExecutable(r, f, g, n);
    }
  }

  /** When an executable is new after a step, all that comes before executables was in place before the step. */
  lemma NewExecutable(r: Release, f: Files, g: Files, n: string)
    requires WellFormed(r) && Resumable(r, f) && FileStep(Plan(r), f, g)
    requires n in r.originals && Holds(g, Installed(n), r.payload[n])
    ensures forall m | m in Libraries(r) :: Holds(f, Installed(m), r.payload[m])
    ensures forall m | m in r.originals :: Holds(f, Backup(r.tag, r.root, m), r.original[m])
  {
    if !Holds(f, Installed(n), r.payload[n]) {
      var i :| 0 <= i < |Plan(r)| && StepAt(Plan(r), i, f, g);
      StepFrame(Plan(r), i, f, g);
      BeforeExecutable(r, i, f);
      var m := PlanEntry(r, i);
      assert Plan(r)[i].target == Installed(n) && m == n;
    }
  }

  /** Every durable step keeps the invariant and the final files. */
  lemma StepKeepsResumable(r: Release, f: Files, g: Files)
    requires WellFormed(r) && Resumable(r, f) && FileStep(Plan(r), f, g)
    ensures Resumable(r, g) && PlaceAll(g, Plan(r)) == PlaceAll(f, Plan(r))
  {
    StepKeepsStaging(r, f, g);
    StepKeepsExecutables(r, f, g);
    StepKeepsLibraries(r, f, g);
    StepKeepsBackups(r, f, g);
    StepKeepsOrder(r, f, g);
    PlanSeparate(r);
    StepKeepsResult(Plan(r), f, g);
  }

  /**
   * The states passed by any number of runs, interrupted anywhere, of the same upgrade.  A step that makes
   * a folder leaves the files as they were.
   */
  ghost predicate Chain(r: Release, states: seq<Files>)
    requires WellFormed(r)
  {
    states != [] && forall k | 0 < k < |states| :: Link(r, states, k)
  }

  ghost predicate Link(r: Release, states: seq<Files>, k: nat)
    requires WellFormed(r) && 0 < k < |states|
  {
    states[k] == states[k - 1] || FileStep(Plan(r), states[k - 1], states[k])
  }

  lemma ChainPrefix(r: Release, states: seq<Files>, n: nat)
    requires WellFormed(r) && Chain(r, states) && 0 < n <= |states|
    ensures Chain(r, states[..n])
  {
    forall k | 0 < k < n ensures Link(r, states[..n], k) { assert Link(r, states, k); }
  }

  lemma {:induction false} ChainResumable(r: Release, states: seq<Files>)
    requires WellFormed(r) && Chain(r, states) && Resumable(r, states[0])
    ensures Resumable(r, states[|states| - 1])
    ensures PlaceAll(states[|states| - 1], Plan(r)) == PlaceAll(states[0], Plan(r))
    decreases |states|
  {
    hide Resumable, Plan, FileStep, PlaceAll, WellFormed;
    if |states| > 1 {
      var earlier := states[..|states| - 1];
      ChainPrefix(r, states, |states| - 1);
      ChainResumable(r, earlier);
      assert Link(r, states, |states| - 1);
      if states[|states| - 1] != states[|states| - 2] {
        StepKeepsResumable(r, states[|states| - 2], states[|states| - 1]);
      }
    }
  }

  // --- What a publication may destroy -----------------------------------------------

  /** The executable was the original one, and is the new one with the original backed up. */
  predicate Exchanged(r: Release, f: Files, g: Files, n: string)
    requires WellFormed(r)
  {
    && n in r.originals && Holds(f, Installed(n), r.original[n]) && Holds(g, Installed(n), r.payload[n])
    && Holds(g, Backup(r.tag, r.root, n), r.original[n])
  }

  /** A staging file that began the bytes of its target has grown towards them, or has become the target. */
  predicate Used(f: Files, g: Files, s: Step)
    requires Staged(s.target) in f
  {
    var t := Staged(s.target);
    && f[t].Regular? && f[t].data <= s.data
    && (Holds(g, s.target, s.data) || (t in g && g[t].Regular? && f[t].data <= g[t].data <= s.data))
  }

  /** What has become of a path that was there: it is as it was, or it has been exchanged or used. */
  ghost predicate Accounted(r: Release, f: Files, g: Files, p: Path)
    requires WellFormed(r) && p in f
  {
    || (p in g && g[p] == f[p])
    || (p.Installed? && Exchanged(r, f, g, p.name))
    || (exists i | 0 <= i < |Plan(r)| :: p == Staged(Plan(r)[i].target) && Used(f, g, Plan(r)[i]))
  }

  lemma StepAccounts(r: Release, start: Files, f: Files, g: Files, p: Path)
    requires WellFormed(r) && WholeExecutables(r, f) && FileStep(Plan(r), f, g)
    requires p in start && Accounted(r, start, f, p)
    ensures Accounted(r, start, g, p)
  {
    var plan := Plan(r);
    var i :| 0 <= i < |plan| && StepAt(plan, i, f, g);
    PlanSeparate(r);
    if p.Installed? && Exchanged(r, start, f, p.name) {
      ExchangeStays(r, i, start, f, g, p.name);
    } else if j :| 0 <= j < |plan| && p == Staged(plan[j].target) && Used(start, f, plan[j]) {
      UseStays(plan, i, start, f, g, j);
    } else if p == plan[i].target {
      ExchangeHere(r, i, f, g);
    } else if p == Staged(plan[i].target) {
      UseHere(plan, i, f, g);
    } else {
      StepFrame(plan, i, f, g);
    }
  }

  lemma ExchangeStays(r: Release, i: nat, start: Files, f: Files, g: Files, n: string)
    requires WellFormed(r) && i < |Plan(r)| && StepAt(Plan(r), i, f, g) && Exchanged(r, start, f, n)
    ensures Exchanged(r, start, g, n)
  {
    StepFrame(Plan(r), i, f, g);
    var m := PlanEntry(r, i);
    hide Plan, StepAt;
  }

  lemma ExchangeHere(r: Release, i: nat, f: Files, g: Files)
    requires WellFormed(r) && WholeExecutables(r, f) && i < |Plan(r)| && StepAt(Plan(r), i, f, g)
    requires Plan(r)[i].target in f
    ensures var t := Plan(r)[i].target;
            (t in g && g[t] == f[t]) || (t.Installed? && Exchanged(r, f, g, t.name))
  {
    var m := PlanEntry(r, i);
    StepFrame(Plan(r), i, f, g);
    BeforeExecutable(r, i, f);
    assert m in r.originals && Plan(r)[i] == InstallStep(r, m);
    hide Plan;
  }

  lemma UseStays(plan: seq<Step>, i: nat, start: Files, f: Files, g: Files, j: nat)
    requires Separate(plan) && i < |plan| && j < |plan| && StepAt(plan, i, f, g)
    requires Staged(plan[j].target) in start && Used(start, f, plan[j])
    ensures Used(start, g, plan[j])
  {
    StepFrame(plan, i, f, g);
    if j != i { assert plan[j].target != plan[i].target; }
  }

  lemma UseHere(plan: seq<Step>, i: nat, f: Files, g: Files)
    requires Separate(plan) && i < |plan| && StepAt(plan, i, f, g) && Staged(plan[i].target) in f
    ensures Used(f, g, plan[i])
  {
  }

  /**
   * Nothing is lost.  Whatever root the runs of an upgrade find, and wherever they are interrupted: a path that
   * was there holds what it held, except for a known original executable, which is exchanged only once it is
   * backed up, and for staging files that began the very bytes to come.
   */
  lemma {:induction false} NothingLost(r: Release, states: seq<Files>, p: Path)
    requires WellFormed(r) && Chain(r, states) && WholeExecutables(r, states[0]) && p in states[0]
    ensures WholeExecutables(r, states[|states| - 1]) && Accounted(r, states[0], states[|states| - 1], p)
    decreases |states|
  {
    hide WholeExecutables, Accounted, FileStep, WellFormed;
    if |states| == 1 {
      Unchanged(r, states[0], p);
    } else {
      var last := |states| - 1;
      ChainPrefix(r, states, last);
      NothingLost(r, states[..last], p);
      assert Link(r, states, last);
      if states[last] != states[last - 1] {
        StepKeepsExecutables(r, states[last - 1], states[last]);
        StepAccounts(r, states[0], states[last - 1], states[last], p);
      }
    }
  }

  lemma Unchanged(r: Release, f: Files, p: Path)
    requires WellFormed(r) && p in f
    ensures Accounted(r, f, f, p)
  {
  }

  /** The checks a run makes before and while it publishes, all decided by the files it starts from. */
  ghost predicate Accepts(r: Release, f: Files)
    requires WellFormed(r)
  {
    && WholeExecutables(r, f)
    && (forall n | n in r.originals ::
          if Backup(r.tag, r.root, n) in f then Holds(f, Backup(r.tag, r.root, n), r.original[n])
          else Holds(f, Installed(n), r.original[n]) && CanStage(f, BackupStep(r, n)))
    && (forall n | n in r.members && !Placed(f, InstallStep(r, n)) ::
          && (n !in r.originals ==> Installed(n) !in f)
          && CanStage(f, InstallStep(r, n)))
  }

  /** A staging file that may be resumed. */
  predicate Resumes(f: Files, target: Path, data: Bytes)
  {
    Staged(target) in f ==> f[Staged(target)].Regular? && f[Staged(target)].data <= data
  }

  /** Which roots a run accepts, path by path. */
  lemma AcceptsExactly(r: Release, f: Files)
    requires WellFormed(r)
    ensures Accepts(r, f) <==>
              && (forall n | n in r.originals ::
                    Installed(n) in f && f[Installed(n)] in {Regular(r.original[n]), Regular(r.payload[n])})
              && (forall n | n in r.originals && Backup(r.tag, r.root, n) in f ::
                    f[Backup(r.tag, r.root, n)] == Regular(r.original[n]))
              && (forall n | n in r.originals && Backup(r.tag, r.root, n) !in f ::
                    f[Installed(n)] == Regular(r.original[n]) && Resumes(f, Backup(r.tag, r.root, n), r.original[n]))
              && (forall n | n in r.members && n !in r.originals && Installed(n) in f ::
                    f[Installed(n)] == Regular(r.payload[n]))
              && (forall n | n in r.members && !Holds(f, Installed(n), r.payload[n]) ::
                    Resumes(f, Installed(n), r.payload[n]))
  {
  }

  lemma ResumableAccepted(r: Release, f: Files)
    requires WellFormed(r) && Resumable(r, f)
    ensures Accepts(r, f)
  {
    forall n | n in r.originals && Backup(r.tag, r.root, n) !in f ensures CanStage(f, BackupStep(r, n)) {
      var i := BackupIndex(r, n);
      assert BackupStep(r, n) in Plan(r);
    }
    forall n | n in r.members && !Placed(f, InstallStep(r, n))
      ensures n !in r.originals ==> Installed(n) !in f
      ensures CanStage(f, InstallStep(r, n))
    {
      var i := InstallIndex(r, n);
      assert InstallStep(r, n) in Plan(r);
      assert n !in r.originals ==> n in Libraries(r);
    }
  }

  /** What a finished upgrade leaves: every member new, every original backed up, no staging. */
  ghost predicate Finished(r: Release, f: Files)
    requires WellFormed(r)
  {
    && (forall n | n in r.members :: Holds(f, Installed(n), r.payload[n]))
    && (forall n | n in r.originals :: Holds(f, Backup(r.tag, r.root, n), r.original[n]))
    && (forall s | s in Plan(r) :: Staged(s.target) !in f)
  }

  lemma PlaceAllFinished(r: Release, f: Files)
    requires WellFormed(r) && Resumable(r, f)
    ensures Finished(r, PlaceAll(f, Plan(r)))
  {
    PlanSeparate(r);
    PlaceAllResult(f, Plan(r));
    var g := PlaceAll(f, Plan(r));
    forall n | n in r.members ensures Holds(g, Installed(n), r.payload[n]) {
      var i := InstallIndex(r, n);
    }
    forall n | n in r.originals ensures Holds(g, Backup(r.tag, r.root, n), r.original[n]) {
      var i := BackupIndex(r, n);
    }
    forall s | s in Plan(r) ensures Staged(s.target) !in g {
      var i :| 0 <= i < |Plan(r)| && Plan(r)[i] == s;
    }
  }

  lemma {:induction false} PlaceAllIdle(f: Files, plan: seq<Step>)
    requires AllPlaced(f, plan)
    ensures PlaceAll(f, plan) == f
    decreases |plan|
  {
    if plan != [] {
      assert Placed(f, plan[0]);
      assert AllPlaced(f, plan[1..]);
      PlaceAllIdle(f, plan[1..]);
    }
  }

  lemma FinishedIdle(r: Release, f: Files)
    requires WellFormed(r) && Finished(r, f)
    ensures AllPlaced(f, Plan(r)) && PlaceAll(f, Plan(r)) == f && Accepts(r, f)
    ensures forall g :: !FileStep(Plan(r), f, g)
  {
    forall i | 0 <= i < |Plan(r)| ensures Placed(f, Plan(r)[i]) {
      var n := PlanEntry(r, i);
    }
    PlaceAllIdle(f, Plan(r));
    assert WholeExecutables(r, f);
    forall n | n in r.members ensures Placed(f, InstallStep(r, n)) {
    }
  }

  /**
   * Resumption.  Start from an untouched root and interrupt the upgrade at any durable step, any
   * number of times: the files it stops at are accepted by the next run, which ends in the same
   * files as an uninterrupted first run, finished, and a run after that finds nothing to do.
   */
  lemma Resumption(r: Release, states: seq<Files>)
    requires WellFormed(r) && Chain(r, states) && AllOriginal(r, states[0])
    ensures var stopped, done := states[|states| - 1], PlaceAll(states[|states| - 1], Plan(r));
            && Accepts(r, stopped)
            && done == PlaceAll(states[0], Plan(r))
            && Finished(r, done)
            && Accepts(r, done) && PlaceAll(done, Plan(r)) == done
            && forall p | Untouched(Plan(r), p) :: (p in done <==> p in states[0])
                  && (p in done ==> done[p] == states[0][p])
  {
    OriginalIsResumable(r, states[0]);
    ChainResumable(r, states);
    var stopped := states[|states| - 1];
    ResumableAccepted(r, stopped);
    PlaceAllFinished(r, stopped);
    FinishedIdle(r, PlaceAll(stopped, Plan(r)));
    PlanSeparate(r);
    PlaceAllResult(states[0], Plan(r));
  }

  /**
   * Publication order, at every instant: executables are whole, a new executable implies all
   * libraries and all backups, and every staging file is a prefix of what it will become.
   */
  lemma PublicationOrder(r: Release, states: seq<Files>, k: nat)
    requires WellFormed(r) && Chain(r, states) && AllOriginal(r, states[0]) && k < |states|
    ensures WholeExecutables(r, states[k]) && LibrariesFirst(r, states[k]) && StagingPrefixes(r, states[k])
  {
    OriginalIsResumable(r, states[0]);
    ChainPrefix(r, states, k + 1);
    ChainResumable(r, states[..k + 1]);
  }
}
