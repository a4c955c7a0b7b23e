/**
 * Acceptance of an archive's members, and what acceptance promises: extraction into an empty root, in any
 * order that puts hard links after their targets, goes through cleanly.
 */
module ArchiveSafety {
  import opened Basics

  datatype Kind = File | Directory | Symlink(target: string) | Hardlink(linkname: string) | Other

  datatype Member = Member(name: string, kind: Kind)

  datatype Path = Path(absolute: bool, parts: seq<string>)

  /** The text up to the first slash. */
  function Component(s: string): (c: string)
    ensures c <= s && (|c| < |s| ==> s[|c|] == '/')
  {
    if s == "" || s[0] == '/' then "" else [s[0]] + Component(s[1..])
  }

  /** The components of a name; empty ones and single dots do not count. */
  function Parts(s: string): seq<string>
    decreases |s|
  {
    if s == "" then []
    else
      var c := Component(s);
      var rest := if |c| < |s| then Parts(s[|c| + 1..]) else [];
      if c == "" || c == "." then rest else [c] + rest
  }

  function PathOf(name: string): Path
  {
    Path(name != "" && name[0] == '/', Parts(name))
  }

  function At(members: seq<Member>, i: nat): Path
    requires i < |members|
  {
    PathOf(members[i].name)
  }

  const WHITEOUT := ".wh."

  /** A relative name with components, none of which climbs or is a whiteout, of a supported kind. */
  predicate Plain(m: Member)
  {
    var p := PathOf(m.name);
    && !p.absolute && p.parts != [] && ".." !in p.parts
    && (forall i | 0 <= i < |p.parts| :: !(WHITEOUT <= p.parts[i]))
    && !m.kind.Other?
  }

  /** No two members have the same path. */
  predicate Distinct(members: seq<Member>)
  {
    forall i, j | 0 <= i < j < |members| :: At(members, i) != At(members, j)
  }

  /** p is a proper ancestor of q. */
  predicate Above(p: Path, q: Path)
  {
    p.absolute == q.absolute && |p.parts| < |q.parts| && p.parts == q.parts[..|p.parts|]
  }

  /** Whatever the archive has above the member is a directory. */
  predicate DirectoriesAbove(members: seq<Member>, i: nat)
    requires i < |members|
  {
    forall j | 0 <= j < |members| && Above(At(members, j), At(members, i)) :: members[j].kind.Directory?
  }

  predicate Names(members: seq<Member>, j: nat, linkname: string)
    requires j < |members|
  {
    At(members, j) == PathOf(linkname)
  }

  /** A hard link's target is one of the archive's regular files. */
  predicate TargetPresent(members: seq<Member>, i: nat)
    requires i < |members|
  {
    members[i].kind.Hardlink? ==>
      exists j | 0 <= j < |members| :: Names(members, j, members[i].kind.linkname) && members[j].kind.File?
  }

  predicate Safe(members: seq<Member>)
  {
    && (forall i | 0 <= i < |members| :: Plain(members[i]))
    && Distinct(members)
    && (forall i | 0 <= i < |members| :: DirectoriesAbove(members, i) && TargetPresent(members, i))
  }

  /** The dictionary of the first n members. */
  ghost predicate Indexed(members: seq<Member>, n: nat, names: map<Path, nat>)
  {
    && n <= |members|
    && (forall p | p in names :: names[p] < n && At(members, names[p]) == p)
    && (forall i | 0 <= i < n :: At(members, i) in names && names[At(members, i)] == i)
  }

  /** Both loops of the check: no exception exactly when the archive is safe. */
  method SafeMembers(members: seq<Member>) returns (ok: bool)
    ensures ok <==> Safe(members)
  {
    var names: map<Path, nat> := map[];
    hide Plain, Parts, PathOf;
    for i := 0 to |members|
      invariant Indexed(members, i, names)
      invariant forall k | 0 <= k < i :: Plain(members[k])
    {
      var admitted := Admitted(members[i], names);
      if !admitted {
        if At(members, i) in names { assert At(members, names[At(members, i)]) == At(members, i); }
        return false;
      }
      names := names[At(members, i) := i];
    }
    hide DirectoriesAbove, TargetPresent;
    for i := 0 to |members|
      invariant forall k | 0 <= k < i :: DirectoriesAbove(members, k) && TargetPresent(members, k)
    {
      var fits := Fits(members, names, i);
      if !fits { return false; }
    }
    ok := true;
  }

  /** One turn of the first loop: the member's own path and kind, and whether its path is new. */
  method Admitted(m: Member, names: map<Path, nat>) returns (ok: bool)
    ensures ok <==> Plain(m) && PathOf(m.name) !in names
  {
    var path := PathOf(m.name);
    if path.absolute || ".." in path.parts || path.parts == [] { return false; }
    if path in names || exists k | 0 <= k < |path.parts| :: WHITEOUT <= path.parts[k] { return false; }
    if m.kind.Other? { return false; }
    ok := true;
  }

  /** One turn of the second loop: the ancestors and the link target of a member. */
  method Fits(members: seq<Member>, names: map<Path, nat>, i: nat) returns (ok: bool)
    requires i < |members| && Indexed(members, |members|, names)
    ensures ok <==> DirectoriesAbove(members, i) && TargetPresent(members, i)
  {
    var above := NonDirectoryAbove(members, names, i);
    if above { return false; }
    if members[i].kind.Hardlink? {
      LinkTarget(members, names, i);
      var target := PathOf(members[i].kind.linkname);
      if target !in names || !members[names[target]].kind.File? { return false; }
    }
    ok := true;
  }

  /** Some ancestor is in the dictionary and is no directory. */
  method NonDirectoryAbove(members: seq<Member>, names: map<Path, nat>, i: nat) returns (above: bool)
    requires i < |members| && Indexed(members, |members|, names)
    ensures above <==> !DirectoriesAbove(members, i)
  {
    var path := PathOf(members[i].name);
    for n := 0 to |path.parts|
      invariant forall j | 0 <= j < |members| && Above(At(members, j), path) && |At(members, j).parts| < n ::
                members[j].kind.Directory?
    {
      var parent := Path(path.absolute, path.parts[..n]);
      if parent in names && !members[names[parent]].kind.Directory? {
        assert At(members, names[parent]) == parent && Above(parent, At(members, i));
        return true;
      }
      forall j | 0 <= j < |members| && Above(At(members, j), path) && |At(members, j).parts| < n + 1
        ensures members[j].kind.Directory?
      {
        if |At(members, j).parts| == n { assert At(members, j) == parent; }
      }
    }
    above := false;
  }

  lemma LinkTarget(members: seq<Member>, names: map<Path, nat>, i: nat)
    requires i < |members| && members[i].kind.Hardlink? && Indexed(members, |members|, names)
    ensures var target := PathOf(members[i].kind.linkname);
            TargetPresent(members, i) <==> target in names && members[names[target]].kind.File?
  {
    var target := PathOf(members[i].kind.linkname);
    if target in names { assert Names(members, names[target], members[i].kind.linkname); }
  }

  // ----- Paths and acceptance, spelled out -----

  /** Parts of a slash-free text: itself, unless it is empty or a dot. */
  lemma {:induction false} PartsOfComponent(s: string)
    requires '/' !in s
    ensures Component(s) == s && Parts(s) == if s == "" || s == "." then [] else [s]
  {
    if s != "" {
      assert '/' !in s[1..];
      PartsOfComponent(s[1..]);
      assert s == [s[0]] + s[1..];
    }
  }

  lemma {:induction false} ComponentOf(a: string, rest: string)
    requires '/' !in a
    ensures Component(a + "/" + rest) == a
  {
    var all := a + "/" + rest;
    if a == "" {
      assert all[0] == '/';
    } else {
      assert all[0] == a[0] && all[1..] == a[1..] + "/" + rest;
      ComponentOf(a[1..], rest);
      assert a == [a[0]] + a[1..];
    }
  }

  /** A slash separates: the parts before it, then the parts after it. */
  lemma {:induction false} PartsJoin(a: string, b: string)
    ensures Parts(a + "/" + b) == Parts(a) + Parts(b)
    decreases |a|
  {
    var c := Component(a);
    ComponentPlain(a);
    if |c| < |a| {
      var rest := a[|c| + 1..];
      assert a == c + "/" + rest;
      PartsJoin(rest, b);
      JoinHead(c, rest, b);
    } else {
      PartsOfComponent(a);
      JoinLast(a, b);
    }
  }

  lemma JoinHead(c: string, rest: string, b: string)
    requires '/' !in c && Parts(rest + "/" + b) == Parts(rest) + Parts(b)
    ensures Parts(c + "/" + rest + "/" + b) == Parts(c + "/" + rest) + Parts(b)
  {
    hide Parts, Component;
    var all, a := c + "/" + rest + "/" + b, c + "/" + rest;
    assert all == c + "/" + (rest + "/" + b);
    ComponentOf(c, rest + "/" + b);
    ComponentOf(c, rest);
    assert all[|c| + 1..] == rest + "/" + b && a[|c| + 1..] == rest;
    PartsFirst(all, c);
    PartsFirst(a, c);
  }

  lemma JoinLast(a: string, b: string)
    requires '/' !in a && Parts(a) == if a == "" || a == "." then [] else [a]
    ensures Parts(a + "/" + b) == Parts(a) + Parts(b)
  {
    hide Parts, Component;
    var all := a + "/" + b;
    ComponentOf(a, b);
    assert all[|a| + 1..] == b;
    PartsFirst(all, a);
  }

  lemma PartsFirst(s: string, c: string)
    requires c == Component(s) && |c| < |s|
    ensures Parts(s) == (if c == "" || c == "." then [] else [c]) + Parts(s[|c| + 1..])
  {
  }

  lemma {:induction false} ComponentPlain(s: string)
    ensures '/' !in Component(s)
  {
    if s != "" && s[0] != '/' { ComponentPlain(s[1..]); }
  }

  /** A whiteout's name begins with these four characters. */
  predicate Whiteout(part: string)
  {
    |part| >= 4 && part[0] == '.' && part[1] == 'w' && part[2] == 'h' && part[3] == '.'
  }

  /** A relative name with parts, none of them climbing or a whiteout, of a file, a directory or a link. */
  predicate Named(m: Member)
  {
    && (m.name == "" || m.name[0] != '/') && Parts(m.name) != []
    && (forall k | 0 <= k < |Parts(m.name)| :: Parts(m.name)[k] != ".." && !Whiteout(Parts(m.name)[k]))
    && (m.kind.File? || m.kind.Directory? || m.kind.Symlink? || m.kind.Hardlink?)
  }

  /** Member j lies below member i: its parts go on where those of i end. */
  predicate LiesBelow(members: seq<Member>, i: nat, j: nat)
    requires i < |members| && j < |members|
  {
    var p, q := PathOf(members[i].name), PathOf(members[j].name);
    p.absolute == q.absolute && |p.parts| < |q.parts| && p.parts <= q.parts
  }

  /** Member i is a hard link to the regular file j. */
  predicate LinksTo(members: seq<Member>, i: nat, j: nat)
    requires i < |members| && j < |members|
  {
    && members[i].kind.Hardlink? && members[j].kind.File?
    && PathOf(members[j].name) == PathOf(members[i].kind.linkname)
  }

  /**
   * What is accepted, in full: members named as above at different paths, nothing below anything but directories,
   * and hard links only to regular files of the archive.
   */
  lemma SafeExactly(members: seq<Member>)
    ensures Safe(members) <==>
              && (forall i | 0 <= i < |members| :: Named(members[i]))
              && (forall i, j | 0 <= i < j < |members| :: PathOf(members[i].name) != PathOf(members[j].name))
              && (forall i, j | 0 <= i < |members| && 0 <= j < |members| && LiesBelow(members, i, j) ::
                    members[i].kind.Directory?)
              && (forall i | 0 <= i < |members| && members[i].kind.Hardlink? ::
                    exists j | 0 <= j < |members| :: LinksTo(members, i, j))
  {
    forall i | 0 <= i < |members| ensures Plain(members[i]) <==> Named(members[i]) { PlainExactly(members[i]); }
    forall i | 0 <= i < |members|
      ensures DirectoriesAbove(members, i) <==>
                forall j | 0 <= j < |members| && LiesBelow(members, j, i) :: members[j].kind.Directory?
      ensures TargetPresent(members, i) <==>
                (members[i].kind.Hardlink? ==> exists j | 0 <= j < |members| :: LinksTo(members, i, j))
    {
      PlacedExactly(members, i);
    }
    hide Plain, Named, DirectoriesAbove, TargetPresent, PathOf, LiesBelow, LinksTo;
  }

  lemma PlainExactly(m: Member)
    ensures Plain(m) <==> Named(m)
  {
    var parts := Parts(m.name);
    forall k | 0 <= k < |parts| ensures WHITEOUT <= parts[k] <==> Whiteout(parts[k]) {}
    hide Parts;
  }

  lemma PlacedExactly(members: seq<Member>, i: nat)
    requires i < |members|
    ensures DirectoriesAbove(members, i) <==>
              forall j | 0 <= j < |members| && LiesBelow(members, j, i) :: members[j].kind.Directory?
    ensures TargetPresent(members, i) <==>
              (members[i].kind.Hardlink? ==> exists j | 0 <= j < |members| :: LinksTo(members, i, j))
  {
    hide PathOf;
    forall j | 0 <= j < |members| ensures LiesBelow(members, j, i) <==> Above(At(members, j), At(members, i)) {}
    hide LiesBelow, Above;
    if members[i].kind.Hardlink? {
      var linkname := members[i].kind.linkname;
      forall j | 0 <= j < |members|
        ensures LinksTo(members, i, j) <==> Names(members, j, linkname) && members[j].kind.File?
      {
      }
      hide LinksTo, Names;
    }
  }

  // ----- Extraction -----

  /** What a path of the extracted root holds; a regular file is known by the member that brought its bytes. */
  datatype Entry = Folder | Regular(inode: nat) | Link(target: string)

  type Root = map<Path, Entry>

  /** What would make an extraction step unsafe or impossible. */
  datatype Fault = LeavesRoot | ThroughNonDirectory | Overwrites | NoTarget

  datatype Step = Extracted(root: Root) | Faulty(fault: Fault)

  /** The directories an extraction makes on the way to a path. */
  function Ancestors(p: Path): set<Path>
  {
    set n | 1 <= n < |p.parts| :: Path(p.absolute, p.parts[..n])
  }

  /** Extracts member i: missing directories are made, an existing entry is left alone unless both are directories. */
  function Extract(root: Root, members: seq<Member>, i: nat): Step
    requires i < |members|
  {
    var m, p := members[i], At(members, i);
    if p.absolute || ".." in p.parts || p.parts == [] || m.kind.Other? then Faulty(LeavesRoot)
    else if exists a | a in Ancestors(p) :: a in root && root[a] != Folder then Faulty(ThroughNonDirectory)
    else if p in root && !(m.kind.Directory? && root[p] == Folder) then Faulty(Overwrites)
    else
      var made: Root := root + map a | a in Ancestors(p) :: Folder;
      match m.kind
      case File => Extracted(made[p := Regular(i)])
      case Directory => Extracted(made[p := Folder])
      case Symlink(target) => Extracted(made[p := Link(target)])
      case Hardlink(linkname) =>
        var target := PathOf(linkname);
        if target in root && root[target].Regular? then Extracted(made[p := root[target]]) else Faulty(NoTarget)
  }

  /** Numbers of members. */
  predicate Members(done: seq<nat>, n: nat)
  {
    forall k | 0 <= k < |done| :: done[k] < n
  }

  function ExtractAll(members: seq<Member>, order: seq<nat>): Step
    requires Members(order, |members|)
  {
    if order == [] then Extracted(map[])
    else
      match ExtractAll(members, order[..|order| - 1])
      case Faulty(fault) => Faulty(fault)
      case Extracted(root) => Extract(root, members, order[|order| - 1])
  }

  ghost predicate NoRepeats(order: seq<nat>)
  {
    forall i, j | 0 <= i < j < |order| :: order[i] != order[j]
  }

  /** An order of all the members, without repetition. */
  ghost predicate Orders(order: seq<nat>, n: nat)
  {
    && (forall k | 0 <= k < |order| :: order[k] < n)
    && NoRepeats(order)
    && (forall i | 0 <= i < n :: i in order)
  }

  /** Every hard link comes after the file it links to. */
  ghost predicate LinksLast(members: seq<Member>, order: seq<nat>)
    requires Members(order, |members|)
  {
    forall k | 0 <= k < |order| && members[order[k]].kind.Hardlink? ::
      exists j | 0 <= j < k :: Names(members, order[j], members[order[k]].kind.linkname)
  }

  /** What a member becomes. */
  ghost predicate Holds(members: seq<Member>, i: nat, e: Entry)
    requires i < |members|
  {
    match members[i].kind
    case File => e == Regular(i)
    case Directory => e == Folder
    case Symlink(target) => e == Link(target)
    case Hardlink(linkname) => e.Regular? && e.inode < |members| && Names(members, e.inode, linkname)
        && members[e.inode].kind.File?
    case Other => false
  }

  /** The root after some members: each at its own path, and beyond them only directories above one of them. */
  ghost predicate Contains(members: seq<Member>, done: seq<nat>, root: Root)
    requires Members(done, |members|)
  {
    && (forall k | 0 <= k < |done| :: At(members, done[k]) in root
          && Holds(members, done[k], root[At(members, done[k])]))
    && (forall p | p in root :: MemberPath(members, done, p) || (root[p] == Folder && AboveSome(members, done, p)))
  }

  ghost predicate MemberPath(members: seq<Member>, done: seq<nat>, p: Path)
    requires Members(done, |members|)
  {
    exists k | 0 <= k < |done| :: p == At(members, done[k])
  }

  ghost predicate AboveSome(members: seq<Member>, done: seq<nat>, p: Path)
    requires Members(done, |members|)
  {
    exists k | 0 <= k < |done| :: p in Ancestors(At(members, done[k]))
  }

  lemma AncestorsAbove(p: Path, q: Path)
    ensures p in Ancestors(q) <==> Above(p, q) && p.parts != []
  {
    if Above(p, q) && p.parts != [] { assert p == Path(q.absolute, q.parts[..|p.parts|]); }
  }

  /** Every entry above a member is a folder. */
  lemma FoldersAbove(members: seq<Member>, done: seq<nat>, root: Root, i: nat, a: Path)
    requires Safe(members) && i < |members| && Members(done, |members|) && Contains(members, done, root)
    requires a in Ancestors(At(members, i)) && a in root
    ensures root[a] == Folder
  {
    AncestorsAbove(a, At(members, i));
    if MemberPath(members, done, a) {
      var k :| 0 <= k < |done| && a == At(members, done[k]);
      assert DirectoriesAbove(members, i);
      assert Holds(members, done[k], root[a]);
    }
  }

  /** A path that is already there is a folder, and so is the member. */
  lemma PathFree(members: seq<Member>, done: seq<nat>, root: Root, i: nat)
    requires Safe(members) && i < |members| && i !in done && Members(done, |members|) && Contains(members, done, root)
    requires At(members, i) in root
    ensures members[i].kind.Directory? && root[At(members, i)] == Folder
  {
    var p := At(members, i);
    NotDoneYet(members, done, i);
    var k :| 0 <= k < |done| && p in Ancestors(At(members, done[k]));
    AncestorsAbove(p, At(members, done[k]));
    assert DirectoriesAbove(members, done[k]);
  }

  lemma SamePath(members: seq<Member>, i: nat, j: nat)
    requires Distinct(members) && i < |members| && j < |members| && At(members, i) == At(members, j)
    ensures i == j
  {
    hide At;
  }

  lemma NotDoneYet(members: seq<Member>, done: seq<nat>, i: nat)
    requires Distinct(members) && i < |members| && i !in done && Members(done, |members|)
    ensures !MemberPath(members, done, At(members, i))
  {
    forall k | 0 <= k < |done| ensures At(members, i) != At(members, done[k]) {
      assert done[k] in done;
      if At(members, i) == At(members, done[k]) { SamePath(members, i, done[k]); }
    }
  }

  /** The target of a hard link whose file has been extracted is that file. */
  lemma TargetThere(members: seq<Member>, done: seq<nat>, root: Root, i: nat, k: nat)
    requires Safe(members) && i < |members| && Members(done, |members|) && Contains(members, done, root)
    requires members[i].kind.Hardlink? && k < |done| && Names(members, done[k], members[i].kind.linkname)
    ensures var target := PathOf(members[i].kind.linkname);
            target in root && root[target] == Regular(done[k]) && members[done[k]].kind.File?
  {
    assert TargetPresent(members, i);
    var j :| 0 <= j < |members| && Names(members, j, members[i].kind.linkname) && members[j].kind.File?;
    SamePath(members, j, done[k]);
    assert Holds(members, done[k], root[At(members, done[k])]);
  }

  /** One step of a safe archive: nothing is in the way, and the root gains exactly the member. */
  lemma StepContains(members: seq<Member>, done: seq<nat>, root: Root, i: nat)
    requires Safe(members) && i < |members| && i !in done && Members(done, |members|) && Contains(members, done, root)
    requires members[i].kind.Hardlink? ==>
             exists k | 0 <= k < |done| :: Names(members, done[k], members[i].kind.linkname)
    ensures Extract(root, members, i).Extracted? && Members(done + [i], |members|)
    ensures Contains(members, done + [i], Extract(root, members, i).root)
  {
    var p := At(members, i);
    assert Plain(members[i]);
    forall a | a in Ancestors(p) && a in root ensures root[a] == Folder { FoldersAbove(members, done, root, i, a); }
    if p in root { PathFree(members, done, root, i); }
    if members[i].kind.Hardlink? {
      var k :| 0 <= k < |done| && Names(members, done[k], members[i].kind.linkname);
      TargetThere(members, done, root, i, k);
    }
    var e := Extract(root, members, i).root[p];
    assert Holds(members, i, e);
    assert Extract(root, members, i).root == (root + map a | a in Ancestors(p) :: Folder)[p := e];
    NotDoneYet(members, done, i);
    AddsMember(members, done, root, i, e);
  }

  lemma AddsMember(members: seq<Member>, done: seq<nat>, root: Root, i: nat, e: Entry)
    requires i < |members| && Members(done, |members|) && Contains(members, done, root) && Holds(members, i, e)
    requires !MemberPath(members, done, At(members, i))
    requires forall a | a in Ancestors(At(members, i)) && a in root :: root[a] == Folder
    ensures Members(done + [i], |members|)
    ensures Contains(members, done + [i],
              (root + map a | a in Ancestors(At(members, i)) :: Folder)[At(members, i) := e])
  {
    var p, all := At(members, i), done + [i];
    var next := (root + map a | a in Ancestors(p) :: Folder)[p := e];
    assert all[|done|] == i;
    forall k | 0 <= k < |all| ensures At(members, all[k]) in next && Holds(members, all[k], next[At(members, all[k])]) {
      if k < |done| {
        assert all[k] == done[k] && Holds(members, done[k], root[At(members, done[k])]);
        assert MemberPath(members, done, At(members, done[k]));
      }
    }
    forall q | q in next ensures MemberPath(members, all, q) || (next[q] == Folder && AboveSome(members, all, q)) {
      NothingElse(members, done, root, i, q);
    }
  }

  lemma NothingElse(members: seq<Member>, done: seq<nat>, root: Root, i: nat, q: Path)
    requires i < |members| && Members(done, |members|) && Contains(members, done, root)
    requires q == At(members, i) || q in Ancestors(At(members, i)) || q in root
    ensures Members(done + [i], |members|)
    ensures || MemberPath(members, done + [i], q)
            || (AboveSome(members, done + [i], q)
                && (q in Ancestors(At(members, i)) || (q in root && root[q] == Folder)))
  {
    var all := done + [i];
    assert all[|done|] == i;
    if q != At(members, i) && q !in Ancestors(At(members, i)) {
      if MemberPath(members, done, q) {
        var k :| 0 <= k < |done| && q == At(members, done[k]);
        assert q == At(members, all[k]);
      } else {
        var k :| 0 <= k < |done| && q in Ancestors(At(members, done[k]));
        assert q in Ancestors(At(members, all[k]));
      }
    }
  }

  /** An order that puts links last does so up to any point, and the next member's file is among those before it. */
  lemma LinksLastPart(members: seq<Member>, done: seq<nat>, i: nat)
    requires Members(done + [i], |members|) && LinksLast(members, done + [i])
    ensures Members(done, |members|) && i < |members| && LinksLast(members, done)
    ensures members[i].kind.Hardlink? ==>
              exists k | 0 <= k < |done| :: Names(members, done[k], members[i].kind.linkname)
  {
    var order := done + [i];
    assert order[|done|] == i && forall k | 0 <= k < |done| :: order[k] == done[k];
    forall k | 0 <= k < |done| && members[done[k]].kind.Hardlink?
      ensures exists j | 0 <= j < k :: Names(members, done[j], members[done[k]].kind.linkname)
    {
      var j :| 0 <= j < k && Names(members, order[j], members[order[k]].kind.linkname);
      assert Names(members, done[j], members[done[k]].kind.linkname);
    }
    if members[i].kind.Hardlink? {
      var j :| 0 <= j < |done| && Names(members, order[j], members[order[|done|]].kind.linkname);
      assert Names(members, done[j], members[i].kind.linkname);
    }
  }

  lemma NoRepeatsPart(done: seq<nat>, i: nat)
    requires NoRepeats(done + [i])
    ensures NoRepeats(done) && i !in done
  {
    var order := done + [i];
    assert order[|done|] == i;
    assert forall k | 0 <= k < |done| :: order[k] == done[k];
  }

  lemma ExtractLast(members: seq<Member>, done: seq<nat>, i: nat)
    requires Members(done, |members|) && i < |members|
    ensures Members(done + [i], |members|)
    ensures ExtractAll(members, done).Extracted? ==>
              ExtractAll(members, done + [i]) == Extract(ExtractAll(members, done).root, members, i)
  {
    assert (done + [i])[..|done|] == done;
  }

  /** After any part of such an order, the root holds exactly the members extracted and the directories above them. */
  lemma {:induction false} PartExtracts(members: seq<Member>, order: seq<nat>)
    requires Safe(members) && Members(order, |members|) && LinksLast(members, order) && NoRepeats(order)
    ensures ExtractAll(members, order).Extracted? && Contains(members, order, ExtractAll(members, order).root)
  {
    hide *;
    if order == [] {
      NothingExtracted(members);
    } else {
      var done, i := order[..|order| - 1], order[|order| - 1];
      assert order == done + [i];
      LinksLastPart(members, done, i);
      NoRepeatsPart(done, i);
      PartExtracts(members, done);
      LastExtracts(members, done, i);
    }
  }

  lemma NothingExtracted(members: seq<Member>)
    ensures ExtractAll(members, []) == Extracted(map[]) && Contains(members, [], map[])
  {
  }

  lemma LastExtracts(members: seq<Member>, done: seq<nat>, i: nat)
    requires Safe(members) && i < |members| && i !in done && Members(done, |members|)
    requires ExtractAll(members, done).Extracted? && Contains(members, done, ExtractAll(members, done).root)
    requires members[i].kind.Hardlink? ==>
             exists k | 0 <= k < |done| :: Names(members, done[k], members[i].kind.linkname)
    ensures Members(done + [i], |members|)
    ensures ExtractAll(members, done + [i]).Extracted?
              && Contains(members, done + [i], ExtractAll(members, done + [i]).root)
  {
    hide *;
    StepContains(members, done, ExtractAll(members, done).root, i);
    ExtractLast(members, done, i);
  }

  /**
   * A safe archive extracts without fault in any such order: every member ends at its own path, and the
   * root holds nothing else but directories above them.
   */
  lemma SafeExtracts(members: seq<Member>, order: seq<nat>)
    requires Safe(members) && Orders(order, |members|) && LinksLast(members, order)
    ensures ExtractAll(members, order).Extracted?
    ensures var root := ExtractAll(members, order).root;
            && (forall i | 0 <= i < |members| :: At(members, i) in root && Holds(members, i, root[At(members, i)]))
            && (forall p | p in root :: MemberPath(members, order, p)
                  || (root[p] == Folder && AboveSome(members, order, p)))
  {
    PartExtracts(members, order);
    hide Safe, LinksLast, ExtractAll, Holds;
    forall i | 0 <= i < |members|
      ensures At(members, i) in ExtractAll(members, order).root
                && Holds(members, i, ExtractAll(members, order).root[At(members, i)])
    {
      assert i in order;
      var k :| 0 <= k < |order| && order[k] == i;
    }
  }
}
