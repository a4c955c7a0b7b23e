/**
 * The package-state tree of the app-owned Fedora root and the record list that
 * the upgrade helper derives from it.  A digest is modelled as the value it is
 * taken over, so equal digests mean equal identity and equal record list.
 */
module PackageState {
  import opened Basics

  datatype Meta = Meta(mode: nat, uid: nat, gid: nat)

  /** `Special` stands for anything that is neither a directory nor a regular file. */
  datatype Node =
    | Dir(meta: Meta, children: map<string, Node>)
    | File(meta: Meta, links: nat, data: Bytes)
    | Special(meta: Meta)

  /** Directories give records of four fields, files records of five. */
  datatype Record =
    | DirRecord(path: string, meta: Meta)
    | FileRecord(path: string, meta: Meta, data: Bytes)

  datatype StateDigest = StateDigest(identity: Bytes, records: seq<Record>)

  // --- Sorted directory listings ------------------------------------------

  /** Code-point order of two names. */
  predicate Before(a: string, b: string)
  {
    if a == "" then b != ""
    else if b == "" then false
    else a[0] < b[0] || (a[0] == b[0] && Before(a[1..], b[1..]))
  }

  lemma BeforeTotal(a: string, b: string)
    ensures a == b || Before(a, b) || Before(b, a)
  {
    if a != "" && b != "" && a[0] == b[0] {
      BeforeTotal(a[1..], b[1..]);
      assert a == [a[0]] + a[1..] && b == [b[0]] + b[1..];
    }
  }

  lemma BeforeIrreflexive(a: string)
    ensures !Before(a, a)
  {
    if a != "" { BeforeIrreflexive(a[1..]); }
  }

  lemma BeforeTransitive(a: string, b: string, c: string)
    requires Before(a, b) && Before(b, c)
    ensures Before(a, c)
  {
    if a != "" && a[0] == b[0] && b[0] == c[0] {
      BeforeTransitive(a[1..], b[1..], c[1..]);
    }
  }

  /** Two names compare at the first character in which they differ; a beginning comes before the whole. */
  lemma {:induction false} BeforeExactly(a: string, b: string)
    ensures Before(a, b) <==>
              exists i | 0 <= i <= |a| && i < |b| :: a[..i] == b[..i] && (i == |a| || a[i] < b[i])
  {
    if a != "" && b != "" && a[0] == b[0] {
      BeforeExactly(a[1..], b[1..]);
      if i :| 0 <= i <= |a[1..]| && i < |b[1..]| && a[1..][..i] == b[1..][..i]
              && (i == |a[1..]| || a[1..][i] < b[1..][i]) {
        assert a[..i + 1] == [a[0]] + a[1..][..i] && b[..i + 1] == [b[0]] + b[1..][..i];
      }
      if i :| 0 <= i <= |a| && i < |b| && a[..i] == b[..i] && (i == |a| || a[i] < b[i]) {
        assert i > 0;
        assert a[1..][..i - 1] == a[..i][1..] && b[1..][..i - 1] == b[..i][1..];
        assert i == |a| || a[1..][i - 1] < b[1..][i - 1];
      }
    } else if a == "" || b == "" || a[0] < b[0] {
      assert a[..0] == b[..0];
    } else if i :| 0 <= i <= |a| && i < |b| && a[..i] == b[..i] && (i == |a| || a[i] < b[i]) {
      assert i > 0 ==> a[..i][0] == b[..i][0];
    }
  }

  predicate First(name: string, names: set<string>)
  {
    name in names && forall other | other in names :: other == name || Before(name, other)
  }

  lemma HasFirst(names: set<string>)
    requires names != {}
    ensures exists name :: First(name, names)
  {
    var some :| some in names;
    var rest := names - {some};
    if rest == {} {
      assert names == {some};
      assert First(some, names);
    } else {
      HasFirst(rest);
      var least :| First(least, rest);
      BeforeTotal(some, least);
      if Before(some, least) {
        forall other | other in names ensures other == some || Before(some, other) {
          if other != some && other != least { BeforeTransitive(some, least, other); }
        }
        assert First(some, names);
      } else {
        assert First(least, names);
      }
    }
  }

  lemma FirstUnique(a: string, b: string, names: set<string>)
    requires First(a, names) && First(b, names)
    ensures a == b
  {
    if a != b {
      BeforeTransitive(a, b, a);
      BeforeIrreflexive(a);
    }
  }

  function FirstOf(names: set<string>): (name: string)
    requires names != {}
    ensures First(name, names)
  {
    HasFirst(names);
    assert forall a, b | First(a, names) && First(b, names) :: a == b by {
      forall a, b | First(a, names) && First(b, names) ensures a == b { FirstUnique(a, b, names); }
    }
    var name :| name in names && First(name, names);
    name
  }

  /** `sorted(os.listdir(fd))`: every name once, in code-point order. */
  function Listing(names: set<string>): (r: seq<string>)
    ensures forall name :: name in r <==> name in names
    ensures forall i, j | 0 <= i < j < |r| :: Before(r[i], r[j])
  {
    if names == {} then []
    else
      var name := FirstOf(names);
      [name] + Listing(names - {name})
  }

  lemma ListingDistinct(names: set<string>, i: nat, j: nat)
    requires i < j < |Listing(names)|
    ensures Listing(names)[i] != Listing(names)[j]
  {
    BeforeIrreflexive(Listing(names)[i]);
  }

  // --- The record list ------------------------------------------------------

  /** Nothing in the tree makes the walk stop: one owner, no special files, single links. */
  predicate Sound(n: Node, owner: nat)
  {
    && n.meta.uid == owner
    && match n {
         case Dir(_, children) => forall name | name in children :: Sound(children[name], owner)
         case File(_, links, _) => links == 1
         case Special(_) => false
       }
  }

  /** Nothing below a directory makes the walk stop. */
  predicate SoundBelow(d: Node, owner: nat)
    requires d.Dir?
  {
    forall name | name in d.children :: Sound(d.children[name], owner)
  }

  /** Names a file system can hold. */
  predicate Named(n: Node)
  {
    n.Dir? ==> forall name | name in n.children :: name != "" && '/' !in name && Named(n.children[name])
  }

  function Flatten(prefix: string, names: seq<string>, d: Node): (r: seq<Record>)
    requires d.Dir? && forall name | name in names :: name in d.children
    decreases d, |names|
  {
    if names == [] then []
    else FlattenNode(prefix + names[0], d.children[names[0]]) + Flatten(prefix, names[1..], d)
  }

  function FlattenNode(path: string, n: Node): (r: seq<Record>)
    decreases n
  {
    match n
    case Dir(meta, children) =>
      [DirRecord(path, meta)] + Flatten(path + "/", Listing(children.Keys), n)
    case File(meta, _, data) => [FileRecord(path, meta, data)]
    case Special(_) => []
  }

  /** The record list of a state directory: what `walk(state)` leaves in `records`. */
  function Records(state: Node): seq<Record>
    requires state.Dir?
  {
    Flatten("", Listing(state.children.Keys), state)
  }

  // --- The record list determines the tree ----------------------------------

  /** No record of `rest` lies at or below a path that begins with `prefix`. */
  predicate NoneUnder(prefix: string, rest: seq<Record>)
  {
    forall r | r in rest :: !(prefix <= r.path)
  }

  /** A node's records are at its path, or below it behind a slash. */
  lemma {:induction false} FlattenNodePaths(path: string, n: Node)
    ensures forall r | r in FlattenNode(path, n) :: r.path == path || path + "/" <= r.path
    decreases n
  {
    if n.Dir? {
      FlattenPaths(path + "/", Listing(n.children.Keys), n);
      forall r | r in FlattenNode(path, n) ensures r.path == path || path + "/" <= r.path {}
    }
  }

  lemma {:induction false} FlattenPaths(prefix: string, names: seq<string>, d: Node)
    requires d.Dir? && forall name | name in names :: name in d.children
    ensures forall r | r in Flatten(prefix, names, d) ::
              exists name | name in names :: r.path == prefix + name || prefix + name + "/" <= r.path
    decreases d, |names|
  {
    if names != [] {
      FlattenNodePaths(prefix + names[0], d.children[names[0]]);
      FlattenPaths(prefix, names[1..], d);
      forall r | r in Flatten(prefix, names, d)
        ensures exists name | name in names :: r.path == prefix + name || prefix + name + "/" <= r.path
      {
        if r in FlattenNode(prefix + names[0], d.children[names[0]]) {
          assert names[0] in names;
        } else {
          assert r in Flatten(prefix, names[1..], d);
          var name :| name in names[1..] && (r.path == prefix + name || prefix + name + "/" <= r.path);
          assert name in names;
        }
      }
    }
  }

  /** The part of a path up to its first slash. */
  function FirstPart(path: string): string
  {
    if path == "" || path[0] == '/' then "" else [path[0]] + FirstPart(path[1..])
  }

  lemma {:induction false} FirstPartOf(name: string, path: string)
    requires '/' !in name && (path == name || name + "/" <= path)
    ensures FirstPart(path) == name
  {
    if name == "" {
    } else {
      assert path[0] == name[0] by { assert path != name ==> path[0] == (name + "/")[0]; }
      assert path != name ==> name[1..] + "/" == (name + "/")[1..] <= path[1..];
      FirstPartOf(name[1..], path[1..]);
    }
  }

  /** A path lies at or below one slash-free name only. */
  lemma SlashSeparates(prefix: string, a: string, b: string, path: string)
    requires '/' !in a && '/' !in b
    requires prefix + a + "/" <= path
    requires path == prefix + b || prefix + b + "/" <= path
    ensures a == b
  {
    var below := path[|prefix|..];
    assert a + "/" == (prefix + a + "/")[|prefix|..] <= below;
    assert path != prefix + b ==> b + "/" == (prefix + b + "/")[|prefix|..] <= below;
    FirstPartOf(a, below);
    FirstPartOf(b, below);
  }

  lemma RestNotUnder(prefix: string, names: seq<string>, d: Node, rest: seq<Record>)
    requires d.Dir? && Named(d) && (forall name | name in names :: name in d.children)
    requires names != [] && names[0] !in names[1..]
    requires NoneUnder(prefix, rest)
    ensures NoneUnder(prefix + names[0] + "/", Flatten(prefix, names[1..], d) + rest)
  {
    var below := prefix + names[0] + "/";
    FlattenPaths(prefix, names[1..], d);
    forall r | r in Flatten(prefix, names[1..], d) + rest ensures !(below <= r.path) {
      if r in Flatten(prefix, names[1..], d) {
        var name :| name in names[1..] && (r.path == prefix + name || prefix + name + "/" <= r.path);
        assert name in names;
        if below <= r.path { SlashSeparates(prefix, names[0], name, r.path); }
      } else {
        assert prefix <= below;
        assert below <= r.path ==> prefix <= r.path;
      }
    }
  }

  predicate Distinct(names: seq<string>)
  {
    forall i, j | 0 <= i < j < |names| :: names[i] != names[j]
  }

  /**
   * Reading a record list back: if the same list starts with the records of two
   * directories, both directories list the same names, bind them to the same
   * subtrees, and leave the same remainder.
   */
  lemma {:induction false} FlattenInjective(
      prefix: string, owner: nat,
      namesA: seq<string>, a: Node, restA: seq<Record>,
      namesB: seq<string>, b: Node, restB: seq<Record>)
    requires a.Dir? && b.Dir? && Sound(a, owner) && Sound(b, owner) && Named(a) && Named(b)
    requires Distinct(namesA) && (forall name | name in namesA :: name in a.children)
    requires Distinct(namesB) && (forall name | name in namesB :: name in b.children)
    requires NoneUnder(prefix, restA) && NoneUnder(prefix, restB)
    requires Flatten(prefix, namesA, a) + restA == Flatten(prefix, namesB, b) + restB
    ensures namesA == namesB && restA == restB
    ensures forall name | name in namesA :: a.children[name] == b.children[name]
    decreases a, |namesA|
  {
    if namesA == [] {
      if namesB != [] { HeadUnder(prefix, namesB, b, restB); assert false; }
      assert [] + restA == restA && [] + restB == restB;
    } else if namesB == [] {
      HeadUnder(prefix, namesA, a, restA);
      assert false;
    } else {
      var m, n := a.children[namesA[0]], b.children[namesB[0]];
      var tailA := Flatten(prefix, namesA[1..], a) + restA;
      var tailB := Flatten(prefix, namesB[1..], b) + restB;
      FlattenHead(prefix, namesA, a, restA);
      FlattenHead(prefix, namesB, b, restB);
      HeadsAgree(prefix, namesA[0], m, tailA, namesB[0], n, tailB);
      if m.Dir? {
        RestNotUnder(prefix, namesA, a, restA);
        RestNotUnder(prefix, namesB, b, restB);
        AllDistinct(m.children.Keys);
        AllDistinct(n.children.Keys);
        FlattenInjective(prefix + namesA[0] + "/", owner, Listing(m.children.Keys), m, tailA, Listing(n.children.Keys),
            n, tailB);
        SameChildren(m.children, n.children);
      }
      assert m == n;
      FlattenInjective(prefix, owner, namesA[1..], a, restA, namesB[1..], b, restB);
      assert namesA == [namesA[0]] + namesA[1..] && namesB == [namesB[0]] + namesB[1..];
    }
  }

  lemma FlattenHead(prefix: string, names: seq<string>, d: Node, rest: seq<Record>)
    requires d.Dir? && (forall name | name in names :: name in d.children) && names != []
    ensures Flatten(prefix, names, d) + rest
         == FlattenNode(prefix + names[0], d.children[names[0]]) + (Flatten(prefix, names[1..], d) + rest)
  {
  }

  /** The first records of equal lists fix the first name, its kind and its metadata. */
  lemma HeadsAgree(
      prefix: string,
      nameA: string, m: Node, tailA: seq<Record>,
      nameB: string, n: Node, tailB: seq<Record>)
    requires !m.Special? && !n.Special?
    requires FlattenNode(prefix + nameA, m) + tailA == FlattenNode(prefix + nameB, n) + tailB
    ensures nameA == nameB && m.Dir? == n.Dir? && m.meta == n.meta
    ensures m.Dir? ==>
              Flatten(prefix + nameA + "/", Listing(m.children.Keys), m) + tailA
              == Flatten(prefix + nameA + "/", Listing(n.children.Keys), n) + tailB
    ensures m.File? ==> m.data == n.data && tailA == tailB
  {
    NodeTail(prefix + nameA, m);
    NodeTail(prefix + nameB, n);
    hide *;
    HeadSplit(FlattenNode(prefix + nameA, m), tailA, FlattenNode(prefix + nameB, n), tailB);
    assert nameA == (prefix + nameA)[|prefix|..] && nameB == (prefix + nameB)[|prefix|..];
    if m.File? {
      assert [FileRecord(prefix + nameA, m.meta, m.data)][1..] + tailA == tailA;
      assert [FileRecord(prefix + nameB, n.meta, n.data)][1..] + tailB == tailB;
    }
  }

  lemma HeadSplit<T>(x: seq<T>, xs: seq<T>, y: seq<T>, ys: seq<T>)
    requires x != [] && y != [] && x + xs == y + ys
    ensures x[0] == y[0] && x[1..] + xs == y[1..] + ys
  {
    assert (x + xs)[0] == (y + ys)[0];
    assert x[1..] + xs == (x + xs)[1..] == (y + ys)[1..] == y[1..] + ys;
  }

  lemma NodeTail(path: string, n: Node)
    requires !n.Special?
    ensures FlattenNode(path, n) != []
    ensures n.Dir? ==> FlattenNode(path, n)[0] == DirRecord(path, n.meta)
                       && FlattenNode(path, n)[1..] == Flatten(path + "/", Listing(n.children.Keys), n)
    ensures n.File? ==> FlattenNode(path, n) == [FileRecord(path, n.meta, n.data)]
  {
  }

  lemma HeadUnder(prefix: string, names: seq<string>, d: Node, rest: seq<Record>)
    requires d.Dir? && (forall name | name in names :: name in d.children)
    requires names != [] && !d.children[names[0]].Special?
    ensures Flatten(prefix, names, d) + rest != [] && prefix <= (Flatten(prefix, names, d) + rest)[0].path
  {
    var block := FlattenNode(prefix + names[0], d.children[names[0]]);
    assert (Flatten(prefix, names, d) + rest)[0] == block[0];
  }

  lemma AllDistinct(names: set<string>)
    ensures Distinct(Listing(names))
  {
    forall i, j | 0 <= i < j < |Listing(names)| ensures Listing(names)[i] != Listing(names)[j] {
      ListingDistinct(names, i, j);
    }
  }

  lemma SameChildren(a: map<string, Node>, b: map<string, Node>)
    requires Listing(a.Keys) == Listing(b.Keys)
    requires forall name | name in Listing(a.Keys) :: a[name] == b[name]
    ensures a == b
  {
    assert a.Keys == b.Keys by {
      forall name ensures name in a.Keys <==> name in b.Keys {
        assert name in a.Keys <==> name in Listing(a.Keys);
      }
    }
  }

  /**
   * The snapshot is faithful: two state directories have equal digests exactly when their roots have the same
   * identity and they hold the same names, kinds, modes, owners and bytes at every depth.
   */
  lemma SnapshotFaithful(x: Bytes, y: Bytes, owner: nat, a: Node, b: Node)
    requires a.Dir? && b.Dir? && SoundBelow(a, owner) && SoundBelow(b, owner) && Named(a) && Named(b)
    ensures StateDigest(x, Records(a)) == StateDigest(y, Records(b)) <==> x == y && a.children == b.children
  {
    SameListing(a, b);
    if Records(a) == Records(b) {
      var a', b' := Dir(Meta(0, owner, 0), a.children), Dir(Meta(0, owner, 0), b.children);
      SameListing(a, a');
      SameListing(b, b');
      AllDistinct(a.children.Keys);
      AllDistinct(b.children.Keys);
      assert Records(a') + [] == Records(b') + [];
      FlattenInjective("", owner, Listing(a.children.Keys), a', [], Listing(b.children.Keys), b', []);
      SameChildren(a.children, b.children);
    }
  }

  lemma {:induction false} SameFlatten(prefix: string, names: seq<string>, a: Node, b: Node)
    requires a.Dir? && b.Dir? && a.children == b.children && forall name | name in names :: name in a.children
    ensures Flatten(prefix, names, a) == Flatten(prefix, names, b)
    decreases |names|
  {
    if names != [] { SameFlatten(prefix, names[1..], a, b); }
  }

  lemma SameListing(a: Node, b: Node)
    requires a.Dir? && b.Dir?
    ensures a.children == b.children ==> Records(a) == Records(b)
  {
    if a.children == b.children { SameFlatten("", Listing(a.children.Keys), a, b); }
  }

  // --- The record list, entry by entry -------------------------------------------

  /** The node that a path of names leads to. */
  function Below(n: Node, path: seq<string>): Option<Node>
    decreases path
  {
    if path == [] then Some(n)
    else if n.Dir? && path[0] in n.children then Below(n.children[path[0]], path[1..])
    else None
  }

  /** A path of names with slashes between them. */
  function PathText(path: seq<string>): string
  {
    if path == [] then "" else if |path| == 1 then path[0] else path[0] + "/" + PathText(path[1..])
  }

  predicate Fine(n: Node, owner: nat)
  {
    n.meta.uid == owner && !n.Special? && (n.File? ==> n.links == 1)
  }

  lemma {:induction false} SoundReaches(n: Node, owner: nat, path: seq<string>)
    requires Sound(n, owner) && Below(n, path).Some?
    ensures Fine(Below(n, path).value, owner)
    decreases path
  {
    if path != [] { SoundReaches(n.children[path[0]], owner, path[1..]); }
  }

  predicate FineAt(n: Node, owner: nat, path: seq<string>)
  {
    Below(n, path).Some? ==> Fine(Below(n, path).value, owner)
  }

  /** A tree is sound exactly when every node at every depth is a single-linked file or a directory of the owner. */
  lemma {:induction false} SoundExactly(n: Node, owner: nat)
    ensures Sound(n, owner) <==> forall path :: FineAt(n, owner, path)
    decreases n
  {
    if Sound(n, owner) {
      forall path ensures FineAt(n, owner, path) {
        if Below(n, path).Some? { SoundReaches(n, owner, path); }
      }
    } else if !Fine(n, owner) {
      assert !FineAt(n, owner, []);
    } else {
      var name :| name in n.children && !Sound(n.children[name], owner);
      SoundExactly(n.children[name], owner);
      var path :| !FineAt(n.children[name], owner, path);
      assert ([name] + path)[1..] == path;
      assert !FineAt(n, owner, [name] + path);
    }
  }

  /** The record of a node. */
  function RecordOf(text: string, n: Node): Record
    requires !n.Special?
  {
    if n.Dir? then DirRecord(text, n.meta) else FileRecord(text, n.meta, n.data)
  }

  /** A directory comes before what it holds, and otherwise the first names that differ decide. */
  predicate PathBefore(p: seq<string>, q: seq<string>)
  {
    if p == [] then q != []
    else if q == [] then false
    else if p[0] == q[0] then PathBefore(p[1..], q[1..])
    else Before(p[0], q[0])
  }

  function Prefixed(name: string, paths: seq<seq<string>>): (r: seq<seq<string>>)
    ensures |r| == |paths| && forall i | 0 <= i < |r| :: r[i] == [name] + paths[i]
  {
    seq(|paths|, i requires 0 <= i < |paths| => [name] + paths[i])
  }

  /** The paths below a directory, those through the given names, in the order of the walk. */
  function Walked(names: seq<string>, d: Node): (paths: seq<seq<string>>)
    requires d.Dir? && forall name | name in names :: name in d.children
    decreases d, |names|
  {
    if names == [] then []
    else
      var n := d.children[names[0]];
      [[names[0]]] + (if n.Dir? then Prefixed(names[0], Walked(Listing(n.children.Keys), n)) else [])
      + Walked(names[1..], d)
  }

  /** Every record is the record of the path visited at its place. */
  ghost predicate Along(prefix: string, d: Node, paths: seq<seq<string>>, records: seq<Record>)
  {
    |records| == |paths| && forall i | 0 <= i < |paths| :: RecordAt(prefix, d, paths[i], records[i])
  }

  predicate RecordAt(prefix: string, d: Node, path: seq<string>, r: Record)
  {
    && path != [] && Below(d, path).Some? && !Below(d, path).value.Special?
    && r == RecordOf(prefix + PathText(path), Below(d, path).value)
  }

  lemma AlongConcat(prefix: string, d: Node, p: seq<seq<string>>, q: seq<seq<string>>, a: seq<Record>, b: seq<Record>)
    requires Along(prefix, d, p, a) && Along(prefix, d, q, b)
    ensures Along(prefix, d, p + q, a + b)
  {
  }

  lemma AlongInside(prefix: string, name: string, d: Node, paths: seq<seq<string>>, records: seq<Record>)
    requires d.Dir? && name in d.children && Along(prefix + name + "/", d.children[name], paths, records)
    ensures Along(prefix, d, Prefixed(name, paths), records)
  {
    forall i | 0 <= i < |paths| ensures RecordAt(prefix, d, Prefixed(name, paths)[i], records[i]) {
      var path := [name] + paths[i];
      assert RecordAt(prefix + name + "/", d.children[name], paths[i], records[i]);
      assert path[1..] == paths[i];
      assert PathText(path) == name + "/" + PathText(paths[i]);
      Regrouped(prefix, name, "/", PathText(paths[i]));
      hide PathText;
    }
  }

  lemma Regrouped(a: string, b: string, c: string, d: string)
    ensures a + (b + c + d) == a + b + c + d
  {
  }

  lemma {:induction false} FlattenAlong(prefix: string, owner: nat, names: seq<string>, d: Node)
    requires d.Dir? && SoundBelow(d, owner) && forall name | name in names :: name in d.children
    ensures Along(prefix, d, Walked(names, d), Flatten(prefix, names, d))
    decreases d, |names|
  {
    if names != [] {
      var name, n := names[0], d.children[names[0]];
      assert Below(d, [name]) == Below(n, []) && PathText([name]) == name;
      var first := RecordOf(prefix + name, n);
      assert Along(prefix, d, [[name]], [first]);
      var inner: seq<seq<string>>, below: seq<Record> := [], [];
      if n.Dir? {
        FlattenAlong(prefix + name + "/", owner, Listing(n.children.Keys), n);
        inner := Prefixed(name, Walked(Listing(n.children.Keys), n));
        below := Flatten(prefix + name + "/", Listing(n.children.Keys), n);
        AlongInside(prefix, name, d, Walked(Listing(n.children.Keys), n), below);
      }
      FlattenAlong(prefix, owner, names[1..], d);
      assert FlattenNode(prefix + name, n) == [first] + below;
      hide Along, RecordAt;
      AlongConcat(prefix, d, [[name]], inner, [first], below);
      AlongConcat(prefix, d, [[name]] + inner, Walked(names[1..], d), [first] + below, Flatten(prefix, names[1..], d));
    }
  }

  /** The walk misses nothing below the names it is given. */
  lemma {:induction false} WalkedReaches(names: seq<string>, d: Node, path: seq<string>)
    requires d.Dir? && forall name | name in names :: name in d.children
    requires path != [] && path[0] in names && Below(d, path).Some?
    ensures path in Walked(names, d)
    decreases path, |names|
  {
    var name, n := names[0], d.children[names[0]];
    if path[0] != name {
      WalkedReaches(names[1..], d, path);
    } else if |path| == 1 {
      assert path == [name];
      assert Walked(names, d)[0] == [name];
    } else {
      var inner := Walked(Listing(n.children.Keys), n);
      WalkedReaches(Listing(n.children.Keys), n, path[1..]);
      InPrefixed(name, inner, path);
      assert Walked(names, d) == [[name]] + Prefixed(name, inner) + Walked(names[1..], d);
      hide *;
    }
  }

  lemma InPrefixed(name: string, paths: seq<seq<string>>, path: seq<string>)
    requires path != [] && path[0] == name && path[1..] in paths
    ensures path in Prefixed(name, paths)
  {
    var i :| 0 <= i < |paths| && paths[i] == path[1..];
    assert Prefixed(name, paths)[i] == [name] + path[1..] == path;
  }

  predicate Ascending(paths: seq<seq<string>>)
  {
    forall i, j | 0 <= i < j < |paths| :: PathBefore(paths[i], paths[j])
  }

  lemma {:induction false} WalkedAscends(names: seq<string>, d: Node)
    requires d.Dir? && (forall name | name in names :: name in d.children)
    requires forall i, j | 0 <= i < j < |names| :: Before(names[i], names[j])
    ensures Ascending(Walked(names, d))
    ensures forall path | path in Walked(names, d) :: path != [] && path[0] in names
    decreases d, |names|
  {
    if names != [] {
      var name, n := names[0], d.children[names[0]];
      var inner := if n.Dir? then Walked(Listing(n.children.Keys), n) else [];
      if n.Dir? { WalkedAscends(Listing(n.children.Keys), n); }
      WalkedAscends(names[1..], d);
      var here, rest := [[name]] + Prefixed(name, inner), Walked(names[1..], d);
      PrefixedAscends(name, inner);
      assert forall other | other in names[1..] :: Before(name, other);
      assert Walked(names, d) == here + rest;
      hide Walked;
      AscendingConcat(name, here, rest);
    }
  }

  lemma PrefixedAscends(name: string, inner: seq<seq<string>>)
    requires Ascending(inner) && forall path | path in inner :: path != []
    ensures Ascending([[name]] + Prefixed(name, inner))
    ensures forall path | path in [[name]] + Prefixed(name, inner) :: path != [] && path[0] == name
  {
    var here := [[name]] + Prefixed(name, inner);
    forall i, j | 0 <= i < j < |here| ensures PathBefore(here[i], here[j]) {
      assert here[j][1..] == inner[j - 1] && inner[j - 1] in inner;
      if i > 0 { assert here[i][1..] == inner[i - 1]; }
    }
  }

  lemma AscendingConcat(name: string, here: seq<seq<string>>, rest: seq<seq<string>>)
    requires Ascending(here) && (forall path | path in here :: path != [] && path[0] == name)
    requires Ascending(rest) && (forall path | path in rest :: path != [] && Before(name, path[0]))
    ensures Ascending(here + rest)
  {
    BeforeIrreflexive(name);
    var all := here + rest;
    forall i, j | 0 <= i < j < |all| ensures PathBefore(all[i], all[j]) {
      if i < |here| <= j { assert all[i] in here && all[j] in rest; }
    }
  }

  /**
   * The record list says what is there: one record for each file and directory at every depth, at its path and
   * with its metadata and bytes, in ascending order of the paths name by name, a directory before what it holds.
   */
  lemma RecordsExactly(d: Node, owner: nat) returns (paths: seq<seq<string>>)
    requires d.Dir? && SoundBelow(d, owner)
    ensures |paths| == |Records(d)| && Ascending(paths)
    ensures forall path :: path in paths <==> path != [] && Below(d, path).Some?
    ensures forall i | 0 <= i < |paths| :: RecordAt("", d, paths[i], Records(d)[i])
  {
    var names := Listing(d.children.Keys);
    paths := Walked(names, d);
    FlattenAlong("", owner, names, d);
    WalkedAscends(names, d);
    forall path | path != [] && Below(d, path).Some? ensures path in paths { WalkedReaches(names, d, path); }
    assert forall i | 0 <= i < |paths| :: RecordAt("", d, paths[i], Records(d)[i]);
  }

  // --- The walk ---------------------------------------------------------------

  /** `walk`: the recursive directory visit that fills the shared record list. */
  class Walker {
    const owner: nat
    var records: seq<Record>

    constructor (owner: nat)
      ensures this.owner == owner && records == []
    {
      this.owner := owner;
      records := [];
    }

    /** Fails exactly when something below `d` is not sound; otherwise appends its records. */
    method Walk(d: Node, prefix: string) returns (ok: bool)
      requires d.Dir?
      modifies this
      ensures ok <==> SoundBelow(d, owner)
      ensures ok ==> records == old(records) + Flatten(prefix, Listing(d.children.Keys), d)
      decreases d, 0
    {
      var names := Listing(d.children.Keys);
      ghost var before := records;
      assert Flatten(prefix, names[..0], d) == [];
      hide *;
      for i := 0 to |names|
        invariant forall j | 0 <= j < i :: Sound(d.children[names[j]], owner)
        invariant records == before + Flatten(prefix, names[..i], d)
      {
        FlattenStep(prefix, names, d, i);
        var entered := Visit(d.children[names[i]], prefix + names[i]);
        if !entered { return false; }
      }
      assert names[..|names|] == names;
      ok := true;
    }

    /** The loop body of the walk for one entry. */
    method Visit(n: Node, path: string) returns (ok: bool)
      modifies this
      ensures ok <==> Sound(n, owner)
      ensures ok ==> records == old(records) + FlattenNode(path, n)
      decreases n, 1
    {
      if n.meta.uid != owner || n.Special? { return false; }
      if n.Dir? {
        records := records + [DirRecord(path, n.meta)];
        ok := Walk(n, path + "/");
      } else {
        ok := n.links == 1;
        records := records + [FileRecord(path, n.meta, n.data)];
      }
    }
  }

  /** The records of one more name go at the end of the list. */
  lemma {:induction false} FlattenStep(prefix: string, names: seq<string>, d: Node, i: nat)
    requires d.Dir? && (forall name | name in names :: name in d.children) && i < |names|
    ensures Flatten(prefix, names[..i + 1], d)
         == Flatten(prefix, names[..i], d) + FlattenNode(prefix + names[i], d.children[names[i]])
    decreases i
  {
    if i == 0 {
      assert names[..1][1..] == [];
    } else {
      FlattenStep(prefix, names[1..], d, i - 1);
      assert names[..i + 1][1..] == names[1..][..i] && names[..i][1..] == names[1..][..i - 1];
      assert names[1..][i - 1] == names[i];
    }
  }
}
