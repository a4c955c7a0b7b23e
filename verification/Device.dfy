/**
 * The phone's durable state and the upgrade helper that changes it in place.
 * `trail` records every durable state the phone has passed through: a crash is
 * a stop at any of them, and a torn write is a stop inside an append.
 */
module Device {
  import opened Basics
  import opened Publication
  import PackageState
  import RootIdentity

  /** Everything that survives a crash. */
  datatype Phone = Phone(
    files: Files, folders: set<string>,
    journals: PackageState.Node, checkpoint: Option<PackageState.StateDigest>)

  /** The native commands a preparation runs, and any other one. */
  datatype Action = UpgradeCheck | Check | Migrate | Verify | Other

  /** What brought the phone into a state; a native command was accepted or not. */
  datatype Cause =
    | Began | Wrote | Made(folder: string) | Ran(action: Action, accepted: bool)
    | Recorded | Retired | Unpacked

  datatype Moment = Moment(phone: Phone, cause: Cause)

  /** How the helper treats existing package state: refuse it, print its digest, or require a digest. */
  datatype Mode = RequireEmpty | Snapshot | Checked(digest: PackageState.StateDigest)

  datatype Reason =
    | InvalidIdentity | StateNotEmpty | InvalidState | StateChanged
    | UnknownExecutable | MissingBackup | BackupDiffers | LibraryDiffers | StagingDiffers | BadMetadata

  datatype Outcome = Published | Printed(digest: PackageState.StateDigest) | Failed(reason: Reason)

  predicate HexDigit(b: byte)
  {
    '0' as int <= b as int <= '9' as int || 'a' as int <= b as int <= 'f' as int
  }

  predicate IdentityOk(f: Files)
  {
    RootId in f && f[RootId].Regular? && |f[RootId].data| == 64 && forall b | b in f[RootId].data :: HexDigit(b)
  }

  /** The identity the helper accepts is the one the launcher accepts, and the one it makes is accepted. */
  lemma IdentityExactly(f: Files, random: Bytes)
    ensures IdentityOk(f) <==> RootId in f && f[RootId].Regular? && RootIdentity.Hex64(Text(f[RootId].data))
    ensures |random| == 32 && RootId in f && f[RootId].Regular? && Text(f[RootId].data) == RootIdentity.Hex(random) ==>
              IdentityOk(f)
  {
    RootIdentity.HexIsHex(random);
    if RootId in f && f[RootId].Regular? {
      var data := f[RootId].data;
      HexDigitsExactly(Text(data));
      assert forall i | 0 <= i < |data| :: data[i] in data;
      assert forall i | 0 <= i < |data| :: Text(data)[i] as int == data[i] as int;
      hide HexDigits, RootIdentity.Hex;
    }
  }

  /** The release is the one for this root: it names the identity found in it. */
  predicate ForRoot(r: Release, f: Files)
  {
    IdentityOk(f) ==> r.root == f[RootId].data
  }

  function DigestOf(f: Files, journals: PackageState.Node): PackageState.StateDigest
    requires IdentityOk(f) && journals.Dir?
  {
    PackageState.StateDigest(f[RootId].data, PackageState.Records(journals))
  }

  /** The package-state check that comes before any publication. */
  predicate StateAllows(mode: Mode, f: Files, journals: PackageState.Node, owner: nat)
    requires IdentityOk(f)
  {
    && journals.Dir?
    && match mode {
         case RequireEmpty => journals.children.Keys == {}
         case Snapshot => false
         case Checked(digest) => PackageState.SoundBelow(journals, owner) && digest == DigestOf(f, journals)
       }
  }

  /** Digests taken over the files `f` and `g` agree exactly when the identity and every entry at every depth do. */
  lemma DigestFaithful(f: Files, a: PackageState.Node, g: Files, b: PackageState.Node, owner: nat)
    requires IdentityOk(f) && a.Dir? && PackageState.SoundBelow(a, owner) && PackageState.Named(a)
    requires IdentityOk(g) && b.Dir? && PackageState.SoundBelow(b, owner) && PackageState.Named(b)
    ensures DigestOf(f, a) == DigestOf(g, b) <==> f[RootId] == g[RootId] && a.children == b.children
  {
    PackageState.SnapshotFaithful(f[RootId].data, g[RootId].data, owner, a, b);
  }

  /**
   * Which package state is let through: an empty one without a digest, and with the digest of `a` exactly the
   * one whose entries are those of `a`.
   */
  lemma LetThrough(f: Files, a: PackageState.Node, b: PackageState.Node, owner: nat)
    requires IdentityOk(f) && a.Dir? && PackageState.SoundBelow(a, owner) && PackageState.Named(a)
    requires PackageState.Named(b)
    ensures StateAllows(Checked(DigestOf(f, a)), f, b, owner) <==> b.Dir? && b.children == a.children
    ensures StateAllows(RequireEmpty, f, b, owner) <==> b.Dir? && b.children == map[]
    ensures !StateAllows(Snapshot, f, b, owner)
  {
    if b.Dir? && PackageState.SoundBelow(b, owner) { DigestFaithful(f, a, f, b, owner); }
    hide DigestOf, PackageState.Named, PackageState.Sound;
  }

  /** Publication of plan entry `i` makes a missing folder above its target, outermost first. */
  predicate MakesFolder(plan: seq<Step>, i: nat, p: Phone, folder: string)
    requires i < |plan|
  {
    && AllPlaced(p.files, plan[..i]) && !Placed(p.files, plan[i])
    && folder in FoldersOf(plan[i].target) && forall d | d in Parents(folder) :: d in p.folders
  }

  ghost predicate FolderStep(plan: seq<Step>, p: Phone, folder: string)
  {
    exists i | 0 <= i < |plan| :: MakesFolder(plan, i, p, folder)
  }

  /** One durable step of the plan: on its files, or a folder for them, and on nothing else. */
  ghost predicate Advance(plan: seq<Step>, p: Moment, q: Moment)
  {
    match q.cause
    case Wrote => q.phone == p.phone.(files := q.phone.files) && FileStep(plan, p.phone.files, q.phone.files)
    case Made(folder) =>
      q.phone == p.phone.(folders := p.phone.folders + {folder}) && FolderStep(plan, p.phone, folder)
    case _ => false
  }

  ghost predicate AdvanceAt(plan: seq<Step>, trail: seq<Moment>, k: nat)
    requires 0 < k < |trail|
  {
    Advance(plan, trail[k - 1], trail[k])
  }

  /** `after` continues `before` by durable steps of the plan only. */
  ghost predicate Advances(plan: seq<Step>, before: seq<Moment>, after: seq<Moment>)
  {
    && before != [] && before <= after
    && forall k | |before| <= k < |after| :: AdvanceAt(plan, after, k)
  }

  lemma AdvancesTransitive(plan: seq<Step>, a: seq<Moment>, b: seq<Moment>, c: seq<Moment>)
    requires Advances(plan, a, b) && Advances(plan, b, c)
    ensures Advances(plan, a, c)
  {
    forall k | |a| <= k < |c| ensures AdvanceAt(plan, c, k) {
      if k < |b| {
        assert AdvanceAt(plan, b, k);
        assert c[k - 1] == b[k - 1] && c[k] == b[k];
      }
    }
  }

  lemma AdvancesOne(plan: seq<Step>, before: seq<Moment>, next: Moment)
    requires before != [] && Advance(plan, before[|before| - 1], next)
    ensures Advances(plan, before, before + [next])
  {
    var after := before + [next];
    assert after[|before| - 1] == before[|before| - 1] && after[|before|] == next;
    assert AdvanceAt(plan, after, |before|);
  }

  lemma FoldersNested(p: Path, k: nat)
    requires k < |FoldersOf(p)|
    ensures Parents(FoldersOf(p)[k]) == FoldersOf(p)[..k]
  {
    match p
    case RootId =>
    case Installed(name) => ParentsNested(name, k);
    case Backup(tag, root, _) => ParentsNested("var/lib/dnfast-upgrades/" + tag + "/" + Text(root) + "/", k);
    case Staged(target) => FoldersNested(target, k);
  }

  /** The files at the moments of any number of interrupted runs are a chain of the upgrade's durable steps. */
  lemma MomentsChain(r: Release, trail: seq<Moment>)
    requires WellFormed(r) && trail != [] && Advances(Plan(r), trail[..1], trail)
    ensures Chain(r, seq(|trail|, k requires 0 <= k < |trail| => trail[k].phone.files))
  {
    var states := seq(|trail|, k requires 0 <= k < |trail| => trail[k].phone.files);
    forall k | 0 < k < |trail| ensures Link(r, states, k) { assert AdvanceAt(Plan(r), trail, k); }
  }

  class Device {
    const owner: nat
    var files: Files
    var folders: set<string>
    var journals: PackageState.Node
    var checkpoint: Option<PackageState.StateDigest>
    ghost var trail: seq<Moment>

    constructor (owner: nat, phone: Phone)
      ensures Valid() && Now() == phone && this.owner == owner && trail == [Moment(phone, Began)]
    {
      this.owner := owner;
      files, folders, journals, checkpoint := phone.files, phone.folders, phone.journals, phone.checkpoint;
      trail := [Moment(phone, Began)];
    }

    ghost function Now(): Phone
      reads this
    {
      Phone(files, folders, journals, checkpoint)
    }

    ghost predicate Valid()
      reads this
    {
      trail != [] && trail[|trail| - 1].phone == Now()
    }

    /** Creates the staging file, exclusively. */
    method Create(plan: seq<Step>, i: nat)
      requires Valid() && i < |plan| && AllPlaced(files, plan[..i]) && !Placed(files, plan[i])
               && Ready(files, plan[i])
      requires Staged(plan[i].target) !in files
      modifies this`files, this`trail
      ensures Valid() && Advances(plan, old(trail), trail)
      ensures files == old(files)[Staged(plan[i].target) := Regular([])]
    {
      files := files[Staged(plan[i].target) := Regular([])];
      assert StepAt(plan, i, old(files), files);
      AdvancesOne(plan, trail, Moment(Now(), Wrote));
      trail := trail + [Moment(Now(), Wrote)];
    }

    /** Writes the missing bytes of the staging file; the write may be torn after any byte. */
    method Append(plan: seq<Step>, i: nat)
      requires Valid() && Separate(plan) && i < |plan| && AllPlaced(files, plan[..i]) && !Placed(files, plan[i])
               && Ready(files, plan[i])
      requires Staged(plan[i].target) in files && CanStage(files, plan[i])
      modifies this`files, this`trail
      ensures Valid() && Advances(plan, old(trail), trail)
      ensures files == old(files)[Staged(plan[i].target) := Regular(plan[i].data)]
    {
      var s, temp := plan[i], Staged(plan[i].target);
      assert files == files[temp := Regular(files[temp].data)];
      while files[temp].data != s.data
        invariant temp in files && files[temp].Regular? && files[temp].data <= s.data
        invariant files == old(files)[temp := Regular(files[temp].data)]
        invariant Valid() && Advances(plan, old(trail), trail)
        invariant journals == old(journals) && checkpoint == old(checkpoint)
        decreases |s.data| - |files[temp].data|
      {
        var done := |files[temp].data|;
        ghost var earlier := files;
        assert Placed(earlier, s) <==> Placed(old(files), s);
        assert AllPlaced(earlier, plan[..i]) by {
          forall j | 0 <= j < i ensures Placed(earlier, plan[..i][j]) {
            assert Placed(old(files), plan[..i][j]);
            assert plan[j].target != temp;
          }
        }
        files := files[temp := Regular(s.data[..done + 1])];
        assert StepAt(plan, i, earlier, files);
        AdvancesOne(plan, trail, Moment(Now(), Wrote));
        AdvancesTransitive(plan, old(trail), trail, trail + [Moment(Now(), Wrote)]);
        trail := trail + [Moment(Now(), Wrote)];
      }
    }

    /** Renames the complete staging file over its target. */
    method Replace(plan: seq<Step>, i: nat)
      requires Valid() && i < |plan| && AllPlaced(files, plan[..i]) && !Placed(files, plan[i])
               && Ready(files, plan[i])
      requires Holds(files, Staged(plan[i].target), plan[i].data)
      modifies this`files, this`trail
      ensures Valid() && Advances(plan, old(trail), trail)
      ensures files == Place(old(files), plan[i])
    {
      var s := plan[i];
      files := (files - {Staged(s.target)})[s.target := Regular(s.data)];
      assert StepAt(plan, i, old(files), files);
      AdvancesOne(plan, trail, Moment(Now(), Wrote));
      trail := trail + [Moment(Now(), Wrote)];
    }

    /** The folders above a target, made one at a time where they are missing. */
    method MakeFolders(plan: seq<Step>, i: nat)
      requires Valid() && i < |plan| && AllPlaced(files, plan[..i]) && !Placed(files, plan[i])
      modifies this`folders, this`trail
      ensures Valid() && Advances(plan, old(trail), trail)
      ensures folders == old(folders) + set d | d in FoldersOf(plan[i].target)
    {
      var names := FoldersOf(plan[i].target);
      for k := 0 to |names|
        invariant Valid() && Advances(plan, old(trail), trail)
        invariant folders == old(folders) + set d | d in names[..k]
      {
        FoldersNested(plan[i].target, k);
        ghost var t1 := trail;
        hide AllPlaced, Placed, Advances, FoldersOf, Parents;
        assert forall d | d in Parents(names[k]) :: d in names[..k];
        assert names[..k + 1] == names[..k] + [names[k]];
        MakeFolder(plan, i, names[k]);
        AdvancesTransitive(plan, old(trail), t1, trail);
      }
      assert names[..|names|] == names;
    }

    /** One folder, where it is missing. */
    method MakeFolder(plan: seq<Step>, i: nat, name: string)
      requires Valid() && i < |plan| && AllPlaced(files, plan[..i]) && !Placed(files, plan[i])
      requires name in FoldersOf(plan[i].target) && forall d | d in Parents(name) :: d in folders
      modifies this`folders, this`trail
      ensures Valid() && Advances(plan, old(trail), trail) && folders == old(folders) + {name}
    {
      if name in folders {
        assert folders == folders + {name};
      } else {
        assert MakesFolder(plan, i, Now(), name);
        folders := folders + {name};
        AdvancesOne(plan, trail, Moment(Now(), Made(name)));
        trail := trail + [Moment(Now(), Made(name))];
      }
    }

    /** `publish`: stage with prefix resumption, then rename. Refuses staging it cannot resume. */
    method Publish(plan: seq<Step>, i: nat) returns (failure: Option<Reason>)
      requires Valid() && Separate(plan) && i < |plan| && AllPlaced(files, plan[..i]) && !Placed(files, plan[i])
               && Ready(files, plan[i])
      modifies this`files, this`folders, this`trail
      ensures Valid() && Advances(plan, old(trail), trail)
      ensures failure.None? <==> CanStage(old(files), plan[i])
      ensures failure != Some(InvalidIdentity)
      ensures files == if failure.None? then Place(old(files), plan[i]) else old(files)
      ensures folders == old(folders) + set d | d in FoldersOf(plan[i].target)
    {
      var data, temp := plan[i].data, Staged(plan[i].target);
      ghost var t0 := trail;
      MakeFolders(plan, i);
      ghost var made := trail;
      if temp !in files {
        Create(plan, i);
      } else {
        if files[temp].Odd? { return Some(BadMetadata); }
        if !(files[temp].data <= data) { return Some(StagingDiffers); }
      }
      ghost var t1 := trail;
      AdvancesTransitive(plan, t0, made, t1);
      assert AllPlaced(files, plan[..i]) && !Placed(files, plan[i]) && Ready(files, plan[i]) by {
        forall j | 0 <= j < i ensures Placed(files, plan[..i][j]) {
          assert Placed(old(files), plan[..i][j]);
          assert plan[j].target != temp;
        }
      }
      Append(plan, i);
      ghost var t2 := trail;
      AdvancesTransitive(plan, t0, t1, t2);
      assert AllPlaced(files, plan[..i]) by {
        forall j | 0 <= j < i ensures Placed(files, plan[..i][j]) {
          assert Placed(old(files), plan[..i][j]);
          assert plan[j].target != temp;
        }
      }
      Replace(plan, i);
      AdvancesTransitive(plan, t0, t2, trail);
      assert files == Place(old(files), plan[i]);
      failure := None;
    }

    /** `upgrade`: check, back up, publish libraries, publish executables. */
    method Upgrade(r: Release, mode: Mode) returns (outcome: Outcome)
      requires Valid() && WellFormed(r) && ForRoot(r, files)
      modifies this`files, this`folders, this`trail
      ensures Valid() && Advances(Plan(r), old(trail), trail)
      ensures outcome.Published? <==>
                IdentityOk(old(files)) && StateAllows(mode, old(files), journals, owner) && Accepts(r, old(files))
      ensures outcome.Published? ==> files == PlaceAll(old(files), Plan(r))
      ensures outcome.Printed? <==>
                mode.Snapshot? && IdentityOk(old(files)) && journals.Dir? && PackageState.SoundBelow(journals, owner)
      ensures outcome.Printed? ==> outcome.digest == DigestOf(old(files), journals)
      ensures !(IdentityOk(old(files)) && StateAllows(mode, old(files), journals, owner)
                && WholeExecutables(r, old(files)))
              ==> files == old(files) && trail == old(trail)
      ensures outcome == Failed(InvalidIdentity) <==> !IdentityOk(old(files))
    {
      ghost var start, before := files, trail;
      assert Advances(Plan(r), trail, trail);
      hide *;
      if !IdentityOk(files) { return Failed(InvalidIdentity); }
      var refusal := CheckState(mode);
      if refusal != Published { return refusal; }
      var failure := CheckExecutables(r);
      if failure.Some? {
        AcceptsWhole(r, start);
        return Failed(failure.value);
      }
      AcceptsPointwise(r, start);
      failure := BackUp(r);
      if failure.Some? { return Failed(failure.value); }
      ghost var between := trail;
      failure := InstallAll(r, start);
      AdvancesTransitive(Plan(r), before, between, trail);
      if failure.Some? { return Failed(failure.value); }
      // The closing re-read of the root identity and of every member finds what was published.
      ReachedEnd(r, start, files);
      assert files[RootId] == start[RootId] && AllPlaced(files, Plan(r));
      outcome := Published;
    }

    /** Every original executable must be the known old or the known new one. */
    method CheckExecutables(r: Release) returns (failure: Option<Reason>)
      requires WellFormed(r)
      ensures failure.None? <==> WholeExecutables(r, files)
      ensures failure != Some(InvalidIdentity)
    {
      for k := 0 to |r.originals|
        invariant forall j | 0 <= j < k ::
                    || Holds(files, Installed(r.originals[j]), r.original[r.originals[j]])
                    || Holds(files, Installed(r.originals[j]), r.payload[r.originals[j]])
      {
        var n := r.originals[k];
        if Installed(n) !in files || files[Installed(n)].Odd? { return Some(BadMetadata); }
        if files[Installed(n)].data != r.original[n] && files[Installed(n)].data != r.payload[n] {
          return Some(UnknownExecutable);
        }
      }
      failure := None;
    }

    /** The durable backups of the original executables. */
    method BackUp(r: Release) returns (failure: Option<Reason>)
      requires Valid() && WellFormed(r) && WholeExecutables(r, files)
      modifies this`files, this`folders, this`trail
      ensures Valid() && Advances(Plan(r), old(trail), trail)
      ensures failure.None? <==> AcceptsRange(r, old(files), 0, |r.originals|)
      ensures failure != Some(InvalidIdentity)
      ensures failure.None? ==> Reached(old(files), Plan(r), |r.originals|, files)
    {
      ghost var start, before := files, trail;
      hide *;
      PhaseStart(this, r, start, 0);
      StartReached(start, Plan(r));
      for i := 0 to |r.originals|
        invariant Valid() && Advances(Plan(r), before, trail) && Reached(start, Plan(r), i, files)
        invariant i <= |Plan(r)| && AcceptsRange(r, start, 0, i)
      {
        ghost var t := trail;
        failure := BackUpOne(r, i, start);
        AcceptsNext(r, start, 0, i, |r.originals|);
        AdvancesTransitive(Plan(r), before, t, trail);
        if failure.Some? { return; }
      }
      failure := None;
    }

    method BackUpOne(r: Release, i: nat, ghost start: Files) returns (failure: Option<Reason>)
      requires Valid() && WellFormed(r) && WholeExecutables(r, start)
      requires i < |r.originals| && Reached(start, Plan(r), i, files)
      modifies this`files, this`folders, this`trail
      ensures Valid() && Advances(Plan(r), old(trail), trail)
      ensures failure.None? <==> AcceptsAt(r, start, i)
      ensures failure != Some(InvalidIdentity)
      ensures failure.None? ==> Reached(start, Plan(r), i + 1, files)
    {
      var n := r.originals[i];
      var plan := Plan(r);
      assert plan[i] == BackupStep(r, n);
      PlanSeparate(r);
      Ahead(start, plan, i, files, i);
      UntouchedExecutable(r, start, i, files, n);
      ghost var earlier := files;
      if plan[i].target in files {
        if files[plan[i].target].Odd? { return Some(BadMetadata); }
        if files[plan[i].target].data != r.original[n] { return Some(BackupDiffers); }
        failure := None;
      } else {
        if files[Installed(n)].data != r.original[n] { return Some(MissingBackup); }
        failure := Publish(plan, i);
        if failure.Some? { return; }
      }
      NextReached(start, plan, i, earlier, files);
    }

    /** The members of the overlay: private libraries first, then each executable. */
    method InstallAll(r: Release, ghost start: Files) returns (failure: Option<Reason>)
      requires Valid() && WellFormed(r) && WholeExecutables(r, start) && Reached(start, Plan(r), |r.originals|, files)
      modifies this`files, this`folders, this`trail
      ensures Valid() && Advances(Plan(r), old(trail), trail)
      ensures failure.None? <==> AcceptsRange(r, start, |r.originals|, |Plan(r)|)
      ensures failure != Some(InvalidIdentity)
      ensures failure.None? ==> Reached(start, Plan(r), |Plan(r)|, files)
    {
      ghost var before := trail;
      hide *;
      PhaseStart(this, r, start, |r.originals|);
      for i := |r.originals| to |Plan(r)|
        invariant Valid() && Advances(Plan(r), before, trail) && Reached(start, Plan(r), i, files)
        invariant i <= |Plan(r)| && AcceptsRange(r, start, |r.originals|, i)
      {
        ghost var t := trail;
        failure := InstallOne(r, i, start);
        AcceptsNext(r, start, |r.originals|, i, |Plan(r)|);
        AdvancesTransitive(Plan(r), before, t, trail);
        if failure.Some? { return; }
      }
      failure := None;
    }

    method InstallOne(r: Release, i: nat, ghost start: Files) returns (failure: Option<Reason>)
      requires Valid() && WellFormed(r) && WholeExecutables(r, start)
      requires |r.originals| <= i < |Plan(r)| && Reached(start, Plan(r), i, files)
      modifies this`files, this`folders, this`trail
      ensures Valid() && Advances(Plan(r), old(trail), trail)
      ensures failure.None? <==> AcceptsAt(r, start, i)
      ensures failure != Some(InvalidIdentity)
      ensures failure.None? ==> Reached(start, Plan(r), i + 1, files)
    {
      var plan := Plan(r);
      PlanSeparate(r);
      InstallEntry(r, i);
      InstallAccepted(r, start, i, files);
      assert Advances(plan, trail, trail) && AllPlaced(files, plan[..i]);
      hide Plan, PublishOrder, Reached, Advances, AllPlaced, Separate, WellFormed, AcceptsAt, Placed, CanStage, Ready;
      ghost var earlier := files;
      var n := PublishOrder(r)[i - |r.originals|];
      failure := None;
      if !Placed(files, plan[i]) {
        if Installed(n) in files {
          if files[Installed(n)].Odd? { return Some(BadMetadata); }
          if n !in r.originals { return Some(LibraryDiffers); }
        }
        failure := Publish(plan, i);
        if failure.Some? { return; }
      }
      NextReached(start, plan, i, earlier, files);
    }

    /** The state check at the head of a run: `Published` means the run may go on. */
    method CheckState(mode: Mode) returns (outcome: Outcome)
      requires IdentityOk(files)
      ensures outcome.Published? <==> StateAllows(mode, files, journals, owner)
      ensures outcome.Printed? <==> mode.Snapshot? && journals.Dir? && PackageState.SoundBelow(journals, owner)
      ensures outcome.Printed? ==> outcome.digest == DigestOf(files, journals)
      ensures outcome != Failed(InvalidIdentity)
      ensures outcome == Failed(StateNotEmpty) <==> journals.Dir? && mode.RequireEmpty? && journals.children != map[]
      ensures outcome == Failed(StateChanged) <==>
                && journals.Dir? && mode.Checked? && PackageState.SoundBelow(journals, owner)
                && mode.digest != DigestOf(files, journals)
      ensures outcome == Failed(InvalidState) <==>
                !journals.Dir? || (!mode.RequireEmpty? && !PackageState.SoundBelow(journals, owner))
    {
      if !journals.Dir? { return Failed(InvalidState); }
      if mode.RequireEmpty? {
        return if journals.children.Keys != {} then Failed(StateNotEmpty) else Published;
      }
      var walker := new PackageState.Walker(owner);
      var sound := walker.Walk(journals, "");
      if !sound { return Failed(InvalidState); }
      var digest := PackageState.StateDigest(files[RootId].data, walker.records);
      if mode.Snapshot? { return Printed(digest); }
      return if mode.digest != digest then Failed(StateChanged) else Published;
    }
  }

  // --- Bookkeeping of a run in progress ------------------------------------------

  /** The run has dealt with the first `i` entries of the plan. */
  ghost predicate Reached(start: Files, plan: seq<Step>, i: nat, f: Files)
  {
    && i <= |plan| && AllPlaced(f, plan[..i])
    && f == PlaceAll(start, plan[..i]) && IsResult(start, plan[..i], f)
  }

  lemma StartReached(start: Files, plan: seq<Step>)
    ensures Reached(start, plan, 0, start)
  {
  }

  lemma NextReached(start: Files, plan: seq<Step>, i: nat, f: Files, g: Files)
    requires Separate(plan) && i < |plan| && Reached(start, plan, i, f)
    requires g == if Placed(f, plan[i]) then f else Place(f, plan[i])
    ensures Reached(start, plan, i + 1, g)
  {
    PlaceAllStep(start, plan, i);
    PlaceAllResult(start, plan[..i + 1]);
  }

  lemma PhaseStart(d: Device, r: Release, start: Files, first: nat)
    requires d.Valid() && WellFormed(r) && first <= |r.originals|
    ensures |r.originals| <= |Plan(r)| && AcceptsRange(r, start, first, first)
    ensures Advances(Plan(r), d.trail, d.trail)
  {
  }

  lemma ReachedEnd(r: Release, start: Files, f: Files)
    requires WellFormed(r) && IdentityOk(start) && Reached(start, Plan(r), |Plan(r)|, f)
    ensures f == PlaceAll(start, Plan(r)) && AllPlaced(f, Plan(r)) && RootId in f && RootId in start
              && f[RootId] == start[RootId]
  {
    assert Plan(r)[..|Plan(r)|] == Plan(r);
    assert Untouched(Plan(r), RootId);
  }

  /** Entries still ahead find their target and staging file as the run found them. */
  lemma Ahead(start: Files, plan: seq<Step>, i: nat, f: Files, j: nat)
    requires Separate(plan) && Reached(start, plan, i, f) && i <= j < |plan|
    ensures var t := plan[j].target;
            && (t in f <==> t in start) && (t in start ==> f[t] == start[t])
            && (Staged(t) in f <==> Staged(t) in start) && (Staged(t) in start ==> f[Staged(t)] == start[Staged(t)])
  {
    assert Untouched(plan[..i], plan[j].target) && Untouched(plan[..i], Staged(plan[j].target));
  }

  /** What the checks at an installation come to, given what is found when its turn comes. */
  lemma InstallAccepted(r: Release, start: Files, i: nat, f: Files)
    requires WellFormed(r) && WholeExecutables(r, start) && Separate(Plan(r))
    requires |r.originals| <= i < |Plan(r)| && i - |r.originals| < |PublishOrder(r)| && Reached(start, Plan(r), i, f)
    ensures var n := PublishOrder(r)[i - |r.originals|];
            if Placed(f, Plan(r)[i]) then AcceptsAt(r, start, i)
            else
              && (Ready(f, Plan(r)[i]) <==> (Installed(n) in f ==> n in r.originals))
              && (AcceptsAt(r, start, i) <==> (Installed(n) in f ==> n in r.originals) && CanStage(f, Plan(r)[i]))
              && (Installed(n) in f && n in r.originals ==> f[Installed(n)].Regular?)
  {
    Ahead(start, Plan(r), i, f, i);
    InstallEntry(r, i);
    hide Plan, PublishOrder, Reached, Separate;
  }

  lemma UntouchedExecutable(r: Release, start: Files, i: nat, f: Files, n: string)
    requires WellFormed(r) && i <= |r.originals| && Reached(start, Plan(r), i, f)
    ensures Installed(n) in f <==> Installed(n) in start
    ensures Installed(n) in start ==> f[Installed(n)] == start[Installed(n)]
  {
    assert Untouched(Plan(r)[..i], Installed(n));
  }

  /** The checks at plan entry `i`, in terms of the files the run started from. */
  ghost predicate AcceptsAt(r: Release, f: Files, i: nat)
    requires WellFormed(r) && i < |Plan(r)|
  {
    if i < |r.originals| then
      var n := r.originals[i];
      if Backup(r.tag, r.root, n) in f then Holds(f, Backup(r.tag, r.root, n), r.original[n])
      else Holds(f, Installed(n), r.original[n]) && CanStage(f, BackupStep(r, n))
    else
      var n := PublishOrder(r)[i - |r.originals|];
      Placed(f, InstallStep(r, n)) || ((n !in r.originals ==> Installed(n) !in f) && CanStage(f, InstallStep(r, n)))
  }

  ghost predicate AcceptsRange(r: Release, f: Files, lo: nat, hi: nat)
    requires WellFormed(r) && hi <= |Plan(r)|
  {
    forall i | lo <= i < hi :: AcceptsAt(r, f, i)
  }

  lemma AcceptsNext(r: Release, f: Files, lo: nat, i: nat, hi: nat)
    requires WellFormed(r) && lo <= i < hi <= |Plan(r)| && AcceptsRange(r, f, lo, i)
    ensures AcceptsAt(r, f, i) ==> AcceptsRange(r, f, lo, i + 1)
    ensures !AcceptsAt(r, f, i) ==> !AcceptsRange(r, f, lo, hi)
  {
    hide AcceptsAt, Plan, WellFormed;
  }

  lemma AcceptsWhole(r: Release, f: Files)
    requires WellFormed(r)
    ensures Accepts(r, f) ==> WholeExecutables(r, f)
  {
  }

  lemma AcceptsPointwise(r: Release, f: Files)
    requires WellFormed(r) && WholeExecutables(r, f)
    ensures |r.originals| <= |Plan(r)|
    ensures Accepts(r, f) <==> AcceptsRange(r, f, 0, |r.originals|) && AcceptsRange(r, f, |r.originals|, |Plan(r)|)
  {
    if Accepts(r, f) {
      forall i | 0 <= i < |Plan(r)| ensures AcceptsAt(r, f, i) {
        var n := PlanEntry(r, i);
      }
    }
    if AcceptsRange(r, f, 0, |r.originals|) && AcceptsRange(r, f, |r.originals|, |Plan(r)|) {
      AcceptsAll(r, f);
    }
  }

  lemma AcceptsAll(r: Release, f: Files)
    requires WellFormed(r) && WholeExecutables(r, f) && |r.originals| <= |Plan(r)|
    requires AcceptsRange(r, f, 0, |r.originals|) && AcceptsRange(r, f, |r.originals|, |Plan(r)|)
    ensures Accepts(r, f)
  {
    forall n | n in r.originals
      ensures if Backup(r.tag, r.root, n) in f then Holds(f, Backup(r.tag, r.root, n), r.original[n])
              else Holds(f, Installed(n), r.original[n]) && CanStage(f, BackupStep(r, n))
    {
      var i := BackupIndex(r, n);
      assert AcceptsAt(r, f, i);
    }
    forall n | n in r.members && !Placed(f, InstallStep(r, n))
      ensures (n !in r.originals ==> Installed(n) !in f) && CanStage(f, InstallStep(r, n))
    {
      var i := InstallIndex(r, n);
      assert AcceptsAt(r, f, i);
    }
  }
}
