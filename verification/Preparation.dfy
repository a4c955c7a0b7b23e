/**
 * `prepareLocked`: the checkpointed upgrade of the package runtime.  The durable
 * transitions of the phone are given as a relation, the code is shown to make no
 * others, and what every sequence of such transitions keeps is proved about the
 * relation.  A crash is a sequence that stops; the next preparation continues it.
 */
module Preparation {
  import opened Basics
  import opened Publication
  import opened Device
  import PackageState

  const CLI := "usr/bin/dnfast"
  const EXECUTOR := "usr/libexec/dnfast-executor"

  /**
   * The two pinned upgrades: `empty` starts from the oldest pair and accepts an empty package state
   * only; `checked` starts from the 43b0928 pair and requires a validated state.  Both install the same files.
   */
  datatype Setup = Setup(owner: nat, empty: Release, checked: Release)

  predicate SetupOk(s: Setup)
  {
    && WellFormed(s.empty) && WellFormed(s.checked)
    && s.empty.originals == s.checked.originals == [CLI, EXECUTOR]
    && s.empty.members == s.checked.members && s.empty.payload == s.checked.payload
    && s.empty.tag != s.checked.tag && s.empty.root == s.checked.root
    && (forall n | n in s.checked.originals :: s.empty.original[n] != s.checked.original[n])
  }

  predicate Pair(f: Files, bytes: map<string, Bytes>)
  {
    && CLI in bytes && Holds(f, Installed(CLI), bytes[CLI])
    && EXECUTOR in bytes && Holds(f, Installed(EXECUTOR), bytes[EXECUTOR])
  }

  /** A native run: whether its process and its result were accepted, and the package state it leaves. */
  datatype Reply = Reply(ok: bool, journals: PackageState.Node)

  datatype Replies = Replies(upgradeCheck: Reply, check: Reply, migrate: Reply, verify: Reply)

  predicate Confirmed(r: Replies)
  {
    r.check.ok && r.migrate.ok && r.verify.ok
  }

  // --- Durable transitions -----------------------------------------------------

  /** The executables a command is built for: the old pair for the check before an upgrade, else the new one. */
  function PairFor(s: Setup, action: Action): map<string, Bytes>
  {
    if action.UpgradeCheck? then s.checked.original else s.checked.payload
  }

  /** A dnfast command ran, accepted or not; it can be built only for the pair it is meant for. */
  ghost predicate NativeRun(s: Setup, p: Moment, q: Moment)
  {
    && q.cause.Ran? && q.phone == p.phone.(journals := q.phone.journals)
    && Pair(p.phone.files, PairFor(s, q.cause.action))
  }

  /** The package state is the one the checkpoint was taken of, so a run with that checkpoint is let through. */
  predicate Frozen(s: Setup, p: Phone)
    requires IdentityOk(p.files)
  {
    && p.checkpoint.Some?
    && StateAllows(Checked(p.checkpoint.value), p.files, p.journals, s.owner)
  }

  predicate StateEmpty(journals: PackageState.Node)
  {
    journals.Dir? && journals.children.Keys == {}
  }

  ghost predicate CheckedPublication(s: Setup, p: Moment, q: Moment)
    requires SetupOk(s)
  {
    && Advance(Plan(s.checked), p, q) && WholeExecutables(s.checked, p.phone.files)
    && IdentityOk(p.phone.files) && Frozen(s, p.phone)
  }

  ghost predicate EmptyPublication(s: Setup, p: Moment, q: Moment)
    requires SetupOk(s)
  {
    && Advance(Plan(s.empty), p, q) && WholeExecutables(s.empty, p.phone.files)
    && IdentityOk(p.phone.files) && StateEmpty(p.phone.journals)
    && p.phone.checkpoint.None?
  }

  /**
   * The checkpoint is written right after an accepted check with the 43b0928 pair, and is the digest of the
   * package state as it was before that check.
   */
  ghost predicate TakesCheckpoint(s: Setup, trail: seq<Moment>, k: nat)
    requires 0 < k < |trail|
  {
    var p := trail[k - 1].phone;
    && k >= 2 && trail[k - 1].cause == Ran(UpgradeCheck, true) && Pair(p.files, s.checked.original)
    && IdentityOk(p.files) && trail[k - 2].phone.journals.Dir?
    && PackageState.SoundBelow(trail[k - 2].phone.journals, s.owner)
    && trail[k].phone == p.(checkpoint := Some(DigestOf(p.files, trail[k - 2].phone.journals)))
  }

  /** The checkpoint is removed right after a check, a migration and a verification, in that order and all accepted. */
  ghost predicate RetiresCheckpoint(s: Setup, trail: seq<Moment>, k: nat)
    requires 0 < k < |trail|
  {
    && k >= 3 && trail[k - 3].cause == Ran(Check, true)
    && trail[k - 2].cause == Ran(Migrate, true) && trail[k - 1].cause == Ran(Verify, true)
    && Pair(trail[k - 1].phone.files, s.checked.payload)
    && trail[k].phone == trail[k - 1].phone.(checkpoint := None)
  }

  /** The files after an unpacking: every member of the overlay is there, and nothing else has changed. */
  ghost predicate IsUnpacked(f: Files, r: Release, g: Files)
    requires WellFormed(r)
  {
    && (forall n | n in r.members :: Holds(g, Installed(n), r.payload[n]))
    && forall p: Path | p !in MemberPaths(r) :: (p in g <==> p in f) && (p in f ==> g[p] == f[p])
  }

  function MemberPaths(r: Release): set<Path>
  {
    set n | n in r.members :: Installed(n)
  }

  /** First installation: the overlay is unpacked because no command-line executable exists. */
  ghost predicate Unpacks(s: Setup, p: Phone, q: Phone)
    requires SetupOk(s)
  {
    q == p.(files := q.files) && Installed(CLI) !in p.files && IsUnpacked(p.files, s.checked, q.files)
  }

  /** Transition `k` of a history; a new process begins where the one before it ended or crashed. */
  ghost predicate NextAt(s: Setup, trail: seq<Moment>, k: nat)
    requires SetupOk(s) && 0 < k < |trail|
  {
    var p, q := trail[k - 1], trail[k];
    match q.cause
    case Began => q.phone == p.phone
    case Wrote => CheckedPublication(s, p, q) || EmptyPublication(s, p, q)
    case Made(_) => CheckedPublication(s, p, q) || EmptyPublication(s, p, q)
    case Ran(_, _) => NativeRun(s, p, q)
    case Recorded => TakesCheckpoint(s, trail, k)
    case Retired => RetiresCheckpoint(s, trail, k)
    case Unpacked => Unpacks(s, p.phone, q.phone)
  }

  ghost predicate Follows(s: Setup, before: seq<Moment>, after: seq<Moment>)
    requires SetupOk(s)
  {
    && before != [] && before <= after
    && forall k | |before| <= k < |after| :: NextAt(s, after, k)
  }

  lemma NextAtPrefix(s: Setup, b: seq<Moment>, c: seq<Moment>, k: nat)
    requires SetupOk(s) && b <= c && 0 < k < |b|
    ensures NextAt(s, b, k) <==> NextAt(s, c, k)
  {
    assert forall i | 0 <= i < |b| :: b[i] == c[i];
    hide CheckedPublication, EmptyPublication, NativeRun, Unpacks, SetupOk, Pair, IdentityOk;
  }

  lemma FollowsTransitive(s: Setup, a: seq<Moment>, b: seq<Moment>, c: seq<Moment>)
    requires SetupOk(s) && Follows(s, a, b) && Follows(s, b, c)
    ensures Follows(s, a, c)
  {
    hide NextAt, SetupOk;
    forall k | |a| <= k < |c| ensures NextAt(s, c, k) {
      if k < |b| { NextAtPrefix(s, b, c, k); }
    }
  }

  lemma FollowsOne(s: Setup, before: seq<Moment>, next: Moment)
    requires SetupOk(s) && before != [] && NextAt(s, before + [next], |before|)
    ensures Follows(s, before, before + [next])
  {
    hide NextAt, SetupOk;
  }

  // --- What every sequence of transitions keeps ---------------------------------------

  /** One executable is the release's original and the other is new. */
  predicate Mixed(r: Release, f: Files)
    requires WellFormed(r)
  {
    exists n, m | n in r.originals && m in r.originals ::
      Holds(f, Installed(n), r.original[n]) && Holds(f, Installed(m), r.payload[m])
  }

  /** Reachable from an untouched 43b0928 root. */
  ghost predicate CheckedRoot(s: Setup, p: Phone)
    requires SetupOk(s)
  {
    && Resumable(s.checked, p.files) && IdentityOk(p.files)
    && (Mixed(s.checked, p.files) ==> Frozen(s, p))
  }

  /** Reachable from an untouched root of the oldest release. */
  ghost predicate EmptyRoot(s: Setup, p: Phone)
    requires SetupOk(s)
  {
    && Resumable(s.empty, p.files) && IdentityOk(p.files) && p.checkpoint.None?
    && (Mixed(s.empty, p.files) ==> StateEmpty(p.journals))
  }

  lemma PairNotMixed(r: Release, f: Files, bytes: map<string, Bytes>)
    requires WellFormed(r) && r.originals == [CLI, EXECUTOR] && Pair(f, bytes)
    requires bytes == r.original || bytes == r.payload
    ensures !Mixed(r, f)
  {
  }

  /** While the pair is mixed no command can be built from either known pair. */
  lemma MixedBuildsNothing(r: Release, f: Files)
    requires WellFormed(r) && r.originals == [CLI, EXECUTOR] && Mixed(r, f)
    ensures !Pair(f, r.original) && !Pair(f, r.payload)
  {
    if Pair(f, r.original) { PairNotMixed(r, f, r.original); }
    if Pair(f, r.payload) { PairNotMixed(r, f, r.payload); }
  }

  /** A release whose originals were never installed here has nothing to publish. */
  lemma ForeignReleaseIdle(here: Release, other: Release, f: Files, g: Files)
    requires WellFormed(here) && WellFormed(other) && here.originals == other.originals == [CLI, EXECUTOR]
    requires here.members == other.members && here.payload == other.payload
    requires forall n | n in here.originals :: here.original[n] != other.original[n]
    requires Resumable(here, f) && WholeExecutables(other, f)
    ensures !FileStep(Plan(other), f, g)
  {
    forall n | n in other.originals ensures Holds(f, Installed(n), other.payload[n]) {
      assert Holds(f, Installed(n), here.original[n]) || Holds(f, Installed(n), here.payload[n]);
      assert Holds(f, Installed(n), other.original[n]) || Holds(f, Installed(n), other.payload[n]);
    }
    assert CLI in here.originals && Libraries(here) == Libraries(other);
    if i :| 0 <= i < |Plan(other)| && StepAt(Plan(other), i, f, g) {
      var n := PlanEntry(other, i);
      assert false;
    }
  }

  lemma IdentityKept(r: Release, f: Files, g: Files)
    requires WellFormed(r) && FileStep(Plan(r), f, g) && IdentityOk(f)
    ensures RootId in g && g[RootId] == f[RootId]
  {
    var m, s := StepEffect(r, f, g);
  }

  lemma NextKeepsCheckedRoot(s: Setup, trail: seq<Moment>, k: nat)
    requires SetupOk(s) && 0 < k < |trail| && CheckedRoot(s, trail[k - 1].phone) && NextAt(s, trail, k)
    ensures CheckedRoot(s, trail[k].phone)
  {
    var r, p, q := s.checked, trail[k - 1], trail[k];
    assert CLI in r.originals && EXECUTOR in r.originals;
    match q.cause
    case Ran(_, _) => if Mixed(r, p.phone.files) { MixedBuildsNothing(r, p.phone.files); }
    case Recorded => PairNotMixed(r, p.phone.files, r.original);
    case Retired => PairNotMixed(r, p.phone.files, r.payload);
    case Began =>
    case Unpacked =>
    case Made(_) =>
    case Wrote =>
      if CheckedPublication(s, p, q) {
        StepKeepsResumable(r, p.phone.files, q.phone.files);
        IdentityKept(r, p.phone.files, q.phone.files);
      } else {
        ForeignReleaseIdle(r, s.empty, p.phone.files, q.phone.files);
      }
  }

  lemma NextKeepsEmptyRoot(s: Setup, trail: seq<Moment>, k: nat)
    requires SetupOk(s) && 0 < k < |trail| && EmptyRoot(s, trail[k - 1].phone) && NextAt(s, trail, k)
    ensures EmptyRoot(s, trail[k].phone)
  {
    var r, p, q := s.empty, trail[k - 1], trail[k];
    assert CLI in r.originals && EXECUTOR in r.originals;
    match q.cause
    case Ran(_, _) =>
      if Pair(p.phone.files, s.checked.original) { OldPairForeign(s, p.phone.files); }
      PairNotMixed(r, p.phone.files, r.payload);
    case Recorded => OldPairForeign(s, p.phone.files);
    case Retired =>
    case Began =>
    case Unpacked =>
    case Made(_) =>
    case Wrote =>
      StepKeepsResumable(r, p.phone.files, q.phone.files);
      IdentityKept(r, p.phone.files, q.phone.files);
  }

  lemma OldPairForeign(s: Setup, f: Files)
    requires SetupOk(s) && WholeExecutables(s.empty, f)
    ensures !Pair(f, s.checked.original)
  {
    assert CLI in s.checked.originals;
    assert s.checked.original[CLI] != s.empty.original[CLI] && s.checked.original[CLI] != s.checked.payload[CLI];
  }

  /** A history: it begins somewhere, and every later moment is reached by a transition. */
  ghost predicate History(s: Setup, trail: seq<Moment>)
    requires SetupOk(s)
  {
    trail != [] && trail[0].cause == Began && forall j | 0 < j < |trail| :: NextAt(s, trail, j)
  }

  /** Every moment of a history. */
  lemma {:induction false} RunKeepsRoots(s: Setup, trail: seq<Moment>, k: nat)
    requires SetupOk(s) && History(s, trail) && k < |trail|
    ensures CheckedRoot(s, trail[0].phone) ==> CheckedRoot(s, trail[k].phone)
    ensures EmptyRoot(s, trail[0].phone) ==> EmptyRoot(s, trail[k].phone)
  {
    hide CheckedRoot, EmptyRoot, NextAt, SetupOk;
    if k > 0 {
      RunKeepsRoots(s, trail, k - 1);
      assert NextAt(s, trail, k);
      if CheckedRoot(s, trail[0].phone) { NextKeepsCheckedRoot(s, trail, k); }
      if EmptyRoot(s, trail[0].phone) { NextKeepsEmptyRoot(s, trail, k); }
    }
  }

  /**
   * The mixed pair freezes the journals.  From an untouched 43b0928 root, over any sequence of native
   * runs, preparations and crashes: while one executable is old and the other new, no dnfast command can be
   * built, so no transition changes the journals, and the checkpoint is there and equals the digest of the
   * current package state.
   */
  lemma MixedPairFreezesJournals(s: Setup, trail: seq<Moment>, k: nat)
    requires SetupOk(s) && History(s, trail) && k < |trail|
    requires AllOriginal(s.checked, trail[0].phone.files) && IdentityOk(trail[0].phone.files)
    requires Mixed(s.checked, trail[k].phone.files)
    ensures var p := trail[k].phone;
            && !Pair(p.files, s.checked.original) && !Pair(p.files, s.checked.payload)
            && IdentityOk(p.files) && Frozen(s, p)
            && p.checkpoint == Some(DigestOf(p.files, p.journals))
    ensures k + 1 < |trail| ==>
              && trail[k + 1].phone.journals == trail[k].phone.journals
              && trail[k + 1].phone.checkpoint == trail[k].phone.checkpoint
  {
    OriginalIsResumable(s.checked, trail[0].phone.files);
    OriginalNotMixed(s.checked, trail[0].phone.files);
    RunKeepsRoots(s, trail, k);
    MixedBuildsNothing(s.checked, trail[k].phone.files);
    if k + 1 < |trail| {
      assert NextAt(s, trail, k + 1);
      assert CLI in s.checked.originals;
    }
  }

  /** Moment `j` took the checkpoint, and what was checked just before is what the package state still holds. */
  ghost predicate HoldsWhatWasChecked(s: Setup, trail: seq<Moment>, j: nat, p: Phone)
  {
    && 2 <= j < |trail| && TakesCheckpoint(s, trail, j) && trail[j].phone.checkpoint == p.checkpoint
    && p.journals.Dir? && p.journals.children == trail[j - 2].phone.journals.children
  }

  /**
   * And the journals are those of the checkpoint: while the pair is mixed, the package state has at every depth
   * exactly the entries it had when the accepted check before the publication began.  A checkpoint from before
   * the history, too, binds the package state to every state it can be a digest of.
   */
  lemma MixedPairKeepsChecked(s: Setup, trail: seq<Moment>, k: nat)
    requires SetupOk(s) && History(s, trail) && k < |trail|
    requires AllOriginal(s.checked, trail[0].phone.files) && IdentityOk(trail[0].phone.files)
    requires forall i | 0 <= i < |trail| :: PackageState.Named(trail[i].phone.journals)
    requires Mixed(s.checked, trail[k].phone.files)
    ensures var p := trail[k].phone;
            && (trail[0].phone.checkpoint.None? ==> exists j | 0 <= j <= k :: HoldsWhatWasChecked(s, trail, j, p))
            && forall a: PackageState.Node | a.Dir? && PackageState.SoundBelow(a, s.owner) && PackageState.Named(a) ::
                 IdentityOk(p.files) && p.checkpoint == Some(DigestOf(p.files, a)) ==>
                   p.journals.Dir? && p.journals.children == a.children
  {
    MixedPairFreezesJournals(s, trail, k);
    var p := trail[k].phone;
    if trail[0].phone.checkpoint.None? {
      var j := CheckpointOrigin(s, trail, k);
      CheckedThere(s, trail, j, p);
    }
    hide SetupOk, History, Mixed, PackageState.Named, PackageState.SoundBelow;
    forall a: PackageState.Node | a.Dir? && PackageState.SoundBelow(a, s.owner) && PackageState.Named(a)
      ensures p.checkpoint == Some(DigestOf(p.files, a)) ==> p.journals.Dir? && p.journals.children == a.children
    {
      LetThrough(p.files, a, p.journals, s.owner);
    }
  }

  lemma CheckedThere(s: Setup, trail: seq<Moment>, j: nat, p: Phone)
    requires 0 < j < |trail| && TakesCheckpoint(s, trail, j) && trail[j].phone.checkpoint == p.checkpoint
    requires IdentityOk(p.files) && Frozen(s, p) && PackageState.Named(p.journals)
    requires PackageState.Named(trail[j - 2].phone.journals)
    ensures HoldsWhatWasChecked(s, trail, j, p)
  {
    var q := trail[j - 1].phone;
    DigestFaithful(p.files, p.journals, q.files, trail[j - 2].phone.journals, s.owner);
    hide PackageState.Named, PackageState.SoundBelow, Pair, DigestOf;
  }

  /** A checkpoint that was not there at first has been taken at some moment. */
  lemma {:induction false} CheckpointOrigin(s: Setup, trail: seq<Moment>, k: nat) returns (j: nat)
    requires SetupOk(s) && History(s, trail) && k < |trail|
    requires trail[0].phone.checkpoint.None? && trail[k].phone.checkpoint.Some?
    ensures 0 < j <= k && TakesCheckpoint(s, trail, j)
    ensures trail[j].phone.checkpoint == trail[k].phone.checkpoint
  {
    assert NextAt(s, trail, k);
    if trail[k].cause.Recorded? {
      j := k;
    } else {
      assert trail[k - 1].phone.checkpoint == trail[k].phone.checkpoint;
      hide NextAt, SetupOk, TakesCheckpoint;
      j := CheckpointOrigin(s, trail, k - 1);
    }
  }

  /** The same for the oldest release: while its pair is mixed no command runs and the package state stays empty. */
  lemma MixedPairStaysEmpty(s: Setup, trail: seq<Moment>, k: nat)
    requires SetupOk(s) && History(s, trail) && k < |trail|
    requires AllOriginal(s.empty, trail[0].phone.files) && IdentityOk(trail[0].phone.files)
    requires trail[0].phone.checkpoint.None?
    requires Mixed(s.empty, trail[k].phone.files)
    ensures var p := trail[k].phone;
            && !Pair(p.files, s.empty.original) && !Pair(p.files, s.empty.payload)
            && p.checkpoint.None? && IdentityOk(p.files)
            && p.journals.Dir? && p.journals.children == map[]
  {
    OriginalIsResumable(s.empty, trail[0].phone.files);
    OriginalNotMixed(s.empty, trail[0].phone.files);
    RunKeepsRoots(s, trail, k);
    MixedBuildsNothing(s.empty, trail[k].phone.files);
  }

  /** The commands that confirm an upgrade. */
  const CONFIRMATION := [Check, Migrate, Verify]

  /** From moment `start` on come accepted runs of these commands, which change nothing but the journals. */
  ghost predicate AcceptedRuns(trail: seq<Moment>, start: nat, actions: seq<Action>)
  {
    0 < start && start + |actions| <= |trail| &&
    forall i | 0 <= i < |actions| :: AcceptedRun(trail[start - 1].phone, actions[i], trail[start + i])
  }

  ghost predicate AcceptedRun(before: Phone, action: Action, m: Moment)
  {
    m.cause == Ran(action, true) && m.phone == before.(journals := m.phone.journals)
  }

  /**
   * The checkpoint disappears only after check, migrate and verify.  In every history, crashes included, a
   * moment that loses it comes right after the three accepted runs, in this order, with the new executables
   * in place and nothing published since.
   */
  lemma CheckpointOutlivesConfirmation(s: Setup, trail: seq<Moment>, k: nat)
    requires SetupOk(s) && History(s, trail) && 0 < k < |trail|
    requires trail[k - 1].phone.checkpoint.Some? && trail[k].phone.checkpoint.None?
    ensures k >= 4 && AcceptedRuns(trail, k - 3, CONFIRMATION)
    ensures trail[k].phone == trail[k - 1].phone.(checkpoint := None)
    ensures Pair(trail[k - 4].phone.files, s.checked.payload)
    ensures trail[k - 4].phone.files == trail[k].phone.files
    ensures trail[k - 4].phone.checkpoint == trail[k - 1].phone.checkpoint
  {
    assert NextAt(s, trail, k);
    assert RetiresCheckpoint(s, trail, k);
    assert k > 3;
    assert NextAt(s, trail, k - 3) && NextAt(s, trail, k - 2) && NextAt(s, trail, k - 1);
    hide Pair, SetupOk;
  }

  /**
   * A checkpoint is taken only after an accepted check of the untouched pair, and is the digest of the package
   * state before that check.
   */
  lemma CheckpointAttestsCheck(s: Setup, trail: seq<Moment>, k: nat)
    requires SetupOk(s) && History(s, trail) && 0 < k < |trail|
    requires trail[k].phone.checkpoint.Some? && trail[k].phone.checkpoint != trail[k - 1].phone.checkpoint
    ensures k >= 2 && AcceptedRuns(trail, k - 1, [UpgradeCheck])
    ensures Pair(trail[k].phone.files, s.checked.original)
    ensures var p := trail[k - 2].phone;
            && IdentityOk(p.files) && p.journals.Dir?
                  && trail[k].phone.checkpoint == Some(DigestOf(p.files, p.journals))
  {
    assert NextAt(s, trail, k);
    assert TakesCheckpoint(s, trail, k);
    assert NextAt(s, trail, k - 1);
    hide Pair, SetupOk;
  }

  lemma OriginalNotMixed(r: Release, f: Files)
    requires WellFormed(r) && AllOriginal(r, f)
    ensures !Mixed(r, f)
  {
  }

  // --- The code --------------------------------------------------------------------

  /** `runtime.run(command(...))` and the result gate: refused unless both executables are the pair asked for. */
  method RunNative(d: Device, s: Setup, action: Action, reply: Reply) returns (ok: bool)
    requires d.Valid() && SetupOk(s)
    modifies d`journals, d`trail
    ensures d.Valid() && Follows(s, old(d.trail), d.trail)
    ensures ok <==> Pair(d.files, PairFor(s, action)) && reply.ok
    ensures d.journals == if Pair(d.files, PairFor(s, action)) then reply.journals else old(d.journals)
    ensures ok ==> d.trail == old(d.trail) + [Moment(d.Now(), Ran(action, true))]
  {
    if !Pair(d.files, PairFor(s, action)) { return false; }
    d.journals := reply.journals;
    ghost var next := Moment(d.Now(), Ran(action, reply.ok));
    assert NativeRun(s, d.trail[|d.trail| - 1], next);
    FollowsOne(s, d.trail, next);
    d.trail := d.trail + [next];
    ok := reply.ok;
  }

  /** What lets the helper publish release `r` on this phone. */
  ghost predicate Licensed(s: Setup, r: Release, p: Phone)
    requires SetupOk(s) && WellFormed(r)
  {
    && IdentityOk(p.files) && WholeExecutables(r, p.files)
    && (r == s.checked ==> Frozen(s, p))
    && (r == s.empty ==> StateEmpty(p.journals) && p.checkpoint.None?)
  }

  lemma LicensedStep(s: Setup, r: Release, trail: seq<Moment>, k: nat)
    requires SetupOk(s) && WellFormed(r) && (r == s.checked || r == s.empty) && 0 < k < |trail|
    requires Licensed(s, r, trail[k - 1].phone) && Advance(Plan(r), trail[k - 1], trail[k])
    ensures NextAt(s, trail, k) && Licensed(s, r, trail[k].phone)
  {
    var p, q := trail[k - 1], trail[k];
    if q.cause.Wrote? {
      IdentityKept(r, p.phone.files, q.phone.files);
      StepKeepsExecutables(r, p.phone.files, q.phone.files);
    }
    if r == s.checked { assert CheckedPublication(s, p, q); } else { assert EmptyPublication(s, p, q); }
  }

  lemma {:induction false} StaysLicensed(s: Setup, r: Release, before: seq<Moment>, after: seq<Moment>, k: nat)
    requires SetupOk(s) && WellFormed(r) && (r == s.checked || r == s.empty) && Advances(Plan(r), before, after)
    requires |before| <= k + 1 <= |after| && Licensed(s, r, before[|before| - 1].phone)
    ensures Licensed(s, r, after[k].phone)
    decreases k
  {
    hide SetupOk, WellFormed, Licensed, Plan, Advance, NextAt;
    if k + 1 > |before| {
      StaysLicensed(s, r, before, after, k - 1);
      assert AdvanceAt(Plan(r), after, k);
      LicensedStep(s, r, after, k);
    }
  }

  lemma PublicationFollows(s: Setup, r: Release, before: seq<Moment>, after: seq<Moment>)
    requires SetupOk(s) && WellFormed(r) && (r == s.checked || r == s.empty) && Advances(Plan(r), before, after)
    requires Licensed(s, r, before[|before| - 1].phone)
    ensures Follows(s, before, after)
  {
    hide SetupOk, WellFormed, Licensed, Plan, Advance, NextAt;
    forall k | |before| <= k < |after| ensures NextAt(s, after, k) {
      StaysLicensed(s, r, before, after, k - 1);
      assert AdvanceAt(Plan(r), after, k);
      LicensedStep(s, r, after, k);
    }
  }

  /** One run of the upgrade helper, as transitions of the phone. */
  method Publish(d: Device, s: Setup, r: Release, mode: Mode) returns (done: bool)
    requires d.Valid() && SetupOk(s) && d.owner == s.owner && ForRoot(r, d.files)
    requires (r == s.checked && mode.Checked? && d.checkpoint == Some(mode.digest))
             || (r == s.empty && mode.RequireEmpty? && d.checkpoint.None?)
    modifies d`files, d`folders, d`trail
    ensures d.Valid() && Follows(s, old(d.trail), d.trail)
    ensures done <==>
              && IdentityOk(old(d.files)) && StateAllows(mode, old(d.files), d.journals, d.owner)
              && Accepts(r, old(d.files))
    ensures done ==> d.files == PlaceAll(old(d.files), Plan(r))
  {
    ghost var before := d.trail;
    assert Follows(s, before, before);
    hide Follows, Plan, PlaceAll, Accepts, WellFormed, PackageState.SoundBelow, Advances, SetupOk;
    var outcome := d.Upgrade(r, mode);
    done := outcome.Published?;
    if d.trail != before {
      PublicationFollows(s, r, before, d.trail);
    }
  }

  /** What a run from the 43b0928 pair needs before it publishes: a sound state that the native check leaves alone. */
  predicate Validated(s: Setup, p: Phone, replies: Replies)
    requires SetupOk(s)
  {
    Pair(p.files, s.checked.original) ==>
      && IdentityOk(p.files) && p.journals.Dir? && PackageState.SoundBelow(p.journals, s.owner)
      && replies.upgradeCheck.ok
      && StateAllows(Checked(DigestOf(p.files, p.journals)), p.files, replies.upgradeCheck.journals, s.owner)
  }

  predicate Completes(s: Setup, p: Phone, replies: Replies)
    requires SetupOk(s)
  {
    && Validated(s, p, replies)
    && (!Pair(p.files, s.checked.payload) || p.checkpoint.Some? ==> Confirmed(replies))
  }

  /** The durable checkpoint, written in one step once the old pair has checked the state it is a digest of. */
  method SaveCheckpoint(d: Device, s: Setup, digest: PackageState.StateDigest, ghost snapshot: Phone)
    requires d.Valid() && SetupOk(s) && Pair(d.files, s.checked.original) && IdentityOk(d.files)
    requires |d.trail| >= 2 && d.trail[|d.trail| - 1].cause == Ran(UpgradeCheck, true)
    requires d.trail[|d.trail| - 2].phone == snapshot && snapshot.journals.Dir?
    requires PackageState.SoundBelow(snapshot.journals, s.owner)
    requires digest == DigestOf(d.files, snapshot.journals)
    modifies d`checkpoint, d`trail
    ensures d.Valid() && d.checkpoint == Some(digest)
    ensures Follows(s, old(d.trail), d.trail)
  {
    d.checkpoint := Some(digest);
    ghost var next := Moment(d.Now(), Recorded);
    assert TakesCheckpoint(s, d.trail + [next], |d.trail|);
    FollowsOne(s, d.trail, next);
    d.trail := d.trail + [next];
  }

  /** The snapshot, the native check and the durable checkpoint that come before a first publication. */
  method Validate(d: Device, s: Setup, replies: Replies) returns (checked: Option<PackageState.StateDigest>)
    requires d.Valid() && SetupOk(s) && d.owner == s.owner
    modifies d`journals, d`checkpoint, d`trail
    ensures d.Valid() && Follows(s, old(d.trail), d.trail)
    ensures checked.Some? ==> d.checkpoint == checked && d.journals == replies.upgradeCheck.journals
    ensures checked.None? ==> d.checkpoint == old(d.checkpoint)
    ensures checked.Some? <==>
              && IdentityOk(d.files) && old(d.journals).Dir? && PackageState.SoundBelow(old(d.journals), d.owner)
              && Pair(d.files, s.checked.original) && replies.upgradeCheck.ok
    ensures checked.Some? ==> checked.value == DigestOf(d.files, old(d.journals))
  {
    assert Follows(s, d.trail, d.trail);
    hide Follows, PackageState.SoundBelow, StateAllows, IdentityOk, SetupOk, WellFormed, PackageState.Records;
    ghost var t0, snapshot := d.trail, d.Now();
    var outcome := TakeSnapshot(d, s.checked);
    if !outcome.Printed? { return None; }
    var ok := RunNative(d, s, UpgradeCheck, replies.upgradeCheck);
    if !ok { return None; }
    ghost var t1 := d.trail;
    SaveCheckpoint(d, s, outcome.digest, snapshot);
    FollowsTransitive(s, t0, t1, d.trail);
    checked := Some(outcome.digest);
  }

  /** The helper in snapshot mode prints a digest and changes nothing. */
  method TakeSnapshot(d: Device, r: Release) returns (outcome: Outcome)
    requires d.Valid() && WellFormed(r)
    ensures outcome.Printed? <==> IdentityOk(d.files) && d.journals.Dir? && PackageState.SoundBelow(d.journals, d.owner)
    ensures outcome.Printed? ==> outcome.digest == DigestOf(d.files, d.journals)
  {
    if !IdentityOk(d.files) { return Failed(InvalidIdentity); }
    outcome := d.CheckState(Snapshot);
  }

  /** Every file of the new release is installed. */
  predicate Whole(s: Setup, f: Files)
    requires SetupOk(s)
  {
    forall n | n in s.checked.members :: Holds(f, Installed(n), s.checked.payload[n])
  }

  lemma WholePair(s: Setup, f: Files)
    requires SetupOk(s) && Whole(s, f)
    ensures Pair(f, s.checked.payload)
  {
    assert CLI in s.checked.originals && EXECUTOR in s.checked.originals;
  }

  /** Unpacking and either plan end with the whole new release, whatever there was before. */
  lemma EndsWhole(s: Setup, f: Files, g: Files)
    requires SetupOk(s)
    ensures IsUnpacked(f, s.checked, g) ==> Whole(s, g)
    ensures Whole(s, PlaceAll(f, Plan(s.checked))) && Whole(s, PlaceAll(f, Plan(s.empty)))
  {
    PlannedWhole(s, s.checked, f);
    PlannedWhole(s, s.empty, f);
  }

  lemma PlannedWhole(s: Setup, r: Release, f: Files)
    requires SetupOk(s) && (r == s.checked || r == s.empty)
    ensures Whole(s, PlaceAll(f, Plan(r)))
  {
    PlanSeparate(r);
    PlaceAllResult(f, Plan(r));
    forall n | n in r.members ensures Holds(PlaceAll(f, Plan(r)), Installed(n), r.payload[n]) {
      var i := InstallIndex(r, n);
    }
  }

  /**
   * When an older pair is published over, whatever the root: with a checkpoint and a pair that is not the whole
   * old one, the package state must still be the one of the checkpoint; with the old command line, the old pair
   * must have checked a state that its check leaves alone; else the package state must be empty.
   */
  ghost predicate MayPublish(s: Setup, p: Phone, replies: Replies)
    requires SetupOk(s)
  {
    && IdentityOk(p.files)
    && if p.checkpoint.Some? && !Pair(p.files, s.checked.original) then
         Frozen(s, p) && Accepts(s.checked, p.files)
       else if Holds(p.files, Installed(CLI), s.checked.original[CLI]) then
         Pair(p.files, s.checked.original) && Validated(s, p, replies) && Accepts(s.checked, p.files)
       else
         StateEmpty(p.journals) && Accepts(s.empty, p.files)
  }

  /** When a preparation succeeds, whatever the phone: first installation, nothing to upgrade, or an upgrade. */
  ghost predicate Succeeds(s: Setup, p: Phone, replies: Replies)
    requires SetupOk(s)
  {
    if Installed(CLI) !in p.files then
      p.checkpoint.None? || Confirmed(replies)
    else if Pair(p.files, s.checked.payload) then
      (p.checkpoint.None? || Confirmed(replies)) && Whole(s, p.files)
    else
      MayPublish(s, p, replies) && Confirmed(replies)
  }

  /** The files a successful preparation leaves. */
  ghost predicate Prepared(s: Setup, p: Phone, g: Files)
    requires SetupOk(s)
  {
    if Installed(CLI) !in p.files then IsUnpacked(p.files, s.checked, g)
    else if Pair(p.files, s.checked.payload) then g == p.files
    else g == PlaceAll(p.files, Plan(if OldestPair(s, p) then s.empty else s.checked))
  }

  predicate OldestPair(s: Setup, p: Phone)
    requires SetupOk(s)
  {
    p.checkpoint.None? && !Holds(p.files, Installed(CLI), s.checked.original[CLI])
  }

  /** Publishes over an older pair: resumed, freshly validated, or onto an empty package state. */
  method UpgradePair(d: Device, s: Setup, replies: Replies) returns (published: bool)
    requires d.Valid() && SetupOk(s) && d.owner == s.owner && ForRoot(s.checked, d.files)
    requires !Pair(d.files, s.checked.payload)
    modifies d
    ensures d.Valid() && Follows(s, old(d.trail), d.trail)
    ensures old(d.checkpoint).Some? ==> d.checkpoint.Some?
    ensures published <==> MayPublish(s, old(d.Now()), replies)
    ensures published ==>
              d.files == PlaceAll(old(d.files), Plan(if OldestPair(s, old(d.Now())) then s.empty else s.checked))
    ensures CheckedRoot(s, old(d.Now())) ==> (published <==> Validated(s, old(d.Now()), replies))
    ensures CheckedRoot(s, old(d.Now())) && published ==> d.files == PlaceAll(old(d.files), Plan(s.checked))
    ensures EmptyRoot(s, old(d.Now())) ==> (published <==> StateEmpty(old(d.journals)))
    ensures EmptyRoot(s, old(d.Now())) && published ==> d.files == PlaceAll(old(d.files), Plan(s.empty))
    ensures EmptyRoot(s, old(d.Now())) ==> d.checkpoint.None? && d.journals == old(d.journals)
  {
    ghost var p, t0 := d.Now(), d.trail;
    RootFacts(s, p);
    hide CheckedRoot, EmptyRoot, Follows, Plan, PlaceAll, Accepts, WellFormed;
    hide PackageState.SoundBelow, PackageState.Records;
    var checked := d.checkpoint;
    if Pair(d.files, s.checked.original) { checked := None; }
    if checked.Some? || Holds(d.files, Installed(CLI), s.checked.original[CLI]) {
      if checked.None? {
        checked := Validate(d, s, replies);
        if checked.None? { return false; }
      }
      ghost var t1 := d.trail;
      published := Publish(d, s, s.checked, Checked(checked.value));
      FollowsTransitive(s, t0, t1, d.trail);
    } else {
      published := Publish(d, s, s.empty, RequireEmpty);
    }
  }

  /** The plan leads to the whole new release, and has nothing to do once the new pair is there. */
  predicate Leads(s: Setup, r: Release, f: Files)
    requires SetupOk(s) && WellFormed(r)
  {
    var done := PlaceAll(f, Plan(r));
    Whole(s, done) && (Pair(f, s.checked.payload) ==> done == f)
  }

  /** A resumable root passes every check, and the plan leads to the whole new release. */
  lemma ResumableFacts(s: Setup, r: Release, f: Files)
    requires SetupOk(s) && (r == s.checked || r == s.empty) && Resumable(r, f)
    ensures Installed(CLI) in f && Accepts(r, f) && Leads(s, r, f)
  {
    assert CLI in r.originals && EXECUTOR in r.originals;
    ResumableAccepted(r, f);
    PlaceAllFinished(r, f);
    if Pair(f, r.payload) {
      forall i | 0 <= i < |Plan(r)| ensures Placed(f, Plan(r)[i]) {
        var n := PlanEntry(r, i);
        assert n in r.members && n !in r.originals ==> n in Libraries(r);
      }
      PlaceAllIdle(f, Plan(r));
    }
  }

  /** In a reachable 43b0928 root the pair is old, new or mixed. */
  lemma CheckedRootFacts(s: Setup, p: Phone)
    requires SetupOk(s) && CheckedRoot(s, p)
    ensures Resumable(s.checked, p.files)
    ensures Pair(p.files, s.checked.original) || Pair(p.files, s.checked.payload)
              || (IdentityOk(p.files) && Frozen(s, p))
    ensures Pair(p.files, s.checked.original) ==> !Pair(p.files, s.checked.payload)
  {
    assert CLI in s.checked.originals && EXECUTOR in s.checked.originals;
  }

  /** In a reachable root of the oldest release neither a checkpoint nor an executable asks for a validated state. */
  lemma EmptyRootFacts(s: Setup, p: Phone)
    requires SetupOk(s) && EmptyRoot(s, p)
    ensures Resumable(s.empty, p.files) && IdentityOk(p.files) && p.checkpoint.None?
    ensures !Holds(p.files, Installed(CLI), s.checked.original[CLI]) && !Pair(p.files, s.checked.original)
  {
    OldPairForeign(s, p.files);
    assert CLI in s.checked.originals;
  }

  lemma RootFacts(s: Setup, p: Phone)
    requires SetupOk(s)
    ensures CheckedRoot(s, p) ==>
              && Installed(CLI) in p.files && Accepts(s.checked, p.files)
              && (Pair(p.files, s.checked.original) || Pair(p.files, s.checked.payload)
                  || (IdentityOk(p.files) && Frozen(s, p)))
              && (Pair(p.files, s.checked.original) ==> !Pair(p.files, s.checked.payload))
              && Leads(s, s.checked, p.files)
    ensures EmptyRoot(s, p) ==>
              && Installed(CLI) in p.files && Accepts(s.empty, p.files)
              && IdentityOk(p.files) && p.checkpoint.None?
              && !Holds(p.files, Installed(CLI), s.checked.original[CLI]) && !Pair(p.files, s.checked.original)
              && Leads(s, s.empty, p.files)
  {
    hide SetupOk, CheckedRoot, EmptyRoot, WellFormed, Plan, PlaceAll;
    if CheckedRoot(s, p) {
      CheckedRootFacts(s, p);
      ResumableFacts(s, s.checked, p.files);
    }
    if EmptyRoot(s, p) {
      EmptyRootFacts(s, p);
      ResumableFacts(s, s.empty, p.files);
    }
  }

  /** Check, migrate and verify with the new executables; only then is the checkpoint removed. */
  method Confirm(d: Device, s: Setup, replies: Replies) returns (ok: bool)
    requires d.Valid() && SetupOk(s)
    modifies d`journals, d`checkpoint, d`trail
    ensures d.Valid() && Follows(s, old(d.trail), d.trail)
    ensures ok <==> Pair(d.files, s.checked.payload) && Confirmed(replies)
    ensures d.checkpoint == if ok then None else old(d.checkpoint)
    ensures ok ==> d.journals == replies.verify.journals
    ensures ok ==> |d.trail| == |old(d.trail)| + 4 && AcceptedRuns(d.trail, |old(d.trail)|, CONFIRMATION)
  {
    hide Follows, WellFormed;
    ghost var t0 := d.trail;
    ok := RunNative(d, s, Check, replies.check);
    if !ok { return; }
    ghost var t1 := d.trail;
    ok := RunNative(d, s, Migrate, replies.migrate);
    FollowsTransitive(s, t0, t1, d.trail);
    if !ok { return; }
    ghost var t2 := d.trail;
    ok := RunNative(d, s, Verify, replies.verify);
    FollowsTransitive(s, t0, t2, d.trail);
    if !ok { return; }
    ghost var t3 := d.trail;
    DeleteCheckpoint(d, s);
    FollowsTransitive(s, t0, t3, d.trail);
  }

  /** `checkpoint.delete()`, in one step. */
  method DeleteCheckpoint(d: Device, s: Setup)
    requires d.Valid() && SetupOk(s) && Pair(d.files, s.checked.payload) && |d.trail| >= 4
    requires AcceptedRuns(d.trail, |d.trail| - 3, CONFIRMATION)
    modifies d`checkpoint, d`trail
    ensures d.Valid() && d.checkpoint.None?
    ensures Follows(s, old(d.trail), d.trail) && d.trail == old(d.trail) + [Moment(d.Now(), Retired)]
  {
    assert CONFIRMATION[0] == Check && CONFIRMATION[1] == Migrate && CONFIRMATION[2] == Verify;
    d.checkpoint := None;
    ghost var next := Moment(d.Now(), Retired);
    assert RetiresCheckpoint(s, d.trail + [next], |d.trail|);
    FollowsOne(s, d.trail, next);
    d.trail := d.trail + [next];
  }

  /** The first installation, as one step. */
  method Unpack(d: Device, s: Setup)
    requires d.Valid() && SetupOk(s) && Installed(CLI) !in d.files
    modifies d`files, d`trail
    ensures d.Valid() && Follows(s, old(d.trail), d.trail)
    ensures IsUnpacked(old(d.files), s.checked, d.files)
  {
    ghost var p := d.Now();
    var members := s.checked.members;
    var files := d.files;
    for i := 0 to |members|
      invariant forall k | 0 <= k < i :: Holds(files, Installed(members[k]), s.checked.payload[members[k]])
      invariant forall q: Path | q !in MemberPaths(s.checked) ::
          (q in files <==> q in d.files) && (q in d.files ==> files[q] == d.files[q])
    {
      files := files[Installed(members[i]) := Regular(s.checked.payload[members[i]])];
    }
    d.files := files;
    ghost var next := Moment(d.Now(), Unpacked);
    assert Unpacks(s, p, next.phone);
    FollowsOne(s, d.trail, next);
    d.trail := d.trail + [next];
  }

  /** The closing comparison of every member with the manifest. */
  method VerifyMembers(d: Device, s: Setup) returns (ok: bool)
    requires SetupOk(s)
    ensures ok <==> Whole(s, d.files)
  {
    var names := s.checked.members;
    for i := 0 to |names|
      invariant forall j | 0 <= j < i :: Holds(d.files, Installed(names[j]), s.checked.payload[names[j]])
    {
      if !Holds(d.files, Installed(names[i]), s.checked.payload[names[i]]) { return false; }
    }
    ok := true;
  }

  /**
   * `prepareLocked`.  Whatever it starts from, it makes only the transitions above, and the checkpoint goes
   * only after check, migrate and verify.  From a root reachable from an untouched 43b0928 one, it succeeds
   * exactly when the native runs are accepted and leave the validated state alone; from one reachable from the
   * oldest release, exactly when the new pair is there, or the package state is empty and the runs are accepted.
   */
  method PrepareLocked(d: Device, s: Setup, replies: Replies) returns (ok: bool)
    requires d.Valid() && SetupOk(s) && d.owner == s.owner && ForRoot(s.checked, d.files)
    modifies d
    ensures d.Valid() && Follows(s, old(d.trail), d.trail)
    ensures old(d.checkpoint).Some? && d.checkpoint.None? ==> Confirmed(replies)
    ensures ok ==> Pair(d.files, s.checked.payload) && Whole(s, d.files)
    ensures ok <==> Succeeds(s, old(d.Now()), replies)
    ensures ok ==> d.checkpoint.None? && Prepared(s, old(d.Now()), d.files)
    ensures Installed(CLI) !in old(d.files) ==> IsUnpacked(old(d.files), s.checked, d.files)
    ensures CheckedRoot(s, old(d.Now())) ==> (ok <==> Completes(s, old(d.Now()), replies))
    ensures CheckedRoot(s, old(d.Now())) && ok ==>
              d.checkpoint.None? && d.files == PlaceAll(old(d.files), Plan(s.checked))
    ensures EmptyRoot(s, old(d.Now())) ==>
              (ok <==> Pair(old(d.files), s.checked.payload) || (StateEmpty(old(d.journals)) && Confirmed(replies)))
    ensures EmptyRoot(s, old(d.Now())) && ok ==>
              d.checkpoint.None? && d.files == PlaceAll(old(d.files), Plan(s.empty))
  {
    ghost var p, t0 := d.Now(), d.trail;
    RootFacts(s, p);
    hide CheckedRoot, EmptyRoot, Follows, Plan, PlaceAll, Accepts, WellFormed, IdentityOk, StateAllows;
    hide PackageState.SoundBelow, Whole, IsUnpacked, MayPublish, OldestPair;
    var upgraded := false;
    if Installed(CLI) !in d.files {
      Unpack(d, s);
      EndsWhole(s, p.files, d.files);
    } else if !Pair(d.files, s.checked.payload) {
      var published := UpgradePair(d, s, replies);
      if !published { return false; }
      EndsWhole(s, p.files, d.files);
      upgraded := true;
    }
    if Whole(s, d.files) { WholePair(s, d.files); }
    if upgraded || d.checkpoint.Some? {
      ghost var t1 := d.trail;
      var confirmed := Confirm(d, s, replies);
      FollowsTransitive(s, t0, t1, d.trail);
      if !confirmed { return false; }
    }
    ok := VerifyMembers(d, s);
  }
}
