/**
 * The stable identity of a package root: created once under a staging name, published without replacement,
 * and never changed or regenerated afterwards, wherever a launch is interrupted.
 */
module RootIdentity {
  import opened Basics

  type Files = map<string, string>

  const NAME := ".tinyagent-root-id"
  const STAGE := ".tinyagent-root-id.stage-"

  function HexDigit(n: nat): char
    requires n < 16
  {
    "0123456789abcdef"[n]
  }

  /** Two lower-case digits a byte. */
  function Hex(bytes: Bytes): (s: string)
    ensures |s| == 2 * |bytes|
  {
    if bytes == [] then "" else [HexDigit(bytes[0] as nat / 16), HexDigit(bytes[0] as nat % 16)] + Hex(bytes[1..])
  }

  predicate Hex64(s: string)
  {
    |s| == 64 && HexDigits(s)
  }

  lemma {:induction false} HexIsHex(bytes: Bytes)
    ensures HexDigits(Hex(bytes))
  {
    if bytes != [] {
      HexIsHex(bytes[1..]);
      forall n: nat | n < 16 ensures '0' <= HexDigit(n) <= '9' || 'a' <= HexDigit(n) <= 'f' {
        assert HexDigit(n) in "0123456789abcdef";
      }
    }
  }

  /** The value of a hexadecimal digit. */
  function DigitValue(c: char): int
  {
    if c <= '9' then c as int - '0' as int else c as int - 'a' as int + 10
  }

  /** The digits say the bytes: the high half of each byte, then the low half. */
  lemma {:induction false} HexValue(bytes: Bytes, i: nat)
    requires i < |bytes|
    ensures 16 * DigitValue(Hex(bytes)[2 * i]) + DigitValue(Hex(bytes)[2 * i + 1]) == bytes[i] as int
  {
    if i == 0 {
      DigitOf(bytes[0] as nat / 16);
      DigitOf(bytes[0] as nat % 16);
    } else {
      HexValue(bytes[1..], i - 1);
      assert Hex(bytes)[2 * i] == Hex(bytes[1..])[2 * (i - 1)];
      assert Hex(bytes)[2 * i + 1] == Hex(bytes[1..])[2 * (i - 1) + 1];
    }
  }

  lemma DigitOf(n: nat)
    requires n < 16
    ensures DigitValue(HexDigit(n)) == n
  {
  }

  /** Different random bytes make different identities. */
  lemma HexFaithful(a: Bytes, b: Bytes)
    ensures Hex(a) == Hex(b) <==> a == b
  {
    if Hex(a) == Hex(b) {
      forall i | 0 <= i < |a| ensures a[i] == b[i] {
        HexValue(a, i);
        HexValue(b, i);
      }
    }
  }

  /**
   * What one launch, interrupted anywhere, may do to the files of the root: the identity stays as it was, or
   * appears whole where there was none; apart from it only the launch's own staging file may appear, holding
   * a part of the new identity; no other file changes.
   */
  ghost predicate Kept(before: Files, after: Files, id: string)
  {
    && (NAME in before ==> after == before)
    && (NAME in after && NAME !in before ==> after[NAME] == id && Hex64(id))
    && (forall name | name in before :: name in after && after[name] == before[name])
    && (forall name | name in after && name !in before :: name == NAME || (name == STAGE + id && after[name] <= id))
  }

  ghost predicate AllKept(trail: seq<Files>, before: Files, id: string)
  {
    forall k | 0 <= k < |trail| :: Kept(before, trail[k], id)
  }

  /** Whether calls that take these counts, interrupted ones negative, write n bytes before one takes nothing. */
  predicate Enough(counts: seq<int>, n: nat)
    decreases |counts|
  {
    n == 0 || (counts != [] && counts[0] != 0
               && Enough(counts[1..], if counts[0] < 0 then n else if counts[0] < n then n - counts[0] else 0))
  }

  /** The bytes that calls write when none is left out: those of the counts that are not negative. */
  function Sum(counts: seq<int>): nat
    decreases |counts|
  {
    if counts == [] then 0 else (if counts[0] < 0 then 0 else counts[0]) + Sum(counts[1..])
  }

  predicate Reached(counts: seq<int>, n: nat, k: nat)
    requires k <= |counts|
  {
    Sum(counts[..k]) >= n && forall i | 0 <= i < k :: counts[i] != 0
  }

  /** Enough means that some of the first calls, none of which takes nothing, add up to the bytes to write. */
  lemma {:induction false} EnoughExactly(counts: seq<int>, n: nat)
    ensures Enough(counts, n) <==> exists k | 0 <= k <= |counts| :: Reached(counts, n, k)
    decreases |counts|
  {
    if n == 0 {
      assert Reached(counts, n, 0);
    } else if counts != [] && counts[0] != 0 {
      var less := if counts[0] < 0 then n else if counts[0] < n then n - counts[0] else 0;
      EnoughExactly(counts[1..], less);
      if k :| 0 <= k <= |counts[1..]| && Reached(counts[1..], less, k) {
        assert counts[..k + 1][1..] == counts[1..][..k];
        assert Reached(counts, n, k + 1);
      }
      if k :| 0 <= k <= |counts| && Reached(counts, n, k) {
        assert k > 0 && counts[..k][1..] == counts[1..][..k - 1];
        assert Reached(counts[1..], less, k - 1);
      }
    }
  }

  class Launcher {
    var files: Files
    ghost var trail: seq<Files>

    constructor (files: Files)
      ensures this.files == files && trail == [files]
    {
      this.files, this.trail := files, [files];
    }

    /** write: `count` bytes at most reach the file; a negative count is an interruption. */
    method Write(name: string, bytes: string, count: int) returns (written: int)
      requires name in files
      modifies this
      ensures count < 0 ==> written == count && files == old(files)
      ensures count >= 0 ==> written == (if count < |bytes| then count else |bytes|)
                             && files == old(files)[name := old(files)[name] + bytes[..written]]
      ensures trail == old(trail) + [files]
    {
      written := if count < 0 then count else if count < |bytes| then count else |bytes|;
      if written >= 0 { files := files[name := files[name] + bytes[..written]]; }
      trail := trail + [files];
    }

    /** Writes every byte over as many calls as it takes; each call's count is given in turn. */
    method WriteAll(name: string, bytes: string, counts: seq<int>, ghost before: Files) returns (ok: bool)
      requires name in files && name !in before && files == before[name := ""]
      requires name == STAGE + bytes && NAME !in before
      modifies this
      ensures ok <==> Enough(counts, |bytes|)
      ensures ok ==> files == before[name := bytes]
      ensures old(trail) <= trail && AllKept(trail[|old(trail)|..], before, bytes)
      ensures Kept(before, files, bytes)
    {
      var position, call := 0, 0;
      Staged(before, bytes, 0);
      assert bytes[..0] == "";
      hide Kept;
      while position < |bytes|
        invariant position <= |bytes| && files == before[name := bytes[..position]]
        invariant Kept(before, files, bytes)
        invariant call <= |counts| && Enough(counts[call..], |bytes| - position) == Enough(counts, |bytes|)
        invariant old(trail) <= trail && AllKept(trail[|old(trail)|..], before, bytes)
        decreases |counts| - call
      {
        if call >= |counts| { return false; }
        var count := Write(name, bytes[position..], counts[call]);
        assert counts[call..][1..] == counts[call + 1..];
        assert counts[call] >= 0 ==> bytes[..position] + bytes[position..][..count] == bytes[..position + count];
        call := call + 1;
        Staged(before, bytes, if count < 0 then position else position + count);
        if count >= 0 {
          if count == 0 { return false; }
          position := position + count;
        }
      }
      assert bytes[..|bytes|] == bytes;
      ok := true;
    }

    /**
     * The identity of the root, made from 32 random bytes when there is none; nothing when a call fails, or
     * when what is there is not an identity, which is then left as it is.
     */
    method RootId(random: Bytes, counts: seq<int>) returns (id: Option<string>)
      requires |random| == 32
      modifies this
      ensures old(trail) <= trail && AllKept(trail[|old(trail)|..], old(files), Hex(random))
      ensures Kept(old(files), files, Hex(random))
      ensures id.Some? ==> NAME in files && files[NAME] == id.value && Hex64(id.value)
      ensures NAME in old(files) ==> files == old(files) && (id.Some? <==> Hex64(files[NAME]))
      ensures NAME !in old(files) ==> (id.Some? <==> STAGE + Hex(random) !in old(files) && Enough(counts, 64))
      ensures NAME !in old(files) && id.Some? ==> id.value == Hex(random) && files == old(files)[NAME := id.value]
    {
      HexIsHex(random);
      if NAME !in files {
        var value := Hex(random);
        var temporary := STAGE + value;
        StageDiffers(value);
        if temporary in files { return None; }
        files := files[temporary := ""];
        trail := trail + [files];
        var written := WriteAll(temporary, value, counts, old(files));
        if !written { return None; }
        files := (files - {temporary})[NAME := value];
        trail := trail + [files];
      }
      if !Hex64(files[NAME]) { return None; }
      id := Some(files[NAME]);
    }
  }

  /** A staging file that holds a part of the identity is within what a launch may leave. */
  lemma Staged(before: Files, id: string, n: nat)
    requires n <= |id| && NAME !in before && STAGE + id !in before
    ensures Kept(before, before[STAGE + id := id[..n]], id)
  {
    StageDiffers(id);
  }

  lemma StageDiffers(id: string)
    ensures STAGE + id != NAME
  {
    assert |STAGE + id| > |NAME|;
  }

  /** States of the files after successive launches, each from where the one before ended or was interrupted. */
  ghost predicate Launches(states: seq<Files>, ids: seq<string>)
  {
    |states| == |ids| + 1 && forall k | 0 <= k < |ids| :: LaunchAt(states, ids, k)
  }

  ghost predicate LaunchAt(states: seq<Files>, ids: seq<string>, k: nat)
    requires k < |ids| && k + 1 < |states|
  {
    Kept(states[k], states[k + 1], ids[k])
  }

  /** Once a root has an identity it keeps it through any launches, and one it got from a launch is well formed. */
  lemma {:induction false} IdentityStable(states: seq<Files>, ids: seq<string>, k: nat)
    requires Launches(states, ids) && k < |states|
    ensures NAME in states[k] ==> NAME in states[|ids|] && states[|ids|][NAME] == states[k][NAME]
    ensures NAME in states[|ids|] && NAME !in states[k] ==> Hex64(states[|ids|][NAME])
    decreases |states| - k
  {
    if k < |ids| {
      assert LaunchAt(states, ids, k);
      IdentityStable(states, ids, k + 1);
    }
  }
}
