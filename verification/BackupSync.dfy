/** Copying what is missing in the backup: never touches a source file or an existing backup file. */
module BackupSync {
  import opened Basics
  import opened Ordering
  import opened AssetFiles

  /** How the copy of one asset goes; a failing hash is reported as a failure too. */
  datatype Attempt = Attempt(copy: CopyFault, hashFails: bool)

  type Attempts = map<AssetId, Attempt>

  function AttemptFor(attempts: Attempts, a: AssetId): Attempt {
    if a in attempts then attempts[a] else Attempt(Copied, false)
  }

  function AfterCopyOne(fs: Files, a: AssetId, t: Attempt): Files {
    if Source(a) in fs then AfterCopy(fs, Source(a), Backup(a), t.copy) else fs
  }

  /** The copy counts as done only when both hashes could be read and agree. */
  predicate CopyVerified(fs: Files, a: AssetId, t: Attempt) {
    && Source(a) in fs && !t.copy.NotCopied? && !t.hashFails
    && AfterCopyOne(fs, a, t)[Backup(a)].content == fs[Source(a)].content
  }

  function Missing(fs: Files): set<AssetId> {
    set p | p in fs && p.Source? && Backup(p.asset) !in fs :: p.asset
  }

  function AfterCopies(fs: Files, ids: seq<AssetId>, attempts: Attempts): Files {
    if ids == [] then fs
    else AfterCopyOne(AfterCopies(fs, ids[..|ids| - 1], attempts), ids[|ids| - 1], AttemptFor(attempts, ids[|ids| - 1]))
  }

  lemma {:induction false} CopiesFrame(fs: Files, ids: seq<AssetId>, attempts: Attempts, p: Place)
    requires forall i :: 0 <= i < |ids| ==> p != Backup(ids[i])
    ensures p in AfterCopies(fs, ids, attempts) <==> p in fs
    ensures p in fs ==> AfterCopies(fs, ids, attempts)[p] == fs[p]
  {
    if ids != [] { CopiesFrame(fs, ids[..|ids| - 1], attempts, p); }
  }

  /** Sync is safe: whatever fails, no source file, no existing backup file and no quarantined file
      changes. */
  lemma SyncIsSafe(fs: Files, ids: seq<AssetId>, attempts: Attempts, p: Place)
    requires forall i :: 0 <= i < |ids| ==> ids[i] in Missing(fs)
    requires p in fs
    ensures p in AfterCopies(fs, ids, attempts) && AfterCopies(fs, ids, attempts)[p] == fs[p]
  {
    CopiesFrame(fs, ids, attempts, p);
  }

  lemma {:induction false} CopiedOnce(fs: Files, ids: seq<AssetId>, attempts: Attempts, i: nat)
    requires i < |ids| && Distinct(ids)
    ensures var after, one := AfterCopies(fs, ids, attempts), AfterCopyOne(fs, ids[i], AttemptFor(attempts, ids[i]));
      && (Backup(ids[i]) in after <==> Backup(ids[i]) in one)
      && (Backup(ids[i]) in one ==> after[Backup(ids[i])] == one[Backup(ids[i])])
  {
    var n := |ids| - 1;
    var before := AfterCopies(fs, ids[..n], attempts);
    if i < n {
      assert Distinct(ids[..n]);
      CopiedOnce(fs, ids[..n], attempts, i);
      assert ids[i] != ids[n];
    } else {
      CopiesFrame(fs, ids[..n], attempts, Source(ids[n]));
      CopiesFrame(fs, ids[..n], attempts, Backup(ids[n]));
    }
  }

  ghost predicate NoFailure(fs: Files, ids: seq<AssetId>, attempts: Attempts) {
    forall i :: 0 <= i < |ids| ==> CopyVerified(fs, ids[i], AttemptFor(attempts, ids[i]))
  }

  /** The missing assets, each once, in sorted order. */
  ghost predicate ListsMissing(fs: Files, ids: seq<AssetId>) {
    Distinct(ids) && forall a :: a in ids <==> a in Missing(fs)
  }

  /** Sync is idempotent: if no copy failed, every copied asset now compares as identical, nothing is
      missing in the backup any more, and a second sync has nothing to copy. */
  lemma SyncIsIdempotent(fs: Files, ids: seq<AssetId>, attempts: Attempts)
    requires ListsMissing(fs, ids) && NoFailure(fs, ids, attempts)
    ensures var after := AfterCopies(fs, ids, attempts);
      && (forall a, hashFails :: a in ids ==> CompareOne(after, a, hashFails).Identical?
                                              && after[Backup(a)].content == fs[Source(a)].content)
      && Missing(after) == {}
  {
    var after := AfterCopies(fs, ids, attempts);
    forall a | a in ids
      ensures Source(a) in after && Backup(a) in after && after[Backup(a)] == after[Source(a)]
      ensures after[Source(a)] == fs[Source(a)]
    {
      var i :| 0 <= i < |ids| && ids[i] == a;
      CopiedOnce(fs, ids, attempts, i);
      CopiesFrame(fs, ids, attempts, Source(a));
      assert CopyVerified(fs, a, AttemptFor(attempts, a));
    }
    forall a | Source(a) in after ensures Backup(a) in after {
      CopiesFrame(fs, ids, attempts, Source(a));
      if a !in ids { CopiesFrame(fs, ids, attempts, Backup(a)); }
    }
  }

  /** A copy that garbled the bytes is reported as failed and stays in the backup. The next comparison
      calls it identical exactly when only bytes were garbled and none is missing: the times agree, so
      nothing but the sizes is looked at. */
  lemma GarbledCopyLooksIdenticalIff(fs: Files, a: AssetId, content: seq<bv8>, hashFails: bool)
    requires a in Missing(fs) && content != fs[Source(a)].content
    ensures var t := Attempt(Garbled(content), false);
      var after := AfterCopies(fs, [a], map[a := t]);
      && !CopyVerified(fs, a, t)
      && Source(a) in after && Backup(a) in after && after[Backup(a)].content != after[Source(a)].content
      && (CompareOne(after, a, hashFails).Identical? <==> |content| == |fs[Source(a)].content|)
  {
    var t := Attempt(Garbled(content), false);
    assert [a][..0] == [];
    assert AfterCopies(fs, [a][..0], map[a := t]) == fs;
  }

  /** The two files of an asset have these sizes and times. */
  predicate Sides(fs: Files, a: AssetId, n: nat, s: int, m: nat, t: int) {
    && Source(a) in fs && |fs[Source(a)].content| == n && fs[Source(a)].mtime == s
    && Backup(a) in fs && |fs[Backup(a)].content| == m && fs[Backup(a)].mtime == t
  }

  /** Whatever the files of these sizes and times hold, and whether or not their hashes can be read:
      what is called identical is identical. */
  ghost predicate IdenticalIsTrue(a: AssetId, n: nat, s: int, m: nat, t: int) {
    forall fs: Files, hashFails: bool {:trigger CompareOne(fs, a, hashFails)} ::
      Sides(fs, a, n, s, m, t) && CompareOne(fs, a, hashFails).Identical? ==> fs[Source(a)].content == fs[Backup(a)].content
  }

  function Repeated(n: nat, b: bv8): (r: seq<bv8>)
    ensures |r| == n && forall i :: 0 <= i < n ==> r[i] == b
  {
    seq(n, _ => b)
  }

  lemma EqualTimesDeceive(a: AssetId, n: nat, s: int)
    requires n > 0
    ensures !IdenticalIsTrue(a, n, s, n, s)
  {
    var x, y := Repeated(n, 0), Repeated(n, 1);
    assert x[0] != y[0];
    var fs: Files := map[Source(a) := FileData(x, s), Backup(a) := FileData(y, s)];
    assert Sides(fs, a, n, s, n, s) && CompareOne(fs, a, false).Identical?;
  }

  /** When the comparison can be trusted, from what a caller sees before it reads a byte: the word
      IDENTICAL is true of all files of two sizes and times exactly when the times differ, the sizes
      differ or the files are empty. */
  lemma IdenticalIsTrueIff(a: AssetId, n: nat, s: int, m: nat, t: int)
    ensures IdenticalIsTrue(a, n, s, m, t) <==> s != t || n != m || n == 0
  {
    if s == t && n == m && n > 0 { EqualTimesDeceive(a, n, s); }
  }

  // ----- what is left to a human -----

  /** A mismatch, a conflict or a file that only the backup has; `unreadable` are the assets whose
      hashes cannot be computed. */
  predicate NeedsReview(fs: Files, unreadable: set<AssetId>) {
    exists a :: a in Assets(fs) && RestoreEligible(CompareOne(fs, a, a in unreadable))
  }

  ghost predicate AllIdentical(fs: Files, unreadable: set<AssetId>) {
    forall a :: a in Assets(fs) ==> CompareOne(fs, a, a in unreadable).Identical?
  }

  lemma AssetsAre(fs: Files, a: AssetId)
    ensures a in Assets(fs) <==> Source(a) in fs || Backup(a) in fs
  {
    if Source(a) in fs { assert Source(a).Source? && Source(a).asset == a; }
    if Backup(a) in fs { assert Backup(a).Backup? && Backup(a).asset == a; }
  }

  /** The copied assets are those that the comparison calls missing in the backup. */
  lemma MissingIsCompared(fs: Files, a: AssetId, hashFails: bool)
    ensures a in Missing(fs) <==> CompareOne(fs, a, hashFails).MissingInBackup?
  {
    if Source(a) in fs { assert Source(a).Source? && Source(a).asset == a; }
  }

  /** A sync without a failed copy and without anything to review leaves source and backup identical
      as far as the comparison can tell. */
  lemma CompletedMeansIdentical(fs: Files, ids: seq<AssetId>, attempts: Attempts, unreadable: set<AssetId>)
    requires ListsMissing(fs, ids) && NoFailure(fs, ids, attempts) && !NeedsReview(fs, unreadable)
    ensures AllIdentical(AfterCopies(fs, ids, attempts), unreadable)
  {
    var after := AfterCopies(fs, ids, attempts);
    SyncIsIdempotent(fs, ids, attempts);
    forall a | a in Assets(after) && a !in ids ensures CompareOne(after, a, a in unreadable).Identical? {
      CopiesFrame(fs, ids, attempts, Source(a));
      CopiesFrame(fs, ids, attempts, Backup(a));
      AssetsAre(fs, a);
      AssetsAre(after, a);
      MissingIsCompared(fs, a, a in unreadable);
    }
  }

  // ----- in place -----

  datatype SyncState = Completed | Partial | Failed

  method SortedMissing(fs: Files) returns (ids: seq<AssetId>)
    ensures ListsMissing(fs, ids) && Sorted(StringLe, ids)
  {
    var rest, found := Missing(fs), [];
    while rest != {}
      invariant rest <= Missing(fs) && Distinct(found)
      invariant forall a :: a in found <==> a in Missing(fs) && a !in rest
      decreases |rest|
    {
      var a :| a in rest;
      rest := rest - {a};
      DistinctSplit(found, [a]);
      found := found + [a];
    }
    ids := SortStrings(found);
    SortedStrings(found);
    DistinctSort(found);
  }

  class BackupTarget {
    var files: Files

    constructor (files: Files)
      ensures this.files == files
    {
      this.files := files;
    }

    method CopyWithVerification(a: AssetId, t: Attempt) returns (verified: bool)
      modifies this
      ensures files == AfterCopyOne(old(files), a, t) && verified == CopyVerified(old(files), a, t)
    {
      if Source(a) !in files {
        return false;
      }
      files := AfterCopy(files, Source(a), Backup(a), t.copy);
      if t.copy.NotCopied? || t.hashFails {
        return false;
      }
      verified := files[Source(a)].content == files[Backup(a)].content;
    }

    /** The loop over the records that are missing in the backup. */
    method CopyMissing(ids: seq<AssetId>, attempts: Attempts) returns (copied: nat, failures: nat)
      requires Distinct(ids)
      modifies this
      ensures files == AfterCopies(old(files), ids, attempts) && copied + failures == |ids|
      ensures failures == 0 <==> NoFailure(old(files), ids, attempts)
    {
      copied, failures := 0, 0;
      for i := 0 to |ids|
        invariant files == AfterCopies(old(files), ids[..i], attempts) && copied + failures == i
        invariant failures == 0 <==> NoFailure(old(files), ids[..i], attempts)
      {
        TakeOneMore(ids, i);
        NextAttempt(old(files), ids, attempts, i);
        var verified := CopyWithVerification(ids[i], AttemptFor(attempts, ids[i]));
        if verified {
          copied := copied + 1;
        } else {
          failures := failures + 1;
        }
      }
      assert ids[..|ids|] == ids;
    }

    /** Compare everything, copy what is missing, and say what is left to a human. */
    method SyncMissing(attempts: Attempts, unreadable: set<AssetId>)
      returns (ids: seq<AssetId>, copied: nat, state: SyncState)
      modifies this
      ensures ListsMissing(old(files), ids) && files == AfterCopies(old(files), ids, attempts)
      ensures state.Completed? <==> NoFailure(old(files), ids, attempts) && !NeedsReview(old(files), unreadable)
      ensures state.Completed? ==> AllIdentical(files, unreadable)
      ensures state.Failed? <==> copied == 0 && !NoFailure(old(files), ids, attempts)
      ensures forall p :: p in old(files) ==> p in files && files[p] == old(files)[p]
      ensures NoFailure(old(files), ids, attempts) ==> copied == |ids|
    {
      ghost var fs := files;
      var review := NeedsReview(files, unreadable);
      ids := SortedMissing(files);
      var failures: nat;
      copied, failures := CopyMissing(ids, attempts);
      state := if failures > 0 then (if copied == 0 then Failed else Partial) else if review then Partial else Completed;
      if state.Completed? { CompletedMeansIdentical(fs, ids, attempts, unreadable); }
      forall p | p in fs ensures p in files && files[p] == fs[p] { SyncIsSafe(fs, ids, attempts, p); }
    }
  }

  lemma NextAttempt(fs: Files, ids: seq<AssetId>, attempts: Attempts, i: nat)
    requires i < |ids| && Distinct(ids)
    ensures var before, t := AfterCopies(fs, ids[..i], attempts), AttemptFor(attempts, ids[i]);
      && CopyVerified(before, ids[i], t) == CopyVerified(fs, ids[i], t)
      && (NoFailure(fs, ids[..i + 1], attempts) <==> NoFailure(fs, ids[..i], attempts) && CopyVerified(fs, ids[i], t))
  {
    CopiesFrame(fs, ids[..i], attempts, Source(ids[i]));
    CopiesFrame(fs, ids[..i], attempts, Backup(ids[i]));
    var more := ids[..i + 1];
    assert forall k :: 0 <= k < i ==> more[k] == ids[..i][k];
    assert more[i] == ids[i];
  }
}
