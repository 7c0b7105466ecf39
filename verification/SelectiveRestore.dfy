/** Restoring selected assets from the backup: the old source file goes to quarantine, the backup
    copy goes to a temporary file and replaces the source, the hashes are compared, and a failure at
    any step is rolled back as far as possible. */
module SelectiveRestore {
  import opened AssetFiles
  import opened FileMoves

  /** Where one restore breaks off; the flags only matter when that step is reached. */
  datatype Faults = Faults(move: MoveFault<FileData>, copy: CopyFault, replaceFails: bool, hashFails: bool,
                           unlinkFails: bool, rollback: MoveFault<FileData>)

  datatype Outcome = Restored | RestoreFailed | BackupMissing

  /** Take the temporary file away, and bring the old source back if nothing stands in its place. */
  function RolledBack(fs: Files, a: AssetId, slot: string, quarantined: bool, f: Faults): Files {
    var cleaned := if Temp(a) in fs && !f.unlinkFails then fs - {Temp(a)} else fs;
    if quarantined && Quarantine(slot, a) in cleaned && Source(a) !in cleaned
    then AfterMove(cleaned, Quarantine(slot, a), Source(a), f.rollback)
    else cleaned
  }

  /** The files before the verification, and whether every step up to it went well. */
  function Replaced(fs: Files, a: AssetId, slot: string, f: Faults): (Files, bool)
    requires Backup(a) in fs
  {
    var cleared := if Source(a) in fs then AfterMove(fs, Source(a), Quarantine(slot, a), f.move) else fs;
    if Source(a) in fs && !f.move.Moved? then (cleared, false)
    else
      var copied := AfterCopy(cleared, Backup(a), Temp(a), f.copy);
      if f.copy.NotCopied? || f.replaceFails then (copied, false)
      else (AfterMove(copied, Temp(a), Source(a), Moved), true)
  }

  predicate Verified(fs: Files, a: AssetId) {
    Source(a) in fs && Backup(a) in fs && fs[Source(a)].content == fs[Backup(a)].content
  }

  function RestoreOutcome(fs: Files, a: AssetId, slot: string, f: Faults): Outcome {
    if Backup(a) !in fs then BackupMissing
    else
      var (replaced, fine) := Replaced(fs, a, slot, f);
      if fine && !f.hashFails && Verified(replaced, a) then Restored else RestoreFailed
  }

  function AfterRestore(fs: Files, a: AssetId, slot: string, f: Faults): Files {
    if Backup(a) !in fs then fs
    else
      var (replaced, fine) := Replaced(fs, a, slot, f);
      if RestoreOutcome(fs, a, slot, f).Restored? then replaced
      else RolledBack(replaced, a, slot, Source(a) in fs, f)
  }

  // ----- one restore -----

  /** Only the asset's source file, its temporary file and its quarantine slot can change. */
  lemma RestoreFrame(fs: Files, a: AssetId, slot: string, f: Faults, p: Place)
    requires p != Source(a) && p != Temp(a) && p != Quarantine(slot, a)
    ensures p in AfterRestore(fs, a, slot, f) <==> p in fs
    ensures p in fs ==> AfterRestore(fs, a, slot, f)[p] == fs[p]
  {
  }

  /** Whatever breaks off, the old source file is afterwards, unharmed, at its place or in quarantine. */
  lemma OriginalIsKept(fs: Files, a: AssetId, slot: string, f: Faults)
    requires Source(a) in fs
    ensures var after := AfterRestore(fs, a, slot, f);
      || (Source(a) in after && after[Source(a)] == fs[Source(a)])
      || (Quarantine(slot, a) in after && after[Quarantine(slot, a)] == fs[Source(a)])
  {
    TempIsElsewhere(a, a);
  }

  /** A restore reported as done has put the backup's bytes in the source, and left no temporary file. */
  lemma RestoredMeansBackupContent(fs: Files, a: AssetId, slot: string, f: Faults)
    requires RestoreOutcome(fs, a, slot, f).Restored?
    ensures var after := AfterRestore(fs, a, slot, f);
      && Source(a) in after && Backup(a) in fs && after[Source(a)].content == fs[Backup(a)].content
      && Temp(a) !in after
      && (Source(a) in fs ==> Quarantine(slot, a) in after && after[Quarantine(slot, a)] == fs[Source(a)])
  {
    TempIsElsewhere(a, a);
  }

  /** A restore that fails before the replacement leaves no gap, unless the rollback breaks off too. */
  lemma FailedRestoreLeavesOriginalInPlace(fs: Files, a: AssetId, slot: string, f: Faults)
    requires Source(a) in fs && Backup(a) in fs && !Replaced(fs, a, slot, f).1 && f.rollback.Moved?
    ensures var after := AfterRestore(fs, a, slot, f);
      Source(a) in after && after[Source(a)] == fs[Source(a)]
  {
    TempIsElsewhere(a, a);
  }

  // ----- many restores -----

  /** One restore of a batch: the quarantine folder is named after the second it runs in. */
  datatype Job = Job(asset: AssetId, slot: string, faults: Faults)

  /** The batch restores what was eligible when it started, whatever happened since. */
  function AfterBatch(fs: Files, eligible: set<AssetId>, jobs: seq<Job>): Files {
    if jobs == [] then fs
    else
      var before, job := AfterBatch(fs, eligible, jobs[..|jobs| - 1]), jobs[|jobs| - 1];
      if job.asset in eligible then AfterRestore(before, job.asset, job.slot, job.faults) else before
  }

  /** No asset is restored twice within one second, and no temporary name is taken. */
  ghost predicate Apart(fs: Files, jobs: seq<Job>) {
    && (forall i, j :: 0 <= i < j < |jobs| && jobs[i].asset == jobs[j].asset ==> jobs[i].slot != jobs[j].slot)
    && (forall i :: 0 <= i < |jobs| ==> Temp(jobs[i].asset) !in fs)
  }

  predicate KeptAt(fs: Files, p: Place, data: FileData) {
    p in fs && fs[p] == data
  }

  /** The file is where it was, or in the quarantine slot of one of the restores. */
  ghost predicate Kept(fs: Files, jobs: seq<Job>, a: AssetId, data: FileData) {
    KeptAt(fs, Source(a), data) || exists i :: 0 <= i < |jobs| && jobs[i].asset == a && KeptAt(fs, Quarantine(jobs[i].slot, a), data)
  }

  lemma JobKeeps(fs: Files, jobs: seq<Job>, job: Job, a: AssetId, data: FileData)
    requires Kept(fs, jobs, a, data) && Temp(job.asset) != Source(a)
    requires forall i :: 0 <= i < |jobs| && jobs[i].asset == job.asset ==> jobs[i].slot != job.slot
    ensures Kept(AfterRestore(fs, job.asset, job.slot, job.faults), jobs + [job], a, data)
  {
    var after, more := AfterRestore(fs, job.asset, job.slot, job.faults), jobs + [job];
    assert more[|jobs|] == job;
    if KeptAt(fs, Source(a), data) {
      if job.asset == a {
        OriginalIsKept(fs, a, job.slot, job.faults);
        assert KeptAt(after, Source(a), data) || KeptAt(after, Quarantine(more[|jobs|].slot, a), data);
      } else {
        RestoreFrame(fs, job.asset, job.slot, job.faults, Source(a));
      }
    } else {
      var i :| 0 <= i < |jobs| && jobs[i].asset == a && KeptAt(fs, Quarantine(jobs[i].slot, a), data);
      RestoreFrame(fs, job.asset, job.slot, job.faults, Quarantine(jobs[i].slot, a));
      assert more[i] == jobs[i] && KeptAt(after, Quarantine(more[i].slot, a), data);
    }
  }

  lemma StillKept(fs: Files, jobs: seq<Job>, job: Job, a: AssetId, data: FileData)
    requires Kept(fs, jobs, a, data)
    ensures Kept(fs, jobs + [job], a, data)
  {
    if i :| 0 <= i < |jobs| && jobs[i].asset == a && KeptAt(fs, Quarantine(jobs[i].slot, a), data) {
      assert (jobs + [job])[i] == jobs[i];
    }
  }

  /** Selective restore never loses an original: every source file that was there before the batch is
      afterwards at its place or in quarantine, wherever the single restores broke off. */
  lemma {:induction false} BatchKeepsOriginals(fs: Files, eligible: set<AssetId>, jobs: seq<Job>, a: AssetId)
    requires Source(a) in fs && Apart(fs, jobs)
    ensures Kept(AfterBatch(fs, eligible, jobs), jobs, a, fs[Source(a)])
  {
    if jobs != [] {
      var init, job := jobs[..|jobs| - 1], jobs[|jobs| - 1];
      assert jobs == init + [job];
      assert Apart(fs, init);
      BatchKeepsOriginals(fs, eligible, init, a);
      var before := AfterBatch(fs, eligible, init);
      assert forall i :: 0 <= i < |init| ==> jobs[i] == init[i];
      if job.asset in eligible {
        JobKeeps(before, init, job, a, fs[Source(a)]);
      } else {
        StillKept(before, init, job, a, fs[Source(a)]);
      }
    }
  }

  const SMOOTH := Faults(Moved, Copied, false, false, false, Moved)

  lemma SmoothRestore(fs: Files, a: AssetId, slot: string)
    requires Source(a) in fs && Backup(a) in fs
    ensures AfterRestore(fs, a, slot, SMOOTH)
         == fs[Quarantine(slot, a) := fs[Source(a)]][Source(a) := fs[Backup(a)]] - {Temp(a)}
  {
    TempIsElsewhere(a, a);
    var cleared := AfterMove(fs, Source(a), Quarantine(slot, a), Moved);
    var copied := AfterCopy(cleared, Backup(a), Temp(a), Copied);
    var replaced := AfterMove(copied, Temp(a), Source(a), Moved);
    assert replaced == fs[Quarantine(slot, a) := fs[Source(a)]][Source(a) := fs[Backup(a)]] - {Temp(a)};
  }

  /** An asset named twice in one request survives exactly when its two restores fall into different
      seconds: within one second the second restore overwrites the quarantined original. */
  lemma RepeatedRestoreKeepsOriginalIff(fs: Files, a: AssetId, slot: string, slot': string)
    requires Source(a) in fs && Backup(a) in fs && fs[Source(a)] != fs[Backup(a)]
    ensures var jobs := [Job(a, slot, SMOOTH), Job(a, slot', SMOOTH)];
      Kept(AfterBatch(fs, {a}, jobs), jobs, a, fs[Source(a)]) <==> slot != slot'
  {
    var jobs := [Job(a, slot, SMOOTH), Job(a, slot', SMOOTH)];
    assert jobs[..1] == [jobs[0]] && jobs[..1][..0] == [];
    assert AfterBatch(fs, {a}, []) == fs;
    SmoothRestore(fs, a, slot);
    var once := AfterRestore(fs, a, slot, SMOOTH);
    assert AfterBatch(fs, {a}, jobs[..1]) == once;
    TempIsElsewhere(a, a);
    SmoothRestore(once, a, slot');
    var twice := AfterRestore(once, a, slot', SMOOTH);
    assert AfterBatch(fs, {a}, jobs) == twice;
    assert twice[Source(a)] == fs[Backup(a)];
    assert jobs[0].slot == slot && KeptAt(twice, Quarantine(slot, a), fs[Source(a)]) == (slot != slot');
  }

  // ----- exactly when an undisturbed batch keeps an original -----

  /** The slots of an asset's restores, in order. */
  function Slots(jobs: seq<Job>, a: AssetId): seq<string> {
    if jobs == [] then []
    else
      var last := jobs[|jobs| - 1];
      Slots(jobs[..|jobs| - 1], a) + if last.asset == a then [last.slot] else []
  }

  /** A later restore of the asset falls into the second of its first one. */
  predicate ReusesFirstSlot(slots: seq<string>) {
    slots != [] && slots[0] in slots[1..]
  }

  lemma {:induction false} SlotsAre(jobs: seq<Job>, a: AssetId, slot: string)
    ensures slot in Slots(jobs, a) <==> exists i :: 0 <= i < |jobs| && jobs[i].asset == a && jobs[i].slot == slot
  {
    if jobs != [] {
      var n := |jobs| - 1;
      SlotsAre(jobs[..n], a, slot);
      if i :| 0 <= i < n && jobs[..n][i].asset == a && jobs[..n][i].slot == slot { assert jobs[i].asset == a; }
      if i :| 0 <= i < |jobs| && jobs[i].asset == a && jobs[i].slot == slot {
        if i < n { assert jobs[..n][i] == jobs[i]; }
      }
    }
  }

  /** The asset's restores are undisturbed, and no restore takes its source file for a temporary one. */
  ghost predicate Undisturbed(jobs: seq<Job>, a: AssetId) {
    forall i :: 0 <= i < |jobs| ==>
      (jobs[i].asset == a ==> jobs[i].faults == SMOOTH) && Temp(jobs[i].asset) != Source(a)
  }

  /** After some restores: the first one's slot has the original until it is used again, every other
      slot has what an earlier restore put in its place. */
  ghost predicate Settled(fs: Files, after: Files, slots: seq<string>, a: AssetId) {
    && Source(a) in fs && Backup(a) in fs && KeptAt(after, Backup(a), fs[Backup(a)])
    && KeptAt(after, Source(a), if slots == [] then fs[Source(a)] else fs[Backup(a)])
    && forall slot :: slot in slots ==>
         KeptAt(after, Quarantine(slot, a),
                if slot == slots[0] && !ReusesFirstSlot(slots) then fs[Source(a)] else fs[Backup(a)])
  }

  lemma OtherJobSettles(fs: Files, before: Files, slots: seq<string>, a: AssetId, job: Job)
    requires Settled(fs, before, slots, a) && job.asset != a && Temp(job.asset) != Source(a)
    ensures Settled(fs, AfterRestore(before, job.asset, job.slot, job.faults), slots, a)
  {
    RestoreFrame(before, job.asset, job.slot, job.faults, Source(a));
    RestoreFrame(before, job.asset, job.slot, job.faults, Backup(a));
    forall slot | slot in slots
      ensures KeptAt(AfterRestore(before, job.asset, job.slot, job.faults), Quarantine(slot, a),
                     if slot == slots[0] && !ReusesFirstSlot(slots) then fs[Source(a)] else fs[Backup(a)])
    {
      RestoreFrame(before, job.asset, job.slot, job.faults, Quarantine(slot, a));
    }
  }

  lemma OneMoreSlot(slots: seq<string>, slot: string)
    ensures ReusesFirstSlot(slots + [slot]) <==> ReusesFirstSlot(slots) || (slots != [] && slot == slots[0])
  {
    if slots != [] { assert (slots + [slot])[1..] == slots[1..] + [slot]; }
  }

  lemma OwnJobSettles(fs: Files, before: Files, slots: seq<string>, a: AssetId, slot: string)
    requires Settled(fs, before, slots, a)
    ensures Settled(fs, AfterRestore(before, a, slot, SMOOTH), slots + [slot], a)
  {
    SmoothRestore(before, a, slot);
    TempIsElsewhere(a, a);
    OneMoreSlot(slots, slot);
  }

  lemma {:induction false} BatchSettles(fs: Files, eligible: set<AssetId>, jobs: seq<Job>, a: AssetId)
    requires Source(a) in fs && Backup(a) in fs && a in eligible && Undisturbed(jobs, a)
    ensures Settled(fs, AfterBatch(fs, eligible, jobs), Slots(jobs, a), a)
  {
    if jobs != [] {
      var n := |jobs| - 1;
      var init, job := jobs[..n], jobs[n];
      assert forall i :: 0 <= i < n ==> init[i] == jobs[i];
      BatchSettles(fs, eligible, init, a);
      var before := AfterBatch(fs, eligible, init);
      if job.asset == a {
        OwnJobSettles(fs, before, Slots(init, a), a, job.slot);
      } else {
        assert Slots(init, a) + [] == Slots(init, a);
        if job.asset in eligible { OtherJobSettles(fs, before, Slots(init, a), a, job); }
      }
    }
  }

  lemma SettledKeepsIff(fs: Files, after: Files, jobs: seq<Job>, a: AssetId)
    requires Settled(fs, after, Slots(jobs, a), a) && fs[Source(a)] != fs[Backup(a)]
    ensures Kept(after, jobs, a, fs[Source(a)]) <==> !ReusesFirstSlot(Slots(jobs, a))
  {
    var slots := Slots(jobs, a);
    if i :| 0 <= i < |jobs| && jobs[i].asset == a && KeptAt(after, Quarantine(jobs[i].slot, a), fs[Source(a)]) {
      SlotsAre(jobs, a, jobs[i].slot);
    }
    if slots != [] && !ReusesFirstSlot(slots) {
      SlotsAre(jobs, a, slots[0]);
      var i :| 0 <= i < |jobs| && jobs[i].asset == a && jobs[i].slot == slots[0];
      assert KeptAt(after, Quarantine(jobs[i].slot, a), fs[Source(a)]);
    }
  }

  /** Whatever else a batch restores and wherever that breaks off: if an asset's own restores go well and
      its source file has no temporary name, the original is kept if and only if no later restore of the
      asset uses the slot of its first one. */
  lemma BatchKeepsOriginalIff(fs: Files, eligible: set<AssetId>, jobs: seq<Job>, a: AssetId)
    requires Source(a) in fs && Backup(a) in fs && fs[Source(a)] != fs[Backup(a)]
    requires a in eligible && Undisturbed(jobs, a)
    ensures Kept(AfterBatch(fs, eligible, jobs), jobs, a, fs[Source(a)]) <==> !ReusesFirstSlot(Slots(jobs, a))
  {
    BatchSettles(fs, eligible, jobs, a);
    SettledKeepsIff(fs, AfterBatch(fs, eligible, jobs), jobs, a);
  }

  /** What becomes of a source file that has the temporary name: it survives only if the clean-up cannot
      unlink it and nothing was written over it, because the restore broke off before the copy, or
      the copy left the same bytes behind and the replacement did not take them away. */
  predicate Survives(fs: Files, a: AssetId, f: Faults)
    requires Backup(a) in fs && Temp(a) in fs
  {
    f.unlinkFails && (
      || (Source(a) in fs && !f.move.Moved?)
      || ((f.copy.NotCopied? || f.replaceFails) && AfterCopy(fs, Backup(a), Temp(a), f.copy)[Temp(a)] == fs[Temp(a)]))
  }

  lemma TakenTemporaryName(fs: Files, a: AssetId, slot: string, f: Faults)
    requires Backup(a) in fs && Temp(a) in fs
    ensures KeptAt(AfterRestore(fs, a, slot, f), Temp(a), fs[Temp(a)]) <==> Survives(fs, a, f)
  {
    TempIsElsewhere(a, a);
  }

  lemma OneJob(fs: Files, a: AssetId, slot: string, f: Faults)
    ensures AfterBatch(fs, {a}, [Job(a, slot, f)]) == AfterRestore(fs, a, slot, f)
  {
    assert [Job(a, slot, f)][..0] == [];
    assert AfterBatch(fs, {a}, []) == fs;
  }

  /** A source file with the temporary name of the restored asset is kept exactly when it survives. */
  lemma TakenTemporaryNameIsKeptIff(fs: Files, a: AssetId, slot: string, f: Faults)
    requires Backup(a) in fs && Temp(a) in fs
    ensures var jobs := [Job(a, slot, f)];
      Kept(AfterBatch(fs, {a}, jobs), jobs, a + TEMP_SUFFIX, fs[Temp(a)]) <==> Survives(fs, a, f)
  {
    TempIsElsewhere(a, a);
    OneJob(fs, a, slot, f);
    TakenTemporaryName(fs, a, slot, f);
  }

  lemma OtherOriginalIsKept(fs: Files, a: AssetId, slot: string, f: Faults, x: AssetId)
    requires Source(x) in fs && (Source(x) != Temp(a) || Backup(a) !in fs)
    ensures var jobs := [Job(a, slot, f)]; Kept(AfterBatch(fs, {a}, jobs), jobs, x, fs[Source(x)])
  {
    var jobs := [Job(a, slot, f)];
    OneJob(fs, a, slot, f);
    if x == a {
      OriginalIsKept(fs, a, slot, f);
      assert jobs[0].asset == a && jobs[0].slot == slot;
    } else if Backup(a) in fs {
      RestoreFrame(fs, a, slot, f, Source(x));
    }
  }

  ghost predicate KeepsEveryOriginal(fs: Files, jobs: seq<Job>, eligible: set<AssetId>) {
    forall x :: Source(x) in fs ==> Kept(AfterBatch(fs, eligible, jobs), jobs, x, fs[Source(x)])
  }

  /** One restore keeps every original of the library, wherever it breaks off, if and only if no file
      has the temporary name or that file survives. */
  lemma RestoreKeepsOriginalsIff(fs: Files, a: AssetId, slot: string, f: Faults)
    ensures KeepsEveryOriginal(fs, [Job(a, slot, f)], {a}) <==>
            (Backup(a) in fs && Temp(a) in fs ==> Survives(fs, a, f))
  {
    forall x | Source(x) in fs && (Source(x) != Temp(a) || Backup(a) !in fs)
      ensures Kept(AfterBatch(fs, {a}, [Job(a, slot, f)]), [Job(a, slot, f)], x, fs[Source(x)])
    {
      OtherOriginalIsKept(fs, a, slot, f, x);
    }
    if Backup(a) in fs && Temp(a) in fs {
      TakenTemporaryNameIsKeptIff(fs, a, slot, f);
    }
  }

  /** A restore that nothing disturbs keeps every original exactly when the temporary name is free. */
  lemma UndisturbedRestoreKeepsOriginalsIff(fs: Files, a: AssetId, slot: string)
    requires Backup(a) in fs
    ensures KeepsEveryOriginal(fs, [Job(a, slot, SMOOTH)], {a}) <==> Temp(a) !in fs
  {
    RestoreKeepsOriginalsIff(fs, a, slot, SMOOTH);
  }

  // ----- in place -----

  class AssetLibrary {
    var files: Files

    constructor (files: Files)
      ensures this.files == files
    {
      this.files := files;
    }

    method Move(from: Place, to: Place, fault: MoveFault<FileData>) returns (ok: bool)
      requires from in files
      modifies this
      ensures files == AfterMove(old(files), from, to, fault) && ok == fault.Moved?
    {
      files := AfterMove(files, from, to, fault);
      ok := fault.Moved?;
    }

    method Copy(from: Place, to: Place, fault: CopyFault) returns (ok: bool)
      requires from in files
      modifies this
      ensures files == AfterCopy(old(files), from, to, fault) && ok == !fault.NotCopied?
    {
      files := AfterCopy(files, from, to, fault);
      ok := !fault.NotCopied?;
    }

    /** The steps up to the replacement; false as soon as one of them raises. */
    method Replace(a: AssetId, slot: string, f: Faults) returns (fine: bool)
      requires Backup(a) in files
      modifies this
      ensures (files, fine) == Replaced(old(files), a, slot, f)
    {
      if Source(a) in files {
        var moved := Move(Source(a), Quarantine(slot, a), f.move);
        if !moved {
          return false;
        }
      }
      var copied := Copy(Backup(a), Temp(a), f.copy);
      if !copied || f.replaceFails {
        return false;
      }
      fine := Move(Temp(a), Source(a), Moved);
    }

    method RollBack(a: AssetId, slot: string, quarantined: bool, f: Faults) returns (sourceIsBack: bool)
      modifies this
      ensures files == RolledBack(old(files), a, slot, quarantined, f)
      ensures sourceIsBack ==> Source(a) in files && Quarantine(slot, a) in old(files)
                               && files[Source(a)] == old(files)[Quarantine(slot, a)]
    {
      TempIsElsewhere(a, a);
      if Temp(a) in files && !f.unlinkFails {
        files := files - {Temp(a)};
      }
      sourceIsBack := false;
      if quarantined && Quarantine(slot, a) in files && Source(a) !in files {
        sourceIsBack := Move(Quarantine(slot, a), Source(a), f.rollback);
      }
    }

    method RestoreOne(a: AssetId, slot: string, f: Faults) returns (outcome: Outcome)
      modifies this
      ensures files == AfterRestore(old(files), a, slot, f)
      ensures outcome == RestoreOutcome(old(files), a, slot, f)
    {
      if Backup(a) !in files {
        return BackupMissing;
      }
      var hadSource := Source(a) in files;
      var fine := Replace(a, slot, f);
      if fine && !f.hashFails && Verified(files, a) {
        return Restored;
      }
      var _ := RollBack(a, slot, hadSource, f);
      return RestoreFailed;
    }

    /** The comparison is made once, before the first restore; a dry run restores nothing. */
    method RestoreItems(jobs: seq<Job>, hashFails: set<AssetId>, apply: bool) returns (restored: nat)
      modifies this
      ensures !apply ==> files == old(files)
      ensures apply ==> files == AfterBatch(old(files), EligibleAssets(old(files), hashFails), jobs)
      ensures apply && Apart(old(files), jobs) ==>
                forall a :: Source(a) in old(files) ==> Kept(files, jobs, a, old(files)[Source(a)])
    {
      var eligible := EligibleAssets(files, hashFails);
      restored := 0;
      for i := 0 to |jobs|
        invariant files == if apply then AfterBatch(old(files), eligible, jobs[..i]) else old(files)
      {
        assert jobs[..i + 1][..i] == jobs[..i];
        if jobs[i].asset in eligible && apply {
          var outcome := RestoreOne(jobs[i].asset, jobs[i].slot, jobs[i].faults);
          restored := restored + if outcome.Restored? then 1 else 0;
        }
      }
      assert jobs[..|jobs|] == jobs;
      if apply && Apart(old(files), jobs) {
        forall a | Source(a) in old(files) ensures Kept(files, jobs, a, old(files)[Source(a)]) {
          BatchKeepsOriginals(old(files), eligible, jobs, a);
        }
      }
    }
  }

  function EligibleAssets(fs: Files, hashFails: set<AssetId>): set<AssetId> {
    set a | a in Assets(fs) && RestoreEligible(CompareOne(fs, a, a in hashFails))
  }
}
