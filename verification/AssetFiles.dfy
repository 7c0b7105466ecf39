/** Files of the asset-aware backup workflow: where they lie, and what moving and copying them does
    when it works and when it breaks off. */
module AssetFiles {
  import opened Basics

  type AssetId = string

  /** A file in the source library, in the backup, or in a quarantine folder of one restore. */
  datatype Place = Source(asset: AssetId) | Backup(asset: AssetId) | Quarantine(slot: string, asset: AssetId)

  datatype FileData = FileData(content: seq<bv8>, mtime: int)

  type Files = map<Place, FileData>

  /** The file a restore writes before it replaces the source: a sibling in the source library. */
  const TEMP_SUFFIX := ".immich-doctor-restore.tmp"

  function Temp(asset: AssetId): Place {
    Source(asset + TEMP_SUFFIX)
  }

  lemma TempIsElsewhere(a: AssetId, b: AssetId)
    ensures Temp(a) != Source(a)
    ensures Temp(a) == Temp(b) ==> a == b
  {
    assert |a + TEMP_SUFFIX| > |a|;
    if a + TEMP_SUFFIX == b + TEMP_SUFFIX {
      assert |a| == |b| && a == (a + TEMP_SUFFIX)[..|a|] && b == (b + TEMP_SUFFIX)[..|b|];
    }
  }

  /** A copy keeps content and modification time; it can fail, leaving something or nothing behind,
      or deliver other bytes than it read. */
  datatype CopyFault = Copied | NotCopied(left: Option<FileData>) | Garbled(content: seq<bv8>)

  function AfterCopy(fs: Files, from: Place, to: Place, fault: CopyFault): Files
    requires from in fs
  {
    match fault
    case Copied => fs[to := fs[from]]
    case NotCopied(left) => if left.Some? then fs[to := left.value] else fs
    case Garbled(content) => fs[to := FileData(content, fs[from].mtime)]
  }

  function Assets(fs: Files): set<AssetId> {
    (set p | p in fs && p.Source? :: p.asset) + (set p | p in fs && p.Backup? :: p.asset)
  }

  // ----- comparing -----

  datatype Status = Identical | MissingInBackup | Mismatch | Conflict | RestoreCandidate

  /** Equal sizes and times pass without a look at the bytes; otherwise the hashes decide. */
  function CompareOne(fs: Files, a: AssetId, hashFails: bool): Status {
    if Source(a) !in fs && Backup(a) in fs then RestoreCandidate
    else if Source(a) in fs && Backup(a) !in fs then MissingInBackup
    else if Source(a) !in fs then Conflict
    else
      var s, b := fs[Source(a)], fs[Backup(a)];
      if |s.content| != |b.content| then Mismatch
      else if s.mtime == b.mtime then Identical
      else if hashFails then Conflict
      else if s.content == b.content then Identical
      else Mismatch
  }

  predicate RestoreEligible(s: Status) {
    s.RestoreCandidate? || s.Mismatch? || s.Conflict?
  }

  /** What IDENTICAL proves about the bytes: nothing but their number when the times agree. */
  lemma IdenticalIff(fs: Files, a: AssetId)
    requires Source(a) in fs && Backup(a) in fs
    ensures var s, b := fs[Source(a)], fs[Backup(a)];
      CompareOne(fs, a, false).Identical? <==> s.content == b.content || (|s.content| == |b.content| && s.mtime == b.mtime)
  {
  }
}
