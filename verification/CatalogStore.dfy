/** The catalog store: its tables as fields, its transactions as methods that update them in place.
    Each method's new state is the transaction function of CatalogTables applied to the old state. */
module CatalogStore {
  import opened Basics
  import opened CatalogTables
  import opened Ordering
  import opened ScanReaders
  import opened ScanTheorems

  /** How many rows a `LIMIT` lets through. */
  function Limited(rows: nat, limit: nat): nat {
    if rows <= limit then rows else limit
  }

  lemma {:induction false} UnfinishedIsZeroIff(q: seq<QueueRow>)
    ensures CountUnfinished(q) == 0 <==> forall i :: 0 <= i < |q| ==> q[i].status.Done?
  {
    if q != [] { UnfinishedIsZeroIff(q[..|q| - 1]); }
  }

  /** The rows of a query in the order of their paths, cut off at a limit. */
  ghost predicate FirstRows(rows: seq<Path>, root: RootId, all: set<FileKey>, limit: nat) {
    && Distinct(rows) && Sorted(StringLe, rows)
    && (forall p :: p in rows ==> FileKey(root, p) in all)
    && |rows| == Limited(|all|, limit)
    && (forall k, p :: k in all && k.path !in rows && p in rows ==> StringLe(p, k.path))
  }

  lemma {:induction false} PathsOfKeys(root: RootId, paths: seq<Path>, all: set<FileKey>)
    requires Distinct(paths) && forall k :: k in all <==> k.root == root && k.path in paths
    ensures |all| == |paths|
  {
    KeyedSize(root, Elements(paths));
    DistinctCardinality(paths);
    assert all == Keyed(root, Elements(paths));
  }

  /** Sorting and cutting off what a query selected gives its first rows. */
  lemma SortedCutIsFirstRows(root: RootId, paths: seq<Path>, all: set<FileKey>, limit: nat)
    requires Distinct(paths) && forall k :: k in all <==> k.root == root && k.path in paths
    ensures |paths| == |SortStrings(paths)|
    ensures FirstRows(SortStrings(paths)[..Limited(|paths|, limit)], root, all, limit)
  {
    var sorted := SortStrings(paths);
    SortedStrings(paths);
    DistinctSort(paths);
    PathsOfKeys(root, paths, all);
    var n := Limited(|paths|, limit);
    var rows := sorted[..n];
    assert forall i :: 0 <= i < n ==> rows[i] == sorted[i] && sorted[i] in rows;
    forall k, p | k in all && k.path !in rows && p in rows ensures StringLe(p, k.path) {
      assert k.path in sorted;
      var i :| 0 <= i < |sorted| && sorted[i] == k.path;
      var j :| 0 <= j < n && rows[j] == p;
      assert StringLe(sorted[j], sorted[i]);
    }
  }

  /** The schema: references resolve and new snapshot ids are unused. */
  ghost predicate SchemaOk(db: Database, nextSnapshotId: SnapshotId) {
    && RecordsReferToSnapshots(db)
    && (forall sid :: sid in db.sessions ==>
          db.sessions[sid].root in db.rootUpdatedAt && db.sessions[sid].snapshot in db.snapshots)
    && (forall n :: n in db.snapshots ==> n < nextSnapshotId)
  }

  lemma {:induction false} UpsertKeepsReferences(db: Database, root: RootId, snapshot: SnapshotId, os: seq<Observation>)
    requires RecordsReferToSnapshots(db) && snapshot in db.snapshots
    ensures RecordsReferToSnapshots(db.(files := UpsertAll(db.files, root, snapshot, os)))
  {
    if os != [] { UpsertKeepsReferences(db, root, snapshot, os[..|os| - 1]); }
  }

  lemma ApplyKeepsSchema(db: Database, next: SnapshotId, sid: SessionId, root: RootId, snapshot: SnapshotId, key: Key,
                         os: seq<Observation>, bytes: nat, errors: nat)
    requires SchemaOk(db, next) && References(db, sid, root, snapshot, os)
    ensures SchemaOk(ApplyBatch(db, sid, root, snapshot, key, os, bytes, errors), next)
  {
    if os != [] { UpsertKeepsReferences(db, root, snapshot, os); }
  }

  class CatalogStore {
    var clock: nat
    var rootUpdatedAt: map<RootId, nat>
    var sessions: map<SessionId, Session>
    var queues: map<SessionId, seq<QueueRow>>
    var snapshots: map<SnapshotId, Snapshot>
    var files: map<FileKey, FileRecord>
    var nextSnapshotId: SnapshotId

    function Db(): Database
      reads this
    {
      Database(clock, rootUpdatedAt, sessions, queues, snapshots, files)
    }

    ghost predicate Valid()
      reads this
    {
      SchemaOk(Db(), nextSnapshotId)
    }

    constructor (roots: map<RootId, nat>)
      ensures Valid()
      ensures Db() == Database(0, roots, map[], map[], map[], map[])
    {
      clock, rootUpdatedAt, sessions, queues, snapshots, files := 0, roots, map[], map[], map[], map[];
      nextSnapshotId := 0;
    }

    /** COALESCE(MAX(generation), 0) + 1 over the snapshots of a root. */
    method NextGeneration(root: RootId) returns (g: nat)
      ensures IsNextGeneration(Db(), root, g)
    {
      var rest, greatest := snapshots.Keys, 0;
      while rest != {}
        invariant rest <= snapshots.Keys
        invariant forall n :: n in snapshots && n !in rest && snapshots[n].root == root ==> snapshots[n].generation <= greatest
        invariant greatest > 0 ==> exists n :: n in snapshots && snapshots[n].root == root && snapshots[n].generation == greatest
        decreases |rest|
      {
        var n :| n in rest;
        rest := rest - {n};
        if snapshots[n].root == root && snapshots[n].generation > greatest {
          greatest := snapshots[n].generation;
        }
      }
      g := greatest + 1;
    }

    /** The generation was read before this transaction, by NextGeneration, whatever was written since. A
        session id in use and an unknown root are refused. */
    method CreateScanSession(sid: SessionId, root: RootId, generation: nat) returns (created: Option<SnapshotId>)
      requires Valid()
      modifies this
      ensures Valid() && (created.Some? <==> sid !in old(sessions) && root in rootUpdatedAt)
      ensures created.None? ==> Db() == old(Db())
      ensures created.Some? ==>
        created.value !in old(snapshots) && Db() == CreateSession(old(Db()), sid, root, created.value, generation)
    {
      if sid in sessions || root !in rootUpdatedAt {
        return None;
      }
      var snapshot := nextSnapshotId;
      created := Some(snapshot);
      nextSnapshotId := nextSnapshotId + 1;
      snapshots := snapshots[snapshot := Snapshot(root, generation, SnapshotRunning, None, 0, 0)];
      sessions := sessions[sid := Session(root, snapshot, Running, 0, 0, 0, 0)];
      queues := queues[sid := []];
    }

    method ReopenScanSession(sid: SessionId)
      requires Valid()
      modifies this
      ensures Valid() && Db() == ReopenSession(old(Db()), sid)
    {
      RequeueProcessing(sid, None);
      if sid in sessions && !sessions[sid].status.Completed? {
        sessions := sessions[sid := sessions[sid].(status := Running)];
      }
    }

    /** Requeue the processing rows of a session, or of one of its workers. */
    method RequeueProcessing(sid: SessionId, worker: Option<WorkerId>)
      requires Valid()
      modifies `queues
      ensures Valid() && Db() == RequeueRows(old(Db()), sid, worker)
    {
      queues := queues[sid := Requeue(if sid in queues then queues[sid] else [], worker)];
    }

    /** The search for the pending row of least priority and id, and its mark, in one transaction. */
    method ClaimNextDirectory(sid: SessionId, worker: WorkerId) returns (claimed: Option<QueueRow>)
      requires Valid()
      modifies `queues
      ensures Valid()
      ensures var next := NextPending(old(Queue(Db(), sid)));
        && (next.None? ==> claimed.None? && Db() == old(Db()))
        && (next.Some? ==> claimed == Some(old(Queue(Db(), sid))[next.value])
                           && Db() == ClaimRow(old(Db()), sid, worker, next.value))
    {
      var q := if sid in queues then queues[sid] else [];
      var best: Option<nat> := None;
      for i := 0 to |q|
        invariant best == FirstPending(q, i)
      {
        if q[i].status.Pending? && (best.None? || q[best.value].priority > q[i].priority) {
          best := Some(i);
        }
      }
      if best.None? {
        return None;
      }
      claimed := Some(q[best.value]);
      queues := queues[sid := Mark(q, q[best.value].key, Processing(worker))];
    }

    method SeedDirectoryWorkQueue(sid: SessionId, items: seq<Prepared>)
      requires Valid()
      modifies `queues
      ensures Valid() && (if items == [] then Db() == old(Db()) else Db() == SeedQueue(old(Db()), sid, items))
    {
      if items == [] {
        return;
      }
      var q := if sid in queues then queues[sid] else [];
      for i := 0 to |items|
        invariant Seed(q, items[i..]) == Seed(old(Queue(Db(), sid)), items)
      {
        q := SeedOne(q, items[i]);
        assert items[i..][1..] == items[i + 1..];
      }
      queues := queues[sid := q];
    }

    /** The loop of the upserts. */
    method UpsertFiles(root: RootId, snapshot: SnapshotId, observations: seq<Observation>)
      modifies `files
      ensures files == UpsertAll(old(files), root, snapshot, observations)
    {
      for i := 0 to |observations|
        invariant files == UpsertAll(old(files), root, snapshot, observations[..i])
      {
        assert observations[..i + 1][..i] == observations[..i];
        files := Upsert(files, root, snapshot, observations[i]);
      }
      assert observations[..|observations|] == observations;
    }

    /** Upsert the observations, finish the queue row and advance the counters of the session if it has
        a row: one transaction, rolled back when the references of an upsert do not resolve. */
    method ApplyDirectoryFiles(sid: SessionId, root: RootId, snapshot: SnapshotId, key: Key, observations: seq<Observation>,
                               errors: nat, bytes: nat) returns (ok: bool)
      requires Valid()
      modifies `files, `queues, `sessions
      ensures Valid() && ok == References(old(Db()), sid, root, snapshot, observations)
      ensures Db() == if ok then ApplyBatch(old(Db()), sid, root, snapshot, key, observations, bytes, errors) else old(Db())
    {
      ok := References(Db(), sid, root, snapshot, observations);
      if !ok {
        return;
      }
      ghost var before := Db();
      UpsertFiles(root, snapshot, observations);
      FinishDirectory(sid, key, |observations|, errors, bytes);
      assert Db() == ApplyBatch(before, sid, root, snapshot, key, observations, bytes, errors);
      ApplyKeepsSchema(before, nextSnapshotId, sid, root, snapshot, key, observations, bytes, errors);
    }

    /** The queue row is done, its payload gone, and the session counts it. */
    method FinishDirectory(sid: SessionId, key: Key, count: nat, errors: nat, bytes: nat)
      modifies `queues, `sessions
      ensures queues == old(queues[sid := Mark(Queue(Db(), sid), key, Done)])
      ensures sessions == if sid in old(sessions) then old(sessions[sid := Finished(sessions[sid], count, errors, bytes)])
                          else old(sessions)
    {
      queues := queues[sid := Mark(if sid in queues then queues[sid] else [], key, Done)];
      if sid in sessions {
        sessions := sessions[sid := Finished(sessions[sid], count, errors, bytes)];
      }
    }

    method MarkSession(sid: SessionId, status: SessionStatus)
      requires Valid()
      modifies `sessions
      ensures Valid() && Db() == MarkStatus(old(Db()), sid, status)
    {
      if sid in sessions {
        sessions := sessions[sid := sessions[sid].(status := status)];
      }
    }

    method MarkSessionFailed(sid: SessionId)
      requires Valid()
      modifies `sessions, `snapshots
      ensures Valid() && Db() == FailSession(old(Db()), sid)
    {
      MarkSession(sid, SessionFailed);
      if sid in sessions {
        var n := sessions[sid].snapshot;
        snapshots := snapshots[n := snapshots[n].(status := SnapshotFailed)];
      }
    }

    /** Count the empty files, commit the snapshot, sweep the presence marks, complete the session. */
    method CommitScanSession(sid: SessionId)
      requires Valid()
      modifies `snapshots, `files, `sessions
      ensures Valid() && Db() == CommitSession(old(Db()), sid)
    {
      if sid !in sessions {
        return;
      }
      var s := sessions[sid];
      var zeros := ZeroBytesIn(files, s.root, s.snapshot);
      snapshots := snapshots[s.snapshot := snapshots[s.snapshot].(
        status := Committed, committedAt := Some(clock), itemCount := s.filesSeen, zeroByteCount := |zeros|)];
      files := SweepPresence(files, s.root, s.snapshot);
      sessions := sessions[sid := s.(status := Completed)];
    }

    method CountPendingDirectories(sid: SessionId) returns (n: nat)
      ensures n == CountUnfinished(Queue(Db(), sid))
      ensures n == 0 <==> forall i :: 0 <= i < |Queue(Db(), sid)| ==> Queue(Db(), sid)[i].status.Done?
    {
      var q := if sid in queues then queues[sid] else [];
      n := 0;
      for i := 0 to |q|
        invariant n == CountUnfinished(q[..i])
      {
        assert q[..i + 1][..i] == q[..i];
        if !q[i].status.Done? {
          n := n + 1;
        }
      }
      assert q[..|q|] == q;
      UnfinishedIsZeroIff(q);
    }

    /** The subquery of both readers: the current committed snapshot of the greatest generation. */
    method LatestCurrentSnapshot(root: RootId) returns (latest: Option<SnapshotId>)
      ensures latest.Some? ==> IsLatestCurrent(Db(), root, latest.value)
      ensures latest.None? <==> forall n: SnapshotId :: !IsCurrent(Db(), root, n)
      ensures DistinctGenerations(Db()) ==> forall n: SnapshotId :: latest == Some(n) <==> IsLatestCurrent(Db(), root, n)
    {
      var rest := snapshots.Keys;
      latest := None;
      while rest != {}
        invariant rest <= snapshots.Keys
        invariant latest.Some? ==> IsCurrent(Db(), root, latest.value)
        invariant forall n :: IsCurrent(Db(), root, n) && n !in rest ==>
          latest.Some? && snapshots[n].generation <= snapshots[latest.value].generation
        decreases |rest|
      {
        var n :| n in rest;
        rest := rest - {n};
        if IsCurrent(Db(), root, n)
           && (latest.None? || snapshots[n].generation > snapshots[latest.value].generation) {
          latest := Some(n);
        }
      }
    }

    /** list_latest_snapshot_files and list_zero_byte_files for one root; which snapshot is taken among
        those of one generation is left open. */
    method ListLatestFiles(root: RootId, zeroBytesOnly: bool, limit: nat) returns (rows: seq<Path>)
      ensures DistinctGenerations(Db()) ==> FirstRows(rows, root, if zeroBytesOnly then LatestZeroByteFiles(Db(), root) else LatestFiles(Db(), root), limit)
    {
      var latest := LatestCurrentSnapshot(root);
      var selected: seq<Path> := [];
      var rest := files.Keys;
      while rest != {}
        invariant rest <= files.Keys && Distinct(selected)
        invariant forall p :: p in selected <==> Selects(latest, root, zeroBytesOnly, FileKey(root, p)) && FileKey(root, p) !in rest
        decreases |rest|
      {
        var k :| k in rest;
        rest := rest - {k};
        if Selects(latest, root, zeroBytesOnly, k) {
          DistinctSplit(selected, [k.path]);
          selected := selected + [k.path];
        }
      }
      ghost var all := if zeroBytesOnly then LatestZeroByteFiles(Db(), root) else LatestFiles(Db(), root);
      if DistinctGenerations(Db()) {
        SelectsLatest(latest, root, zeroBytesOnly);
        SortedCutIsFirstRows(root, selected, all, limit);
      }
      SortedStrings(selected);
      rows := SortStrings(selected)[..Limited(|selected|, limit)];
    }

    predicate Selects(latest: Option<SnapshotId>, root: RootId, zeroBytesOnly: bool, k: FileKey)
      reads this
    {
      k in files && k.root == root && latest == Some(files[k].lastSeen) && (zeroBytesOnly ==> files[k].zeroByte)
    }

    lemma SelectsLatest(latest: Option<SnapshotId>, root: RootId, zeroBytesOnly: bool)
      requires forall n: SnapshotId :: latest == Some(n) <==> IsLatestCurrent(Db(), root, n)
      ensures var all := if zeroBytesOnly then LatestZeroByteFiles(Db(), root) else LatestFiles(Db(), root);
        forall k :: Selects(latest, root, zeroBytesOnly, k) <==> k in all
    {
    }
  }
}
