/** The catalog's SQLite tables as values, and what each store transaction does to them.
    Every function here is one transaction; the class in CatalogStore.dfy runs them in place. */
module CatalogTables {
  import opened Basics

  type RootId = nat
  type SessionId = nat
  type SnapshotId = nat
  type WorkerId = nat
  type Path = string
  type Key = string

  /** What a stat of one path finds. */
  datatype Probe = Absent | Unreadable | File(size: nat)

  datatype Observation = Observation(path: Path, size: nat)

  datatype FileKey = FileKey(root: RootId, path: Path)

  datatype Presence = Present | NotSeenInLatest | Quarantined

  datatype FileRecord = FileRecord(size: nat, zeroByte: bool, firstSeen: SnapshotId, lastSeen: SnapshotId,
                                   presence: Presence)

  /** The owner column is only set while a row is processing, so it is part of the status. */
  datatype QueueStatus = Pending | Processing(worker: WorkerId) | Done

  /** One row of scan_directory_queue; its id is its position in the queue. */
  datatype QueueRow = QueueRow(key: Key, status: QueueStatus, payload: Option<seq<Path>>, errors: nat,
                               priority: nat)

  datatype SessionStatus = Running | Paused | Stopped | SessionFailed | Completed

  datatype Session = Session(root: RootId, snapshot: SnapshotId, status: SessionStatus, filesSeen: nat,
                             bytesSeen: nat, directoriesCompleted: nat, errorCount: nat)

  datatype SnapshotStatus = SnapshotRunning | Committed | SnapshotFailed

  datatype Snapshot = Snapshot(root: RootId, generation: nat, status: SnapshotStatus,
                               committedAt: Option<nat>, itemCount: nat, zeroByteCount: nat)

  /** One prepared work item as it is handed to the queue. */
  datatype Prepared = Prepared(key: Key, paths: seq<Path>, errors: nat, priority: nat)

  datatype Database = Database(
    clock: nat,
    rootUpdatedAt: map<RootId, nat>,
    sessions: map<SessionId, Session>,
    queues: map<SessionId, seq<QueueRow>>,
    snapshots: map<SnapshotId, Snapshot>,
    files: map<FileKey, FileRecord>)

  function Queue(db: Database, sid: SessionId): seq<QueueRow> {
    if sid in db.queues then db.queues[sid] else []
  }

  // ----- queue rows -----

  predicate HasKey(q: seq<QueueRow>, key: Key) {
    exists i :: 0 <= i < |q| && q[i].key == key
  }

  function Keys(q: seq<QueueRow>): (r: seq<Key>)
    ensures |r| == |q| && forall i :: 0 <= i < |q| ==> r[i] == q[i].key
  {
    seq(|q|, i requires 0 <= i < |q| => q[i].key)
  }

  /** INSERT ... ON CONFLICT DO NOTHING, one item after the other. */
  function Seed(q: seq<QueueRow>, items: seq<Prepared>): seq<QueueRow>
    decreases |items|
  {
    if items == [] then q
    else Seed(SeedOne(q, items[0]), items[1..])
  }

  function SeedOne(q: seq<QueueRow>, item: Prepared): seq<QueueRow> {
    if HasKey(q, item.key) then q
    else q + [QueueRow(item.key, Pending, Some(item.paths), item.errors, item.priority)]
  }

  /** Row i comes before row j in `ORDER BY queue_priority ASC, id ASC`. */
  predicate Before(q: seq<QueueRow>, i: nat, j: nat)
    requires i < |q| && j < |q|
  {
    q[i].priority < q[j].priority || (q[i].priority == q[j].priority && i < j)
  }

  /** The pending row that a claim takes, among the first n rows. */
  function FirstPending(q: seq<QueueRow>, n: nat): (r: Option<nat>)
    requires n <= |q|
    ensures r.None? <==> forall i :: 0 <= i < n ==> !q[i].status.Pending?
    ensures r.Some? ==> r.value < n && q[r.value].status.Pending?
    ensures r.Some? ==> forall i :: 0 <= i < n && q[i].status.Pending? && i != r.value ==> Before(q, r.value, i)
  {
    if n == 0 then None
    else
      var best := FirstPending(q, n - 1);
      if !q[n - 1].status.Pending? then best
      else if best.Some? && q[best.value].priority <= q[n - 1].priority then best
      else Some(n - 1)
  }

  function NextPending(q: seq<QueueRow>): Option<nat> {
    FirstPending(q, |q|)
  }

  /** UPDATE ... SET status WHERE relative_path = key. A done row also loses its payload. */
  function MarkRow(row: QueueRow, key: Key, status: QueueStatus): QueueRow {
    if row.key != key then row
    else if status.Done? then row.(status := Done, payload := None) else row.(status := status)
  }

  function Mark(q: seq<QueueRow>, key: Key, status: QueueStatus): (r: seq<QueueRow>)
    ensures |r| == |q| && forall i :: 0 <= i < |q| ==> r[i] == MarkRow(q[i], key, status)
  {
    seq(|q|, i requires 0 <= i < |q| => MarkRow(q[i], key, status))
  }

  /** Processing rows become pending again: all of them, or only those of one worker. */
  function RequeueRow(row: QueueRow, worker: Option<WorkerId>): QueueRow {
    if row.status.Processing? && (worker.None? || worker.value == row.status.worker)
    then row.(status := Pending) else row
  }

  function Requeue(q: seq<QueueRow>, worker: Option<WorkerId>): (r: seq<QueueRow>)
    ensures |r| == |q| && forall i :: 0 <= i < |q| ==> r[i] == RequeueRow(q[i], worker)
  {
    seq(|q|, i requires 0 <= i < |q| => RequeueRow(q[i], worker))
  }

  // ----- file records -----

  function Upsert(files: map<FileKey, FileRecord>, root: RootId, snapshot: SnapshotId, o: Observation)
    : map<FileKey, FileRecord>
  {
    var k := FileKey(root, o.path);
    files[k := FileRecord(o.size, o.size == 0, if k in files then files[k].firstSeen else snapshot, snapshot, Present)]
  }

  function UpsertAll(files: map<FileKey, FileRecord>, root: RootId, snapshot: SnapshotId, os: seq<Observation>)
    : map<FileKey, FileRecord>
  {
    if os == [] then files
    else Upsert(UpsertAll(files, root, snapshot, os[..|os| - 1]), root, snapshot, os[|os| - 1])
  }

  /** The presence every record of a root gets when a snapshot is committed. */
  function Swept(rec: FileRecord, snapshot: SnapshotId): FileRecord {
    if rec.presence.Quarantined? then rec
    else rec.(presence := if rec.lastSeen == snapshot then Present else NotSeenInLatest)
  }

  function SweepPresence(files: map<FileKey, FileRecord>, root: RootId, snapshot: SnapshotId)
    : map<FileKey, FileRecord>
  {
    map k | k in files :: if k.root == root then Swept(files[k], snapshot) else files[k]
  }

  function ZeroBytesIn(files: map<FileKey, FileRecord>, root: RootId, snapshot: SnapshotId): set<FileKey> {
    set k | k in files && k.root == root && files[k].lastSeen == snapshot && files[k].zeroByte
  }

  function SeenIn(files: map<FileKey, FileRecord>, root: RootId, snapshot: SnapshotId): set<FileKey> {
    set k | k in files && k.root == root && files[k].lastSeen == snapshot
  }

  // ----- transactions -----

  /** COALESCE(MAX(generation), 0) + 1 over the root's snapshots. */
  ghost predicate IsNextGeneration(db: Database, root: RootId, g: nat) {
    && g >= 1
    && (forall n :: n in db.snapshots && db.snapshots[n].root == root ==> db.snapshots[n].generation < g)
    && (g > 1 ==> exists n :: n in db.snapshots && db.snapshots[n].root == root && db.snapshots[n].generation == g - 1)
  }

  function CreateSession(db: Database, sid: SessionId, root: RootId, snapshot: SnapshotId, generation: nat): Database {
    db.(snapshots := db.snapshots[snapshot := Snapshot(root, generation, SnapshotRunning, None, 0, 0)],
        sessions := db.sessions[sid := Session(root, snapshot, Running, 0, 0, 0, 0)],
        queues := db.queues[sid := []])
  }

  function ReopenSession(db: Database, sid: SessionId): Database {
    var requeued := db.(queues := db.queues[sid := Requeue(Queue(db, sid), None)]);
    if sid in db.sessions && !db.sessions[sid].status.Completed?
    then requeued.(sessions := db.sessions[sid := db.sessions[sid].(status := Running)])
    else requeued
  }

  function SeedQueue(db: Database, sid: SessionId, items: seq<Prepared>): Database {
    db.(queues := db.queues[sid := Seed(Queue(db, sid), items)])
  }

  function RequeueRows(db: Database, sid: SessionId, worker: Option<WorkerId>): Database {
    db.(queues := db.queues[sid := Requeue(Queue(db, sid), worker)])
  }

  function ClaimRow(db: Database, sid: SessionId, worker: WorkerId, row: nat): Database
    requires row < |Queue(db, sid)|
  {
    var q := Queue(db, sid);
    db.(queues := db.queues[sid := Mark(q, q[row].key, Processing(worker))])
  }

  /** A session's counters after one more directory. */
  function Finished(s: Session, count: nat, errors: nat, bytes: nat): Session {
    s.(filesSeen := s.filesSeen + count, bytesSeen := s.bytesSeen + bytes,
       directoriesCompleted := s.directoriesCompleted + 1, errorCount := s.errorCount + errors)
  }

  function ApplyBatch(db: Database, sid: SessionId, root: RootId, snapshot: SnapshotId, key: Key,
                      os: seq<Observation>, bytes: nat, errors: nat): Database
  {
    db.(files := UpsertAll(db.files, root, snapshot, os),
        queues := db.queues[sid := Mark(Queue(db, sid), key, Done)],
        sessions := if sid in db.sessions then db.sessions[sid := Finished(db.sessions[sid], |os|, errors, bytes)]
                    else db.sessions)
  }

  /** The references of file_record resolve; without them an upsert raises and nothing is written. */
  predicate References(db: Database, sid: SessionId, root: RootId, snapshot: SnapshotId, os: seq<Observation>) {
    os == [] || (sid in db.sessions && root in db.rootUpdatedAt && snapshot in db.snapshots)
  }

  function MarkStatus(db: Database, sid: SessionId, status: SessionStatus): Database {
    if sid in db.sessions then db.(sessions := db.sessions[sid := db.sessions[sid].(status := status)]) else db
  }

  function FailSession(db: Database, sid: SessionId): Database {
    var marked := MarkStatus(db, sid, SessionFailed);
    if sid in db.sessions && db.sessions[sid].snapshot in db.snapshots
    then var n := db.sessions[sid].snapshot;
      marked.(snapshots := db.snapshots[n := db.snapshots[n].(status := SnapshotFailed)])
    else marked
  }

  function CommitSession(db: Database, sid: SessionId): Database {
    if sid !in db.sessions || db.sessions[sid].snapshot !in db.snapshots then db
    else
      var s := db.sessions[sid];
      var n := s.snapshot;
      db.(snapshots := db.snapshots[n := db.snapshots[n].(status := Committed, committedAt := Some(db.clock),
                                                          itemCount := s.filesSeen,
                                                          zeroByteCount := |ZeroBytesIn(db.files, s.root, n)|)],
          files := SweepPresence(db.files, s.root, n),
          sessions := db.sessions[sid := s.(status := Completed)])
  }

  // ----- queries -----

  function CountUnfinished(q: seq<QueueRow>): nat {
    if q == [] then 0
    else CountUnfinished(q[..|q| - 1]) + if q[|q| - 1].status.Done? then 0 else 1
  }

  /** A committed snapshot that is not older than its root's configuration. */
  predicate IsCurrent(db: Database, root: RootId, n: SnapshotId) {
    && n in db.snapshots && db.snapshots[n].root == root && db.snapshots[n].status.Committed?
    && db.snapshots[n].committedAt.Some? && root in db.rootUpdatedAt
    && db.snapshots[n].committedAt.value >= db.rootUpdatedAt[root]
  }

  /** The snapshot the readers select: current, and of the greatest generation among those. */
  ghost predicate IsLatestCurrent(db: Database, root: RootId, n: SnapshotId) {
    && IsCurrent(db, root, n)
    && forall m :: IsCurrent(db, root, m) ==> db.snapshots[m].generation <= db.snapshots[n].generation
  }

  /** Rows of list_latest_snapshot_files for one root. */
  ghost function LatestFiles(db: Database, root: RootId): set<FileKey> {
    set k | k in db.files && k.root == root && IsLatestCurrent(db, root, db.files[k].lastSeen)
  }

  /** Rows of list_zero_byte_files for one root, before the limit. */
  ghost function LatestZeroByteFiles(db: Database, root: RootId): set<FileKey> {
    set k | k in LatestFiles(db, root) && db.files[k].zeroByte
  }
}
