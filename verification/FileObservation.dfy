/** Observing the files of one claimed work item. */
module FileObservation {
  import opened CatalogTables
  import opened Ordering

  datatype Batch = Batch(files: seq<Observation>, bytes: nat, errors: nat)

  function Look(tree: map<FileKey, Probe>, root: RootId, path: Path): Probe {
    if FileKey(root, path) in tree then tree[FileKey(root, path)] else Absent
  }

  /** The characters that Python's str.strip() removes. */
  predicate IsSpace(c: char) {
    var n := c as int;
    || 0x09 <= n <= 0x0D || 0x1C <= n <= 0x20 || n == 0x85 || n == 0xA0 || n == 0x1680
    || 0x2000 <= n <= 0x200A || n == 0x2028 || n == 0x2029 || n == 0x202F || n == 0x205F || n == 0x3000
  }

  predicate IsBlank(path: Path) {
    forall i :: 0 <= i < |path| ==> IsSpace(path[i])
  }

  /** The payload keeps only the paths that are not blank. */
  function PathsFromPayload(payload: seq<Path>): (r: seq<Path>)
    ensures forall p :: p in r <==> p in payload && !IsBlank(p)
  {
    if payload == [] then []
    else
      var rest := PathsFromPayload(payload[..|payload| - 1]);
      if IsBlank(payload[|payload| - 1]) then rest else rest + [payload[|payload| - 1]]
  }

  /** What the paths of a batch contribute: an observation per regular file, an error per failed stat. */
  function Observe(tree: map<FileKey, Probe>, root: RootId, paths: seq<Path>): (r: Batch)
    ensures |r.files| + r.errors <= |paths|
  {
    if paths == [] then Batch([], 0, 0)
    else
      var p := paths[|paths| - 1];
      var rest := Observe(tree, root, paths[..|paths| - 1]);
      match Look(tree, root, p)
      case Absent => rest
      case Unreadable => rest.(errors := rest.errors + 1)
      case File(size) => rest.(files := rest.files + [Observation(p, size)], bytes := rest.bytes + size)
  }

  // ----- the loop, and the sort at its end -----

  predicate PathLe(a: Observation, b: Observation) {
    StringLe(a.path, b.path)
  }

  lemma PathOrder()
    ensures TotalPreorder(PathLe)
  {
    StringOrder();
  }

  lemma {:induction false} ObserveKeepsOrder(tree: map<FileKey, Probe>, root: RootId, paths: seq<Path>)
    requires Sorted(StringLe, paths)
    ensures Sorted(PathLe, Observe(tree, root, paths).files)
    ensures forall o :: o in Observe(tree, root, paths).files ==> o.path in paths
  {
    if paths != [] {
      var n := |paths| - 1;
      ObserveKeepsOrder(tree, root, paths[..n]);
      var os := Observe(tree, root, paths[..n]).files;
      forall i | 0 <= i < |os| ensures StringLe(os[i].path, paths[n]) {
        assert os[i] in os;
        var j :| 0 <= j < n && paths[..n][j] == os[i].path;
        assert StringLe(paths[j], paths[n]);
      }
    }
  }

  lemma {:induction false} PayloadKeepsOrder(payload: seq<Path>)
    requires Sorted(StringLe, payload)
    ensures Sorted(StringLe, PathsFromPayload(payload))
  {
    if payload != [] {
      var n := |payload| - 1;
      PayloadKeepsOrder(payload[..n]);
      var ps := PathsFromPayload(payload[..n]);
      forall i | 0 <= i < |ps| ensures StringLe(ps[i], payload[n]) {
        assert ps[i] in ps;
        var j :| 0 <= j < n && payload[..n][j] == ps[i];
        assert StringLe(payload[j], payload[n]);
      }
    }
  }

  /** The source's loop over the paths of a batch. The final sort changes nothing when the paths come
      sorted, as the work items list them. */
  method ObserveFileBatch(tree: map<FileKey, Probe>, root: RootId, paths: seq<Path>) returns (batch: Batch)
    ensures var plain := Observe(tree, root, paths);
      && batch.bytes == plain.bytes && batch.errors == plain.errors
      && multiset(batch.files) == multiset(plain.files) && Sorted(PathLe, batch.files)
    ensures Sorted(StringLe, paths) ==> batch == Observe(tree, root, paths)
  {
    var files, bytes, errors := [], 0, 0;
    for i := 0 to |paths|
      invariant Batch(files, bytes, errors) == Observe(tree, root, paths[..i])
    {
      assert paths[..i + 1][..i] == paths[..i];
      match Look(tree, root, paths[i])
      case Absent =>
      case Unreadable => errors := errors + 1;
      case File(size) =>
        files := files + [Observation(paths[i], size)];
        bytes := bytes + size;
    }
    assert paths[..|paths|] == paths;
    PathOrder();
    SortIsSorted(PathLe, files);
    if Sorted(StringLe, paths) {
      ObserveKeepsOrder(tree, root, paths);
      SortOfSorted(PathLe, files);
    }
    batch := Batch(Sort(PathLe, files), bytes, errors);
  }
}
