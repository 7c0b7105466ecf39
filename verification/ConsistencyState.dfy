/** Comparing the catalog with the database: one pass over the assets, one over the stored originals,
    one over the derivatives of assets whose original is missing. The path resolver is a parameter. */
module ConsistencyState {
  import opened Basics
  import FO = FileObservation

  // ----- inputs -----

  datatype Resolved = Resolved(root: string, rel: string)

  type Resolver = string -> Option<Resolved>

  /** An asset row; `isVideo` says that its type, trimmed and in upper case, is VIDEO. */
  datatype Asset = Asset(id: string, originalPath: Option<string>, isVideo: bool, livePhotoVideoId: Option<string>,
                         encodedVideoPath: Option<string>, createdAt: Option<int>, updatedAt: Option<int>)

  datatype AssetFile = AssetFile(asset: string, kind: string, path: string)

  /** A row of the latest-files query. */
  datatype FileRow = FileRow(root: string, rel: string, name: string, extension: string, modifiedAt: Option<int>)

  const SOURCE_ROOT := "uploads"
  const SIDECAR := ".xmp"
  const FUSE_PREFIX := ".fuse_hidden"
  const MARKER := ".immich"

  predicate IsIndexedRoot(root: string) {
    root == "thumbs" || root == "profile" || root == "video" || root == SOURCE_ROOT
  }

  function TrimLeft(s: string): string {
    if s != "" && FO.IsSpace(s[0]) then TrimLeft(s[1..]) else s
  }

  function TrimRight(s: string): string {
    if s != "" && FO.IsSpace(s[|s| - 1]) then TrimRight(s[..|s| - 1]) else s
  }

  /** A value without its surrounding blanks, or nothing if that leaves nothing. */
  function Truthy(v: Option<string>): Option<string> {
    if v.None? then None
    else
      var t := TrimRight(TrimLeft(v.value));
      if t == "" then None else Some(t)
  }

  // ----- the comparison window -----

  predicate NotAfter(t: Option<int>, cutoff: Option<int>) {
    cutoff.None? || t.None? || t.value <= cutoff.value
  }

  /** Assets created or updated after the scan began are left out, and so are files modified after. */
  predicate AssetInWindow(a: Asset, cutoff: Option<int>) {
    NotAfter(a.createdAt, cutoff) && NotAfter(a.updatedAt, cutoff)
  }

  predicate FileInWindow(f: FileRow, cutoff: Option<int>) {
    NotAfter(f.modifiedAt, cutoff)
  }

  function WindowAssets(assets: seq<Asset>, cutoff: Option<int>): (r: seq<Asset>)
    ensures forall a :: a in r <==> a in assets && AssetInWindow(a, cutoff)
  {
    if assets == [] then []
    else
      var init, last := assets[..|assets| - 1], assets[|assets| - 1];
      assert assets == init + [last];
      if AssetInWindow(last, cutoff) then WindowAssets(init, cutoff) + [last] else WindowAssets(init, cutoff)
  }

  function WindowFiles(files: seq<FileRow>, cutoff: Option<int>): (r: seq<FileRow>)
    ensures forall f :: f in r <==> f in files && FileInWindow(f, cutoff)
  {
    if files == [] then []
    else
      var init, last := files[..|files| - 1], files[|files| - 1];
      assert files == init + [last];
      if FileInWindow(last, cutoff) then WindowFiles(init, cutoff) + [last] else WindowFiles(init, cutoff)
  }

  // ----- indexes -----

  datatype Context = Context(resolve: Resolver, files: seq<FileRow>, live: set<string>)

  function Index(files: seq<FileRow>, root: string): set<string> {
    set f | f in files && f.root == root :: f.rel
  }

  predicate Indexed(ctx: Context, at: Resolved) {
    IsIndexedRoot(at.root) && at.rel in Index(ctx.files, at.root)
  }

  function LivePhotoVideos(assets: seq<Asset>): set<string> {
    set a | a in assets && Truthy(a.livePhotoVideoId).Some? :: a.livePhotoVideoId.value
  }

  // ----- what each asset is -----

  datatype Verdict =
    | WithoutPath
    | Unmapped(unexpectedRoot: bool)
    | MotionComponent
    | DbMissing(motion: bool, at: Resolved)
    | Present(at: Resolved)

  function Slashes(s: string): string {
    if s == "" then "" else [if s[0] == '\\' then '/' else s[0]] + Slashes(s[1..])
  }

  predicate IsMotionComponent(ctx: Context, a: Asset, path: string, root: string) {
    root == "video" && a.isVideo && Occurs(Slashes(path), "/encoded-video/") && a.id in ctx.live
  }

  function Classify(ctx: Context, a: Asset): Verdict {
    var path := Truthy(a.originalPath);
    if path.None? then WithoutPath
    else
      var at := ctx.resolve(path.value);
      if at.None? then Unmapped(false)
      else if at.value.root != SOURCE_ROOT then
        if !IsMotionComponent(ctx, a, path.value, at.value.root) then Unmapped(true)
        else if Indexed(ctx, at.value) then MotionComponent
        else DbMissing(true, at.value)
      else if at.value.rel in Index(ctx.files, SOURCE_ROOT) then Present(at.value)
      else DbMissing(false, at.value)
  }

  /** Where the asset's original lies in the uploads root, if it resolves there. */
  function OriginalAt(ctx: Context, a: Asset): Option<string> {
    var v := Classify(ctx, a);
    if v.Present? then Some(v.at.rel) else if v.DbMissing? && !v.motion then Some(v.at.rel) else None
  }

  datatype MissingRow = MissingRow(asset: string, motion: bool, at: Resolved)

  datatype UnmappedRow = UnmappedRow(asset: string, unexpectedRoot: bool)

  /** What the pass over the assets has gathered. */
  datatype Originals = Originals(scanned: nat, missing: seq<MissingRow>, unmapped: seq<UnmappedRow>, motion: nat,
                                 index: set<string>, byAsset: map<string, string>)

  const NOTHING := Originals(0, [], [], 0, {}, map[])

  function AddAsset(ctx: Context, o: Originals, a: Asset): Originals {
    match Classify(ctx, a)
    case WithoutPath => o
    case Unmapped(unexpected) => o.(scanned := o.scanned + 1, unmapped := o.unmapped + [UnmappedRow(a.id, unexpected)])
    case MotionComponent => o.(scanned := o.scanned + 1, motion := o.motion + 1)
    case DbMissing(motion, at) =>
      var more := o.(scanned := o.scanned + 1, missing := o.missing + [MissingRow(a.id, motion, at)]);
      if motion then more else more.(index := o.index + {at.rel}, byAsset := o.byAsset[a.id := at.rel])
    case Present(at) => o.(scanned := o.scanned + 1, index := o.index + {at.rel}, byAsset := o.byAsset[a.id := at.rel])
  }

  function Gathered(ctx: Context, assets: seq<Asset>): Originals {
    if assets == [] then NOTHING else AddAsset(ctx, Gathered(ctx, assets[..|assets| - 1]), assets[|assets| - 1])
  }

  /** The source's loop over the assets, branch by branch. */
  method CompareOriginals(ctx: Context, assets: seq<Asset>) returns (o: Originals)
    ensures o == Gathered(ctx, assets)
  {
    var scanned, missing, unmapped, motion, index, byAsset := 0, [], [], 0, {}, map[];
    for i := 0 to |assets|
      invariant Originals(scanned, missing, unmapped, motion, index, byAsset) == Gathered(ctx, assets[..i])
    {
      assert assets[..i + 1][..i] == assets[..i];
      var a := assets[i];
      var path := Truthy(a.originalPath);
      if path.Some? {
        scanned := scanned + 1;
        var at := ctx.resolve(path.value);
        if at.None? {
          unmapped := unmapped + [UnmappedRow(a.id, false)];
        } else if at.value.root != SOURCE_ROOT {
          if !IsMotionComponent(ctx, a, path.value, at.value.root) {
            unmapped := unmapped + [UnmappedRow(a.id, true)];
          } else if Indexed(ctx, at.value) {
            motion := motion + 1;
          } else {
            missing := missing + [MissingRow(a.id, true, at.value)];
          }
        } else {
          index := index + {at.value.rel};
          byAsset := byAsset[a.id := at.value.rel];
          if at.value.rel !in Index(ctx.files, SOURCE_ROOT) {
            missing := missing + [MissingRow(a.id, false, at.value)];
          }
        }
      }
    }
    assert assets[..|assets|] == assets;
    o := Originals(scanned, missing, unmapped, motion, index, byAsset);
  }

  // ----- accounting -----

  function PresentAssets(ctx: Context, assets: seq<Asset>): seq<Asset> {
    if assets == [] then []
    else
      var rest, a := PresentAssets(ctx, assets[..|assets| - 1]), assets[|assets| - 1];
      if Classify(ctx, a).Present? then rest + [a] else rest
  }

  function WithPath(assets: seq<Asset>): seq<Asset> {
    if assets == [] then []
    else
      var rest, a := WithPath(assets[..|assets| - 1]), assets[|assets| - 1];
      if Truthy(a.originalPath).Some? then rest + [a] else rest
  }

  /** Every asset with a path is counted once and lands in exactly one of the four groups. */
  lemma {:induction false} FourWayAccounting(ctx: Context, assets: seq<Asset>)
    ensures var o := Gathered(ctx, assets);
      o.scanned == |WithPath(assets)| == |PresentAssets(ctx, assets)| + |o.missing| + |o.unmapped| + o.motion
  {
    if assets != [] { FourWayAccounting(ctx, assets[..|assets| - 1]); }
  }

  ghost predicate MissingRowOf(ctx: Context, assets: seq<Asset>, row: MissingRow) {
    exists a :: a in assets && Classify(ctx, a) == DbMissing(row.motion, row.at) && a.id == row.asset
  }

  ghost predicate UnmappedRowOf(ctx: Context, assets: seq<Asset>, row: UnmappedRow) {
    exists a :: a in assets && Classify(ctx, a) == Unmapped(row.unexpectedRoot) && a.id == row.asset
  }

  ghost predicate OriginalIn(ctx: Context, assets: seq<Asset>, rel: string) {
    exists a :: a in assets && OriginalAt(ctx, a) == Some(rel)
  }

  lemma OriginalOneMore(ctx: Context, assets: seq<Asset>, a: Asset, rel: string)
    ensures OriginalIn(ctx, assets + [a], rel) <==> OriginalIn(ctx, assets, rel) || OriginalAt(ctx, a) == Some(rel)
  {
    if OriginalAt(ctx, a) == Some(rel) { assert a in assets + [a]; }
    if x :| x in assets && OriginalAt(ctx, x) == Some(rel) { assert x in assets + [a]; }
  }

  lemma MissingOneMore(ctx: Context, assets: seq<Asset>, a: Asset, row: MissingRow)
    ensures MissingRowOf(ctx, assets + [a], row) <==>
            MissingRowOf(ctx, assets, row) || (Classify(ctx, a) == DbMissing(row.motion, row.at) && a.id == row.asset)
  {
    if Classify(ctx, a) == DbMissing(row.motion, row.at) && a.id == row.asset { assert a in assets + [a]; }
    if x :| x in assets && Classify(ctx, x) == DbMissing(row.motion, row.at) && x.id == row.asset { assert x in assets + [a]; }
  }

  lemma UnmappedOneMore(ctx: Context, assets: seq<Asset>, a: Asset, row: UnmappedRow)
    ensures UnmappedRowOf(ctx, assets + [a], row) <==>
            UnmappedRowOf(ctx, assets, row) || (Classify(ctx, a) == Unmapped(row.unexpectedRoot) && a.id == row.asset)
  {
    if Classify(ctx, a) == Unmapped(row.unexpectedRoot) && a.id == row.asset { assert a in assets + [a]; }
    if x :| x in assets && Classify(ctx, x) == Unmapped(row.unexpectedRoot) && x.id == row.asset { assert x in assets + [a]; }
  }

  /** The rows are exactly the assets of their verdict, and the index exactly the resolved originals. */
  lemma {:induction false} MissingRowsAre(ctx: Context, assets: seq<Asset>, row: MissingRow)
    ensures row in Gathered(ctx, assets).missing <==> MissingRowOf(ctx, assets, row)
  {
    if assets != [] {
      var init, a := assets[..|assets| - 1], assets[|assets| - 1];
      assert assets == init + [a];
      MissingRowsAre(ctx, init, row);
      MissingOneMore(ctx, init, a, row);
    }
  }

  lemma {:induction false} UnmappedRowsAre(ctx: Context, assets: seq<Asset>, row: UnmappedRow)
    ensures row in Gathered(ctx, assets).unmapped <==> UnmappedRowOf(ctx, assets, row)
  {
    if assets != [] {
      var init, a := assets[..|assets| - 1], assets[|assets| - 1];
      assert assets == init + [a];
      UnmappedRowsAre(ctx, init, row);
      UnmappedOneMore(ctx, init, a, row);
    }
  }

  lemma {:induction false} IndexIs(ctx: Context, assets: seq<Asset>, rel: string)
    ensures rel in Gathered(ctx, assets).index <==> OriginalIn(ctx, assets, rel)
  {
    if assets != [] {
      var init, a := assets[..|assets| - 1], assets[|assets| - 1];
      assert assets == init + [a];
      IndexIs(ctx, init, rel);
      OriginalOneMore(ctx, init, a, rel);
    }
  }

  // ----- the other direction -----

  predicate IsSidecarExtension(e: string) {
    |e| == 4 && e[0] == '.' && (e[1] == 'x' || e[1] == 'X') && (e[2] == 'm' || e[2] == 'M') && (e[3] == 'p' || e[3] == 'P')
  }

  predicate EndsWith(s: string, t: string) {
    |t| <= |s| && s[|s| - |t|..] == t
  }

  /** Sidecars, the marker file and files that FUSE hid are not originals. */
  predicate IsOriginalCandidate(f: FileRow) {
    && !IsSidecarExtension(f.extension) && f.name != MARKER && !(FUSE_PREFIX <= f.name)
    && !EndsWith(f.rel, SIDECAR)
  }

  predicate IsStorageMissing(f: FileRow, index: set<string>) {
    f.root == SOURCE_ROOT && IsOriginalCandidate(f) && f.rel !in index
  }

  function StorageMissing(files: seq<FileRow>, index: set<string>): (r: seq<FileRow>)
    ensures forall f :: f in r <==> f in files && IsStorageMissing(f, index)
  {
    if files == [] then []
    else
      var init, last := files[..|files| - 1], files[|files| - 1];
      assert files == init + [last];
      if IsStorageMissing(last, index) then StorageMissing(init, index) + [last] else StorageMissing(init, index)
  }

  method CompareStorage(files: seq<FileRow>, index: set<string>) returns (rows: seq<FileRow>)
    ensures rows == StorageMissing(files, index)
  {
    rows := [];
    for i := 0 to |files|
      invariant rows == StorageMissing(files[..i], index)
    {
      assert files[..i + 1][..i] == files[..i];
      var f := files[i];
      if f.root == SOURCE_ROOT && IsOriginalCandidate(f) && f.rel !in index {
        rows := rows + [f];
      }
    }
    assert files[..|files|] == files;
  }

  /** The originals the database expects, and the candidates storage has. */
  function Expected(ctx: Context, assets: seq<Asset>): set<string> {
    Gathered(ctx, assets).index
  }

  function Candidates(files: seq<FileRow>): set<string> {
    set f | f in files && f.root == SOURCE_ROOT && IsOriginalCandidate(f) :: f.rel
  }

  function MissingPaths(rows: seq<MissingRow>): set<string> {
    set r | r in rows && !r.motion :: r.at.rel
  }

  function RowPaths(rows: seq<FileRow>): set<string> {
    set f | f in rows :: f.rel
  }

  lemma MissingPathIsOriginal(ctx: Context, assets: seq<Asset>, r: MissingRow)
    requires r in Gathered(ctx, assets).missing && !r.motion
    ensures OriginalIn(ctx, assets, r.at.rel) && r.at.rel !in Index(ctx.files, SOURCE_ROOT)
  {
    MissingRowsAre(ctx, assets, r);
    var a :| a in assets && Classify(ctx, a) == DbMissing(r.motion, r.at) && a.id == r.asset;
    assert OriginalAt(ctx, a) == Some(r.at.rel);
  }

  lemma OriginalIsMissingPath(ctx: Context, assets: seq<Asset>, a: Asset, rel: string)
    requires a in assets && OriginalAt(ctx, a) == Some(rel) && rel !in Index(ctx.files, SOURCE_ROOT)
    ensures rel in MissingPaths(Gathered(ctx, assets).missing)
  {
    var r := MissingRow(a.id, false, Classify(ctx, a).at);
    assert MissingRowOf(ctx, assets, r);
    MissingRowsAre(ctx, assets, r);
  }

  lemma MissingPathIff(ctx: Context, assets: seq<Asset>, rel: string)
    ensures rel in MissingPaths(Gathered(ctx, assets).missing) <==>
            OriginalIn(ctx, assets, rel) && rel !in Index(ctx.files, SOURCE_ROOT)
  {
    if r :| r in Gathered(ctx, assets).missing && !r.motion && r.at.rel == rel { MissingPathIsOriginal(ctx, assets, r); }
    if a :| a in assets && OriginalAt(ctx, a) == Some(rel) && rel !in Index(ctx.files, SOURCE_ROOT) {
      OriginalIsMissingPath(ctx, assets, a, rel);
    }
  }

  /** The comparison is an exact two-way difference on the uploads root: the missing originals are what
      the database expects and storage does not hold, the unexpected ones are the candidates that
      storage holds and the database does not expect. */
  lemma ExactTwoWayDifference(ctx: Context, assets: seq<Asset>)
    ensures var o := Gathered(ctx, assets);
      && MissingPaths(o.missing) == Expected(ctx, assets) - Index(ctx.files, SOURCE_ROOT)
      && RowPaths(StorageMissing(ctx.files, o.index)) == Candidates(ctx.files) - Expected(ctx, assets)
  {
    var o := Gathered(ctx, assets);
    forall rel ensures rel in MissingPaths(o.missing) <==> rel in Expected(ctx, assets) - Index(ctx.files, SOURCE_ROOT) {
      MissingPathIff(ctx, assets, rel);
      IndexIs(ctx, assets, rel);
    }
    StoragePaths(ctx.files, o.index);
  }

  lemma StoragePaths(files: seq<FileRow>, index: set<string>)
    ensures RowPaths(StorageMissing(files, index)) == Candidates(files) - index
  {
    var rows := StorageMissing(files, index);
    forall rel | rel in Candidates(files) - index ensures rel in RowPaths(rows) {
      var f :| f in files && f.root == SOURCE_ROOT && IsOriginalCandidate(f) && f.rel == rel;
      assert f in rows;
    }
  }

  lemma NoDifferenceIff(a: set<string>, b: set<string>)
    ensures a - b == {} <==> a <= b
  {
    if a - b == {} {
      forall x | x in a ensures x in b { assert x !in a - b; }
    }
  }

  /** Nothing is reported in either direction exactly when the expected originals lie between the
      candidates and the stored files. */
  lemma ConsistentIff(ctx: Context, assets: seq<Asset>)
    ensures var o := Gathered(ctx, assets);
      (MissingPaths(o.missing) == {} && StorageMissing(ctx.files, o.index) == []) <==>
      Candidates(ctx.files) <= Expected(ctx, assets) <= Index(ctx.files, SOURCE_ROOT)
  {
    var o := Gathered(ctx, assets);
    var missing, rows := MissingPaths(o.missing), StorageMissing(ctx.files, o.index);
    var expected, stored, candidates := Expected(ctx, assets), Index(ctx.files, SOURCE_ROOT), Candidates(ctx.files);
    ExactTwoWayDifference(ctx, assets);
    NoDifferenceIff(expected, stored);
    NoDifferenceIff(candidates, expected);
    assert rows == [] <==> RowPaths(rows) == {} by {
      if rows != [] { assert rows[0] in rows && rows[0].rel in RowPaths(rows); }
    }
  }

  /** A missing original that the snapshot does list was modified after the comparison window began. */
  lemma MissingThoughListed(resolve: Resolver, live: set<string>, all: seq<FileRow>, cutoff: Option<int>, a: Asset, f: FileRow)
    requires f in all && f.root == SOURCE_ROOT
    requires var ctx := Context(resolve, WindowFiles(all, cutoff), live);
      Classify(ctx, a) == DbMissing(false, Resolved(SOURCE_ROOT, f.rel))
    ensures cutoff.Some? && f.modifiedAt.Some? && f.modifiedAt.value > cutoff.value
  {
    var files := WindowFiles(all, cutoff);
    assert f in files ==> f.rel in Index(files, SOURCE_ROOT);
  }
}
