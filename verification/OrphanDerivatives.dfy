/** Derivatives whose original is missing: one row per asset, type and path. */
module OrphanDerivatives {
  import opened Basics
  import opened ConsistencyState

  datatype OrphanRow = OrphanRow(asset: string, kind: string, at: Resolved, path: string, original: string)

  /** What makes two rows the same finding; the root is not part of it. */
  datatype OrphanKey = OrphanKey(asset: string, kind: string, rel: string)

  function KeyOf(r: OrphanRow): OrphanKey {
    OrphanKey(r.asset, r.kind, r.at.rel)
  }

  // ----- the rows that qualify -----

  /** The row of one derivative path, if the path resolves to an indexed file. */
  function RowFor(ctx: Context, asset: string, kind: string, path: string, original: string): seq<OrphanRow> {
    var at := ctx.resolve(path);
    if at.Some? && Indexed(ctx, at.value) then [OrphanRow(asset, kind, at.value, path, original)] else []
  }

  function RowsForFiles(ctx: Context, id: string, files: seq<AssetFile>, original: string): seq<OrphanRow> {
    if files == [] then []
    else
      var f := files[|files| - 1];
      RowsForFiles(ctx, id, files[..|files| - 1], original)
      + if f.asset == id then RowFor(ctx, f.asset, f.kind, f.path, original) else []
  }

  function RowsForVideo(ctx: Context, a: Asset, original: string): seq<OrphanRow> {
    var video := Truthy(a.encodedVideoPath);
    if video.Some? then RowFor(ctx, a.id, "encoded_video", video.value, original) else []
  }

  function RowsForAsset(ctx: Context, a: Asset, files: seq<AssetFile>, byAsset: map<string, string>): seq<OrphanRow> {
    if a.id !in byAsset || byAsset[a.id] in Index(ctx.files, SOURCE_ROOT) then []
    else RowsForVideo(ctx, a, byAsset[a.id]) + RowsForFiles(ctx, a.id, files, byAsset[a.id])
  }

  function AllRows(ctx: Context, assets: seq<Asset>, files: seq<AssetFile>, byAsset: map<string, string>): seq<OrphanRow> {
    if assets == [] then []
    else
      AllRows(ctx, assets[..|assets| - 1], files, byAsset)
      + RowsForAsset(ctx, assets[|assets| - 1], files, byAsset)
  }

  // ----- each finding once -----

  function Keys(rows: seq<OrphanRow>): set<OrphanKey> {
    set r | r in rows :: KeyOf(r)
  }

  /** Keep the first row of every key. */
  function FirstOfKey(rows: seq<OrphanRow>): seq<OrphanRow> {
    if rows == [] then []
    else
      var kept, r := FirstOfKey(rows[..|rows| - 1]), rows[|rows| - 1];
      if KeyOf(r) in Keys(kept) then kept else kept + [r]
  }

  lemma KeysOneMore(rows: seq<OrphanRow>, r: OrphanRow)
    ensures Keys(rows + [r]) == Keys(rows) + {KeyOf(r)}
  {
    assert forall x :: x in rows + [r] <==> x in rows || x == r;
  }

  ghost predicate KeysDiffer(rows: seq<OrphanRow>) {
    forall i, j :: 0 <= i < j < |rows| ==> KeyOf(rows[i]) != KeyOf(rows[j])
  }

  /** No key twice, no key lost, no row invented. */
  lemma {:induction false} FirstOfKeyIsExact(rows: seq<OrphanRow>)
    ensures var kept := FirstOfKey(rows);
      && KeysDiffer(kept) && Keys(kept) == Keys(rows) && forall r :: r in kept ==> r in rows
  {
    if rows != [] {
      var init, r := rows[..|rows| - 1], rows[|rows| - 1];
      assert rows == init + [r];
      FirstOfKeyIsExact(init);
      var kept := FirstOfKey(init);
      KeysOneMore(init, r);
      KeysOneMore(kept, r);
      if KeyOf(r) !in Keys(kept) {
        forall i | 0 <= i < |kept| ensures KeyOf(kept[i]) != KeyOf(r) { assert kept[i] in kept && KeyOf(kept[i]) in Keys(kept); }
      }
    }
  }

  function Orphans(ctx: Context, assets: seq<Asset>, files: seq<AssetFile>, byAsset: map<string, string>): seq<OrphanRow> {
    FirstOfKey(AllRows(ctx, assets, files, byAsset))
  }

  // ----- what a row says -----

  ghost predicate FromAsset(ctx: Context, a: Asset, files: seq<AssetFile>, byAsset: map<string, string>, r: OrphanRow) {
    && r.asset == a.id && a.id in byAsset && r.original == byAsset[a.id]
    && r.original !in Index(ctx.files, SOURCE_ROOT) && ctx.resolve(r.path) == Some(r.at) && Indexed(ctx, r.at)
    && ((r.kind == "encoded_video" && Truthy(a.encodedVideoPath) == Some(r.path))
        || AssetFile(a.id, r.kind, r.path) in files)
  }

  lemma {:induction false} FileRowsAre(ctx: Context, id: string, files: seq<AssetFile>, original: string, r: OrphanRow)
    ensures r in RowsForFiles(ctx, id, files, original) <==>
            && r.asset == id && r.original == original && ctx.resolve(r.path) == Some(r.at) && Indexed(ctx, r.at)
            && AssetFile(id, r.kind, r.path) in files
  {
    if files != [] {
      assert files == files[..|files| - 1] + [files[|files| - 1]];
      FileRowsAre(ctx, id, files[..|files| - 1], original, r);
    }
  }

  lemma AssetRowsAre(ctx: Context, a: Asset, files: seq<AssetFile>, byAsset: map<string, string>, r: OrphanRow)
    ensures r in RowsForAsset(ctx, a, files, byAsset) <==> FromAsset(ctx, a, files, byAsset, r)
  {
    if a.id in byAsset { FileRowsAre(ctx, a.id, files, byAsset[a.id], r); }
  }

  lemma {:induction false} AllRowsAre(ctx: Context, assets: seq<Asset>, files: seq<AssetFile>, byAsset: map<string, string>,
                                      r: OrphanRow)
    ensures r in AllRows(ctx, assets, files, byAsset) <==> exists a :: a in assets && FromAsset(ctx, a, files, byAsset, r)
  {
    if assets != [] {
      var init, a := assets[..|assets| - 1], assets[|assets| - 1];
      assert assets == init + [a];
      AllRowsAre(ctx, init, files, byAsset, r);
      AssetRowsAre(ctx, a, files, byAsset, r);
      assert forall x :: x in assets <==> x in init || x == a;
    }
  }

  /** Orphan rows are exactly one per distinct asset, type and path whose original is missing and whose
      derivative is indexed. */
  lemma OrphansAreExact(ctx: Context, assets: seq<Asset>, files: seq<AssetFile>, byAsset: map<string, string>, k: OrphanKey)
    ensures var rows := Orphans(ctx, assets, files, byAsset);
      && KeysDiffer(rows)
      && (k in Keys(rows) <==> exists a, r :: a in assets && KeyOf(r) == k && FromAsset(ctx, a, files, byAsset, r))
      && forall r :: r in rows ==> exists a :: a in assets && FromAsset(ctx, a, files, byAsset, r)
  {
    var all := AllRows(ctx, assets, files, byAsset);
    FirstOfKeyIsExact(all);
    forall r ensures r in all <==> exists a :: a in assets && FromAsset(ctx, a, files, byAsset, r) {
      AllRowsAre(ctx, assets, files, byAsset, r);
    }
  }

  // ----- orphans and missing originals -----

  ghost predicate IdsAreKeys(assets: seq<Asset>) {
    forall i, j :: 0 <= i < j < |assets| ==> assets[i].id != assets[j].id
  }

  lemma AddedAsset(ctx: Context, o: Originals, a: Asset, id: string)
    ensures var after := AddAsset(ctx, o, a).byAsset;
      if id == a.id && OriginalAt(ctx, a).Some? then id in after && Some(after[id]) == OriginalAt(ctx, a)
      else (id in after <==> id in o.byAsset) && (id in after ==> after[id] == o.byAsset[id])
  {
  }

  lemma IdsAreKeysPrefix(init: seq<Asset>, last: Asset)
    requires IdsAreKeys(init + [last])
    ensures IdsAreKeys(init) && forall i :: 0 <= i < |init| ==> init[i].id != last.id
  {
    var all := init + [last];
    forall i, j | 0 <= i < j < |init| ensures init[i].id != init[j].id { assert all[i].id != all[j].id; }
    forall i | 0 <= i < |init| ensures init[i].id != last.id { assert all[i].id != all[|init|].id; }
  }

  /** The map of originals holds what each asset resolves to; ids are the table's primary key. */
  lemma {:induction false} ByAssetIs(ctx: Context, assets: seq<Asset>, a: Asset)
    requires IdsAreKeys(assets) && a in assets
    ensures var found := Gathered(ctx, assets).byAsset;
      && (a.id in found <==> OriginalAt(ctx, a).Some?) && (a.id in found ==> Some(found[a.id]) == OriginalAt(ctx, a))
  {
    var init, last := assets[..|assets| - 1], assets[|assets| - 1];
    assert assets == init + [last];
    IdsAreKeysPrefix(init, last);
    AddedAsset(ctx, Gathered(ctx, init), last, a.id);
    if a in init {
      ByAssetIs(ctx, init, a);
    } else {
      OnlyKnownIds(ctx, init, last.id);
    }
  }

  lemma {:induction false} OnlyKnownIds(ctx: Context, assets: seq<Asset>, id: string)
    ensures id in Gathered(ctx, assets).byAsset ==> exists i :: 0 <= i < |assets| && assets[i].id == id
  {
    if assets != [] {
      var n := |assets| - 1;
      OnlyKnownIds(ctx, assets[..n], id);
      if i :| 0 <= i < n && assets[..n][i].id == id { assert assets[i].id == id; }
      assert assets[n].id == id ==> exists i :: 0 <= i < |assets| && assets[i].id == id;
    }
  }

  /** Every orphan's asset is also reported as missing, at the original the orphan row names. */
  lemma OrphanIsAlsoMissing(ctx: Context, assets: seq<Asset>, files: seq<AssetFile>, r: OrphanRow)
    requires IdsAreKeys(assets) && r in Orphans(ctx, assets, files, Gathered(ctx, assets).byAsset)
    ensures MissingRow(r.asset, false, Resolved(SOURCE_ROOT, r.original)) in Gathered(ctx, assets).missing
  {
    var o := Gathered(ctx, assets);
    OrphansAreExact(ctx, assets, files, o.byAsset, KeyOf(r));
    var a :| a in assets && FromAsset(ctx, a, files, o.byAsset, r);
    ByAssetIs(ctx, assets, a);
    var at := Classify(ctx, a).at;
    assert Classify(ctx, a) == DbMissing(false, Resolved(SOURCE_ROOT, r.original));
    MissingRowsAre(ctx, assets, MissingRow(a.id, false, at));
  }

  // ----- the files that are reported -----

  /** The key of the row is reported with the file of the row. */
  ghost predicate Reported(kept: seq<OrphanRow>, r: OrphanRow) {
    exists o :: o in kept && KeyOf(o) == KeyOf(r) && o.at == r.at
  }

  ghost predicate AllReported(rows: seq<OrphanRow>) {
    forall r :: r in rows ==> Reported(FirstOfKey(rows), r)
  }

  ghost predicate OneRootPerKey(rows: seq<OrphanRow>) {
    forall q, r :: q in rows && r in rows && KeyOf(q) == KeyOf(r) ==> q.at.root == r.at.root
  }

  lemma KeyIsKept(rows: seq<OrphanRow>, r: OrphanRow) returns (o: OrphanRow)
    requires r in rows
    ensures o in FirstOfKey(rows) && o in rows && KeyOf(o) == KeyOf(r)
  {
    FirstOfKeyIsExact(rows);
    assert KeyOf(r) in Keys(rows);
    o :| o in FirstOfKey(rows) && KeyOf(o) == KeyOf(r);
  }

  lemma KeyIsKeptOnce(rows: seq<OrphanRow>, o: OrphanRow, o': OrphanRow)
    requires o in FirstOfKey(rows) && o' in FirstOfKey(rows) && KeyOf(o) == KeyOf(o')
    ensures o == o'
  {
    FirstOfKeyIsExact(rows);
  }

  lemma AllReportedIff(rows: seq<OrphanRow>)
    ensures AllReported(rows) <==> OneRootPerKey(rows)
  {
    if OneRootPerKey(rows) {
      forall r | r in rows ensures Reported(FirstOfKey(rows), r) { var o := KeyIsKept(rows, r); }
    }
    if AllReported(rows) {
      forall q, r | q in rows && r in rows && KeyOf(q) == KeyOf(r) ensures q.at.root == r.at.root {
        var o :| o in FirstOfKey(rows) && KeyOf(o) == KeyOf(q) && o.at == q.at;
        var o' :| o' in FirstOfKey(rows) && KeyOf(o') == KeyOf(r) && o'.at == r.at;
        KeyIsKeptOnce(rows, o, o');
      }
    }
  }

  /** The database names the path as a derivative of this kind of the asset. */
  ghost predicate Derives(a: Asset, files: seq<AssetFile>, kind: string, path: string) {
    (kind == "encoded_video" && Truthy(a.encodedVideoPath) == Some(path)) || AssetFile(a.id, kind, path) in files
  }

  /** The path is one of an orphan: its asset's original is missing, and it resolves to an indexed file. */
  ghost predicate Orphaned(ctx: Context, assets: seq<Asset>, files: seq<AssetFile>, byAsset: map<string, string>, id: string,
                           kind: string, path: string, at: Resolved) {
    && id in byAsset && byAsset[id] !in Index(ctx.files, SOURCE_ROOT)
    && ctx.resolve(path) == Some(at) && Indexed(ctx, at)
    && exists a :: a in assets && a.id == id && Derives(a, files, kind, path)
  }

  ghost predicate Shown(rows: seq<OrphanRow>, id: string, kind: string, at: Resolved) {
    exists r :: r in rows && r.asset == id && r.kind == kind && r.at == at
  }

  ghost predicate EveryOrphanReported(ctx: Context, assets: seq<Asset>, files: seq<AssetFile>, byAsset: map<string, string>) {
    forall id, kind, p, at :: Orphaned(ctx, assets, files, byAsset, id, kind, p, at) ==>
      Shown(Orphans(ctx, assets, files, byAsset), id, kind, at)
  }

  /** No two derivatives of one kind of an asset lie under one relative path in two roots. */
  ghost predicate OneRootPerPath(ctx: Context, assets: seq<Asset>, files: seq<AssetFile>, byAsset: map<string, string>) {
    forall id, kind, p, q, x, y ::
      (Orphaned(ctx, assets, files, byAsset, id, kind, p, x) && Orphaned(ctx, assets, files, byAsset, id, kind, q, y)
       && x.rel == y.rel) ==> x.root == y.root
  }

  lemma OrphanedIff(ctx: Context, assets: seq<Asset>, files: seq<AssetFile>, byAsset: map<string, string>, id: string,
                    kind: string, path: string, at: Resolved, original: string)
    ensures OrphanRow(id, kind, at, path, original) in AllRows(ctx, assets, files, byAsset) <==>
            Orphaned(ctx, assets, files, byAsset, id, kind, path, at) && original == byAsset[id]
  {
    var r := OrphanRow(id, kind, at, path, original);
    AllRowsAre(ctx, assets, files, byAsset, r);
    if a :| a in assets && FromAsset(ctx, a, files, byAsset, r) { assert Derives(a, files, kind, path); }
    if Orphaned(ctx, assets, files, byAsset, id, kind, path, at) && original == byAsset[id] {
      var a :| a in assets && a.id == id && Derives(a, files, kind, path);
      assert FromAsset(ctx, a, files, byAsset, r);
    }
  }

  lemma OneRootIff(ctx: Context, assets: seq<Asset>, files: seq<AssetFile>, byAsset: map<string, string>)
    ensures OneRootPerKey(AllRows(ctx, assets, files, byAsset)) <==> OneRootPerPath(ctx, assets, files, byAsset)
  {
    var all := AllRows(ctx, assets, files, byAsset);
    if OneRootPerPath(ctx, assets, files, byAsset) {
      forall q, r | q in all && r in all && KeyOf(q) == KeyOf(r) ensures q.at.root == r.at.root {
        OrphanedIff(ctx, assets, files, byAsset, q.asset, q.kind, q.path, q.at, q.original);
        OrphanedIff(ctx, assets, files, byAsset, r.asset, r.kind, r.path, r.at, r.original);
      }
    }
    if OneRootPerKey(all) {
      forall id, kind, p, q, x, y | Orphaned(ctx, assets, files, byAsset, id, kind, p, x)
                                    && Orphaned(ctx, assets, files, byAsset, id, kind, q, y) && x.rel == y.rel
        ensures x.root == y.root
      {
        OrphanedIff(ctx, assets, files, byAsset, id, kind, p, x, byAsset[id]);
        OrphanedIff(ctx, assets, files, byAsset, id, kind, q, y, byAsset[id]);
        assert KeyOf(OrphanRow(id, kind, x, p, byAsset[id])) == KeyOf(OrphanRow(id, kind, y, q, byAsset[id]));
      }
    }
  }

  /** Every orphaned file has a row if and only if no two derivatives of one kind of an asset lie under
      one relative path in two roots: the root is not part of what makes two rows the same. */
  lemma EveryOrphanIsReportedIff(ctx: Context, assets: seq<Asset>, files: seq<AssetFile>, byAsset: map<string, string>)
    ensures EveryOrphanReported(ctx, assets, files, byAsset) <==> OneRootPerPath(ctx, assets, files, byAsset)
  {
    var all := AllRows(ctx, assets, files, byAsset);
    AllReportedIff(all);
    OneRootIff(ctx, assets, files, byAsset);
    ReportedFilesAreRows(ctx, assets, files, byAsset);
  }

  lemma ReportedFilesAreRows(ctx: Context, assets: seq<Asset>, files: seq<AssetFile>, byAsset: map<string, string>)
    ensures EveryOrphanReported(ctx, assets, files, byAsset) <==> AllReported(AllRows(ctx, assets, files, byAsset))
  {
    var all, kept := AllRows(ctx, assets, files, byAsset), Orphans(ctx, assets, files, byAsset);
    forall id, kind, p, at | Orphaned(ctx, assets, files, byAsset, id, kind, p, at) && AllReported(all)
      ensures Shown(kept, id, kind, at)
    {
      OrphanedIff(ctx, assets, files, byAsset, id, kind, p, at, byAsset[id]);
      assert Reported(kept, OrphanRow(id, kind, at, p, byAsset[id]));
    }
    if EveryOrphanReported(ctx, assets, files, byAsset) {
      forall r | r in all ensures Reported(kept, r) {
        OrphanedIff(ctx, assets, files, byAsset, r.asset, r.kind, r.path, r.at, r.original);
        assert Shown(kept, r.asset, r.kind, r.at);
        var o :| o in kept && o.asset == r.asset && o.kind == r.kind && o.at == r.at;
        assert KeyOf(o) == KeyOf(r);
      }
    }
  }

  lemma FirstOfTwins(first: OrphanRow, second: OrphanRow)
    requires KeyOf(first) == KeyOf(second)
    ensures FirstOfKey([first, second]) == [first]
  {
    assert [first, second][..1] == [first] && [first][..0] == [];
    assert FirstOfKey([first]) == [first];
    KeysOneMore([], first);
    assert KeyOf(second) in Keys([first]);
  }

  lemma RowsOfTwoFiles(ctx: Context, id: string, f: AssetFile, g: AssetFile, original: string)
    requires f.asset == id && g.asset == id
    ensures RowsForFiles(ctx, id, [f, g], original)
         == RowFor(ctx, id, f.kind, f.path, original) + RowFor(ctx, id, g.kind, g.path, original)
  {
    assert [f, g][..1] == [f] && [f][..0] == [];
    assert RowsForFiles(ctx, id, [f], original) == RowFor(ctx, id, f.kind, f.path, original);
  }

  lemma MissingOriginalOf(ctx: Context, a: Asset)
    requires Classify(ctx, a).DbMissing? && !Classify(ctx, a).motion
    ensures Gathered(ctx, [a]).byAsset == map[a.id := Classify(ctx, a).at.rel]
    ensures Classify(ctx, a).at.rel !in Index(ctx.files, SOURCE_ROOT)
  {
    assert [a][..0] == [];
    assert Gathered(ctx, [a]) == AddAsset(ctx, Gathered(ctx, []), a);
  }

  lemma RowsOfOneAsset(ctx: Context, a: Asset, files: seq<AssetFile>, byAsset: map<string, string>)
    ensures AllRows(ctx, [a], files, byAsset) == RowsForAsset(ctx, a, files, byAsset)
  {
    assert [a][..0] == [];
  }

  /** Two derivatives of one kind under one relative path in two roots: only the first is reported. */
  lemma SecondRootIsDropped(ctx: Context, a: Asset, kind: string, p: string, q: string)
    requires Classify(ctx, a).DbMissing? && !Classify(ctx, a).motion && a.encodedVideoPath.None?
    requires ctx.resolve(p).Some? && Indexed(ctx, ctx.resolve(p).value)
    requires ctx.resolve(q).Some? && Indexed(ctx, ctx.resolve(q).value)
    requires ctx.resolve(p).value.rel == ctx.resolve(q).value.rel && ctx.resolve(p).value.root != ctx.resolve(q).value.root
    ensures var files := [AssetFile(a.id, kind, p), AssetFile(a.id, kind, q)];
      Orphans(ctx, [a], files, Gathered(ctx, [a]).byAsset)
      == [OrphanRow(a.id, kind, ctx.resolve(p).value, p, Classify(ctx, a).at.rel)]
  {
    var f, g, original := AssetFile(a.id, kind, p), AssetFile(a.id, kind, q), Classify(ctx, a).at.rel;
    MissingOriginalOf(ctx, a);
    RowsOfOneAsset(ctx, a, [f, g], map[a.id := original]);
    RowsOfTwoFiles(ctx, a.id, f, g, original);
    var first := OrphanRow(a.id, kind, ctx.resolve(p).value, p, original);
    var second := OrphanRow(a.id, kind, ctx.resolve(q).value, q, original);
    assert RowsForVideo(ctx, a, original) == [] && RowFor(ctx, a.id, kind, p, original) == [first];
    assert RowsForAsset(ctx, a, [f, g], map[a.id := original]) == [first, second];
    FirstOfTwins(first, second);
  }

  function TwoRoots(path: string): Option<Resolved> {
    if path == "original" then Some(Resolved(SOURCE_ROOT, "original"))
    else if path == "thumb" then Some(Resolved("thumbs", "x"))
    else if path == "avatar" then Some(Resolved("profile", "x"))
    else None
  }

  /** One asset, its original gone, with previews under one name in two roots: one row for two files. */
  lemma TwoRootsOneRow()
    ensures var stored := [FileRow("thumbs", "x", "x", "", None), FileRow("profile", "x", "x", "", None)];
      var ctx := Context(TwoRoots, stored, {});
      var a := Asset("a", Some("original"), false, None, None, None, None);
      var files := [AssetFile("a", "preview", "thumb"), AssetFile("a", "preview", "avatar")];
      Orphans(ctx, [a], files, Gathered(ctx, [a]).byAsset)
      == [OrphanRow("a", "preview", Resolved("thumbs", "x"), "thumb", "original")]
  {
    var stored := [FileRow("thumbs", "x", "x", "", None), FileRow("profile", "x", "x", "", None)];
    var ctx := Context(TwoRoots, stored, {});
    var a := Asset("a", Some("original"), false, None, None, None, None);
    assert stored[0] in stored && stored[1] in stored;
    assert "x" in Index(stored, "thumbs") && "x" in Index(stored, "profile");
    assert Truthy(a.originalPath) == Some("original");
    SecondRootIsDropped(ctx, a, "preview", "thumb", "avatar");
  }

  // ----- in place -----

  class OrphanCollector {
    var rows: seq<OrphanRow>
    var keys: set<OrphanKey>

    ghost predicate Valid()
      reads this
    {
      keys == Keys(rows) && KeysDiffer(rows)
    }

    constructor ()
      ensures Valid() && rows == []
    {
      rows, keys := [], {};
    }

    method AppendOrphanRow(ctx: Context, asset: string, kind: string, path: string, original: string)
      requires Valid()
      modifies this
      ensures Valid() && rows == FirstOfKeyAfter(old(rows), RowFor(ctx, asset, kind, path, original))
    {
      var at := ctx.resolve(path);
      if at.None? || !Indexed(ctx, at.value) {
        return;
      }
      var row := OrphanRow(asset, kind, at.value, path, original);
      if KeyOf(row) in keys {
        return;
      }
      KeysOneMore(rows, row);
      forall i | 0 <= i < |rows| ensures KeyOf(rows[i]) != KeyOf(row) { assert rows[i] in rows && KeyOf(rows[i]) in keys; }
      keys := keys + {KeyOf(row)};
      rows := rows + [row];
    }

    /** The derivative files of one asset. */
    method CollectFiles(ctx: Context, id: string, files: seq<AssetFile>, original: string, ghost seen: seq<OrphanRow>)
      requires Valid() && rows == FirstOfKey(seen)
      modifies this
      ensures Valid() && rows == FirstOfKey(seen + RowsForFiles(ctx, id, files, original))
    {
      assert seen + [] == seen;
      for i := 0 to |files|
        invariant Valid() && rows == FirstOfKey(seen + RowsForFiles(ctx, id, files[..i], original))
      {
        var f := files[i];
        assert files[..i + 1][..i] == files[..i];
        ghost var before := RowsForFiles(ctx, id, files[..i], original);
        if f.asset == id {
          FirstOfKeyConcat(seen + before, RowFor(ctx, f.asset, f.kind, f.path, original));
          AppendOrphanRow(ctx, f.asset, f.kind, f.path, original);
          assert seen + (before + RowFor(ctx, f.asset, f.kind, f.path, original))
              == (seen + before) + RowFor(ctx, f.asset, f.kind, f.path, original);
        } else {
          assert before + [] == before;
        }
      }
      assert files[..|files|] == files;
    }

    /** The encoded video of one asset. */
    method CollectVideo(ctx: Context, a: Asset, original: string, ghost seen: seq<OrphanRow>)
      requires Valid() && rows == FirstOfKey(seen)
      modifies this
      ensures Valid() && rows == FirstOfKey(seen + RowsForVideo(ctx, a, original))
    {
      var video := Truthy(a.encodedVideoPath);
      FirstOfKeyConcat(seen, RowsForVideo(ctx, a, original));
      if video.Some? {
        AppendOrphanRow(ctx, a.id, "encoded_video", video.value, original);
      }
    }

    /** The derivatives of one asset whose original is missing. */
    method CollectAsset(ctx: Context, a: Asset, files: seq<AssetFile>, byAsset: map<string, string>, ghost seen: seq<OrphanRow>)
      requires Valid() && rows == FirstOfKey(seen)
      modifies this
      ensures Valid() && rows == FirstOfKey(seen + RowsForAsset(ctx, a, files, byAsset))
    {
      if a.id !in byAsset || byAsset[a.id] in Index(ctx.files, SOURCE_ROOT) {
        assert seen + [] == seen;
        return;
      }
      var original := byAsset[a.id];
      ghost var video, rest := RowsForVideo(ctx, a, original), RowsForFiles(ctx, a.id, files, original);
      CollectVideo(ctx, a, original, seen);
      CollectFiles(ctx, a.id, files, original, seen + video);
      assert (seen + video) + rest == seen + (video + rest);
    }

    method CollectOrphans(ctx: Context, assets: seq<Asset>, files: seq<AssetFile>, byAsset: map<string, string>)
      requires Valid() && rows == []
      modifies this
      ensures Valid() && rows == Orphans(ctx, assets, files, byAsset)
    {
      for i := 0 to |assets|
        invariant Valid() && rows == FirstOfKey(AllRows(ctx, assets[..i], files, byAsset))
      {
        assert assets[..i + 1][..i] == assets[..i];
        CollectAsset(ctx, assets[i], files, byAsset, AllRows(ctx, assets[..i], files, byAsset));
      }
      assert assets[..|assets|] == assets;
    }
  }

  /** The kept rows after at most one more row. */
  function FirstOfKeyAfter(kept: seq<OrphanRow>, more: seq<OrphanRow>): seq<OrphanRow> {
    if more == [] || KeyOf(more[0]) in Keys(kept) then kept else kept + [more[0]]
  }

  lemma FirstOfKeyLast(rows: seq<OrphanRow>, r: OrphanRow)
    ensures FirstOfKey(rows + [r]) == FirstOfKeyAfter(FirstOfKey(rows), [r])
  {
    assert (rows + [r])[..|rows|] == rows;
  }

  lemma FirstOfKeyConcat(rows: seq<OrphanRow>, more: seq<OrphanRow>)
    requires |more| <= 1
    ensures FirstOfKey(rows + more) == FirstOfKeyAfter(FirstOfKey(rows), more)
  {
    if more == [] {
      assert rows + more == rows;
    } else {
      assert more == [more[0]];
      FirstOfKeyLast(rows, more[0]);
    }
  }

  // ----- the whole comparison -----

  datatype Report = Report(originals: Originals, storageMissing: seq<FileRow>, orphans: seq<OrphanRow>)

  /** What the passes share: the resolver, the stored files and the live-photo references, each limited
      to the comparison window. */
  function Comparison(resolve: Resolver, assets: seq<Asset>, files: seq<FileRow>, cutoff: Option<int>): Context {
    Context(resolve, WindowFiles(files, cutoff), LivePhotoVideos(WindowAssets(assets, cutoff)))
  }

  /** The three passes in order. Derivatives of assets outside the window are never looked at. */
  method Collect(resolve: Resolver, assets: seq<Asset>, derivatives: seq<AssetFile>, files: seq<FileRow>, cutoff: Option<int>)
    returns (report: Report)
    ensures var ctx, stable := Comparison(resolve, assets, files, cutoff), WindowAssets(assets, cutoff);
      && report.originals == Gathered(ctx, stable)
      && report.storageMissing == StorageMissing(ctx.files, report.originals.index)
      && report.orphans == Orphans(ctx, stable, derivatives, report.originals.byAsset)
      && report.originals.scanned
         == |PresentAssets(ctx, stable)| + |report.originals.missing| + |report.originals.unmapped| + report.originals.motion
    ensures IdsAreKeys(WindowAssets(assets, cutoff)) ==> forall r :: r in report.orphans ==>
              MissingRow(r.asset, false, Resolved(SOURCE_ROOT, r.original)) in report.originals.missing
  {
    var ctx, stable := Comparison(resolve, assets, files, cutoff), WindowAssets(assets, cutoff);
    var originals := CompareOriginals(ctx, stable);
    var storage := CompareStorage(ctx.files, originals.index);
    var collector := new OrphanCollector();
    collector.CollectOrphans(ctx, stable, derivatives, originals.byAsset);
    report := Report(originals, storage, collector.rows);
    FourWayAccounting(ctx, stable);
    if IdsAreKeys(stable) {
      forall r | r in report.orphans
        ensures MissingRow(r.asset, false, Resolved(SOURCE_ROOT, r.original)) in report.originals.missing
      {
        OrphanIsAlsoMissing(ctx, stable, derivatives, r);
      }
    }
  }
}
