/** From the preview of a removal to its run: what the plan token makes sure of in between. */
module MissingAssetPlans {
  import opened Basics
  import opened AssetRoundTrip
  import opened AssetRows
  import opened MissingAssets
  import opened PlanTokens
  import opened RepairRuns
  import opened RestorePoints

  /** One finding of a scan, as far as preview and run look at it. */
  datatype ScannedAsset = ScannedAsset(asset: string, status: string, path: string, ready: bool, resolved: Option<string>,
                                       blockers: seq<string>)

  const MISSING_ON_DISK := "missing_on_disk"

  datatype Scope = Scope(assets: seq<string>, selectAll: bool)

  /** The part of a finding that comes from the database, and the part that comes from the files. */
  datatype DbFact = DbFact(asset: string, status: string, path: string, ready: bool)

  datatype FileFact = FileFact(asset: string, resolved: Option<string>, blockers: seq<string>)

  type Token = PlanToken<Scope, seq<DbFact>, seq<FileFact>>

  predicate IsActionable(f: ScannedAsset) {
    f.ready && f.status == MISSING_ON_DISK
  }

  /** What a preview selects. */
  function Actionable(scan: seq<ScannedAsset>, ids: set<string>, all: bool): (r: seq<ScannedAsset>)
    ensures forall f :: f in r ==> f in scan && IsActionable(f) && (all || f.asset in ids)
  {
    if scan == [] then []
    else
      var init, f := scan[..|scan| - 1], scan[|scan| - 1];
      assert scan == init + [f];
      Actionable(init, ids, all) + if IsActionable(f) && (all || f.asset in ids) then [f] else []
  }

  /** What a run finds of the selected assets, ready or not. */
  function InScope(scan: seq<ScannedAsset>, assets: seq<string>): seq<ScannedAsset> {
    if scan == [] then []
    else
      var f := scan[|scan| - 1];
      InScope(scan[..|scan| - 1], assets) + if f.asset in assets then [f] else []
  }

  function AssetsOf(fs: seq<ScannedAsset>): (r: seq<string>)
    ensures |r| == |fs| && forall i :: 0 <= i < |fs| ==> r[i] == fs[i].asset
  {
    seq(|fs|, i requires 0 <= i < |fs| => fs[i].asset)
  }

  function DbFacts(fs: seq<ScannedAsset>): (r: seq<DbFact>)
    ensures |r| == |fs| && forall i :: 0 <= i < |fs| ==> r[i] == DbFact(fs[i].asset, fs[i].status, fs[i].path, fs[i].ready)
  {
    seq(|fs|, i requires 0 <= i < |fs| => DbFact(fs[i].asset, fs[i].status, fs[i].path, fs[i].ready))
  }

  function FileFacts(fs: seq<ScannedAsset>): (r: seq<FileFact>)
    ensures |r| == |fs| && forall i :: 0 <= i < |fs| ==> r[i] == FileFact(fs[i].asset, fs[i].resolved, fs[i].blockers)
  {
    seq(|fs|, i requires 0 <= i < |fs| => FileFact(fs[i].asset, fs[i].resolved, fs[i].blockers))
  }

  function Preview(scan: seq<ScannedAsset>, ids: set<string>, all: bool, now: int): Token {
    var selected := Actionable(scan, ids, all);
    CreateToken(Scope(AssetsOf(selected), all), DbFacts(selected), FileFacts(selected), now)
  }

  /** The check of a run against the token, over the scan the run makes. */
  predicate Allows(token: Token, scan: seq<ScannedAsset>, now: int) {
    var found := InScope(scan, token.scope.assets);
    IsValid(token, token.scope, DbFacts(found), FileFacts(found), now)
  }

  /** The first finding of the asset. */
  function FindingOf(found: seq<ScannedAsset>, asset: string): Finding
    decreases |found|
  {
    if found == [] then NotInScan
    else if found[0].asset == asset then (if found[0].ready then Ready else NotReady)
    else FindingOf(found[1..], asset)
  }

  /** What a run meets at one asset: the id of its point, the time, and where the deletion fails. */
  datatype Turn = Turn(point: PointId, now: nat, fault: Fault)

  type Turns = map<string, Turn>

  function TurnOf(turns: Turns, asset: string): Turn {
    if asset in turns then turns[asset] else Turn("", 0, NoFault)
  }

  function JobsOf(assets: seq<string>, found: seq<ScannedAsset>, turns: Turns): (r: seq<Job>)
    ensures |r| == |assets|
    ensures forall i :: 0 <= i < |assets| ==> r[i].asset == assets[i] && r[i].finding == FindingOf(found, assets[i])
  {
    seq(|assets|, i requires 0 <= i < |assets| =>
      var t := TurnOf(turns, assets[i]);
      Job(assets[i], FindingOf(found, assets[i]), t.point, t.now, t.fault))
  }

  /** Scan again, check the token, and only then take the selected assets in turn. */
  method Apply(service: MissingAssetService, relations: seq<Relation>, token: Token, scan: seq<ScannedAsset>, now: int,
               turns: Turns) returns (items: seq<ItemStatus>, status: RunStatus)
    requires service.store.Valid()
    modifies service.postgres, service.store
    ensures service.store.Valid()
    ensures !Allows(token, scan, now) ==> service.State() == old(service.State()) && items == [] && status.RunFailed?
    ensures Allows(token, scan, now) ==>
      var jobs := JobsOf(token.scope.assets, InScope(scan, token.scope.assets), turns);
      && service.State() == ApplyBatch(service.postgres.schema, relations, old(service.State()), jobs)
      && items == BatchItems(service.postgres.schema, relations, old(service.State()), jobs)
      && status == FinalStatus(items, ItemFailed, Applied)
  {
    var found := InScope(scan, token.scope.assets);
    if !IsValid(token, token.scope, DbFacts(found), FileFacts(found), now) {
      return [], RunFailed;
    }
    items, status := ApplyAll(service, relations, JobsOf(token.scope.assets, found, turns));
  }

  // ----- what an allowed run finds -----

  lemma SameFactsIff(a: seq<ScannedAsset>, b: seq<ScannedAsset>)
    ensures DbFacts(a) == DbFacts(b) && FileFacts(a) == FileFacts(b) <==> a == b
  {
    if DbFacts(a) == DbFacts(b) && FileFacts(a) == FileFacts(b) {
      forall i | 0 <= i < |a| ensures a[i] == b[i] {
        assert DbFacts(a)[i] == DbFacts(b)[i] && FileFacts(a)[i] == FileFacts(b)[i];
      }
    }
  }

  /** The run is allowed exactly when the token has not expired and the findings of the selected assets,
      ready or not, are those that the preview selected. */
  lemma AllowedIff(before: seq<ScannedAsset>, ids: set<string>, all: bool, previewed: int, scan: seq<ScannedAsset>, now: int)
    ensures var token, selected := Preview(before, ids, all, previewed), Actionable(before, ids, all);
      Allows(token, scan, now) <==> now <= previewed + LIFETIME && InScope(scan, AssetsOf(selected)) == selected
  {
    var selected := Actionable(before, ids, all);
    SameFactsIff(selected, InScope(scan, AssetsOf(selected)));
  }

  lemma {:induction false} AllReady(found: seq<ScannedAsset>, asset: string)
    requires (forall f :: f in found ==> f.ready) && asset in AssetsOf(found)
    ensures FindingOf(found, asset).Ready?
    decreases |found|
  {
    assert found[0] in found;
    if found[0].asset != asset {
      var i :| 0 <= i < |found| && AssetsOf(found)[i] == asset;
      assert AssetsOf(found[1..])[i - 1] == asset;
      AllReady(found[1..], asset);
    }
  }

  /** An allowed run finds every previewed asset ready: it skips none. */
  lemma AllowedMeansReady(before: seq<ScannedAsset>, ids: set<string>, all: bool, previewed: int, scan: seq<ScannedAsset>,
                          now: int, turns: Turns, i: nat)
    requires Allows(Preview(before, ids, all, previewed), scan, now)
    requires i < |Actionable(before, ids, all)|
    ensures var assets := Preview(before, ids, all, previewed).scope.assets;
      var job := JobsOf(assets, InScope(scan, assets), turns)[i];
      job.asset == Actionable(before, ids, all)[i].asset && job.finding.Ready?
  {
    var selected := Actionable(before, ids, all);
    AllowedIff(before, ids, all, previewed, scan, now);
    assert AssetsOf(selected)[i] in AssetsOf(selected);
    AllReady(selected, selected[i].asset);
  }

  /** What was previewed is what is removed: after an allowed run that is reported as completed no
      previewed asset is left. */
  lemma PreviewedAreRemoved(schema: Schema, relations: seq<Relation>, w: World, before: seq<ScannedAsset>, ids: set<string>,
                            all: bool, previewed: int, scan: seq<ScannedAsset>, now: int, turns: Turns, i: nat)
    requires WorldOk(schema, w) && Covered(schema, relations)
    requires Allows(Preview(before, ids, all, previewed), scan, now) && i < |Actionable(before, ids, all)|
    ensures var assets := Preview(before, ids, all, previewed).scope.assets;
      var jobs := JobsOf(assets, InScope(scan, assets), turns);
      FinalStatus(BatchItems(schema, relations, w, jobs), ItemFailed, Applied).RunCompleted? ==>
        !IsAsset(ApplyBatch(schema, relations, w, jobs).db, Actionable(before, ids, all)[i].asset)
  {
    var assets := Preview(before, ids, all, previewed).scope.assets;
    var jobs := JobsOf(assets, InScope(scan, assets), turns);
    AllowedMeansReady(before, ids, all, previewed, scan, now, turns, i);
    if FinalStatus(BatchItems(schema, relations, w, jobs), ItemFailed, Applied).RunCompleted? {
      CompletedMeansRemoved(schema, relations, w, jobs, i);
    }
  }
}
