/** The restore points of removed assets on disk: one file per point and an index that lists them. */
module RestorePoints {
  import opened Basics
  import opened Ordering
  import opened AssetRows

  type PointId = string

  datatype PointStatus = Available | Restored

  datatype RestorePoint = RestorePoint(id: PointId, asset: string, createdAt: nat, status: PointStatus, records: seq<Record>)

  /** The index lists the points with the newest first; equal times keep their order. */
  predicate NewerFirst(a: RestorePoint, b: RestorePoint) {
    a.createdAt >= b.createdAt
  }

  lemma NewerFirstOrder()
    ensures TotalPreorder(NewerFirst)
  {
  }

  datatype Points = Points(files: map<PointId, RestorePoint>, index: seq<RestorePoint>)

  function Listed(p: Points): seq<RestorePoint> {
    Sort(NewerFirst, p.index)
  }

  function Without(s: seq<RestorePoint>, ids: set<PointId>): (r: seq<RestorePoint>)
    ensures forall x :: x in r <==> x in s && x.id !in ids
  {
    if s == [] then []
    else
      var init, last := s[..|s| - 1], s[|s| - 1];
      assert forall x :: x in s <==> x in init || x == last;
      if last.id in ids then Without(init, ids) else Without(init, ids) + [last]
  }

  function Create(p: Points, point: RestorePoint): Points {
    Points(p.files[point.id := point], Without(Listed(p), {point.id}) + [point])
  }

  function Ids(s: seq<RestorePoint>): set<PointId> {
    set x | x in s :: x.id
  }

  function Delete(p: Points, ids: set<PointId>): Points {
    Points(p.files - (ids * Ids(p.index)), Without(Listed(p), ids))
  }

  // ----- the files and the index agree -----

  ghost predicate IdsDistinct(s: seq<RestorePoint>) {
    forall i, j :: 0 <= i < j < |s| ==> s[i].id != s[j].id
  }

  /** The same ids with the same contents, each once. */
  ghost predicate Agree(p: Points) {
    && IdsDistinct(p.index)
    && (forall x :: x in p.index ==> x.id in p.files && p.files[x.id] == x)
    && (forall id :: id in p.files ==> p.files[id] in p.index && p.files[id].id == id)
  }

  ghost predicate IdsAreNames(s: seq<RestorePoint>) {
    forall x, y :: x in s && y in s && x.id == y.id ==> x == y
  }

  lemma IdsDistinctIff(s: seq<RestorePoint>)
    ensures IdsDistinct(s) <==> Distinct(s) && IdsAreNames(s)
  {
    if IdsDistinct(s) {
      forall i, j | 0 <= i < j < |s| ensures s[i] != s[j] { assert s[i].id != s[j].id; }
    }
    if Distinct(s) && IdsAreNames(s) {
      forall i, j | 0 <= i < j < |s| ensures s[i].id != s[j].id { assert s[i] in s && s[j] in s && s[i] != s[j]; }
    }
  }

  lemma ListedIsIndex(p: Points)
    ensures multiset(Listed(p)) == multiset(p.index) && Sorted(NewerFirst, Listed(p))
    ensures forall x :: x in Listed(p) <==> x in p.index
    ensures IdsDistinct(p.index) ==> IdsDistinct(Listed(p))
  {
    NewerFirstOrder();
    SortIsSorted(NewerFirst, p.index);
    forall x ensures x in Listed(p) <==> x in p.index {
      assert x in p.index <==> x in multiset(p.index);
      assert x in Listed(p) <==> x in multiset(Listed(p));
    }
    if IdsDistinct(p.index) {
      IdsDistinctIff(p.index);
      DistinctCounts(p.index);
      MultisetDistinct(Listed(p));
      IdsDistinctIff(Listed(p));
    }
  }

  lemma {:induction false} WithoutKeepsDistinct(s: seq<RestorePoint>, ids: set<PointId>)
    requires IdsDistinct(s)
    ensures IdsDistinct(Without(s, ids))
  {
    if s != [] {
      var init, last := s[..|s| - 1], s[|s| - 1];
      WithoutKeepsDistinct(init, ids);
      var r := Without(init, ids);
      forall i | 0 <= i < |r| ensures r[i].id != last.id {
        assert r[i] in init;
        var j :| 0 <= j < |init| && init[j] == r[i];
        assert s[j].id != s[|s| - 1].id;
      }
    }
  }

  lemma AppendedDistinct(rest: seq<RestorePoint>, point: RestorePoint)
    requires IdsDistinct(rest) && forall x :: x in rest ==> x.id != point.id
    ensures IdsDistinct(rest + [point])
    ensures forall x :: x in rest + [point] <==> x in rest || x == point
  {
    forall i | 0 <= i < |rest| ensures rest[i].id != point.id { assert rest[i] in rest; }
  }

  /** Creating or updating a point keeps files and index in agreement and changes no other point. */
  lemma CreateKeepsAgreement(p: Points, point: RestorePoint)
    requires Agree(p)
    ensures Agree(Create(p, point))
    ensures forall x :: x in Create(p, point).index <==> x == point || (x in p.index && x.id != point.id)
  {
    ListedIsIndex(p);
    WithoutKeepsDistinct(Listed(p), {point.id});
    AppendedDistinct(Without(Listed(p), {point.id}), point);
  }

  /** Deleting keeps the agreement too, and takes exactly the requested points. */
  lemma DeleteKeepsAgreement(p: Points, ids: set<PointId>)
    requires Agree(p)
    ensures Agree(Delete(p, ids))
    ensures forall x :: x in Delete(p, ids).index <==> x in p.index && x.id !in ids
  {
    var q := Delete(p, ids);
    ListedIsIndex(p);
    WithoutKeepsDistinct(Listed(p), ids);
    forall id | id in q.files ensures q.files[id] in q.index && q.files[id].id == id {
      assert id in p.files && p.files[id] in p.index && p.files[id].id == id;
      assert id in Ids(p.index);
    }
    forall x | x in q.index ensures x.id in q.files && q.files[x.id] == x {
      assert x in p.index;
    }
  }

  lemma CreateThenDeleteFiles(p: Points, point: RestorePoint)
    requires Agree(p) && point.id !in p.files
    ensures Delete(Create(p, point), {point.id}).files == p.files
  {
    var created := Create(p, point);
    CreateKeepsAgreement(p, point);
    IdsAreFiles(created);
    assert {point.id} * created.files.Keys == {point.id};
    assert created.files - {point.id} == p.files;
  }

  /** Creating a new point and deleting it again leaves the same points behind. */
  lemma CreateThenDelete(p: Points, point: RestorePoint)
    requires Agree(p) && point.id !in p.files
    ensures var q := Delete(Create(p, point), {point.id});
      Agree(q) && q.files == p.files && forall x :: x in q.index <==> x in p.index
  {
    var created := Create(p, point);
    CreateKeepsAgreement(p, point);
    DeleteKeepsAgreement(created, {point.id});
    CreateThenDeleteFiles(p, point);
    forall x | x in p.index ensures x.id != point.id { assert x.id in p.files; }
  }

  // ----- the store -----

  class RestorePointStore {
    var files: map<PointId, RestorePoint>
    var index: seq<RestorePoint>

    function State(): Points
      reads this
    {
      Points(files, index)
    }

    ghost predicate Valid()
      reads this
    {
      Agree(State())
    }

    constructor ()
      ensures Valid() && State() == Points(map[], [])
    {
      files, index := map[], [];
    }

    method ListPoints() returns (points: seq<RestorePoint>)
      ensures points == Listed(State())
      ensures multiset(points) == multiset(index) && Sorted(NewerFirst, points)
    {
      ListedIsIndex(State());
      points := Sort(NewerFirst, index);
    }

    /** The point's own file, or nothing when there is none. */
    method Load(id: PointId) returns (point: Option<RestorePoint>)
      requires Valid()
      ensures point.Some? ==> point.value.id == id && point.value in index
      ensures point.None? ==> forall x :: x in index ==> x.id != id
    {
      point := if id in files then Some(files[id]) else None;
    }

    /** Write the point's file, then the index: the listed points but this one, and this one last. */
    method CreatePoint(point: RestorePoint)
      requires Valid()
      modifies this
      ensures Valid() && State() == Create(old(State()), point)
    {
      CreateKeepsAgreement(State(), point);
      files := files[point.id := point];
      var items := ListPoints();
      index := Without(items, {point.id}) + [point];
    }

    method UpdatePoint(point: RestorePoint)
      requires Valid()
      modifies this
      ensures Valid() && State() == Create(old(State()), point)
    {
      CreatePoint(point);
    }

    /** One pass over the listed points: unlink the requested ones, keep the rest. */
    method DropListed(items: seq<RestorePoint>, ids: set<PointId>)
      returns (remaining: seq<RestorePoint>, deleted: seq<PointId>)
      modifies `files
      ensures remaining == Without(items, ids)
      ensures files == old(files) - (ids * Ids(items))
      ensures forall id :: id in deleted <==> id in ids * Ids(items)
    {
      remaining, deleted := [], [];
      ghost var gone: set<PointId> := {};
      for i := 0 to |items|
        invariant remaining == Without(items[..i], ids)
        invariant gone == ids * Ids(items[..i]) && files == old(files) - gone
        invariant forall id :: id in deleted <==> id in gone
      {
        var item := items[i];
        TakeOneMore(items, i);
        IdsOneMore(items[..i], item, items[..i + 1]);
        if item.id !in ids {
          remaining := remaining + [item];
        } else {
          files := files - {item.id};
          deleted := deleted + [item.id];
          gone := gone + {item.id};
        }
      }
      assert items[..|items|] == items;
    }

    method DeletePoints(ids: set<PointId>) returns (deleted: seq<PointId>)
      requires Valid()
      modifies this
      ensures Valid() && State() == Delete(old(State()), ids)
      ensures forall id :: id in deleted <==> id in ids && id in old(files)
    {
      DeleteKeepsAgreement(State(), ids);
      ListedIsIndex(State());
      IdsAreFiles(State());
      var items := ListPoints();
      assert Ids(items) == Ids(index);
      var remaining: seq<RestorePoint>;
      remaining, deleted := DropListed(items, ids);
      index := remaining;
    }
  }

  lemma IdsOneMore(s: seq<RestorePoint>, x: RestorePoint, t: seq<RestorePoint>)
    requires t == s + [x]
    ensures Ids(t) == Ids(s) + {x.id}
  {
    assert forall y :: y in t <==> y in s || y == x;
  }

  lemma IdsAreFiles(p: Points)
    requires Agree(p)
    ensures Ids(p.index) == p.files.Keys
  {
  }
}
