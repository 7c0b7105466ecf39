/** What a resume adds to the queue when directories changed since they were first listed. The tree is
    walked again and seeded again, and a queued item is known by its key alone. */
module ResumedQueue {
  import opened Basics
  import opened Balancing
  import opened CatalogTables
  import opened Ordering
  import opened WorkItems

  // ----- what a seed appends -----

  /** The items whose key is not queued yet. */
  function Added(held: set<Key>, items: seq<WorkItem>): seq<WorkItem> {
    if items == [] then []
    else
      var last := items[|items| - 1];
      Added(held, items[..|items| - 1]) + if last.key in held then [] else [last]
  }

  lemma {:induction false} AddedConcat(held: set<Key>, a: seq<WorkItem>, b: seq<WorkItem>)
    ensures Added(held, a + b) == Added(held, a) + Added(held, b)
  {
    if b == [] {
      assert a + b == a;
    } else {
      assert (a + b)[..|a + b| - 1] == a + b[..|b| - 1];
      AddedConcat(held, a, b[..|b| - 1]);
    }
  }

  lemma {:induction false} AllHeld(held: set<Key>, items: seq<WorkItem>)
    requires forall i :: 0 <= i < |items| ==> items[i].key in held
    ensures Added(held, items) == []
  {
    if items != [] { AllHeld(held, items[..|items| - 1]); }
  }

  lemma {:induction false} NoneHeld(held: set<Key>, items: seq<WorkItem>)
    requires forall i :: 0 <= i < |items| ==> items[i].key !in held
    ensures Added(held, items) == items
  {
    if items != [] { NoneHeld(held, items[..|items| - 1]); }
  }

  /** The files behind the items that are not queued yet. */
  function AddedFiles(held: set<Key>, items: seq<WorkItem>): seq<Path> {
    Files(Added(held, items))
  }

  lemma AddedFilesConcat(held: set<Key>, a: seq<WorkItem>, b: seq<WorkItem>)
    ensures AddedFiles(held, a + b) == AddedFiles(held, a) + AddedFiles(held, b)
  {
    AddedConcat(held, a, b);
    FilesConcat(Added(held, a), Added(held, b));
  }

  ghost function AddedBag(held: set<Key>, items: seq<WorkItem>): multiset<Path> {
    multiset(AddedFiles(held, items))
  }

  lemma AddedBagConcat(held: set<Key>, a: seq<WorkItem>, b: seq<WorkItem>)
    ensures AddedBag(held, a + b) == AddedBag(held, a) + AddedBag(held, b)
  {
    AddedFilesConcat(held, a, b);
  }

  lemma AddedBagOut(held: set<Key>, items: seq<WorkItem>, i: nat)
    requires i < |items|
    ensures AddedBag(held, items) == AddedBag(held, items[..i] + items[i + 1..]) + AddedBag(held, [items[i]])
  {
    assert items == items[..i] + [items[i]] + items[i + 1..];
    AddedBagConcat(held, items[..i] + [items[i]], items[i + 1..]);
    AddedBagConcat(held, items[..i], [items[i]]);
    AddedBagConcat(held, items[..i], items[i + 1..]);
  }

  /** What is added does not depend on the order of the items. */
  lemma {:induction false} AddedPermuted(held: set<Key>, a: seq<WorkItem>, b: seq<WorkItem>)
    requires multiset(a) == multiset(b)
    ensures AddedBag(held, a) == AddedBag(held, b)
    decreases |a|
  {
    if a == [] {
      assert |multiset(b)| == 0;
    } else {
      var n := |a| - 1;
      var i := RemovedLast(a, b);
      AddedPermuted(held, a[..n], b[..i] + b[i + 1..]);
      AddedBagOut(held, a, n);
      assert a[..n] + a[n + 1..] == a[..n];
      AddedBagOut(held, b, i);
    }
  }

  function HeldKeys(q: seq<QueueRow>): set<Key> {
    set i | 0 <= i < |q| :: q[i].key
  }

  /** The paths queued with some rows. */
  function Payloads(rows: seq<QueueRow>): seq<Path> {
    if rows == [] then []
    else
      var last := rows[|rows| - 1];
      Payloads(rows[..|rows| - 1]) + if last.payload.Some? then last.payload.value else []
  }

  lemma {:induction false} SeedOneMore(q: seq<QueueRow>, items: seq<Prepared>, last: Prepared)
    ensures Seed(q, items + [last]) == SeedOne(Seed(q, items), last)
    decreases |items|
  {
    if items == [] {
      assert ([] + [last])[1..] == [];
    } else {
      assert (items + [last])[1..] == items[1..] + [last];
      SeedOneMore(SeedOne(q, items[0]), items[1..], last);
    }
  }

  lemma PrepareOneMore(items: seq<WorkItem>)
    requires items != []
    ensures var n := |items| - 1;
      Prepare(items) == Prepare(items[..n]) + [Prepared(items[n].key, items[n].paths, items[n].errors, n)]
  {
  }

  /** The queue after a seed: the old rows as they were, then the new ones, all of them pending. */
  ghost predicate Grown(q: seq<QueueRow>, q': seq<QueueRow>, added: seq<WorkItem>) {
    && q <= q' && |q'| == |q| + |added| && Payloads(q') == Payloads(q) + Files(added)
    && forall i :: |q| <= i < |q'| ==> q'[i].status.Pending?
  }

  lemma RowAppended(q: seq<QueueRow>, q': seq<QueueRow>, added: seq<WorkItem>, item: WorkItem, priority: nat)
    requires Grown(q, q', added)
    ensures Grown(q, q' + [QueueRow(item.key, Pending, Some(item.paths), item.errors, priority)], added + [item])
  {
    var row := QueueRow(item.key, Pending, Some(item.paths), item.errors, priority);
    assert (q' + [row])[..|q'|] == q';
    assert Payloads(q' + [row]) == Payloads(q') + item.paths;
    FilesOneMore(added, item);
  }

  lemma HeldOneMore(q: seq<QueueRow>, row: QueueRow)
    ensures HeldKeys(q + [row]) == HeldKeys(q) + {row.key}
  {
    var more := q + [row];
    assert more[|q|] == row;
    assert forall i :: 0 <= i < |q| ==> more[i] == q[i];
  }

  lemma SeedOneAppends(q: seq<QueueRow>, q': seq<QueueRow>, added: seq<WorkItem>, item: WorkItem, priority: nat)
    requires Grown(q, q', added)
    ensures var q'' := SeedOne(q', Prepared(item.key, item.paths, item.errors, priority));
      && Grown(q, q'', added + if item.key in HeldKeys(q') then [] else [item])
      && HeldKeys(q'') == HeldKeys(q') + {item.key}
  {
    assert HasKey(q', item.key) <==> item.key in HeldKeys(q');
    if item.key in HeldKeys(q') {
      assert added + [] == added && HeldKeys(q') + {item.key} == HeldKeys(q');
    } else {
      RowAppended(q, q', added, item, priority);
      HeldOneMore(q', QueueRow(item.key, Pending, Some(item.paths), item.errors, priority));
    }
  }

  /** A seed appends exactly the items whose key the queue does not hold. */
  lemma {:induction false} SeedAppends(q: seq<QueueRow>, items: seq<WorkItem>)
    requires Distinct(ItemKeys(items))
    ensures Grown(q, Seed(q, Prepare(items)), Added(HeldKeys(q), items))
    ensures HeldKeys(Seed(q, Prepare(items))) == HeldKeys(q) + Elements(ItemKeys(items))
  {
    if items == [] {
    } else {
      var n := |items| - 1;
      var init, last := items[..n], items[n];
      assert ItemKeys(items) == ItemKeys(init) + [last.key];
      DistinctSplit(ItemKeys(init), [last.key]);
      SeedAppends(q, init);
      PrepareOneMore(items);
      SeedOneMore(q, Prepare(init), Prepared(last.key, last.paths, last.errors, n));
      SeedOneAppends(q, Seed(q, Prepare(init)), Added(HeldKeys(q), init), last, n);
      assert Elements(ItemKeys(items)) == Elements(ItemKeys(init)) + {last.key};
    }
  }

  // ----- one directory -----

  /** How many of the leading items of a listing have a key that an earlier listing of the same
      directory also has. */
  function SharedItems(was: seq<Path>, now: seq<Path>): nat {
    var m, n := ChunkCount(was), ChunkCount(now);
    if (m == 1) != (n == 1) then 0 else if m < n then m else n
  }

  lemma SharedKeyIff(dir: Path, was: seq<Path>, now: seq<Path>, i: nat)
    requires i < ChunkCount(now)
    ensures ItemKey(dir, i, ChunkCount(now)) in VisitKeys(Visit(dir, was, 0)) <==> i < SharedItems(was, now)
  {
    var m, n := ChunkCount(was), ChunkCount(now);
    var keys := VisitKeys(Visit(dir, was, 0));
    assert forall j :: 0 <= j < m ==> |BatchKey(Prefix(dir), j)| > |dir|;
    assert |BatchKey(Prefix(dir), i)| > |dir|;
    if i < SharedItems(was, now) { assert keys[i] == ItemKey(dir, i, n); }
    forall j | 0 <= j < m && keys[j] == ItemKey(dir, i, n) ensures i < SharedItems(was, now) {
      if m > 1 && n > 1 { BatchKeyIsInjective(Prefix(dir), j, Prefix(dir), i); }
    }
  }

  /** The same for any number of earlier listings. */
  function HeldItems(listings: seq<seq<Path>>, now: seq<Path>): (r: nat)
    ensures r <= ChunkCount(now)
  {
    if listings == [] then 0
    else
      var before, last := HeldItems(listings[..|listings| - 1], now), SharedItems(listings[|listings| - 1], now);
      if before < last then last else before
  }

  ghost predicate KeyListed(dir: Path, listings: seq<seq<Path>>, k: Key) {
    exists was :: was in listings && k in VisitKeys(Visit(dir, was, 0))
  }

  lemma {:induction false} HeldItemsIff(dir: Path, listings: seq<seq<Path>>, now: seq<Path>, i: nat)
    requires i < ChunkCount(now)
    ensures KeyListed(dir, listings, ItemKey(dir, i, ChunkCount(now))) <==> i < HeldItems(listings, now)
  {
    if listings != [] {
      var n := |listings| - 1;
      var init, last := listings[..n], listings[n];
      HeldItemsIff(dir, init, now, i);
      SharedKeyIff(dir, last, now, i);
      assert listings == init + [last];
      assert forall was :: was in listings <==> was in init || was == last;
    }
  }

  /** The files of a listing that are queued although the directory was listed before. */
  function Requeued(listings: seq<seq<Path>>, now: seq<Path>): seq<Path> {
    now[Covered(now, HeldItems(listings, now))..]
  }

  ghost predicate HoldsListings(held: set<Key>, listings: seq<seq<Path>>, dir: Path, now: seq<Path>) {
    forall i :: 0 <= i < ChunkCount(now) ==>
      (ItemKey(dir, i, ChunkCount(now)) in held <==> KeyListed(dir, listings, ItemKey(dir, i, ChunkCount(now))))
  }

  /** The leading items are queued already, the others not: what is added are the others. */
  lemma AddedTail(held: set<Key>, a: seq<WorkItem>, b: seq<WorkItem>)
    requires forall i :: 0 <= i < |a| ==> a[i].key in held
    requires forall i :: 0 <= i < |b| ==> b[i].key !in held
    ensures Files(a + b) == Files(a) + AddedFiles(held, a + b)
  {
    assert Added(held, a + b) == b by {
      AddedConcat(held, a, b);
      AllHeld(held, a);
      NoneHeld(held, b);
    }
    FilesConcat(a, b);
  }

  lemma RestIs<T>(s: seq<T>, n: nat, rest: seq<T>)
    requires n <= |s| && s == s[..n] + rest
    ensures rest == s[n..]
  {
  }

  /** Listing a directory again queues the files behind the items whose keys are known, no others. */
  lemma DirectoryRequeues(held: set<Key>, listings: seq<seq<Path>>, dir: Path, now: seq<Path>, errors: nat)
    requires HoldsListings(held, listings, dir, now)
    ensures AddedFiles(held, DirectoryItems(dir, now, errors)) == Requeued(listings, now)
  {
    var items, k := DirectoryItems(dir, now, errors), HeldItems(listings, now);
    forall i | 0 <= i < |items| ensures items[i].key in held <==> i < k { HeldItemsIff(dir, listings, now, i); }
    AddedTail(held, items[..k], items[k..]);
    assert items == items[..k] + items[k..];
    ChunksCover(dir, now, errors, k);
    DirectoryItemsPartition(dir, now, errors);
    RestIs(now, Covered(now, k), AddedFiles(held, items));
  }

  /** With one earlier listing: everything, if exactly one of the two is in one piece; otherwise what
      lies behind as many batches of 256 as there were. */
  lemma RequeuedOnce(was: seq<Path>, now: seq<Path>)
    ensures var m, n := ChunkCount(was), ChunkCount(now);
      Requeued([was], now) ==
        if (m == 1) != (n == 1) then now else if n > m > 1 then now[m * CHUNK_SIZE..] else []
  {
    assert [was][..0] == [];
    assert HeldItems([was], now) == SharedItems(was, now);
  }

  ghost function ListingKeys(dir: Path, was: seq<Path>): set<Key> {
    Elements(VisitKeys(Visit(dir, was, 0)))
  }

  /** All files of the directory that are queued by the first listing and the second. */
  ghost function QueuedByBoth(dir: Path, was: seq<Path>, now: seq<Path>, errors: nat): seq<Path> {
    was + AddedFiles(ListingKeys(dir, was), DirectoryItems(dir, now, errors))
  }

  lemma QueuedByBothIs(dir: Path, was: seq<Path>, now: seq<Path>, errors: nat)
    ensures QueuedByBoth(dir, was, now, errors) == was + Requeued([was], now)
  {
    DirectoryRequeues(ListingKeys(dir, was), [was], dir, now, errors);
  }

  /** Where the files behind the items that both listings have begin. */
  function SharedFiles(was: seq<Path>, now: seq<Path>): (r: nat)
    ensures r <= |now|
  {
    Covered(now, SharedItems(was, now))
  }

  lemma RequeuedIsTail(was: seq<Path>, now: seq<Path>)
    ensures Requeued([was], now) == now[SharedFiles(was, now)..]
  {
    assert [was][..0] == [];
    assert HeldItems([was], now) == SharedItems(was, now);
  }

  /** No file is queued twice exactly when every file that is queued again is new. */
  lemma QueuedOnceIff(dir: Path, was: seq<Path>, now: seq<Path>, errors: nat)
    requires Distinct(was) && Distinct(now)
    ensures Distinct(QueuedByBoth(dir, was, now, errors)) <==> forall x :: x in Requeued([was], now) ==> x !in was
  {
    QueuedByBothIs(dir, was, now, errors);
    RequeuedIsTail(was, now);
    var k := SharedFiles(was, now);
    assert now == now[..k] + now[k..];
    DistinctSplit(now[..k], now[k..]);
    DistinctSplit(was, now[k..]);
  }

  ghost predicate NoneMissed(dir: Path, was: seq<Path>, now: seq<Path>, errors: nat) {
    forall x :: x in now ==> x in QueuedByBoth(dir, was, now, errors)
  }

  /** No file that is present at the second listing is missed exactly when every new file is among
      those queued again. */
  lemma NoneMissedIff(dir: Path, was: seq<Path>, now: seq<Path>, errors: nat)
    ensures NoneMissed(dir, was, now, errors) <==> forall x :: x in now && x !in was ==> x in Requeued([was], now)
  {
    QueuedByBothIs(dir, was, now, errors);
  }

  lemma InTailIff<T>(s: seq<T>, k: nat, i: nat)
    requires k <= |s| && i < |s| && Distinct(s)
    ensures s[i] in s[k..] <==> k <= i
  {
    if k <= i { assert s[k..][i - k] == s[i]; }
  }

  /** A resume counts every present file of a directory exactly once if and only if the files within
      the shared items are old ones and all the others are new. */
  lemma ResumeCountsOnceIff(dir: Path, was: seq<Path>, now: seq<Path>, errors: nat)
    requires Distinct(was) && Distinct(now)
    ensures (Distinct(QueuedByBoth(dir, was, now, errors)) && NoneMissed(dir, was, now, errors))
       <==> (forall i :: 0 <= i < |now| ==> (now[i] in was <==> i < SharedFiles(was, now)))
  {
    QueuedOnceIff(dir, was, now, errors);
    NoneMissedIff(dir, was, now, errors);
    RequeuedIsTail(was, now);
    forall i | 0 <= i < |now| ensures now[i] in Requeued([was], now) <==> SharedFiles(was, now) <= i {
      InTailIff(now, SharedFiles(was, now), i);
    }
    assert forall x :: x in Requeued([was], now) ==> x in now;
  }

  /** One batch that became several: none of the new keys is the old one, every old file is queued twice. */
  lemma GrownDirectoryIsQueuedAgain(dir: Path, was: seq<Path>, now: seq<Path>, errors: nat)
    requires ChunkCount(was) == 1 && ChunkCount(now) > 1
    ensures QueuedByBoth(dir, was, now, errors) == was + now
  {
    QueuedByBothIs(dir, was, now, errors);
    RequeuedOnce(was, now);
  }

  /** Several batches that became one: every file is queued twice. */
  lemma ShrunkDirectoryIsQueuedAgain(dir: Path, was: seq<Path>, now: seq<Path>, errors: nat)
    requires ChunkCount(was) > 1 && ChunkCount(now) == 1
    ensures QueuedByBoth(dir, was, now, errors) == was + now
  {
    QueuedByBothIs(dir, was, now, errors);
    RequeuedOnce(was, now);
  }

  lemma OneMoreBatch(was: seq<Path>, x: Path)
    requires was != [] && |was| == ChunkCount(was) * CHUNK_SIZE
    ensures ChunkCount([x] + was) == ChunkCount(was) + 1
  {
  }

  /** A new file before several full batches: it is never queued, and the last old file is queued twice. */
  lemma ShiftedDirectoryMissesFile(dir: Path, was: seq<Path>, x: Path, errors: nat)
    requires ChunkCount(was) > 1 && |was| == ChunkCount(was) * CHUNK_SIZE && x !in was
    ensures var queued := QueuedByBoth(dir, was, [x] + was, errors);
      queued == was + [was[|was| - 1]] && x !in queued
  {
    var now := [x] + was;
    OneMoreBatch(was, x);
    QueuedByBothIs(dir, was, now, errors);
    RequeuedOnce(was, now);
    assert Requeued([was], now) == now[|was|..] == [was[|was| - 1]];
  }

  // ----- the whole tree -----

  /** What the directory held each time it was listed. */
  function Listings(earlier: seq<Visit>, dir: Path): seq<seq<Path>> {
    if earlier == [] then []
    else
      var last := earlier[|earlier| - 1];
      Listings(earlier[..|earlier| - 1], dir) + if last.dir == dir then [last.files] else []
  }

  /** The files that a new walk queues after some earlier ones; a directory not listed before is
      queued with all its files. */
  function NewlyQueued(earlier: seq<Visit>, now: seq<Visit>): seq<Path> {
    if now == [] then []
    else
      var last := now[|now| - 1];
      NewlyQueued(earlier, now[..|now| - 1]) + Requeued(Listings(earlier, last.dir), last.files)
  }

  /** No directory of the new walk shares a key with another directory listed earlier. */
  ghost predicate NoClashBetween(earlier: seq<Visit>, now: seq<Visit>) {
    forall u, v :: u in earlier && v in now && u.dir != v.dir ==> !Clash(u, v)
  }

  lemma {:induction false} KeyOfVisits(vs: seq<Visit>, k: Key)
    ensures k in ItemKeys(AllItems(vs)) <==> exists v :: v in vs && k in VisitKeys(v)
  {
    if vs != [] {
      var n := |vs| - 1;
      KeyOfVisits(vs[..n], k);
      AllKeysSplit(vs);
      assert vs == vs[..n] + [vs[n]];
      assert forall v :: v in vs <==> v in vs[..n] || v == vs[n];
    }
  }

  lemma {:induction false} ListedInDir(earlier: seq<Visit>, dir: Path, k: Key)
    ensures KeyListed(dir, Listings(earlier, dir), k) <==> exists u :: u in earlier && u.dir == dir && k in VisitKeys(u)
  {
    if earlier != [] {
      var n := |earlier| - 1;
      var init, last := earlier[..n], earlier[n];
      ListedInDir(init, dir, k);
      assert earlier == init + [last];
      assert forall u :: u in earlier <==> u in init || u == last;
      assert VisitKeys(last) == VisitKeys(Visit(last.dir, last.files, 0));
      var here := if last.dir == dir then [last.files] else [];
      assert forall was :: was in Listings(earlier, dir) <==> was in Listings(init, dir) || was in here;
    }
  }

  lemma WalksHoldListings(earlier: seq<Visit>, now: seq<Visit>, v: Visit)
    requires v in now && NoClashBetween(earlier, now)
    ensures HoldsListings(Elements(ItemKeys(AllItems(earlier))), Listings(earlier, v.dir), v.dir, v.files)
  {
    var n := ChunkCount(v.files);
    forall i | 0 <= i < n
      ensures ItemKey(v.dir, i, n) in ItemKeys(AllItems(earlier)) <==> KeyListed(v.dir, Listings(earlier, v.dir), ItemKey(v.dir, i, n))
    {
      var k := ItemKey(v.dir, i, n);
      assert VisitKeys(v)[i] == k;
      KeyOfVisits(earlier, k);
      ListedInDir(earlier, v.dir, k);
      forall u | u in earlier && k in VisitKeys(u) ensures u.dir == v.dir {
        if u.dir != v.dir { ClashIff(u, v); }
      }
    }
  }

  lemma {:induction false} WalkAdds(earlier: seq<Visit>, all: seq<Visit>, now: seq<Visit>)
    requires now <= all && NoClashBetween(earlier, all)
    ensures AddedFiles(Elements(ItemKeys(AllItems(earlier))), AllItems(now)) == NewlyQueued(earlier, now)
  {
    if now != [] {
      var n := |now| - 1;
      var held := Elements(ItemKeys(AllItems(earlier)));
      WalkAdds(earlier, all, now[..n]);
      assert now[n] == all[n];
      WalksHoldListings(earlier, all, now[n]);
      DirectoryRequeues(held, Listings(earlier, now[n].dir), now[n].dir, now[n].files, now[n].errors);
      AddedFilesConcat(held, AllItems(now[..n]), VisitItems(now[n]));
    }
  }

  lemma ItemsDiffer(items: seq<WorkItem>)
    requires Distinct(ItemKeys(items))
    ensures Distinct(items)
    ensures forall a, b :: a in items && b in items && a != b ==> a.key != b.key
  {
    var keys := ItemKeys(items);
    forall i, j | 0 <= i < j < |items| ensures items[i].key != items[j].key { assert keys[i] != keys[j]; }
  }

  lemma BalancedItems(items: seq<WorkItem>)
    requires Distinct(items)
    ensures var sorted := Sort(ItemLe, items);
      multiset(sorted) == multiset(items) && Distinct(sorted) && forall x :: x in sorted <==> x in items
  {
    ItemOrder();
    SortIsSorted(ItemLe, items);
    var sorted := Sort(ItemLe, items);
    DistinctCounts(items);
    forall x ensures x in sorted <==> x in items {
      assert x in sorted <==> x in multiset(sorted);
      assert x in items <==> x in multiset(items);
    }
    MultisetDistinct(sorted);
  }

  lemma BalancedKeys(items: seq<WorkItem>)
    requires Distinct(ItemKeys(items))
    ensures multiset(Sort(ItemLe, items)) == multiset(items)
    ensures Distinct(ItemKeys(Sort(ItemLe, items)))
    ensures Elements(ItemKeys(Sort(ItemLe, items))) == Elements(ItemKeys(items))
  {
    var sorted := Sort(ItemLe, items);
    ItemsDiffer(items);
    BalancedItems(items);
    forall i, j | 0 <= i < j < |sorted| ensures sorted[i].key != sorted[j].key { assert sorted[i] in items && sorted[j] in items; }
    forall k ensures k in ItemKeys(sorted) <==> k in ItemKeys(items) {
      KeyOfItem(sorted, k);
      KeyOfItem(items, k);
    }
  }

  lemma KeyOfItem(items: seq<WorkItem>, k: Key)
    ensures k in ItemKeys(items) <==> exists x :: x in items && x.key == k
  {
    if k in ItemKeys(items) {
      var i :| 0 <= i < |items| && ItemKeys(items)[i] == k;
      assert items[i] in items;
    }
    if x :| x in items && x.key == k {
      var i :| 0 <= i < |items| && items[i] == x;
      assert ItemKeys(items)[i] == k;
    }
  }

  /** A new walk of the tree leaves the queued rows alone and adds pending rows for exactly the files
      that the listings decide; afterwards the queue holds the keys of all walks. */
  lemma ResumeQueuesExactly(q: seq<QueueRow>, earlier: seq<Visit>, now: seq<Visit>)
    requires HeldKeys(q) == Elements(ItemKeys(AllItems(earlier)))
    requires Distinct(Dirs(now)) && NoClash(now) && NoClashBetween(earlier, now)
    ensures var q' := Seed(q, Balanced(AllItems(now)));
      && q <= q' && (forall i :: |q| <= i < |q'| ==> q'[i].status.Pending?)
      && multiset(Payloads(q')) == multiset(Payloads(q)) + multiset(NewlyQueued(earlier, now))
      && HeldKeys(q') == Elements(ItemKeys(AllItems(earlier))) + Elements(ItemKeys(AllItems(now)))
  {
    var items := AllItems(now);
    KeysDistinctIff(now);
    BalancedKeys(items);
    SeedAppends(q, Sort(ItemLe, items));
    AddedPermuted(HeldKeys(q), Sort(ItemLe, items), items);
    WalkAdds(earlier, now, now);
  }

  lemma SeedOfHeldKeys(q: seq<QueueRow>, items: seq<WorkItem>)
    requires Distinct(ItemKeys(items)) && Elements(ItemKeys(items)) <= HeldKeys(q)
    ensures Seed(q, Prepare(items)) == q
  {
    forall i | 0 <= i < |items| ensures items[i].key in HeldKeys(q) {
      assert ItemKeys(items)[i] in Elements(ItemKeys(items));
    }
    AllHeld(HeldKeys(q), items);
    SeedAppends(q, items);
  }

  lemma ListedKeysAreHeld(earlier: seq<Visit>, now: seq<Visit>)
    requires forall v :: v in now ==> v in earlier
    ensures Elements(ItemKeys(AllItems(now))) <= Elements(ItemKeys(AllItems(earlier)))
  {
    forall k | k in ItemKeys(AllItems(now)) ensures k in ItemKeys(AllItems(earlier)) {
      KeyOfVisits(now, k);
      KeyOfVisits(earlier, k);
    }
  }

  /** If every listing is as it was, a resume queues nothing. */
  lemma UnchangedTreeQueuesNothing(q: seq<QueueRow>, earlier: seq<Visit>, now: seq<Visit>)
    requires HeldKeys(q) == Elements(ItemKeys(AllItems(earlier)))
    requires Distinct(Dirs(now)) && NoClash(now)
    requires forall v :: v in now ==> v in earlier
    ensures Seed(q, Balanced(AllItems(now))) == q
  {
    KeysDistinctIff(now);
    BalancedKeys(AllItems(now));
    ListedKeysAreHeld(earlier, now);
    SeedOfHeldKeys(q, Sort(ItemLe, AllItems(now)));
  }
}
