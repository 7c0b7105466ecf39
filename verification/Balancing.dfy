/** Ordering the prepared work items for the queue: big batches first. */
module Balancing {
  import opened CatalogTables
  import opened Ordering
  import opened WorkItems

  function TopSegment(dir: Path): Path {
    if dir == "" || dir[0] == '/' then "" else [dir[0]] + TopSegment(dir[1..])
  }

  /** The source's sort key: batch size downwards, then top-level directory, then queue key. */
  predicate ItemLe(a: WorkItem, b: WorkItem) {
    if |a.paths| != |b.paths| then |a.paths| > |b.paths|
    else if TopSegment(a.source) != TopSegment(b.source) then StringLe(TopSegment(a.source), TopSegment(b.source))
    else StringLe(a.key, b.key)
  }

  lemma ItemOrder()
    ensures TotalPreorder(ItemLe)
  {
    forall a, b ensures ItemLe(a, b) || ItemLe(b, a) {
      StringLeTotal(TopSegment(a.source), TopSegment(b.source));
      StringLeTotal(a.key, b.key);
    }
    forall a, b, c | ItemLe(a, b) && ItemLe(b, c) ensures ItemLe(a, c) {
      var x, y, z := TopSegment(a.source), TopSegment(b.source), TopSegment(c.source);
      if |a.paths| == |b.paths| == |c.paths| {
        if x == y == z {
          StringLeTransitive(a.key, b.key, c.key);
        } else if x != y && y != z {
          StringLeTransitive(x, y, z);
          StringLeTotal(x, y);
        }
      }
    }
  }

  function Prepare(items: seq<WorkItem>): (r: seq<Prepared>)
    ensures |r| == |items|
  {
    seq(|items|, i requires 0 <= i < |items| => Prepared(items[i].key, items[i].paths, items[i].errors, i))
  }

  function Balanced(items: seq<WorkItem>): seq<Prepared> {
    Prepare(Sort(ItemLe, items))
  }

  /** The loop of the source over the sorted items. */
  method BalanceItems(items: seq<WorkItem>) returns (prepared: seq<Prepared>)
    ensures prepared == Balanced(items)
  {
    var ordered := Sort(ItemLe, items);
    prepared := [];
    for priority := 0 to |ordered|
      invariant prepared == Prepare(ordered)[..priority]
    {
      var item := ordered[priority];
      prepared := prepared + [Prepared(item.key, item.paths, item.errors, priority)];
    }
  }

  /** The same items in an order of non-increasing size, with priorities 0, 1, 2, ... */
  lemma BalancedIsPermutation(items: seq<WorkItem>)
    ensures var r := Balanced(items);
      && |r| == |items|
      && (forall i :: 0 <= i < |r| ==> r[i].priority == i)
      && (forall i, j :: 0 <= i < j < |r| ==> |r[i].paths| >= |r[j].paths|)
      && exists ordered: seq<WorkItem> :: multiset(ordered) == multiset(items) && r == Prepare(ordered)
  {
    ItemOrder();
    SortIsSorted(ItemLe, items);
    var ordered := Sort(ItemLe, items);
    forall i, j | 0 <= i < j < |ordered| ensures |ordered[i].paths| >= |ordered[j].paths| {
      assert ItemLe(ordered[i], ordered[j]);
    }
    assert multiset(ordered) == multiset(items) && Balanced(items) == Prepare(ordered);
  }
}
