/** Cutting a directory's files into work items, and the queue keys of the items. */
module WorkItems {
  import opened Basics
  import opened CatalogTables

  const CHUNK_SIZE := 256

  datatype WorkItem = WorkItem(key: Key, source: Path, paths: seq<Path>, errors: nat)

  // ----- keys -----

  predicate IsDigit(c: char) {
    '0' <= c <= '9'
  }

  function Digit(n: nat): char
    requires n < 10
  {
    '0' + n as char
  }

  function Decimal(n: nat): (r: string)
    ensures |r| >= 1 && forall i :: 0 <= i < |r| ==> IsDigit(r[i])
  {
    if n < 10 then [Digit(n)] else Decimal(n / 10) + [Digit(n % 10)]
  }

  function Zeros(n: nat): (r: string)
    ensures |r| == n && forall i :: 0 <= i < |r| ==> r[i] == '0'
  {
    seq(n, _ => '0')
  }

  /** The format `{n:06d}`. */
  function Padded(n: nat): (r: string)
    ensures |r| >= 6 && forall i :: 0 <= i < |r| ==> IsDigit(r[i])
  {
    var d := Decimal(n);
    if |d| < 6 then Zeros(6 - |d|) + d else d
  }

  /** The number a string of digits denotes. */
  function Value(s: string): nat
    requires forall i :: 0 <= i < |s| ==> IsDigit(s[i])
  {
    if s == "" then 0
    else
      assert IsDigit(s[|s| - 1]);
      10 * Value(s[..|s| - 1]) + (s[|s| - 1] as nat - '0' as nat)
  }

  lemma {:induction false} ValueOfDecimal(n: nat)
    ensures Value(Decimal(n)) == n
  {
    if n < 10 {
      assert Decimal(n)[..0] == "";
    } else {
      ValueOfDecimal(n / 10);
      assert Decimal(n)[..|Decimal(n)| - 1] == Decimal(n / 10);
    }
  }

  lemma {:induction false} ValueOfPadding(k: nat, s: string)
    requires forall i :: 0 <= i < |s| ==> IsDigit(s[i])
    ensures Value(Zeros(k) + s) == Value(s)
    decreases k, |s|
  {
    var t := Zeros(k) + s;
    if s != "" {
      assert t[..|t| - 1] == Zeros(k) + s[..|s| - 1];
      ValueOfPadding(k, s[..|s| - 1]);
    } else if k > 0 {
      assert t == Zeros(k - 1) + "0" && t[..|t| - 1] == Zeros(k - 1) + "";
      ValueOfPadding(k - 1, "");
    }
  }

  lemma PaddedIsInjective(i: nat, j: nat)
    requires Padded(i) == Padded(j)
    ensures i == j
  {
    forall n ensures Value(Padded(n)) == n {
      ValueOfDecimal(n);
      if |Decimal(n)| < 6 { ValueOfPadding(6 - |Decimal(n)|, Decimal(n)); }
    }
    assert Value(Padded(i)) == Value(Padded(j));
  }

  const MARK := "::batch-"
  const ROOT_PREFIX := "__root__"

  function Prefix(dir: Path): string {
    if dir == "" then ROOT_PREFIX else dir
  }

  function BatchKey(prefix: string, index: nat): Key {
    prefix + MARK + Padded(index)
  }

  function ItemKey(dir: Path, index: nat, count: nat): Key {
    if count == 1 then dir else BatchKey(Prefix(dir), index)
  }

  lemma DashBeforeIndex(a: string, i: nat)
    ensures var s := BatchKey(a, i); s[|s| - |Padded(i)| - 1] == '-'
  {
    var s := BatchKey(a, i);
    assert s == (a + MARK) + Padded(i);
    assert MARK[7] == '-';
  }

  lemma DigitsInIndex(a: string, i: nat)
    ensures var s := BatchKey(a, i); forall k :: |s| - |Padded(i)| <= k < |s| ==> IsDigit(s[k])
  {
    var s := BatchKey(a, i);
    assert s == (a + MARK) + Padded(i);
  }

  lemma BatchKeyNotLonger(a: string, i: nat, b: string, j: nat)
    requires BatchKey(a, i) == BatchKey(b, j)
    ensures |Padded(i)| <= |Padded(j)|
  {
    DashBeforeIndex(b, j);
    DigitsInIndex(a, i);
  }

  /** A batch key determines its prefix and its index. */
  lemma BatchKeyIsInjective(a: string, i: nat, b: string, j: nat)
    requires BatchKey(a, i) == BatchKey(b, j)
    ensures a == b && i == j
  {
    BatchKeyNotLonger(a, i, b, j);
    BatchKeyNotLonger(b, j, a, i);
    var s := BatchKey(a, i);
    assert a == s[..|a|] && b == s[..|b|];
    assert Padded(i) == s[|s| - |Padded(i)|..] && Padded(j) == s[|s| - |Padded(j)|..];
    PaddedIsInjective(i, j);
  }

  // ----- items of one directory -----

  function ChunkCount(files: seq<Path>): (r: nat)
    ensures files != [] ==> r >= 1 && (r - 1) * CHUNK_SIZE < |files| <= r * CHUNK_SIZE
    ensures files == [] ==> r == 1
  {
    if files == [] then 1 else (|files| + CHUNK_SIZE - 1) / CHUNK_SIZE
  }

  function Chunk(files: seq<Path>, i: nat): seq<Path>
    requires i < ChunkCount(files)
  {
    if files == [] then []
    else if (i + 1) * CHUNK_SIZE <= |files| then files[i * CHUNK_SIZE..(i + 1) * CHUNK_SIZE]
    else files[i * CHUNK_SIZE..]
  }

  function ItemAt(dir: Path, files: seq<Path>, errors: nat, i: nat): WorkItem
    requires i < ChunkCount(files)
  {
    WorkItem(ItemKey(dir, i, ChunkCount(files)), dir, Chunk(files, i), if i == 0 then errors else 0)
  }

  function DirectoryItems(dir: Path, files: seq<Path>, errors: nat): (r: seq<WorkItem>)
    ensures |r| == ChunkCount(files)
  {
    seq(ChunkCount(files), i requires 0 <= i < ChunkCount(files) => ItemAt(dir, files, errors, i))
  }

  /** All files of a list of items, in order. */
  function Files(items: seq<WorkItem>): seq<Path> {
    if items == [] then [] else Files(items[..|items| - 1]) + items[|items| - 1].paths
  }

  function Errors(items: seq<WorkItem>): nat {
    if items == [] then 0 else Errors(items[..|items| - 1]) + items[|items| - 1].errors
  }

  lemma {:induction false} FilesConcat(a: seq<WorkItem>, b: seq<WorkItem>)
    ensures Files(a + b) == Files(a) + Files(b) && Errors(a + b) == Errors(a) + Errors(b)
  {
    if b == [] {
      assert a + b == a;
    } else {
      assert (a + b)[..|a + b| - 1] == a + b[..|b| - 1];
      FilesConcat(a, b[..|b| - 1]);
    }
  }

  lemma FilesOneMore(items: seq<WorkItem>, item: WorkItem)
    ensures Files(items + [item]) == Files(items) + item.paths && Errors(items + [item]) == Errors(items) + item.errors
  {
    assert (items + [item])[..|items|] == items;
  }

  /** Where the first n chunks end. */
  function Covered(files: seq<Path>, n: nat): (r: nat)
    ensures r <= |files|
  {
    if n * CHUNK_SIZE <= |files| then n * CHUNK_SIZE else |files|
  }

  lemma ChunkExtends(files: seq<Path>, i: nat)
    requires i < ChunkCount(files)
    ensures files[..Covered(files, i)] + Chunk(files, i) == files[..Covered(files, i + 1)]
  {
  }

  lemma OneMoreItem(dir: Path, files: seq<Path>, errors: nat, n: nat)
    requires n < ChunkCount(files)
    ensures DirectoryItems(dir, files, errors)[..n + 1]
         == DirectoryItems(dir, files, errors)[..n] + [ItemAt(dir, files, errors, n)]
  {
  }

  lemma {:induction false} ChunksCover(dir: Path, files: seq<Path>, errors: nat, n: nat)
    requires n <= ChunkCount(files)
    ensures Files(DirectoryItems(dir, files, errors)[..n]) == files[..Covered(files, n)]
    ensures Errors(DirectoryItems(dir, files, errors)[..n]) == if n == 0 then 0 else errors
  {
    if n > 0 {
      ChunksCover(dir, files, errors, n - 1);
      OneMoreItem(dir, files, errors, n - 1);
      FilesOneMore(DirectoryItems(dir, files, errors)[..n - 1], ItemAt(dir, files, errors, n - 1));
      ChunkExtends(files, n - 1);
    }
  }

  /** The items of a directory partition its files, in order, into batches of at most 256. */
  lemma DirectoryItemsPartition(dir: Path, files: seq<Path>, errors: nat)
    ensures var items := DirectoryItems(dir, files, errors);
      && Files(items) == files && Errors(items) == errors
      && forall i :: 0 <= i < |items| ==> |items[i].paths| <= CHUNK_SIZE && (files != [] ==> items[i].paths != [])
  {
    var items := DirectoryItems(dir, files, errors);
    ChunksCover(dir, files, errors, |items|);
    assert items[..|items|] == items;
  }

  /** The loop of the source over the chunks of one directory. */
  method BuildDirectoryItems(dir: Path, files: seq<Path>, errors: nat) returns (items: seq<WorkItem>)
    ensures items == DirectoryItems(dir, files, errors)
  {
    if files == [] {
      return [WorkItem(ItemKey(dir, 0, 1), dir, [], errors)];
    }
    var count := ChunkCount(files);
    items := [];
    for i := 0 to count
      invariant items == DirectoryItems(dir, files, errors)[..i]
    {
      items := items + [ItemAt(dir, files, errors, i)];
    }
  }

  // ----- keys of many directories -----

  /** One visited directory. */
  datatype Visit = Visit(dir: Path, files: seq<Path>, errors: nat)

  function VisitItems(v: Visit): seq<WorkItem> {
    DirectoryItems(v.dir, v.files, v.errors)
  }

  function AllItems(vs: seq<Visit>): seq<WorkItem> {
    if vs == [] then [] else AllItems(vs[..|vs| - 1]) + VisitItems(vs[|vs| - 1])
  }

  function ItemKeys(items: seq<WorkItem>): (r: seq<Key>)
    ensures |r| == |items| && forall i :: 0 <= i < |items| ==> r[i] == items[i].key
  {
    seq(|items|, i requires 0 <= i < |items| => items[i].key)
  }

  function VisitKeys(v: Visit): (r: seq<Key>)
    ensures |r| == ChunkCount(v.files)
    ensures forall i :: 0 <= i < |r| ==> r[i] == ItemKey(v.dir, i, ChunkCount(v.files))
  {
    seq(ChunkCount(v.files), i requires 0 <= i < ChunkCount(v.files) => ItemKey(v.dir, i, ChunkCount(v.files)))
  }

  lemma VisitKeysAre(v: Visit)
    ensures ItemKeys(VisitItems(v)) == VisitKeys(v)
  {
  }

  predicate Chunked(v: Visit) {
    ChunkCount(v.files) > 1
  }

  /** Directory a, in one piece, is named like a batch of directory b. */
  predicate NamedLikeBatch(a: Visit, b: Visit) {
    !Chunked(a) && Chunked(b) && exists i :: 0 <= i < ChunkCount(b.files) && a.dir == BatchKey(Prefix(b.dir), i)
  }

  /** The two directories share a queue key. */
  predicate Clash(a: Visit, b: Visit) {
    || (Chunked(a) && Chunked(b) && Prefix(a.dir) == Prefix(b.dir))
    || NamedLikeBatch(a, b) || NamedLikeBatch(b, a)
  }

  lemma VisitKeysDistinct(v: Visit)
    ensures Distinct(VisitKeys(v))
  {
    var keys := VisitKeys(v);
    forall i, j | 0 <= i < j < |keys| ensures keys[i] != keys[j] {
      if keys[i] == keys[j] { BatchKeyIsInjective(Prefix(v.dir), i, Prefix(v.dir), j); }
    }
  }

  ghost predicate ShareKey(a: Visit, b: Visit) {
    exists i, j :: 0 <= i < ChunkCount(a.files) && 0 <= j < ChunkCount(b.files)
      && ItemKey(a.dir, i, ChunkCount(a.files)) == ItemKey(b.dir, j, ChunkCount(b.files))
  }

  lemma ClashSharesKey(a: Visit, b: Visit)
    requires Clash(a, b)
    ensures ShareKey(a, b)
  {
    var m, n := ChunkCount(a.files), ChunkCount(b.files);
    if Chunked(a) && Chunked(b) {
      assert ItemKey(a.dir, 0, m) == ItemKey(b.dir, 0, n);
    } else if NamedLikeBatch(a, b) {
      var i :| 0 <= i < n && a.dir == BatchKey(Prefix(b.dir), i);
      assert ItemKey(a.dir, 0, m) == ItemKey(b.dir, i, n);
    } else {
      var i :| 0 <= i < m && b.dir == BatchKey(Prefix(a.dir), i);
      assert ItemKey(a.dir, i, m) == ItemKey(b.dir, 0, n);
    }
  }

  lemma SharedKeyClashes(a: Visit, b: Visit)
    requires a.dir != b.dir && ShareKey(a, b)
    ensures Clash(a, b)
  {
    var m, n := ChunkCount(a.files), ChunkCount(b.files);
    var i, j :| 0 <= i < m && 0 <= j < n && ItemKey(a.dir, i, m) == ItemKey(b.dir, j, n);
    if Chunked(a) && Chunked(b) { BatchKeyIsInjective(Prefix(a.dir), i, Prefix(b.dir), j); }
  }

  lemma ClashIff(a: Visit, b: Visit)
    requires a.dir != b.dir
    ensures (exists k :: k in VisitKeys(a) && k in VisitKeys(b)) <==> Clash(a, b)
  {
    if k :| k in VisitKeys(a) && k in VisitKeys(b) {
      var i :| 0 <= i < |VisitKeys(a)| && VisitKeys(a)[i] == k;
      var j :| 0 <= j < |VisitKeys(b)| && VisitKeys(b)[j] == k;
      SharedKeyClashes(a, b);
    }
    if Clash(a, b) {
      ClashSharesKey(a, b);
      var i, j :| 0 <= i < ChunkCount(a.files) && 0 <= j < ChunkCount(b.files)
        && ItemKey(a.dir, i, ChunkCount(a.files)) == ItemKey(b.dir, j, ChunkCount(b.files));
      assert VisitKeys(a)[i] in VisitKeys(a) && VisitKeys(b)[j] in VisitKeys(b);
    }
  }

  function Dirs(vs: seq<Visit>): (r: seq<Path>)
    ensures |r| == |vs| && forall i :: 0 <= i < |vs| ==> r[i] == vs[i].dir
  {
    seq(|vs|, i requires 0 <= i < |vs| => vs[i].dir)
  }

  ghost predicate NoClash(vs: seq<Visit>) {
    forall i, j :: 0 <= i < j < |vs| ==> !Clash(vs[i], vs[j])
  }

  lemma ItemKeysConcat(a: seq<WorkItem>, b: seq<WorkItem>)
    ensures ItemKeys(a + b) == ItemKeys(a) + ItemKeys(b)
  {
  }

  lemma AllKeysSplit(vs: seq<Visit>)
    requires vs != []
    ensures ItemKeys(AllItems(vs)) == ItemKeys(AllItems(vs[..|vs| - 1])) + VisitKeys(vs[|vs| - 1])
  {
    var n := |vs| - 1;
    VisitKeysAre(vs[n]);
    ItemKeysConcat(AllItems(vs[..n]), VisitItems(vs[n]));
  }

  ghost predicate Apart(a: seq<Key>, b: seq<Key>) {
    forall k :: k in a ==> k !in b
  }

  lemma ApartConcat(a: seq<Key>, b: seq<Key>, c: seq<Key>)
    ensures Apart(a + b, c) <==> Apart(a, c) && Apart(b, c)
  {
    assert forall k :: k in a + b <==> k in a || k in b;
  }

  lemma ApartIff(a: Visit, b: Visit)
    requires a.dir != b.dir
    ensures Apart(VisitKeys(a), VisitKeys(b)) <==> !Clash(a, b)
  {
    ClashIff(a, b);
  }

  predicate ClashesWithNone(vs: seq<Visit>, last: Visit) {
    forall i :: 0 <= i < |vs| ==> !Clash(vs[i], last)
  }

  lemma ClashesWithNoneSplit(vs: seq<Visit>, last: Visit)
    requires vs != []
    ensures ClashesWithNone(vs, last) <==> ClashesWithNone(vs[..|vs| - 1], last) && !Clash(vs[|vs| - 1], last)
  {
    assert forall i :: 0 <= i < |vs| - 1 ==> vs[..|vs| - 1][i] == vs[i];
  }

  lemma AllKeysApartSplit(vs: seq<Visit>, keys: seq<Key>)
    requires vs != []
    ensures Apart(ItemKeys(AllItems(vs)), keys) <==>
            Apart(ItemKeys(AllItems(vs[..|vs| - 1])), keys) && Apart(VisitKeys(vs[|vs| - 1]), keys)
  {
    AllKeysSplit(vs);
    ApartConcat(ItemKeys(AllItems(vs[..|vs| - 1])), VisitKeys(vs[|vs| - 1]), keys);
  }

  lemma LastDir(vs: seq<Visit>)
    requires vs != []
    ensures Dirs(vs) == Dirs(vs[..|vs| - 1]) + [vs[|vs| - 1].dir]
    ensures forall d :: d in Dirs(vs) <==> d in Dirs(vs[..|vs| - 1]) || d == vs[|vs| - 1].dir
  {
  }

  /** A directory shares no key with the others exactly when it clashes with none of them. */
  lemma {:induction false} KeysApartIff(vs: seq<Visit>, last: Visit)
    requires last.dir !in Dirs(vs)
    ensures Apart(ItemKeys(AllItems(vs)), VisitKeys(last)) <==> ClashesWithNone(vs, last)
  {
    if vs != [] {
      var n := |vs| - 1;
      LastDir(vs);
      KeysApartIff(vs[..n], last);
      AllKeysApartSplit(vs, VisitKeys(last));
      ApartIff(vs[n], last);
      ClashesWithNoneSplit(vs, last);
    }
  }

  /** The queue keys of different directories are pairwise distinct if and only if no two of the
      directories clash. */
  lemma {:induction false} KeysDistinctIff(vs: seq<Visit>)
    requires Distinct(Dirs(vs))
    ensures Distinct(ItemKeys(AllItems(vs))) <==> NoClash(vs)
  {
    if vs != [] {
      var n := |vs| - 1;
      var init, last := vs[..n], vs[n];
      assert Dirs(vs) == Dirs(init) + [last.dir];
      DistinctSplit(Dirs(init), [last.dir]);
      KeysDistinctIff(init);
      AllKeysSplit(vs);
      DistinctSplit(ItemKeys(AllItems(init)), VisitKeys(last));
      VisitKeysDistinct(last);
      KeysApartIff(init, last);
      NoClashSplit(vs);
    }
  }

  lemma NoClashSplit(vs: seq<Visit>)
    requires vs != []
    ensures NoClash(vs) <==>
            NoClash(vs[..|vs| - 1]) && forall i :: 0 <= i < |vs| - 1 ==> !Clash(vs[i], vs[|vs| - 1])
  {
    var n := |vs| - 1;
    var init := vs[..n];
    if NoClash(vs) {
      forall i, j | 0 <= i < j < n ensures !Clash(init[i], init[j]) { assert !Clash(vs[i], vs[j]); }
    }
    if NoClash(init) && forall i :: 0 <= i < n ==> !Clash(vs[i], vs[n]) {
      forall i, j | 0 <= i < j <= n ensures !Clash(vs[i], vs[j]) {
        if j < n { assert !Clash(init[i], init[j]); }
      }
    }
  }

  // ----- when keys cannot clash -----

  lemma NoMarkNoBatchName(a: Visit, b: Visit)
    requires !Occurs(a.dir, MARK)
    ensures !NamedLikeBatch(a, b)
  {
    forall i | 0 <= i < ChunkCount(b.files) ensures a.dir != BatchKey(Prefix(b.dir), i) {
      assert OccursAt(BatchKey(Prefix(b.dir), i), MARK, |Prefix(b.dir)|);
    }
  }

  ghost predicate PlainName(dir: Path) {
    dir != ROOT_PREFIX && !Occurs(dir, MARK)
  }

  lemma PlainPair(a: Visit, b: Visit)
    requires PlainName(a.dir) && PlainName(b.dir) && a.dir != b.dir
    ensures !Clash(a, b)
  {
    NoMarkNoBatchName(a, b);
    NoMarkNoBatchName(b, a);
  }

  ghost predicate PlainNames(vs: seq<Visit>) {
    forall i :: 0 <= i < |vs| ==> PlainName(vs[i].dir)
  }

  /** A caller can check names instead: no directory called __root__ at the top and none with the
      batch mark in its path. */
  lemma PlainNamesDoNotClash(vs: seq<Visit>)
    requires Distinct(Dirs(vs)) && PlainNames(vs)
    ensures Distinct(ItemKeys(AllItems(vs)))
  {
    forall i, j | 0 <= i < j < |vs| ensures !Clash(vs[i], vs[j]) {
      assert Dirs(vs)[i] != Dirs(vs)[j];
      PlainPair(vs[i], vs[j]);
    }
    assert NoClash(vs);
    KeysDistinctIff(vs);
  }

  /** The condition is needed: a directory called __root__ can take the batch keys of the root. */
  lemma RootNameClashes(a: Visit, b: Visit)
    requires a.dir == "" && b.dir == ROOT_PREFIX && Chunked(a) && Chunked(b)
    ensures !Distinct(ItemKeys(AllItems([a, b])))
  {
    var vs := [a, b];
    assert Dirs(vs) == ["", ROOT_PREFIX];
    assert Clash(vs[0], vs[1]);
    KeysDistinctIff(vs);
  }
}
