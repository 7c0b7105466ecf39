/** Which configured roots are scanned: a root that contains another one is left to that other one. */
module EffectiveRoots {
  import opened Ordering

  /** A configured root; its path is the list of components of the resolved path. */
  datatype Root = Root(slug: string, path: seq<string>)

  /** Containment is reflexive: a path is a child of itself. */
  predicate IsChildPath(parent: seq<string>, child: seq<string>) {
    parent <= child
  }

  predicate IsParentOfOther(roots: seq<Root>, r: Root) {
    exists other :: other in roots && other.slug != r.slug && IsChildPath(r.path, other.path)
  }

  predicate Kept(roots: seq<Root>, r: Root) {
    r in roots && !IsParentOfOther(roots, r)
  }

  function Priority(slug: string): nat {
    if slug == "uploads" then 0
    else if slug == "thumbs" then 1
    else if slug == "profile" then 2
    else if slug == "video" then 3
    else if slug == "library" then 4
    else 99
  }

  predicate RootLe(a: Root, b: Root) {
    Priority(a.slug) < Priority(b.slug) || (Priority(a.slug) == Priority(b.slug) && StringLe(a.slug, b.slug))
  }

  lemma RootOrder()
    ensures TotalPreorder(RootLe)
  {
    StringOrder();
  }

  /** The roots that pass, in their first order. */
  function Effective(roots: seq<Root>, n: nat): (r: seq<Root>)
    requires n <= |roots|
    ensures forall x :: x in r <==> x in roots[..n] && Kept(roots, x)
  {
    if n == 0 then []
    else
      assert roots[..n] == roots[..n - 1] + [roots[n - 1]];
      var rest := Effective(roots, n - 1);
      if IsParentOfOther(roots, roots[n - 1]) then rest else rest + [roots[n - 1]]
  }

  /** The two loops of the source and its final sort. */
  method ScanRoots(roots: seq<Root>) returns (effective: seq<Root>)
    ensures multiset(effective) == multiset(Effective(roots, |roots|)) && Sorted(RootLe, effective)
    ensures forall r :: r in effective <==> Kept(roots, r)
  {
    var kept := [];
    for i := 0 to |roots|
      invariant kept == Effective(roots, i)
    {
      var isParent := false;
      for j := 0 to |roots|
        invariant isParent <==> exists other :: other in roots[..j] && other.slug != roots[i].slug
                                  && IsChildPath(roots[i].path, other.path)
      {
        assert roots[..j + 1] == roots[..j] + [roots[j]];
        if roots[j].slug != roots[i].slug && IsChildPath(roots[i].path, roots[j].path) {
          isParent := true;
        }
      }
      assert roots[..|roots|] == roots;
      if !isParent {
        kept := kept + [roots[i]];
      }
    }
    assert roots[..|roots|] == roots;
    RootOrder();
    SortIsSorted(RootLe, kept);
    effective := Sort(RootLe, kept);
    forall r ensures r in effective <==> r in kept {
      assert r in effective <==> r in multiset(effective);
      assert r in kept <==> r in multiset(kept);
    }
  }

  // ----- no file twice -----

  /** No kept root contains another one. */
  lemma KeptRootsAreApart(roots: seq<Root>, a: Root, b: Root)
    requires Kept(roots, a) && Kept(roots, b) && a.slug != b.slug
    ensures !IsChildPath(a.path, b.path) && !IsChildPath(b.path, a.path)
  {
  }

  /** No file lies under two kept roots. */
  lemma NoFileUnderTwoKeptRoots(roots: seq<Root>, a: Root, b: Root, file: seq<string>)
    requires Kept(roots, a) && Kept(roots, b) && IsChildPath(a.path, file) && IsChildPath(b.path, file)
    ensures a.slug == b.slug
  {
    if |a.path| <= |b.path| {
      assert a.path == file[..|a.path|] == b.path[..|a.path|];
    } else {
      assert b.path == file[..|b.path|] == a.path[..|b.path|];
    }
  }

  // ----- what is scanned -----

  ghost predicate CoveredBy(roots: seq<Root>, r: Root, k: Root) {
    Kept(roots, k) && IsChildPath(r.path, k.path)
  }

  /** Every configured root still has a kept root at or beneath it. */
  ghost predicate NothingLost(roots: seq<Root>) {
    forall r :: r in roots ==> exists k :: CoveredBy(roots, r, k)
  }

  predicate Beneath(roots: seq<Root>, r: Root, c: Root) {
    c in roots && IsChildPath(r.path, c.path) && c.path != r.path
  }

  /** Two settings that name one directory. */
  predicate Twins(a: Root, b: Root) {
    a.slug != b.slug && a.path == b.path
  }

  /** Whenever two settings name one directory, some root lies strictly beneath it. */
  ghost predicate TwinsAreInner(roots: seq<Root>) {
    forall a, b :: a in roots && b in roots && Twins(a, b) ==> exists c :: Beneath(roots, a, c)
  }

  ghost predicate SlugsAreNames(roots: seq<Root>) {
    forall a, b :: a in roots && b in roots && a.slug == b.slug ==> a == b
  }

  lemma {:induction false} Deepest(roots: seq<Root>, r: Root, room: nat) returns (d: Root)
    requires r in roots && forall x :: x in roots ==> |x.path| <= |r.path| + room
    ensures d in roots && IsChildPath(r.path, d.path) && forall c :: !Beneath(roots, d, c)
    decreases room
  {
    if c :| Beneath(roots, r, c) {
      assert c.path[..|c.path|] == c.path;
      d := Deepest(roots, c, |r.path| + room - |c.path|);
    } else {
      d := r;
    }
  }

  lemma {:induction false} LongestPath(roots: seq<Root>) returns (n: nat)
    ensures forall x :: x in roots ==> |x.path| <= n
  {
    if roots == [] {
      n := 0;
    } else {
      var m := LongestPath(roots[1..]);
      n := if |roots[0].path| > m then |roots[0].path| else m;
      assert forall x :: x in roots <==> x == roots[0] || x in roots[1..];
    }
  }

  /** Dropping the containing roots loses nothing exactly when two settings never name one
      directory that has no other root beneath it: then both of them are dropped. */
  lemma NothingLostIff(roots: seq<Root>)
    requires SlugsAreNames(roots)
    ensures NothingLost(roots) <==> TwinsAreInner(roots)
  {
    if TwinsAreInner(roots) {
      forall r | r in roots ensures exists k :: CoveredBy(roots, r, k) {
        var n := LongestPath(roots);
        var d := Deepest(roots, r, n);
        if other :| other in roots && other.slug != d.slug && IsChildPath(d.path, other.path) {
          assert !Beneath(roots, d, other);
          assert Twins(d, other);
        }
        assert CoveredBy(roots, r, d);
      }
    }
    if NothingLost(roots) {
      forall a, b | a in roots && b in roots && Twins(a, b) ensures exists c :: Beneath(roots, a, c) {
        var k :| CoveredBy(roots, a, k);
        TwinIsDropped(roots, a, b, k);
        assert Beneath(roots, a, k);
      }
    }
  }

  lemma TwinIsDropped(roots: seq<Root>, a: Root, b: Root, k: Root)
    requires a in roots && b in roots && Twins(a, b) && CoveredBy(roots, a, k)
    ensures k.path != a.path
  {
    var other := if k.slug == a.slug then b else a;
    assert other in roots && other.slug != k.slug && other.path == a.path;
    assert k.path == a.path ==> IsChildPath(k.path, other.path);
  }
}
