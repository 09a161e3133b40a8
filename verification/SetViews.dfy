/** Views that show the union, difference, intersection or symmetric difference of several
    bases, set up by folding a merge over the bases. */
module SetViews {
  import opened Sequences
  import opened OrderedMerge

  /** A base as a view reads it: what its children are sorted by, and the children in that order. */
  datatype Listing = Listing(sort: string, items: seq<Child>)

  const BY_NAME := "name"

  /** A view reads the main collection of children of a base, which is kept in name order; only
      the second collection of a sorted view is in any other. */
  predicate ValidListing(l: Listing) {
    Ordered(l.items)
  }

  /** allBaseContextsUseSameSorting, which is true when some base is sorted unlike the first. */
  predicate DifferentSorting(bs: seq<Listing>) {
    exists i :: 1 <= i < |bs| && bs[i].sort != bs[0].sort
  }

  /** It is true exactly when not all are sorted like the first. */
  lemma DifferentSortingMeans(bs: seq<Listing>)
    requires bs != []
    ensures DifferentSorting(bs) <==> !forall b :: b in bs ==> b.sort == bs[0].sort
  {
    if b :| b in bs && b.sort != bs[0].sort {
      var i :| 0 <= i < |bs| && bs[i] == b;
      assert 1 <= i < |bs| && bs[i].sort != bs[0].sort;
    }
  }

  // ---------------------------------------------------------------------------------------
  // The name-keyed temporary
  // ---------------------------------------------------------------------------------------

  function PutByName(s: seq<Child>, c: Child): seq<Child> {
    if s == [] then [c]
    else if Less(s[0].name, c.name) then [s[0]] + PutByName(s[1..], c)
    else if Less(c.name, s[0].name) then [c] + s
    else [c] + s[1..]
  }

  /** The children in name order, as copying them into a map keyed by name leaves them. */
  function ByName(items: seq<Child>): seq<Child> {
    if items == [] then [] else PutByName(ByName(items[..|items| - 1]), items[|items| - 1])
  }

  lemma {:induction false} PutByNameHolds(s: seq<Child>, c: Child)
    requires Ordered(s)
    ensures forall d :: d in PutByName(s, c) <==> d == c || (d in s && d.name != c.name)
    decreases |s|
  {
    if s != [] {
      TailAfter(s);
      assert s == [s[0]] + s[1..];
      if Less(s[0].name, c.name) {
        LessIrreflexive(c.name);
        PutByNameHolds(s[1..], c);
      } else if Less(c.name, s[0].name) {
        AllAfterWeaken(s[1..], s[0].name, c.name);
        AfterExcludes(s, c.name);
      } else {
        LessTotal(c.name, s[0].name);
        AfterExcludes(s[1..], c.name);
      }
    }
  }

  lemma {:induction false} PutByNameOrdered(s: seq<Child>, c: Child)
    requires Ordered(s)
    ensures Ordered(PutByName(s, c))
    decreases |s|
  {
    if s != [] {
      TailAfter(s);
      if Less(s[0].name, c.name) {
        PutByNameOrdered(s[1..], c);
        PutByNameHolds(s[1..], c);
        OrderedCons(s[0], PutByName(s[1..], c));
      } else if Less(c.name, s[0].name) {
        AllAfterWeaken(s[1..], s[0].name, c.name);
        OrderedCons(c, s);
      } else {
        LessTotal(c.name, s[0].name);
        OrderedCons(c, s[1..]);
      }
    }
  }

  lemma {:induction false} ByNameOrdered(items: seq<Child>)
    ensures Ordered(ByName(items))
    ensures Names(ByName(items)) == Names(items)
    ensures DistinctNames(items) ==> forall c :: c in ByName(items) <==> c in items
    decreases |items|
  {
    if items != [] {
      var init, c := items[..|items| - 1], items[|items| - 1];
      ByNameOrdered(init);
      PutByNameOrdered(ByName(init), c);
      PutByNameHolds(ByName(init), c);
      assert items == init + [c];
      PutNames(init, ByName(init), c);
    }
  }

  lemma PutNames(init: seq<Child>, s: seq<Child>, c: Child)
    requires Ordered(s) && Names(s) == Names(init)
    ensures Names(PutByName(s, c)) == Names(init + [c])
    ensures DistinctNames(init + [c]) && (forall d :: d in s <==> d in init) ==>
              forall d :: d in PutByName(s, c) <==> d in init + [c]
  {
    PutByNameHolds(s, c);
    forall n
      ensures n in Names(PutByName(s, c)) <==> n in Names(init + [c])
    {
      if n != c.name {
        assert n in Names(s) <==> n in Names(init);
      } else {
        assert c in PutByName(s, c);
      }
    }
    if DistinctNames(init + [c]) {
      forall d | d in init
        ensures d.name != c.name
      {
        var i :| 0 <= i < |init| && init[i] == d;
        assert (init + [c])[i] == d && (init + [c])[|init|] == c;
      }
    }
  }

  // ---------------------------------------------------------------------------------------
  // The fold and what it means
  // ---------------------------------------------------------------------------------------

  function Range(l: Listing, different: bool): seq<Child> {
    if different then ByName(l.items) else l.items
  }

  /** The working list after the first k bases. The symmetric difference starts from nothing,
      the others from a copy of the first base as it is. */
  function Fold(op: SetOp, bs: seq<Listing>, different: bool, k: nat): seq<Child>
    requires k <= |bs|
  {
    if k == 0 then []
    else if k == 1 && !op.SymmetricDifference? then bs[0].items
    else Merge(op, Fold(op, bs, different, k - 1), Range(bs[k - 1], different))
  }

  /** How many of the first k bases hold n. */
  function Count(bs: seq<Listing>, n: string, k: nat): (c: nat)
    requires k <= |bs|
    ensures c <= k
  {
    if k == 0 then 0 else Count(bs, n, k - 1) + if n in Names(bs[k - 1].items) then 1 else 0
  }

  /** The n-ary set operations: in some base, in the first and no other, in all, in an odd number. */
  predicate Holds(op: SetOp, bs: seq<Listing>, n: string, k: nat)
    requires k <= |bs|
  {
    match op
    case Union => Count(bs, n, k) > 0
    case Difference => k > 0 && n in Names(bs[0].items) && Count(bs, n, k) == 1
    case Intersection => Count(bs, n, k) == k
    case SymmetricDifference => Count(bs, n, k) % 2 == 1
  }

  /** The bases, among the first k, that hold n. */
  function Holders(bs: seq<Listing>, n: string, k: nat): set<nat>
    requires k <= |bs|
  {
    set i: nat | i < k && n in Names(bs[i].items)
  }

  lemma {:induction false} CountIsHolders(bs: seq<Listing>, n: string, k: nat)
    requires k <= |bs|
    ensures Count(bs, n, k) == |Holders(bs, n, k)|
    decreases k
  {
    if k > 0 {
      CountIsHolders(bs, n, k - 1);
      var before := Holders(bs, n, k - 1);
      assert Holders(bs, n, k) == if n in Names(bs[k - 1].items) then before + {k - 1} else before;
    }
  }

  lemma {:induction false} CountMeans(bs: seq<Listing>, n: string, k: nat)
    requires k <= |bs|
    ensures Count(bs, n, k) == 0 <==> forall j :: 0 <= j < k ==> n !in Names(bs[j].items)
    ensures Count(bs, n, k) == k <==> forall j :: 0 <= j < k ==> n in Names(bs[j].items)
    ensures k > 0 && n in Names(bs[0].items) ==>
              Count(bs, n, k) >= 1 && (Count(bs, n, k) == 1 <==> forall j :: 1 <= j < k ==> n !in Names(bs[j].items))
    decreases k
  {
    hide Names;
    if k > 0 {
      CountMeans(bs, n, k - 1);
    }
  }

  /** In some base; in the first and no other; in every base; in an odd number of bases. */
  lemma HoldsMeans(bs: seq<Listing>, n: string)
    requires bs != []
    ensures Holds(Union, bs, n, |bs|) <==> !forall j :: 0 <= j < |bs| ==> n !in Names(bs[j].items)
    ensures Holds(Difference, bs, n, |bs|) <==>
            n in Names(bs[0].items) && forall j :: 1 <= j < |bs| ==> n !in Names(bs[j].items)
    ensures Holds(Intersection, bs, n, |bs|) <==> forall j :: 0 <= j < |bs| ==> n in Names(bs[j].items)
    ensures Holds(SymmetricDifference, bs, n, |bs|) <==> |Holders(bs, n, |bs|)| % 2 == 1
  {
    hide Names;
    CountIsHolders(bs, n, |bs|);
    CountMeans(bs, n, |bs|);
  }

  predicate Mergeable(bs: seq<Listing>) {
    bs != [] && forall i :: 0 <= i < |bs| ==> ValidListing(bs[i])
  }

  lemma RangeOrdered(bs: seq<Listing>, different: bool, i: nat)
    requires Mergeable(bs) && i < |bs|
    ensures Ordered(Range(bs[i], different)) && Names(Range(bs[i], different)) == Names(bs[i].items)
    ensures forall c :: c in Range(bs[i], different) <==> c in bs[i].items
  {
    OrderedDistinct(bs[i].items);
    ByNameOrdered(bs[i].items);
  }

  /** The fold computes the n-ary operation, in name order, with or without the temporary. */
  lemma {:induction false} FoldNames(op: SetOp, bs: seq<Listing>, different: bool, n: string, k: nat)
    requires Mergeable(bs) && 0 < k <= |bs|
    ensures Ordered(Fold(op, bs, different, k))
    ensures n in Names(Fold(op, bs, different, k)) <==> Holds(op, bs, n, k)
    decreases k
  {
    RangeOrdered(bs, different, k - 1);
    if k == 1 {
      assert Count(bs, n, 1) == Count(bs, n, 0) + if n in Names(bs[0].items) then 1 else 0;
      if op.SymmetricDifference? {
        MergeOrdered(op, [], Range(bs[0], different));
        MergeNames(op, [], Range(bs[0], different), n);
      }
    } else {
      var f, r := Fold(op, bs, different, k - 1), Range(bs[k - 1], different);
      FoldNames(op, bs, different, n, k - 1);
      MergeOrdered(op, f, r);
      MergeNames(op, f, r, n);
      HoldsStep(op, bs, n, k);
    }
  }

  lemma HoldsStep(op: SetOp, bs: seq<Listing>, n: string, k: nat)
    requires 1 < k <= |bs|
    ensures Holds(op, bs, n, k) <==> op.Holds(Holds(op, bs, n, k - 1), n in Names(bs[k - 1].items))
  {
    FirstCounts(bs, n, k - 1);
  }

  lemma {:induction false} FirstCounts(bs: seq<Listing>, n: string, k: nat)
    requires 0 < k <= |bs|
    ensures n in Names(bs[0].items) ==> Count(bs, n, k) >= 1
    decreases k
  {
    if k > 1 {
      FirstCounts(bs, n, k - 1);
    }
  }

  lemma {:induction false} CountsSome(bs: seq<Listing>, n: string, k: nat, i: nat)
    requires i < k <= |bs| && n in Names(bs[i].items)
    ensures Count(bs, n, k) > 0
    decreases k
  {
    if i < k - 1 {
      CountsSome(bs, n, k - 1, i);
    }
  }

  lemma CountedIfHeld(bs: seq<Listing>, n: string, k: nat)
    requires k <= |bs|
    ensures Count(bs, n, k) == 0 ==> forall j :: 0 <= j < k ==> n !in Names(bs[j].items)
  {
    forall j | 0 <= j < k && n in Names(bs[j].items)
      ensures Count(bs, n, k) > 0
    {
      CountsSome(bs, n, k, j);
    }
  }

  /** c is the child of the earliest of the first k bases that holds its name. */
  ghost predicate FromEarliest(bs: seq<Listing>, c: Child, k: nat)
    requires k <= |bs|
  {
    exists i :: 0 <= i < k && c in bs[i].items && forall j :: 0 <= j < i ==> c.name !in Names(bs[j].items)
  }

  /** c is the child of the latest of the first k bases that holds its name. */
  ghost predicate FromLatest(bs: seq<Listing>, c: Child, k: nat)
    requires k <= |bs|
  {
    exists i :: 0 <= i < k && c in bs[i].items && forall j :: i < j < k ==> c.name !in Names(bs[j].items)
  }

  /** Among bases that hold the same name the earliest supplies the child; only in a symmetric
      difference, where pairs cancel, it is the latest. */
  lemma {:induction false} FoldSupply(op: SetOp, bs: seq<Listing>, different: bool, c: Child, k: nat)
    requires Mergeable(bs) && 0 < k <= |bs|
    requires c in Fold(op, bs, different, k)
    ensures if op.SymmetricDifference? then FromLatest(bs, c, k) else FromEarliest(bs, c, k)
    decreases k
  {
    RangeOrdered(bs, different, k - 1);
    if k == 1 {
      if op.SymmetricDifference? {
        MergeSupply(op, [], Range(bs[0], different), c);
      }
      assert c in bs[0].items;
    } else {
      var f, r := Fold(op, bs, different, k - 1), Range(bs[k - 1], different);
      FoldNames(op, bs, different, c.name, k - 1);
      MergeSupply(op, f, r, c);
      MergeNames(op, f, r, c.name);
      if c in f {
        FoldSupply(op, bs, different, c, k - 1);
        SupplyExtends(op, bs, c, k);
      } else {
        assert c in bs[k - 1].items;
        CountedIfHeld(bs, c.name, k - 1);
      }
    }
  }

  lemma SupplyExtends(op: SetOp, bs: seq<Listing>, c: Child, k: nat)
    requires 1 < k <= |bs|
    requires op.SymmetricDifference? ==> c.name !in Names(bs[k - 1].items)
    requires if op.SymmetricDifference? then FromLatest(bs, c, k - 1) else FromEarliest(bs, c, k - 1)
    ensures if op.SymmetricDifference? then FromLatest(bs, c, k) else FromEarliest(bs, c, k)
  {
  }
}
