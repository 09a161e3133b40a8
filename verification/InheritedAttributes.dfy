/** Attributes that a context passes on from its parent when it does not have them itself. */
module InheritedAttributes {
  import opened OrderedMerge

  /** The attributes of an ordinary context: their values, and the list of their names in the
      order in which the context gives it. */
  datatype Attributes = Attributes(values: map<string, string>, names: seq<string>)

  /** An inheriting context has the attributes of the context it wraps, and possibly a parent,
      which need not be an inheriting one. */
  datatype Context = Plain(own: Attributes)
                   | Inheriting(delegate: Attributes)
                   | InheritingBelow(delegate: Attributes, parent: Context)

  datatype Answer = Value(value: string) | Default | Throws

  // ---------------------------------------------------------------------------------------
  // The lookups
  // ---------------------------------------------------------------------------------------

  function GetOwn(a: Attributes, rdn: string, throwEx: bool): Answer {
    if rdn in a.values then Value(a.values[rdn]) else if throwEx then Throws else Default
  }

  /** private_getStrAttr: the delegate is always asked to throw, so a root that has no parent
      throws even when the caller would have taken the default. */
  function GetStrAttr(c: Context, rdn: string, throwEx: bool): Answer {
    match c
    case Plain(own) => GetOwn(own, rdn, throwEx)
    case Inheriting(delegate) => GetOwn(delegate, rdn, true)
    case InheritingBelow(delegate, parent) =>
      var r := GetOwn(delegate, rdn, true);
      if r.Throws? then GetStrAttr(parent, rdn, throwEx) else r
  }

  /** getAttribute of an ordinary context throws for a name it does not have. */
  function GetAttribute(c: Context, rdn: string): Answer {
    match c
    case Plain(own) => GetOwn(own, rdn, true)
    case Inheriting(delegate) => GetOwn(delegate, rdn, true)
    case InheritingBelow(delegate, parent) =>
      if rdn in delegate.values then Value(delegate.values[rdn]) else GetAttribute(parent, rdn)
  }

  predicate IsAttributeBound(c: Context, rdn: string) {
    match c
    case Plain(own) => rdn in own.values
    case Inheriting(delegate) => rdn in delegate.values
    case InheritingBelow(delegate, parent) => rdn in delegate.values || IsAttributeBound(parent, rdn)
  }

  /** std::set_union, whatever the order of its inputs. */
  function SetUnion(a: seq<string>, b: seq<string>): seq<string>
    decreases |a| + |b|
  {
    if a == [] then b
    else if b == [] then a
    else if Less(a[0], b[0]) then [a[0]] + SetUnion(a[1..], b)
    else if Less(b[0], a[0]) then [b[0]] + SetUnion(a, b[1..])
    else [a[0]] + SetUnion(a[1..], b[1..])
  }

  function MergeAttributeNames(ret: seq<string>, t1: seq<string>, t2: seq<string>): seq<string> {
    ret + SetUnion(t1, t2)
  }

  function GetAttributeNames(c: Context, ret: seq<string>): seq<string> {
    match c
    case Plain(own) => ret + own.names
    case Inheriting(delegate) => ret + delegate.names
    case InheritingBelow(delegate, parent) =>
      MergeAttributeNames(ret, delegate.names, GetAttributeNames(parent, []))
  }

  function GetAttributeCount(c: Context): nat {
    |GetAttributeNames(c, [])|
  }

  // ---------------------------------------------------------------------------------------
  // The nearest definer
  // ---------------------------------------------------------------------------------------

  /** The attributes on the way from c to the top. */
  function Chain(c: Context): (r: seq<Attributes>)
    ensures r != []
  {
    match c
    case Plain(own) => [own]
    case Inheriting(delegate) => [delegate]
    case InheritingBelow(delegate, parent) => [delegate] + Chain(parent)
  }

  /** The i-th context of the chain has the name and none nearer has it. */
  predicate Nearest(chain: seq<Attributes>, rdn: string, i: nat) {
    i < |chain| && rdn in chain[i].values && forall j :: 0 <= j < i ==> rdn !in chain[j].values
  }

  /** Whether the chain ends in an ordinary context. */
  predicate TopIsPlain(c: Context) {
    c.Plain? || (c.InheritingBelow? && TopIsPlain(c.parent))
  }

  /** Every lookup gives the value of the nearest context that has the name. */
  lemma {:induction false} NearestAnswers(c: Context, rdn: string, throwEx: bool, i: nat)
    requires Nearest(Chain(c), rdn, i)
    ensures GetStrAttr(c, rdn, throwEx) == GetAttribute(c, rdn) == Value(Chain(c)[i].values[rdn])
    ensures IsAttributeBound(c, rdn)
    decreases c
  {
    if c.InheritingBelow? && i > 0 {
      assert rdn !in Chain(c)[0].values;
      assert forall j :: 0 <= j < |Chain(c.parent)| ==> Chain(c)[j + 1] == Chain(c.parent)[j];
      NearestAnswers(c.parent, rdn, throwEx, i - 1);
    }
  }

  /** When nobody has it nothing is bound, an attribute cannot be got, and only a chain that
      ends in an ordinary context gives the default. */
  lemma {:induction false} NobodyAnswers(c: Context, rdn: string, throwEx: bool)
    requires forall i :: 0 <= i < |Chain(c)| ==> rdn !in Chain(c)[i].values
    ensures !IsAttributeBound(c, rdn) && GetAttribute(c, rdn) == Throws
    ensures GetStrAttr(c, rdn, throwEx) == if TopIsPlain(c) && !throwEx then Default else Throws
    decreases c
  {
    assert rdn !in Chain(c)[0].values;
    if c.InheritingBelow? {
      assert forall j :: 0 <= j < |Chain(c.parent)| ==> Chain(c)[j + 1] == Chain(c.parent)[j];
      NobodyAnswers(c.parent, rdn, throwEx);
    }
  }

  lemma {:induction false} FindNearest(chain: seq<Attributes>, rdn: string, k: nat) returns (i: nat)
    requires k < |chain| && rdn in chain[k].values
    ensures Nearest(chain, rdn, i) && i <= k
    decreases k
  {
    if j :| 0 <= j < k && rdn in chain[j].values {
      i := FindNearest(chain, rdn, j);
    } else {
      i := k;
    }
  }

  /** The three questions agree: a name is bound exactly when its attribute can be got, exactly
      when its value is found, and exactly when somebody on the chain has it. */
  lemma BoundIffFound(c: Context, rdn: string, throwEx: bool)
    ensures IsAttributeBound(c, rdn) <==> exists i :: 0 <= i < |Chain(c)| && rdn in Chain(c)[i].values
    ensures IsAttributeBound(c, rdn) <==> GetAttribute(c, rdn).Value?
    ensures IsAttributeBound(c, rdn) <==> GetStrAttr(c, rdn, throwEx).Value?
  {
    if k :| 0 <= k < |Chain(c)| && rdn in Chain(c)[k].values {
      var i := FindNearest(Chain(c), rdn, k);
      NearestAnswers(c, rdn, throwEx, i);
    } else {
      NobodyAnswers(c, rdn, throwEx);
    }
  }

  // ---------------------------------------------------------------------------------------
  // The names
  // ---------------------------------------------------------------------------------------

  /** The union has all the names of both lists and no others, sorted or not. */
  lemma {:induction false} UnionHolds(a: seq<string>, b: seq<string>, n: string)
    ensures n in SetUnion(a, b) <==> n in a || n in b
    decreases |a| + |b|
  {
    if a != [] && b != [] {
      assert n in a <==> n == a[0] || n in a[1..];
      assert n in b <==> n == b[0] || n in b[1..];
      LessTotal(a[0], b[0]);
      if Less(a[0], b[0]) {
        UnionHolds(a[1..], b, n);
      } else if Less(b[0], a[0]) {
        UnionHolds(a, b[1..], n);
      } else {
        UnionHolds(a[1..], b[1..], n);
      }
    }
  }

  predicate Sorted(s: seq<string>) {
    forall i, j :: 0 <= i < j < |s| ==> Less(s[i], s[j])
  }

  predicate Below(n: string, s: seq<string>) {
    forall x :: x in s ==> Less(n, x)
  }

  lemma SortedCons(n: string, s: seq<string>)
    requires Sorted(s) && Below(n, s)
    ensures Sorted([n] + s)
  {
  }

  lemma SortedTail(s: seq<string>)
    requires Sorted(s) && s != []
    ensures Sorted(s[1..]) && Below(s[0], s[1..])
  {
  }

  lemma BelowAll(n: string, s: seq<string>)
    requires Sorted(s) && s != [] && Less(n, s[0])
    ensures Below(n, s)
  {
    forall x | x in s
      ensures Less(n, x)
    {
      var i :| 0 <= i < |s| && s[i] == x;
      if i > 0 {
        LessTransitive(n, s[0], x);
      }
    }
  }

  lemma BelowUnion(n: string, a: seq<string>, b: seq<string>)
    requires Below(n, a) && Below(n, b)
    ensures Below(n, SetUnion(a, b))
  {
    forall x | x in SetUnion(a, b)
      ensures Less(n, x)
    {
      UnionHolds(a, b, x);
    }
  }

  /** The union of two strictly sorted lists is strictly sorted, so no name is there twice. */
  lemma {:induction false} UnionSorted(a: seq<string>, b: seq<string>)
    requires Sorted(a) && Sorted(b)
    ensures Sorted(SetUnion(a, b))
    decreases |a| + |b|
  {
    if a != [] && b != [] {
      SortedTail(a);
      SortedTail(b);
      LessTotal(a[0], b[0]);
      if Less(a[0], b[0]) {
        BelowAll(a[0], b);
        UnionSorted(a[1..], b);
        BelowUnion(a[0], a[1..], b);
        SortedCons(a[0], SetUnion(a[1..], b));
      } else if Less(b[0], a[0]) {
        BelowAll(b[0], a);
        UnionSorted(a, b[1..]);
        BelowUnion(b[0], a, b[1..]);
        SortedCons(b[0], SetUnion(a, b[1..]));
      } else {
        UnionSorted(a[1..], b[1..]);
        BelowUnion(a[0], a[1..], b[1..]);
        SortedCons(a[0], SetUnion(a[1..], b[1..]));
      }
    }
  }

  /** Each context on the way lists exactly the names it has. */
  ghost predicate ListsItsOwn(a: Attributes) {
    forall n :: n in a.names <==> n in a.values
  }

  ghost predicate AllList(c: Context) {
    forall i :: 0 <= i < |Chain(c)| ==> ListsItsOwn(Chain(c)[i])
  }

  lemma AllListParent(c: Context)
    requires AllList(c) && c.InheritingBelow?
    ensures ListsItsOwn(c.delegate) && AllList(c.parent)
  {
    assert ListsItsOwn(Chain(c)[0]);
    forall j | 0 <= j < |Chain(c.parent)|
      ensures ListsItsOwn(Chain(c.parent)[j])
    {
      assert ListsItsOwn(Chain(c)[j + 1]);
    }
  }

  /** The names that are listed are exactly the names that can be looked up, in whatever order
      the contexts on the way list theirs. */
  lemma {:induction false} NamesAreResolvable(c: Context, n: string)
    requires AllList(c)
    ensures n in GetAttributeNames(c, []) <==> IsAttributeBound(c, n)
    decreases c
  {
    assert ListsItsOwn(Chain(c)[0]);
    if c.InheritingBelow? {
      AllListParent(c);
      NamesAreResolvable(c.parent, n);
      UnionHolds(c.delegate.names, GetAttributeNames(c.parent, []), n);
    }
  }

  /** The names go behind those that are given already. */
  lemma NamesAreAppended(c: Context, ret: seq<string>)
    ensures GetAttributeNames(c, ret) == ret + GetAttributeNames(c, [])
  {
    match c
    case Plain(own) => assert [] + own.names == own.names;
    case Inheriting(delegate) => assert [] + delegate.names == delegate.names;
    case InheritingBelow(delegate, parent) =>
      var u := SetUnion(delegate.names, GetAttributeNames(parent, []));
      assert [] + u == u;
  }

  predicate AllSorted(c: Context) {
    match c
    case Plain(own) => Sorted(own.names)
    case Inheriting(delegate) => Sorted(delegate.names)
    case InheritingBelow(delegate, parent) => Sorted(delegate.names) && AllSorted(parent)
  }

  lemma {:induction false} NamesAreSorted(c: Context)
    requires AllSorted(c)
    ensures Sorted(GetAttributeNames(c, []))
    decreases c
  {
    if c.InheritingBelow? {
      NamesAreSorted(c.parent);
      UnionSorted(c.delegate.names, GetAttributeNames(c.parent, []));
    }
  }

  /** When every context on the way lists its names in order, the count is the number of names
      that can be looked up. */
  lemma CountIsExact(c: Context, bound: set<string>)
    requires AllList(c) && AllSorted(c) && forall n :: n in bound <==> IsAttributeBound(c, n)
    ensures GetAttributeCount(c) == |bound|
  {
    var names := GetAttributeNames(c, []);
    NamesAreSorted(c);
    forall n
      ensures n in names <==> n in bound
    {
      NamesAreResolvable(c, n);
    }
    SizeOfSorted(names);
    assert (set n | n in names) == bound;
  }

  lemma {:induction false} SizeOfSorted(s: seq<string>)
    requires Sorted(s)
    ensures |set n | n in s| == |s|
    decreases |s|
  {
    if s != [] {
      SortedTail(s);
      SizeOfSorted(s[1..]);
      LessIrreflexive(s[0]);
      assert (set n | n in s) == {s[0]} + (set n | n in s[1..]);
    }
  }

  // ---------------------------------------------------------------------------------------
  // Lists out of order
  // ---------------------------------------------------------------------------------------

  predicate NoDuplicates(s: seq<string>) {
    forall i, j :: 0 <= i < j < |s| ==> s[i] != s[j]
  }

  lemma SortedHasNoDuplicates(s: seq<string>)
    requires Sorted(s)
    ensures NoDuplicates(s)
  {
    forall i, j | 0 <= i < j < |s|
      ensures s[i] != s[j]
    {
      LessIrreflexive(s[i]);
    }
  }

  /** The first place where a list without duplicates is out of order. */
  lemma {:induction false} FirstDescent(s: seq<string>) returns (i: nat)
    requires NoDuplicates(s) && !Sorted(s)
    ensures i + 1 < |s| && Sorted(s[..i + 1]) && Less(s[i + 1], s[i])
    decreases |s|
  {
    var m := |s| - 1;
    assert |s| <= 1 ==> Sorted(s);
    if Sorted(s[..m]) {
      i := m - 1;
      LessTotal(s[m - 1], s[m]);
      if Less(s[m - 1], s[m]) {
        SortedSnoc(s, m);
      }
      assert s[..i + 1] == s[..m];
    } else {
      i := FirstDescent(s[..m]);
      assert s[..m][..i + 1] == s[..i + 1];
    }
  }

  lemma SortedSnoc(s: seq<string>, m: nat)
    requires |s| == m + 1 && m >= 1 && Sorted(s[..m]) && Less(s[m - 1], s[m])
    ensures Sorted(s)
  {
    forall i, j | 0 <= i < j < |s|
      ensures Less(s[i], s[j])
    {
      if j < m {
        assert s[..m][i] == s[i] && s[..m][j] == s[j];
      } else if i < m - 1 {
        assert s[..m][i] == s[i] && s[..m][m - 1] == s[m - 1];
        LessTransitive(s[i], s[m - 1], s[m]);
      }
    }
  }

  /** Merging a name into a list that holds it behind a greater one puts it in twice. */
  lemma {:induction false} UnionRepeats(a: seq<string>, n: string, i: nat)
    requires i + 1 < |a| && a[i + 1] == n && Less(n, a[i]) && Sorted(a[..i + 1])
    ensures !NoDuplicates(SetUnion(a, [n]))
    decreases i
  {
    assert [n][1..] == [];
    LessTotal(a[0], n);
    if Less(a[0], n) {
      assert i > 0 by {
        if i == 0 {
          LessTransitive(n, a[0], n);
          LessIrreflexive(n);
        }
      }
      TailOfPrefix(a, i);
      UnionRepeats(a[1..], n, i - 1);
      RepeatsBehind(a[0], SetUnion(a[1..], [n]));
    } else if Less(n, a[0]) {
      assert SetUnion(a, []) == a;
      TwiceIn([n] + a, 0, i + 2);
    } else {
      NotFirst(a, n, i);
    }
  }

  lemma TailOfPrefix(a: seq<string>, i: nat)
    requires 0 < i && i + 1 < |a| && Sorted(a[..i + 1])
    ensures Sorted(a[1..][..i])
  {
    forall j, k | 0 <= j < k < i
      ensures Less(a[1..][..i][j], a[1..][..i][k])
    {
      assert a[..i + 1][j + 1] == a[j + 1] && a[..i + 1][k + 1] == a[k + 1];
    }
  }

  lemma RepeatsBehind(x: string, s: seq<string>)
    requires !NoDuplicates(s)
    ensures !NoDuplicates([x] + s)
  {
    var i, j :| 0 <= i < j < |s| && s[i] == s[j];
    TwiceIn([x] + s, i + 1, j + 1);
  }

  lemma TwiceIn(s: seq<string>, i: nat, j: nat)
    requires i < j < |s| && s[i] == s[j]
    ensures !NoDuplicates(s)
  {
  }

  /** In front of a descent nothing is equal to the name that comes behind it. */
  lemma NotFirst(a: seq<string>, n: string, i: nat)
    requires i + 1 < |a| && Less(n, a[i]) && Sorted(a[..i + 1]) && a[0] == n
    ensures a[i + 1] == n ==> !NoDuplicates(SetUnion(a, [n]))
  {
    if a[i + 1] == n {
      assert i > 0 by {
        if i == 0 {
          LessIrreflexive(n);
        }
      }
      LessIrreflexive(n);
      assert SetUnion(a, [n]) == [a[0]] + SetUnion(a[1..], [n][1..]) == [a[0]] + a[1..] == a;
      TwiceIn(a, 0, i + 1);
    }
  }

  /** A list without duplicates merges without duplicates into every sorted list exactly when
      it is sorted itself. */
  lemma UnionIsCleanIff(a: seq<string>)
    requires NoDuplicates(a)
    ensures (forall b :: Sorted(b) ==> NoDuplicates(SetUnion(a, b))) <==> Sorted(a)
  {
    if Sorted(a) {
      forall b | Sorted(b)
        ensures NoDuplicates(SetUnion(a, b))
      {
        UnionSorted(a, b);
        SortedHasNoDuplicates(SetUnion(a, b));
      }
    } else {
      var i := FirstDescent(a);
      UnionRepeats(a, a[i + 1], i);
      assert Sorted([a[i + 1]]);
    }
  }

  // ---------------------------------------------------------------------------------------
  // The count
  // ---------------------------------------------------------------------------------------

  /** A list is as long as the set of its names exactly when it holds none twice. */
  lemma {:induction false} LengthIff(s: seq<string>)
    ensures |set n | n in s| <= |s|
    ensures |set n | n in s| == |s| <==> NoDuplicates(s)
    decreases |s|
  {
    if s != [] {
      LengthIff(s[1..]);
      var rest := set n | n in s[1..];
      assert (set n | n in s) == {s[0]} + rest;
      if s[0] in rest {
        var j :| 0 <= j < |s[1..]| && s[1..][j] == s[0];
        TwiceIn(s, 0, j + 1);
      } else {
        NoDuplicatesCons(s);
      }
    }
  }

  lemma NoDuplicatesCons(s: seq<string>)
    requires s != [] && s[0] !in s[1..]
    ensures NoDuplicates(s) <==> NoDuplicates(s[1..])
  {
    if NoDuplicates(s[1..]) {
      forall i, j | 0 <= i < j < |s|
        ensures s[i] != s[j]
      {
        assert s[j] == s[1..][j - 1];
        assert i > 0 ==> s[i] == s[1..][i - 1];
      }
    }
    if NoDuplicates(s) {
      forall i, j | 0 <= i < j < |s[1..]|
        ensures s[1..][i] != s[1..][j]
      {
        assert s[i + 1] != s[j + 1];
      }
    }
  }

  /** All names bound on the way, counted once. */
  function BoundNames(c: Context): set<string> {
    match c
    case Plain(own) => own.values.Keys
    case Inheriting(delegate) => delegate.values.Keys
    case InheritingBelow(delegate, parent) => delegate.values.Keys + BoundNames(parent)
  }

  lemma {:induction false} BoundNamesAreBound(c: Context, n: string)
    ensures n in BoundNames(c) <==> IsAttributeBound(c, n)
    decreases c
  {
    if c.InheritingBelow? {
      BoundNamesAreBound(c.parent, n);
    }
  }

  /** The count is the number of names that can be looked up exactly when none is listed twice. */
  lemma CountIsExactIff(c: Context)
    requires AllList(c)
    ensures GetAttributeCount(c) >= |BoundNames(c)|
    ensures GetAttributeCount(c) == |BoundNames(c)| <==> NoDuplicates(GetAttributeNames(c, []))
  {
    var names := GetAttributeNames(c, []);
    forall n: string
      ensures n in names <==> n in BoundNames(c)
    {
      NamesAreResolvable(c, n);
      BoundNamesAreBound(c, n);
    }
    assert (set n | n in names) == BoundNames(c);
    LengthIff(names);
  }

  /** A delegate counts right above every parent that lists its names in order exactly when it
      lists its own in order. */
  lemma DelegateCountsIff(near: Attributes)
    requires ListsItsOwn(near) && NoDuplicates(near.names)
    ensures (forall top :: ListsItsOwn(top) && Sorted(top.names) ==>
               var c := InheritingBelow(near, Plain(top)); GetAttributeCount(c) == |BoundNames(c)|)
            <==> Sorted(near.names)
  {
    forall top | ListsItsOwn(top) && Sorted(top.names)
      ensures var c := InheritingBelow(near, Plain(top));
              GetAttributeCount(c) == |BoundNames(c)| <==> NoDuplicates(SetUnion(near.names, top.names))
    {
      var c := InheritingBelow(near, Plain(top));
      AllListTwo(near, top);
      CountIsExactIff(c);
      NamesOfTwo(near, top);
    }
    UnionIsCleanIff(near.names);
    if !Sorted(near.names) {
      var b :| Sorted(b) && !NoDuplicates(SetUnion(near.names, b));
      var top := Attributes(map n | n in b :: "", b);
      assert ListsItsOwn(top);
    }
  }

  lemma AllListTwo(near: Attributes, top: Attributes)
    requires ListsItsOwn(near) && ListsItsOwn(top)
    ensures AllList(InheritingBelow(near, Plain(top)))
  {
    assert Chain(InheritingBelow(near, Plain(top))) == [near] + [top];
  }

  lemma NamesOfTwo(near: Attributes, top: Attributes)
    ensures GetAttributeNames(InheritingBelow(near, Plain(top)), []) == SetUnion(near.names, top.names)
  {
    assert [] + top.names == top.names;
    assert [] + SetUnion(near.names, top.names) == SetUnion(near.names, top.names);
  }

  /** For instance `a` is counted twice here. */
  lemma UnsortedNamesAreCountedTwice(near: Attributes, top: Attributes)
    requires ListsItsOwn(near) && ListsItsOwn(top) && near.names == ["b", "a"] && top.names == ["a"]
    ensures GetAttributeCount(InheritingBelow(near, Plain(top))) == 3
  {
    NamesOfTwo(near, top);
    assert Less("a", "b") && !Less("b", "a");
    assert ["a"][1..] == [];
    assert SetUnion(["b", "a"], []) == ["b", "a"];
    assert SetUnion(["b", "a"], ["a"]) == ["a"] + ["b", "a"];
  }
}
