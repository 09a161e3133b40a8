/** The sorted view: children by name in one index, in sorting order in another, and under lazy
    sorting the list of names a third time. */
module SortedViews {

  /** A child: its name and whatever else the comparator looks at. */
  datatype Entry = Entry(name: string, value: int)

  type Comparator = (Entry, Entry) -> bool

  datatype Event = Exists(child: Entry) | Created(child: Entry) | Deleted(name: string)

  /** The two indexes, the lazy names, the children marked as deleted, the memo of the names and
      whether it is valid, and the events told to whoever watches. */
  datatype View = View(
    items: map<string, Entry>,
    sorted: seq<Entry>,
    lazy: bool,
    lazyCache: seq<string>,
    marked: set<string>,
    memo: seq<string>,
    memoValid: bool,
    told: seq<Event>)

  // ---------------------------------------------------------------------------------------
  // The sorted index
  // ---------------------------------------------------------------------------------------

  /** A strict weak order, which std::set asks of its comparator. */
  ghost predicate StrictWeak(less: Comparator) {
    && (forall a :: !less(a, a))
    && (forall a, b, c :: less(a, b) && less(b, c) ==> less(a, c))
    && (forall a, b, c :: less(a, c) ==> less(a, b) || less(b, c))
  }

  predicate Equivalent(less: Comparator, a: Entry, b: Entry) {
    !less(a, b) && !less(b, a)
  }

  predicate Ascending(less: Comparator, s: seq<Entry>) {
    forall i, j :: 0 <= i < j < |s| ==> less(s[i], s[j])
  }

  /** insert of std::set: an element equivalent to one already there is not inserted. */
  function PutSorted(less: Comparator, s: seq<Entry>, c: Entry): seq<Entry> {
    if s == [] then [c]
    else if less(s[0], c) then [s[0]] + PutSorted(less, s[1..], c)
    else if less(c, s[0]) then [c] + s
    else s
  }

  /** erase of std::set: whatever is equivalent goes. */
  function EraseSorted(less: Comparator, s: seq<Entry>, c: Entry): seq<Entry> {
    if s == [] then []
    else if Equivalent(less, s[0], c) then EraseSorted(less, s[1..], c)
    else [s[0]] + EraseSorted(less, s[1..], c)
  }

  predicate Clashes(less: Comparator, s: seq<Entry>, c: Entry) {
    exists i :: 0 <= i < |s| && Equivalent(less, s[i], c)
  }

  lemma AscendingTail(less: Comparator, s: seq<Entry>)
    requires Ascending(less, s) && s != []
    ensures Ascending(less, s[1..]) && forall x :: x in s[1..] ==> less(s[0], x)
  {
  }

  lemma AscendingCons(less: Comparator, x: Entry, s: seq<Entry>)
    requires Ascending(less, s) && forall y :: y in s ==> less(x, y)
    ensures Ascending(less, [x] + s)
  {
  }

  lemma ClashesCons(less: Comparator, s: seq<Entry>, c: Entry)
    requires s != []
    ensures Clashes(less, s, c) <==> Equivalent(less, s[0], c) || Clashes(less, s[1..], c)
  {
    if Clashes(less, s, c) {
      var i :| 0 <= i < |s| && Equivalent(less, s[i], c);
      if i > 0 {
        assert s[1..][i - 1] == s[i];
      }
    }
    if Clashes(less, s[1..], c) {
      var i :| 0 <= i < |s[1..]| && Equivalent(less, s[1..][i], c);
      assert s[i + 1] == s[1..][i];
    }
  }

  /** Inserting keeps the order and adds exactly the new element, unless one clashes with it. */
  lemma {:induction false} PutKeepsOrder(less: Comparator, s: seq<Entry>, c: Entry)
    requires StrictWeak(less) && Ascending(less, s)
    ensures Ascending(less, PutSorted(less, s, c))
    ensures if Clashes(less, s, c) then PutSorted(less, s, c) == s
            else forall x :: x in PutSorted(less, s, c) <==> x in s || x == c
    decreases |s|
  {
    if s != [] {
      AscendingTail(less, s);
      ClashesCons(less, s, c);
      if less(s[0], c) {
        PutKeepsOrder(less, s[1..], c);
        AscendingCons(less, s[0], PutSorted(less, s[1..], c));
        assert s == [s[0]] + s[1..];
      } else if less(c, s[0]) {
        NoClashBelow(less, s, c);
        AscendingCons(less, c, s);
      }
    }
  }

  lemma NoClashBelow(less: Comparator, s: seq<Entry>, c: Entry)
    requires StrictWeak(less) && Ascending(less, s) && s != [] && less(c, s[0])
    ensures !Clashes(less, s, c) && forall y :: y in s ==> less(c, y)
  {
    forall i | 0 <= i < |s|
      ensures less(c, s[i])
    {
      assert i > 0 ==> less(s[0], s[i]);
    }
  }

  /** Erasing keeps the order and takes away whatever clashes, and nothing else. */
  lemma {:induction false} EraseKeepsOrder(less: Comparator, s: seq<Entry>, c: Entry)
    requires Ascending(less, s)
    ensures Ascending(less, EraseSorted(less, s, c))
    ensures forall x :: x in EraseSorted(less, s, c) <==> x in s && !Equivalent(less, x, c)
    decreases |s|
  {
    if s != [] {
      AscendingTail(less, s);
      EraseKeepsOrder(less, s[1..], c);
      if !Equivalent(less, s[0], c) {
        AscendingCons(less, s[0], EraseSorted(less, s[1..], c));
      }
      assert s == [s[0]] + s[1..];
    }
  }

  // ---------------------------------------------------------------------------------------
  // The view
  // ---------------------------------------------------------------------------------------

  /** Both indexes hold the same children, each under its own name, and the sorted one is
      strictly ascending: it holds no child twice and no two that clash. */
  ghost predicate Agrees(less: Comparator, v: View) {
    && Ascending(less, v.sorted)
    && (forall n :: n in v.items ==> v.items[n].name == n && v.items[n] in v.sorted)
    && (forall c :: c in v.sorted ==> c.name in v.items && v.items[c.name] == c)
  }

  function Told(v: View, e: Event): View {
    v.(told := v.told + [e])
  }

  /** addToSorted: into the sorted index, then into the other, then the lazy names. */
  function AddToSorted(less: Comparator, v: View, c: Entry, created: bool, emit: bool): View {
    var v1 := v.(sorted := PutSorted(less, v.sorted, c), items := v.items[c.name := c], memoValid := false,
                 lazyCache := if v.lazy then v.lazyCache + [c.name] else v.lazyCache);
    if emit then Told(v1, if created then Created(c) else Exists(c)) else v1
  }

  /** priv_discoveredSubContext: a child that is there is no longer marked. */
  function Discovered(v: View, n: string): View {
    if n in v.items then v.(marked := v.marked - {n}) else v
  }

  function OnExists(less: Comparator, v: View, c: Entry, reading: bool): View {
    if c.name in v.items then Discovered(v, c.name) else AddToSorted(less, v, c, false, !reading)
  }

  function OnCreated(less: Comparator, v: View, c: Entry): View {
    if c.name in v.items then Discovered(v, c.name) else AddToSorted(less, v, c, true, true)
  }

  function Without(s: seq<string>, n: string): seq<string> {
    if s == [] then [] else (if s[0] == n then [] else [s[0]]) + Without(s[1..], n)
  }

  /** OnDeleted: the watchers are told first, then both indexes are erased, the sorted one twice. */
  function OnDeleted(less: Comparator, v: View, n: string): View {
    var v1 :=
      if n !in v.items then v
      else
        var once := EraseSorted(less, v.sorted, v.items[n]);
        Told(v, Deleted(n)).(items := v.items - {n}, marked := v.marked - {n}, memoValid := false,
                             sorted := EraseSorted(less, once, v.items[n]));
    v1.(lazyCache := if v.lazy then Without(v.lazyCache, n) else v.lazyCache)
  }

  function Unmarked(s: seq<Entry>, marked: set<string>): seq<string> {
    if s == [] then [] else (if s[0].name in marked then [] else [s[0].name]) + Unmarked(s[1..], marked)
  }

  /** The base class's names: the memo, remade if it is out of date. */
  function BaseNames(v: View): seq<string> {
    if v.memoValid then v.memo else Unmarked(v.sorted, v.marked)
  }

  function SetLazySorting(v: View, lazy: bool): View {
    if !lazy then v.(lazy := false)
    else v.(lazy := true, lazyCache := BaseNames(v), memo := BaseNames(v), memoValid := true)
  }

  function GetSubContextNames(v: View): View {
    if v.lazy then v else v.(memo := BaseNames(v), memoValid := true)
  }

  /** The events for each child, in the order of the sorted index. */
  function Announced(s: seq<Entry>): (r: seq<Event>)
    ensures |r| == |s| && forall i :: 0 <= i < |s| ==> r[i] == Exists(s[i])
  {
    if s == [] then [] else [Exists(s[0])] + Announced(s[1..])
  }

  /** What the base announces while it is being read. */
  function Discoveries(less: Comparator, v: View, found: seq<Entry>): View
    decreases |found|
  {
    if found == [] then v else Discoveries(less, OnExists(less, v, found[0], true), found[1..])
  }

  /** read: unless the children known already will do, mark them all, let the base announce
      what it finds, and then announce every child. */
  function Read(less: Comparator, v: View, known: bool, found: seq<Entry>): View {
    var v1 := if known && v.items != map[] then v else Discoveries(less, v.(marked := v.items.Keys), found);
    v1.(told := v1.told + Announced(v1.sorted))
  }

  // ---------------------------------------------------------------------------------------
  // The two indexes agree
  // ---------------------------------------------------------------------------------------

  /** Under an agreement no two children clash. */
  lemma ChildrenDoNotClash(less: Comparator, s: seq<Entry>, a: Entry, b: Entry)
    requires Ascending(less, s) && a in s && b in s && a != b
    ensures !Equivalent(less, a, b)
  {
    var i :| 0 <= i < |s| && s[i] == a;
    var j :| 0 <= j < |s| && s[j] == b;
    assert i < j || j < i;
  }

  /** A new child keeps the agreement exactly when it clashes with no child there. */
  lemma AddAgreesIff(less: Comparator, v: View, c: Entry, created: bool, emit: bool)
    requires StrictWeak(less) && Agrees(less, v) && c.name !in v.items
    ensures Agrees(less, AddToSorted(less, v, c, created, emit)) <==> !Clashes(less, v.sorted, c)
  {
    PutKeepsOrder(less, v.sorted, c);
    var v' := AddToSorted(less, v, c, created, emit);
    assert c !in v.sorted;
    assert c.name in v'.items && v'.items[c.name] == c;
  }

  lemma EraseIs(less: Comparator, s: seq<Entry>, c: Entry)
    requires StrictWeak(less) && Ascending(less, s) && c in s
    ensures var s' := EraseSorted(less, EraseSorted(less, s, c), c);
            Ascending(less, s') && forall x :: x in s' <==> x in s && x != c
  {
    EraseKeepsOrder(less, s, c);
    EraseKeepsOrder(less, EraseSorted(less, s, c), c);
    forall x | x in s && x != c
      ensures !Equivalent(less, x, c)
    {
      ChildrenDoNotClash(less, s, x, c);
    }
  }

  /** Deleting always keeps it: the child and it alone leaves both indexes. */
  lemma DeleteAgrees(less: Comparator, v: View, n: string)
    requires StrictWeak(less) && Agrees(less, v)
    ensures var v' := OnDeleted(less, v, n); Agrees(less, v') && v'.items == v.items - {n}
  {
    if n in v.items {
      EraseIs(less, v.sorted, v.items[n]);
      var v' := OnDeleted(less, v, n);
      assert forall c :: c in v.sorted && c != v.items[n] ==> c.name != n;
    } else {
      assert v.items - {n} == v.items;
    }
  }

  /** Announcing c again is harmless; announcing a new child is if it clashes with none. */
  predicate Fits(less: Comparator, v: View, c: Entry) {
    c.name in v.items || !Clashes(less, v.sorted, c)
  }

  predicate AllFit(less: Comparator, v: View, found: seq<Entry>)
    decreases |found|
  {
    found == [] || (Fits(less, v, found[0]) && AllFit(less, OnExists(less, v, found[0], true), found[1..]))
  }

  lemma {:induction false} DiscoveriesAgree(less: Comparator, v: View, found: seq<Entry>)
    requires StrictWeak(less) && Agrees(less, v) && AllFit(less, v, found)
    ensures Agrees(less, Discoveries(less, v, found))
    decreases |found|
  {
    if found != [] {
      if found[0].name !in v.items {
        AddAgreesIff(less, v, found[0], false, false);
      }
      DiscoveriesAgree(less, OnExists(less, v, found[0], true), found[1..]);
    }
  }

  datatype Op = ExistsOp(c: Entry, reading: bool) | CreatedOp(c: Entry) | DeletedOp(n: string)
              | LazyOp(lazy: bool) | NamesOp | ReadOp(known: bool, found: seq<Entry>)

  function Step(less: Comparator, v: View, op: Op): View {
    match op
    case ExistsOp(c, reading) => OnExists(less, v, c, reading)
    case CreatedOp(c) => OnCreated(less, v, c)
    case DeletedOp(n) => OnDeleted(less, v, n)
    case LazyOp(lazy) => SetLazySorting(v, lazy)
    case NamesOp => GetSubContextNames(v)
    case ReadOp(known, found) => Read(less, v, known, found)
  }

  /** No new child that the operation brings clashes with a child already there. */
  predicate Harmless(less: Comparator, v: View, op: Op) {
    match op
    case ExistsOp(c, _) => Fits(less, v, c)
    case CreatedOp(c) => Fits(less, v, c)
    case ReadOp(known, found) => (known && v.items != map[]) || AllFit(less, v.(marked := v.items.Keys), found)
    case _ => true
  }

  lemma StepAgrees(less: Comparator, v: View, op: Op)
    requires StrictWeak(less) && Agrees(less, v) && Harmless(less, v, op)
    ensures Agrees(less, Step(less, v, op))
  {
    match op
    case ExistsOp(c, reading) =>
      if c.name !in v.items {
        AddAgreesIff(less, v, c, false, !reading);
      }
    case CreatedOp(c) =>
      if c.name !in v.items {
        AddAgreesIff(less, v, c, true, true);
      }
    case DeletedOp(n) => DeleteAgrees(less, v, n);
    case ReadOp(known, found) =>
      if !(known && v.items != map[]) {
        DiscoveriesAgree(less, v.(marked := v.items.Keys), found);
      }
    case _ =>
  }

  function Run(less: Comparator, v: View, ops: seq<Op>): View
    decreases |ops|
  {
    if ops == [] then v else Run(less, Step(less, v, ops[0]), ops[1..])
  }

  /** A comparator that tells any two names apart. Every comparator the file system builds does:
      it ends with a comparison by name, so for it nothing ever clashes. */
  ghost predicate TellsNamesApart(less: Comparator) {
    forall a: Entry, b: Entry :: a.name != b.name ==> less(a, b) || less(b, a)
  }

  lemma NothingClashes(less: Comparator, v: View, c: Entry)
    requires TellsNamesApart(less) && Agrees(less, v)
    ensures Fits(less, v, c)
  {
    if c.name !in v.items {
      forall i | 0 <= i < |v.sorted|
        ensures !Equivalent(less, v.sorted[i], c)
      {
        assert v.sorted[i] in v.sorted;
      }
    }
  }

  lemma {:induction false} AllOfThemFit(less: Comparator, v: View, found: seq<Entry>)
    requires StrictWeak(less) && TellsNamesApart(less) && Agrees(less, v)
    ensures AllFit(less, v, found)
    decreases |found|
  {
    if found != [] {
      NothingClashes(less, v, found[0]);
      StepAgrees(less, v, ExistsOp(found[0], true));
      AllOfThemFit(less, OnExists(less, v, found[0], true), found[1..]);
    }
  }

  /** With such a comparator the two indexes agree over every run. */
  lemma {:induction false} EveryRunAgrees(less: Comparator, v: View, ops: seq<Op>)
    requires StrictWeak(less) && TellsNamesApart(less) && Agrees(less, v)
    ensures Agrees(less, Run(less, v, ops))
    decreases |ops|
  {
    if ops != [] {
      match ops[0] {
        case ExistsOp(c, _) => NothingClashes(less, v, c);
        case CreatedOp(c) => NothingClashes(less, v, c);
        case ReadOp(_, found) => AllOfThemFit(less, v.(marked := v.items.Keys), found);
        case _ =>
      }
      StepAgrees(less, v, ops[0]);
      EveryRunAgrees(less, Step(less, v, ops[0]), ops[1..]);
    }
  }

  // ---------------------------------------------------------------------------------------
  // What a read tells
  // ---------------------------------------------------------------------------------------

  lemma {:induction false} DiscoveriesAreQuiet(less: Comparator, v: View, found: seq<Entry>)
    ensures Discoveries(less, v, found).told == v.told
    decreases |found|
  {
    if found != [] {
      DiscoveriesAreQuiet(less, OnExists(less, v, found[0], true), found[1..]);
    }
  }

  /** A read tells of every child once, in strictly ascending order, and of nothing else. */
  lemma ReadTellsEachOnce(less: Comparator, v: View, known: bool, found: seq<Entry>)
    requires StrictWeak(less) && Agrees(less, v) && Harmless(less, v, ReadOp(known, found))
    ensures var v' := Read(less, v, known, found);
            && v.told <= v'.told
            && var news := v'.told[|v.told|..];
            && |news| == |v'.items|
            && (forall i :: 0 <= i < |news| ==> news[i].Exists? && news[i].child in v'.items.Values)
            && (forall i, j :: 0 <= i < j < |news| ==> less(news[i].child, news[j].child))
  {
    StepAgrees(less, v, ReadOp(known, found));
    DiscoveriesAreQuiet(less, v.(marked := v.items.Keys), found);
    var v' := Read(less, v, known, found);
    assert v'.told[|v.told|..] == Announced(v'.sorted);
    SameSize(less, v');
    forall i | 0 <= i < |v'.sorted|
      ensures v'.sorted[i] in v'.items.Values
    {
      assert v'.sorted[i] in v'.sorted;
      assert v'.sorted[i].name in v'.items;
    }
  }

  lemma SameSize(less: Comparator, v: View)
    requires StrictWeak(less) && Agrees(less, v)
    ensures |v.sorted| == |v.items|
  {
    var names := set c | c in v.sorted :: c.name;
    assert names == v.items.Keys;
    DistinctNames(less, v.sorted, v.items);
  }

  lemma {:induction false} DistinctNames(less: Comparator, s: seq<Entry>, items: map<string, Entry>)
    requires StrictWeak(less) && Ascending(less, s) && forall c :: c in s ==> c.name in items && items[c.name] == c
    ensures |set c | c in s :: c.name| == |s|
    decreases |s|
  {
    if s != [] {
      AscendingTail(less, s);
      DistinctNames(less, s[1..], items);
      var rest := set c | c in s[1..] :: c.name;
      assert (set c | c in s :: c.name) == rest + {s[0].name} by {
        assert s == [s[0]] + s[1..];
      }
      assert s[0].name !in rest;
    }
  }

  function NamesOf(s: seq<Entry>): set<string> {
    set c | c in s :: c.name
  }

  /** Reading takes no child away: those the base announces are there and unmarked, and those it
      no longer announces are there and marked. */
  lemma {:induction false} DiscoveriesMark(less: Comparator, v: View, found: seq<Entry>)
    requires v.marked <= v.items.Keys
    ensures var v' := Discoveries(less, v, found);
            v'.items.Keys == v.items.Keys + NamesOf(found) && v'.marked == v.marked - NamesOf(found)
    decreases |found|
  {
    if found != [] {
      var v1 := OnExists(less, v, found[0], true);
      DiscoveriesMark(less, v1, found[1..]);
      assert found == [found[0]] + found[1..];
      assert NamesOf(found) == {found[0].name} + NamesOf(found[1..]);
      assert v1.marked == v.marked - {found[0].name};
    } else {
      assert NamesOf(found) == {};
    }
  }

  lemma ReadForgetsNobody(less: Comparator, v: View, found: seq<Entry>)
    ensures var v' := Read(less, v, false, found);
            v'.items.Keys == v.items.Keys + NamesOf(found) && v'.marked == v.items.Keys - NamesOf(found)
  {
    DiscoveriesMark(less, v.(marked := v.items.Keys), found);
  }

  // ---------------------------------------------------------------------------------------
  // The lists of names
  // ---------------------------------------------------------------------------------------

  /** The names of the children, each once, in any order. */
  ghost predicate Lists(names: seq<string>, keys: set<string>) {
    multiset(names) == multiset(keys)
  }

  ghost predicate NamesRight(less: Comparator, v: View) {
    && Agrees(less, v) && v.marked <= v.items.Keys
    && (v.lazy ==> Lists(v.lazyCache, v.items.Keys))
    && (v.memoValid ==> Lists(v.memo, v.items.Keys))
  }

  lemma {:induction false} WithoutOne(s: seq<string>, n: string)
    ensures multiset(Without(s, n)) == multiset(s)[n := 0]
    decreases |s|
  {
    if s != [] {
      WithoutOne(s[1..], n);
      assert s == [s[0]] + s[1..];
    }
  }

  lemma ListsWithout(s: seq<string>, keys: set<string>, n: string)
    requires Lists(s, keys)
    ensures Lists(Without(s, n), keys - {n})
  {
    WithoutOne(s, n);
  }

  lemma ListsWith(s: seq<string>, keys: set<string>, n: string)
    requires Lists(s, keys) && n !in keys
    ensures Lists(s + [n], keys + {n})
  {
  }

  lemma ListsFirst(s: seq<string>, keys: set<string>, n: string)
    requires Lists(s, keys) && n !in keys
    ensures Lists([n] + s, {n} + keys)
  {
  }

  lemma FirstUnmarked(n: string, names: set<string>, marked: set<string>)
    requires n !in names
    ensures {n} + names - marked == if n in marked then names - marked else {n} + (names - marked)
  {
  }

  lemma FirstName(less: Comparator, s: seq<Entry>, items: map<string, Entry>)
    requires StrictWeak(less) && Ascending(less, s) && s != []
    requires forall c :: c in s ==> c.name in items && items[c.name] == c
    ensures Ascending(less, s[1..]) && NamesOf(s) == {s[0].name} + NamesOf(s[1..]) && s[0].name !in NamesOf(s[1..])
  {
    AscendingTail(less, s);
    assert s == [s[0]] + s[1..];
  }

  /** The memo is made of the unmarked children only. */
  lemma {:induction false} UnmarkedLists(less: Comparator, s: seq<Entry>, items: map<string, Entry>,
                                         marked: set<string>)
    requires StrictWeak(less) && Ascending(less, s) && forall c :: c in s ==> c.name in items && items[c.name] == c
    ensures Lists(Unmarked(s, marked), NamesOf(s) - marked)
    decreases |s|
  {
    if s != [] {
      hide Lists, NamesOf;
      FirstName(less, s, items);
      UnmarkedLists(less, s[1..], items, marked);
      FirstUnmarked(s[0].name, NamesOf(s[1..]), marked);
      if s[0].name !in marked {
        ListsFirst(Unmarked(s[1..], marked), NamesOf(s[1..]) - marked, s[0].name);
      } else {
        assert [] + Unmarked(s[1..], marked) == Unmarked(s[1..], marked);
      }
    }
  }

  /** The names that are served list every child exactly when the memo was valid or nobody is
      marked. */
  lemma ServedIff(less: Comparator, v: View)
    requires StrictWeak(less) && NamesRight(less, v)
    ensures Lists(BaseNames(v), v.items.Keys) <==> v.memoValid || v.marked == {}
  {
    if !v.memoValid {
      UnmarkedLists(less, v.sorted, v.items, v.marked);
      assert NamesOf(v.sorted) == v.items.Keys;
      if v.marked == {} {
        assert v.items.Keys - v.marked == v.items.Keys;
      } else {
        var n :| n in v.marked;
        assert multiset(v.items.Keys - v.marked)[n] == 0 != multiset(v.items.Keys)[n];
      }
    }
  }

  /** Whether the operation makes a list of names while some children are marked. */
  predicate Serves(v: View, op: Op) {
    (op == LazyOp(true) || (op == NamesOp && !v.lazy)) ==> v.memoValid || v.marked == {}
  }

  lemma {:induction false} DiscoveriesList(less: Comparator, v: View, found: seq<Entry>)
    requires StrictWeak(less) && NamesRight(less, v) && AllFit(less, v, found)
    ensures NamesRight(less, Discoveries(less, v, found))
    decreases |found|
  {
    if found != [] {
      ExistsLists(less, v, found[0], true);
      DiscoveriesList(less, OnExists(less, v, found[0], true), found[1..]);
    }
  }

  lemma ExistsLists(less: Comparator, v: View, c: Entry, reading: bool)
    requires StrictWeak(less) && NamesRight(less, v) && Fits(less, v, c)
    ensures NamesRight(less, OnExists(less, v, c, reading)) && NamesRight(less, OnCreated(less, v, c))
  {
    StepAgrees(less, v, ExistsOp(c, reading));
    StepAgrees(less, v, CreatedOp(c));
    if v.lazy && c.name !in v.items {
      ListsWith(v.lazyCache, v.items.Keys, c.name);
    }
    assert c.name !in v.items ==> v.items[c.name := c].Keys == v.items.Keys + {c.name};
  }

  lemma DeletedLists(less: Comparator, v: View, n: string)
    requires StrictWeak(less) && NamesRight(less, v)
    ensures NamesRight(less, OnDeleted(less, v, n))
  {
    DeleteAgrees(less, v, n);
    if v.lazy {
      ListsWithout(v.lazyCache, v.items.Keys, n);
    }
    assert (v.items - {n}).Keys == v.items.Keys - {n};
    if n !in v.items {
      assert v.items.Keys - {n} == v.items.Keys;
    }
  }

  lemma LazyLists(less: Comparator, v: View, lazy: bool)
    requires StrictWeak(less) && NamesRight(less, v)
    ensures NamesRight(less, SetLazySorting(v, lazy)) <==> Serves(v, LazyOp(lazy))
  {
    hide BaseNames, Lists;
    ServedIff(less, v);
  }

  lemma NamesList(less: Comparator, v: View)
    requires StrictWeak(less) && NamesRight(less, v)
    ensures NamesRight(less, GetSubContextNames(v)) <==> Serves(v, NamesOp)
  {
    hide BaseNames, Lists;
    ServedIff(less, v);
  }

  lemma ReadLists(less: Comparator, v: View, known: bool, found: seq<Entry>)
    requires StrictWeak(less) && NamesRight(less, v) && Harmless(less, v, ReadOp(known, found))
    ensures NamesRight(less, Read(less, v, known, found))
  {
    hide Lists, Ascending;
    if !(known && v.items != map[]) {
      DiscoveriesList(less, v.(marked := v.items.Keys), found);
    }
  }

  /** One operation keeps the lists of names exact if and only if it makes none while children
      are marked. */
  lemma StepListsIff(less: Comparator, v: View, op: Op)
    requires StrictWeak(less) && NamesRight(less, v) && Harmless(less, v, op)
    ensures NamesRight(less, Step(less, v, op)) <==> Serves(v, op)
  {
    hide NamesRight, Fits, AllFit, OnExists, OnCreated, OnDeleted, SetLazySorting, GetSubContextNames, Read;
    match op
    case ExistsOp(c, reading) => ExistsLists(less, v, c, reading);
    case CreatedOp(c) => ExistsLists(less, v, c, false);
    case DeletedOp(n) => DeletedLists(less, v, n);
    case LazyOp(lazy) => LazyLists(less, v, lazy);
    case NamesOp => NamesList(less, v);
    case ReadOp(known, found) => ReadLists(less, v, known, found);
  }

  lemma NothingClashesIn(less: Comparator, v: View, op: Op)
    requires StrictWeak(less) && TellsNamesApart(less) && Agrees(less, v)
    ensures Harmless(less, v, op)
  {
    match op
    case ExistsOp(c, _) => NothingClashes(less, v, c);
    case CreatedOp(c) => NothingClashes(less, v, c);
    case ReadOp(_, found) => AllOfThemFit(less, v.(marked := v.items.Keys), found);
    case _ =>
  }

  /** The lists of names are exact in every state of the run. */
  ghost predicate AlwaysRight(less: Comparator, v: View, ops: seq<Op>)
    decreases |ops|
  {
    NamesRight(less, v) && (ops == [] || AlwaysRight(less, Step(less, v, ops[0]), ops[1..]))
  }

  /** No operation of the run makes a list of names while children are marked. */
  predicate NeverServesMarked(less: Comparator, v: View, ops: seq<Op>)
    decreases |ops|
  {
    ops == [] || (Serves(v, ops[0]) && NeverServesMarked(less, Step(less, v, ops[0]), ops[1..]))
  }

  /** Over a whole run, with such a comparator, the lists of names stay exact if and only if no
      operation makes one while children are marked. */
  lemma {:induction false} RunListsIff(less: Comparator, v: View, ops: seq<Op>)
    requires StrictWeak(less) && TellsNamesApart(less) && NamesRight(less, v)
    ensures AlwaysRight(less, v, ops) <==> NeverServesMarked(less, v, ops)
    decreases |ops|
  {
    hide NamesRight, Serves, Harmless, Step;
    if ops != [] {
      RunListsStep(less, v, ops[0]);
      var v' := Step(less, v, ops[0]);
      if NamesRight(less, v') {
        RunListsIff(less, v', ops[1..]);
      }
    }
  }

  lemma RunListsStep(less: Comparator, v: View, op: Op)
    requires StrictWeak(less) && TellsNamesApart(less) && NamesRight(less, v)
    ensures NamesRight(less, Step(less, v, op)) <==> Serves(v, op)
  {
    NothingClashesIn(less, v, op);
    StepListsIff(less, v, op);
  }
}
