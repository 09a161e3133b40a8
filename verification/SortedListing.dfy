/** What a sorted view serves and tells: the names in sorting order, and to whoever watches the events
    from which the children can be kept up. */
module SortedListing {
  import opened SortedViews

  // ---------------------------------------------------------------------------------------
  // The names in order
  // ---------------------------------------------------------------------------------------

  /** Each name is a child's, and the children stand in sorting order. */
  ghost predicate InOrder(less: Comparator, items: map<string, Entry>, names: seq<string>) {
    && (forall i :: 0 <= i < |names| ==> names[i] in items)
    && (forall i, j :: 0 <= i < j < |names| ==> less(items[names[i]], items[names[j]]))
  }

  predicate Behind(less: Comparator, items: map<string, Entry>, c: Entry, n: string) {
    n in items && less(c, items[n])
  }

  lemma {:induction false} UnmarkedInOrder(less: Comparator, s: seq<Entry>, items: map<string, Entry>, marked: set<string>)
    requires Ascending(less, s) && forall c :: c in s ==> c.name in items && items[c.name] == c
    ensures InOrder(less, items, Unmarked(s, marked))
    ensures forall n :: n in Unmarked(s, marked) <==> n !in marked && n in NamesOf(s)
    decreases |s|
  {
    if s != [] {
      AscendingTail(less, s);
      UnmarkedInOrder(less, s[1..], items, marked);
      var rest, names := Unmarked(s[1..], marked), Unmarked(s, marked);
      assert s == [s[0]] + s[1..];
      forall n | n in rest
        ensures Behind(less, items, s[0], n)
      {
        assert n in NamesOf(s[1..]);
      }
      if s[0].name in marked {
        assert names == [] + rest == rest;
      } else {
        FirstInOrder(less, items, s[0].name, rest);
      }
    }
  }

  lemma FirstInOrder(less: Comparator, items: map<string, Entry>, n: string, rest: seq<string>)
    requires InOrder(less, items, rest) && n in items
    requires forall m :: m in rest ==> Behind(less, items, items[n], m)
    ensures InOrder(less, items, [n] + rest)
  {
    var all := [n] + rest;
    assert forall i :: 1 <= i < |all| ==> all[i] == rest[i - 1] && all[i] in rest;
  }

  /** When the list of names is made anew it holds exactly the unmarked children, in sorting order. */
  lemma NamesInOrder(less: Comparator, v: View)
    requires Agrees(less, v) && !v.memoValid
    ensures InOrder(less, v.items, BaseNames(v))
    ensures forall n :: n in BaseNames(v) <==> n in v.items && n !in v.marked
  {
    UnmarkedInOrder(less, v.sorted, v.items, v.marked);
    forall n
      ensures n in NamesOf(v.sorted) <==> n in v.items
    {
      if n in v.items {
        assert v.items[n] in v.sorted && v.items[n].name == n;
      }
    }
  }

  /** The same of the memo and of the lazy names where they are made. */
  lemma MadeInOrder(less: Comparator, v: View)
    requires Agrees(less, v) && !v.memoValid
    ensures var memo, lazy := GetSubContextNames(v.(lazy := false)), SetLazySorting(v, true);
            && memo.memoValid && InOrder(less, v.items, memo.memo)
            && lazy.lazy && lazy.memoValid && lazy.memo == lazy.lazyCache && InOrder(less, v.items, lazy.lazyCache)
            && (forall n :: n in memo.memo <==> n in v.items && n !in v.marked)
            && (forall n :: n in lazy.lazyCache <==> n in v.items && n !in v.marked)
  {
    NamesInOrder(less, v);
    assert BaseNames(v.(lazy := false)) == BaseNames(v);
  }

  /** Children that go leave the others in order. */
  lemma {:induction false} WithoutKeepsOrder(less: Comparator, items: map<string, Entry>, names: seq<string>, n: string)
    requires InOrder(less, items, names)
    ensures InOrder(less, items - {n}, Without(names, n))
    ensures forall m :: m in Without(names, n) <==> m in names && m != n
    decreases |names|
  {
    if names != [] {
      TailInOrder(less, items, names);
      WithoutKeepsOrder(less, items, names[1..], n);
      assert names == [names[0]] + names[1..];
      if names[0] != n {
        FirstInOrder(less, items - {n}, names[0], Without(names[1..], n));
      } else {
        assert [] + Without(names[1..], n) == Without(names[1..], n);
      }
    }
  }

  lemma TailInOrder(less: Comparator, items: map<string, Entry>, names: seq<string>)
    requires InOrder(less, items, names) && names != []
    ensures InOrder(less, items, names[1..]) && forall m :: m in names[1..] ==> Behind(less, items, items[names[0]], m)
  {
  }

  /** A new child stands at the end of the lazy names, so these stay in order exactly if it comes
      behind all that are there. */
  lemma LazyOrderIff(less: Comparator, v: View, c: Entry, created: bool, emit: bool)
    requires v.lazy && InOrder(less, v.items, v.lazyCache) && c.name !in v.items
    ensures var v' := AddToSorted(less, v, c, created, emit);
            InOrder(less, v'.items, v'.lazyCache) <==> forall n :: n in v.lazyCache ==> less(v.items[n], c)
  {
    var v' := AddToSorted(less, v, c, created, emit);
    var names, names' := v.lazyCache, v'.lazyCache;
    assert names' == names + [c.name];
    forall n | n in names && InOrder(less, v'.items, names')
      ensures less(v.items[n], c)
    {
      var i :| 0 <= i < |names| && names[i] == n;
      assert names'[i] == n && names'[|names|] == c.name;
    }
  }

  /** Over every run a memo that is valid is in sorting order, and so are the names that are served
      where the names are not lazy. */
  ghost predicate MemoInOrder(less: Comparator, v: View) {
    v.memoValid ==> InOrder(less, v.items, v.memo)
  }

  lemma {:induction false} DiscoveriesKeepMemo(less: Comparator, v: View, found: seq<Entry>)
    requires MemoInOrder(less, v)
    ensures MemoInOrder(less, Discoveries(less, v, found))
    decreases |found|
  {
    if found != [] {
      DiscoveriesKeepMemo(less, OnExists(less, v, found[0], true), found[1..]);
    }
  }

  lemma StepKeepsMemo(less: Comparator, v: View, op: Op)
    requires Agrees(less, v) && MemoInOrder(less, v)
    ensures MemoInOrder(less, Step(less, v, op))
  {
    if !v.memoValid {
      NamesInOrder(less, v);
    }
    match op
    case ReadOp(known, found) => DiscoveriesKeepMemo(less, v.(marked := v.items.Keys), found);
    case _ =>
  }

  lemma {:induction false} RunKeepsMemo(less: Comparator, v: View, ops: seq<Op>)
    requires StrictWeak(less) && TellsNamesApart(less) && Agrees(less, v) && MemoInOrder(less, v)
    ensures var v' := Run(less, v, ops);
            MemoInOrder(less, v') && InOrder(less, v'.items, BaseNames(v'))
    decreases |ops|
  {
    if ops == [] {
      if !v.memoValid {
        NamesInOrder(less, v);
      }
    } else {
      NothingClashesIn(less, v, ops[0]);
      StepAgrees(less, v, ops[0]);
      StepKeepsMemo(less, v, ops[0]);
      RunKeepsMemo(less, Step(less, v, ops[0]), ops[1..]);
    }
  }

  // ---------------------------------------------------------------------------------------
  // The events
  // ---------------------------------------------------------------------------------------

  /** What somebody has who starts from known and follows the events. */
  function Watched(known: map<string, Entry>, told: seq<Event>): map<string, Entry>
    decreases |told|
  {
    if told == [] then known else Seen(Watched(known, told[..|told| - 1]), told[|told| - 1])
  }

  function Seen(known: map<string, Entry>, e: Event): map<string, Entry> {
    if e.Deleted? then known - {e.name} else known[e.child.name := e.child]
  }

  lemma WatchedSnoc(known: map<string, Entry>, told: seq<Event>, e: Event)
    ensures Watched(known, told + [e]) == Seen(Watched(known, told), e)
  {
    assert (told + [e])[..|told|] == told;
  }

  /** Known children with those of s put over them. */
  function Overlaid(known: map<string, Entry>, s: seq<Entry>): map<string, Entry>
    decreases |s|
  {
    if s == [] then known else Overlaid(known[s[0].name := s[0]], s[1..])
  }

  lemma {:induction false} WatchedAll(known: map<string, Entry>, told: seq<Event>, s: seq<Entry>)
    ensures Watched(known, told + Announced(s)) == Overlaid(Watched(known, told), s)
    decreases |s|
  {
    if s == [] {
      assert told + Announced(s) == told;
    } else {
      WatchedSnoc(known, told, Exists(s[0]));
      assert told + [Exists(s[0])] + Announced(s[1..]) == told + Announced(s);
      WatchedAll(known, told + [Exists(s[0])], s[1..]);
    }
  }

  /** Being told of the children s again makes up for those that were added quietly. */
  lemma {:induction false} OverlaidAt(known: map<string, Entry>, s: seq<Entry>, n: string)
    requires forall i, j :: 0 <= i < j < |s| ==> s[i].name != s[j].name
    ensures var w := Overlaid(known, s);
            if n in NamesOf(s) then n in w && w[n] in s && w[n].name == n
            else (n in w <==> n in known) && (n in w ==> w[n] == known[n])
    decreases |s|
  {
    if s != [] {
      OverlaidAt(known[s[0].name := s[0]], s[1..], n);
      assert s == [s[0]] + s[1..];
      assert NamesOf(s) == {s[0].name} + NamesOf(s[1..]);
    }
  }

  /** What each operation tells: a new child once, as created or as existing; a child that goes once;
      nothing of children that are known; and at a read each child as existing. */
  lemma StepTells(less: Comparator, v: View, op: Op)
    ensures var v' := Step(less, v, op);
            match op
            case ExistsOp(c, reading) =>
              v'.told == v.told + if c.name in v.items || reading then [] else [Exists(c)]
            case CreatedOp(c) => v'.told == v.told + if c.name in v.items then [] else [Created(c)]
            case DeletedOp(n) => v'.told == v.told + if n in v.items then [Deleted(n)] else []
            case ReadOp(_, _) =>
              && |v'.told| == |v.told| + |v'.sorted| && v'.told[..|v.told|] == v.told
              && forall i :: 0 <= i < |v'.sorted| ==> v'.told[|v.told| + i] == Exists(v'.sorted[i])
            case _ => v'.told == v.told
  {
    match op
    case ReadOp(_, found) => DiscoveriesAreQuiet(less, v.(marked := v.items.Keys), found);
    case _ =>
  }

  /** What each operation leaves of the children, their marks and the flags. */
  lemma StepLeaves(less: Comparator, v: View, op: Op)
    ensures var v' := Step(less, v, op);
            match op
            case ExistsOp(c, _) =>
              && v'.items == (if c.name in v.items then v.items else v.items[c.name := c]) && v'.lazy == v.lazy
              && v'.marked == (if c.name in v.items then v.marked - {c.name} else v.marked)
              && v'.memoValid == (v.memoValid && c.name in v.items)
            case CreatedOp(c) =>
              && v'.items == (if c.name in v.items then v.items else v.items[c.name := c]) && v'.lazy == v.lazy
              && v'.marked == (if c.name in v.items then v.marked - {c.name} else v.marked)
              && v'.memoValid == (v.memoValid && c.name in v.items)
            case DeletedOp(n) =>
              && v'.items == v.items - {n} && v'.lazy == v.lazy && (n in v.items ==> v'.marked == v.marked - {n})
              && v'.memoValid == (v.memoValid && n !in v.items)
            case LazyOp(lazy) =>
              && v'.items == v.items && v'.marked == v.marked && v'.lazy == lazy && (!lazy ==> v'.lazyCache == v.lazyCache)
            case NamesOp => v'.items == v.items && v'.marked == v.marked && v'.lazy == v.lazy
            case ReadOp(known, found) =>
              && v'.lazy == v.lazy
              && if known && v.items != map[] then v'.items == v.items && v'.marked == v.marked && v'.sorted == v.sorted
                 else v'.items.Keys == v.items.Keys + NamesOf(found) && v'.marked == v.items.Keys - NamesOf(found)
  {
    match op
    case DeletedOp(n) =>
      if n !in v.items {
        assert v.items - {n} == v.items;
      }
    case ReadOp(_, found) =>
      DiscoveriesStayLazy(less, v.(marked := v.items.Keys), found);
      DiscoveriesMark(less, v.(marked := v.items.Keys), found);
    case _ =>
  }

  lemma {:induction false} DiscoveriesStayLazy(less: Comparator, v: View, found: seq<Entry>)
    ensures Discoveries(less, v, found).lazy == v.lazy
    decreases |found|
  {
    if found != [] {
      DiscoveriesStayLazy(less, OnExists(less, v, found[0], true), found[1..]);
    }
  }

  /** No child is known that is no child any more. */
  lemma {:induction false} DiscoveriesAdd(less: Comparator, v: View, found: seq<Entry>)
    ensures var v' := Discoveries(less, v, found);
            forall n :: n in v.items ==> n in v'.items && v'.items[n] == v.items[n]
    decreases |found|
  {
    if found != [] {
      DiscoveriesAdd(less, OnExists(less, v, found[0], true), found[1..]);
    }
  }

  /** Only a read adds children quietly. */
  predicate ToldOf(v: View, op: Op) {
    op.ExistsOp? && op.reading ==> op.c.name in v.items
  }

  /** Whoever has followed the events so far and follows on has exactly the children: none is added,
      changed or taken away behind the watchers' backs. */
  lemma StepIsWatched(less: Comparator, v: View, op: Op, known: map<string, Entry>)
    requires StrictWeak(less) && TellsNamesApart(less) && Agrees(less, v) && ToldOf(v, op)
    requires Watched(known, v.told) == v.items
    ensures var v' := Step(less, v, op); Watched(known, v'.told) == v'.items
  {
    hide Step;
    StepTells(less, v, op);
    StepLeaves(less, v, op);
    assert v.told + [] == v.told;
    match op
    case ExistsOp(c, _) => WatchedSnoc(known, v.told, Exists(c));
    case CreatedOp(c) => WatchedSnoc(known, v.told, Created(c));
    case DeletedOp(n) =>
      WatchedSnoc(known, v.told, Deleted(n));
      if n !in v.items {
        assert v.items - {n} == v.items;
      }
    case ReadOp(_, _) => ReadIsWatched(less, v, op, known);
    case _ =>
  }

  lemma ReadIsWatched(less: Comparator, v: View, op: Op, known: map<string, Entry>)
    requires StrictWeak(less) && TellsNamesApart(less) && Agrees(less, v) && op.ReadOp?
    requires Watched(known, v.told) == v.items
    ensures var v' := Step(less, v, op); Watched(known, v'.told) == v'.items
  {
    var v' := Step(less, v, op);
    NothingClashesIn(less, v, op);
    StepAgrees(less, v, op);
    DiscoveriesAreQuiet(less, v.(marked := v.items.Keys), op.found);
    DiscoveriesAdd(less, v.(marked := v.items.Keys), op.found);
    assert v'.told == v.told + Announced(v'.sorted);
    WatchedAll(known, v.told, v'.sorted);
    OverlaidIs(less, v, v');
  }

  lemma OverlaidIs(less: Comparator, v: View, v': View)
    requires StrictWeak(less) && Agrees(less, v')
    requires forall n :: n in v.items ==> n in v'.items && v'.items[n] == v.items[n]
    ensures Overlaid(v.items, v'.sorted) == v'.items
  {
    NamesDiffer(less, v');
    var w := Overlaid(v.items, v'.sorted);
    forall n
      ensures n in w <==> n in v'.items
      ensures n in w && n in v'.items ==> w[n] == v'.items[n]
    {
      OverlaidAt(v.items, v'.sorted, n);
      ListedByName(less, v', n);
    }
  }

  lemma NamesDiffer(less: Comparator, v: View)
    requires StrictWeak(less) && Agrees(less, v)
    ensures forall i, j :: 0 <= i < j < |v.sorted| ==> v.sorted[i].name != v.sorted[j].name
  {
    forall i, j | 0 <= i < j < |v.sorted|
      ensures v.sorted[i].name != v.sorted[j].name
    {
      assert v.sorted[i] in v.sorted && v.sorted[j] in v.sorted && less(v.sorted[i], v.sorted[j]);
    }
  }

  lemma ListedByName(less: Comparator, v: View, n: string)
    requires Agrees(less, v)
    ensures n in NamesOf(v.sorted) <==> n in v.items
  {
    if n in v.items {
      assert v.items[n] in v.sorted;
    }
  }

  predicate AllToldOf(less: Comparator, v: View, ops: seq<Op>)
    decreases |ops|
  {
    ops == [] || (ToldOf(v, ops[0]) && AllToldOf(less, Step(less, v, ops[0]), ops[1..]))
  }

  /** And so over every run. */
  lemma {:induction false} RunIsWatched(less: Comparator, v: View, ops: seq<Op>, known: map<string, Entry>)
    requires StrictWeak(less) && TellsNamesApart(less) && Agrees(less, v) && AllToldOf(less, v, ops)
    requires Watched(known, v.told) == v.items
    ensures var v' := Run(less, v, ops); Watched(known, v'.told) == v'.items
    decreases |ops|
  {
    if ops != [] {
      StepIsWatched(less, v, ops[0], known);
      NothingClashesIn(less, v, ops[0]);
      StepAgrees(less, v, ops[0]);
      RunIsWatched(less, Step(less, v, ops[0]), ops[1..], known);
    }
  }
}
