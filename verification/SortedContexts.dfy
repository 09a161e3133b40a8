/** The sorted view as an object: every method does to its fields what SortedViews says. */
module SortedContexts {
  import opened SortedViews

  class SortedContext {
    const less: Comparator
    var items: map<string, Entry>
    var itemsSorted: seq<Entry>
    var lazySorting: bool
    var lazySortCache: seq<string>
    var hasBeenDeleted: set<string>
    var subContextNamesCache: seq<string>
    var subContextNamesCacheIsValid: bool
    var told: seq<Event>

    constructor (less: Comparator)
      ensures this.less == less && State() == View(map[], [], false, [], {}, [], false, [])
    {
      this.less := less;
      items, itemsSorted, lazySorting, lazySortCache := map[], [], false, [];
      hasBeenDeleted, subContextNamesCache, subContextNamesCacheIsValid, told := {}, [], false, [];
    }

    ghost function State(): View
      reads this
    {
      View(items, itemsSorted, lazySorting, lazySortCache, hasBeenDeleted,
           subContextNamesCache, subContextNamesCacheIsValid, told)
    }

    method Emit(e: Event)
      modifies this`told
      ensures told == old(told) + [e]
    {
      told := told + [e];
    }

    method AddToSorted(subc: Entry, created: bool, emit: bool)
      requires subc.name !in items
      modifies this
      ensures State() == SortedViews.AddToSorted(less, old(State()), subc, created, emit)
    {
      itemsSorted := PutSorted(less, itemsSorted, subc);
      items := items[subc.name := subc];
      subContextNamesCacheIsValid := false;
      if emit {
        Emit(if created then Created(subc) else Exists(subc));
      }
      if lazySorting {
        lazySortCache := lazySortCache + [subc.name];
      }
    }

    method Discover(rdn: string) returns (found: bool)
      modifies this`hasBeenDeleted
      ensures found <==> rdn in items
      ensures State() == Discovered(old(State()), rdn)
    {
      found := rdn in items;
      if found {
        hasBeenDeleted := hasBeenDeleted - {rdn};
      }
    }

    method OnExists(subc: Entry, reading: bool)
      modifies this
      ensures State() == SortedViews.OnExists(less, old(State()), subc, reading)
    {
      var found := Discover(subc.name);
      if !found {
        AddToSorted(subc, false, !reading);
      }
    }

    method OnCreated(subc: Entry)
      modifies this
      ensures State() == SortedViews.OnCreated(less, old(State()), subc)
    {
      var found := Discover(subc.name);
      if !found {
        AddToSorted(subc, true, true);
      }
    }

    method Remove(rdn: string)
      requires rdn in items
      modifies this
      ensures var v := old(State());
              State() == Told(v, Deleted(rdn)).(items := v.items - {rdn}, marked := v.marked - {rdn},
                                                memoValid := false,
                                                sorted := EraseSorted(less, v.sorted, v.items[rdn]))
    {
      var child := items[rdn];
      Emit(Deleted(rdn));
      items := items - {rdn};
      hasBeenDeleted := hasBeenDeleted - {rdn};
      subContextNamesCacheIsValid := false;
      itemsSorted := EraseSorted(less, itemsSorted, child);
    }

    method OnDeleted(olddn: string)
      modifies this
      ensures State() == SortedViews.OnDeleted(less, old(State()), olddn)
    {
      if olddn in items {
        var c := items[olddn];
        Remove(olddn);
        itemsSorted := EraseSorted(less, itemsSorted, c);
      }
      if lazySorting {
        lazySortCache := Without(lazySortCache, olddn);
      }
    }

    /** The base class's list, remade by a walk over the sorted index when it is out of date. */
    method BaseSubContextNames() returns (names: seq<string>)
      modifies this`subContextNamesCache, this`subContextNamesCacheIsValid
      ensures names == BaseNames(old(State())) && State() == old(State()).(memo := names, memoValid := true)
    {
      if subContextNamesCacheIsValid {
        return subContextNamesCache;
      }
      subContextNamesCacheIsValid := true;
      subContextNamesCache := [];
      var i := 0;
      while i < |itemsSorted|
        invariant 0 <= i <= |itemsSorted|
        invariant subContextNamesCache + Unmarked(itemsSorted[i..], hasBeenDeleted) ==
                  Unmarked(itemsSorted, hasBeenDeleted)
        invariant State() == old(State()).(memo := subContextNamesCache, memoValid := true)
      {
        if itemsSorted[i].name !in hasBeenDeleted {
          subContextNamesCache := subContextNamesCache + [itemsSorted[i].name];
        }
        i := i + 1;
      }
      return subContextNamesCache;
    }

    method SetLazySorting(v: bool)
      modifies this
      ensures State() == SortedViews.SetLazySorting(old(State()), v)
    {
      lazySorting := v;
      if !lazySorting {
        return;
      }
      lazySortCache := [];
      lazySortCache := BaseSubContextNames();
    }

    method GetSubContextNames() returns (names: seq<string>)
      modifies this`subContextNamesCache, this`subContextNamesCacheIsValid
      ensures State() == SortedViews.GetSubContextNames(old(State()))
      ensures names == if old(lazySorting) then old(lazySortCache) else BaseNames(old(State()))
    {
      if lazySorting {
        return lazySortCache;
      }
      names := BaseSubContextNames();
    }

    method EmitExistsEventForEachItem()
      modifies this`told
      ensures State() == old(State()).(told := old(told) + Announced(itemsSorted))
    {
      ghost var news := Announced(itemsSorted);
      var i := 0;
      while i < |itemsSorted|
        invariant 0 <= i <= |itemsSorted|
        invariant told == old(told) + news[..i]
      {
        Emit(Exists(itemsSorted[i]));
        assert news[..i] + [news[i]] == news[..i + 1];
        i := i + 1;
      }
    }

    /** known says that the base has been read and reports its changes; found is what the base
        announces when it is read. */
    method Read(force: bool, known: bool, found: seq<Entry>)
      modifies this
      ensures State() == SortedViews.Read(less, old(State()), !force && known, found)
    {
      if !force && known {
        if items != map[] {
          EmitExistsEventForEachItem();
          return;
        }
      }
      hasBeenDeleted := items.Keys;
      ghost var marked := State();
      var i := 0;
      while i < |found|
        invariant 0 <= i <= |found|
        invariant Discoveries(less, State(), found[i..]) == Discoveries(less, marked, found)
      {
        OnExists(found[i], true);
        i := i + 1;
      }
      EmitExistsEventForEachItem();
    }
  }
}
