/** The table of cached attribute values that share one time stamp, and exactly when a value it
    serves is out of date. */
module AttributeCache {

  /** For each cached name the modification time at which its value was read, and the stamp. */
  datatype Cache = Cache(table: map<string, int>, stamp: int)

  /** One lookup, read at once, at the modification time mt. */
  datatype Lookup = Lookup(rdn: string, mt: int)

  const MTIME := "mtime"

  // ---------------------------------------------------------------------------------------
  // One lookup
  // ---------------------------------------------------------------------------------------

  predicate Hits(c: Cache, g: Lookup) {
    g.rdn != MTIME && g.rdn in c.table && g.mt <= c.stamp
  }

  /** The context changed since the stamp: the whole table goes. */
  predicate Flushes(c: Cache, g: Lookup) {
    g.rdn != MTIME && g.rdn in c.table && g.mt > c.stamp
  }

  predicate Inserts(cacheable: set<string>, c: Cache, g: Lookup) {
    g.rdn in cacheable && (g.rdn !in c.table || Flushes(c, g))
  }

  /** A name that is not in the table is put there, and moves the stamp for every other. */
  function Get(cacheable: set<string>, c: Cache, g: Lookup): Cache {
    if Hits(c, g) then c
    else
      var c1 := if Flushes(c, g) then Cache(map[], g.mt) else c;
      if Inserts(cacheable, c, g) then Cache(c1.table[g.rdn := g.mt], g.mt) else c1
  }

  /** The modification time of the value that the lookup serves. */
  function Served(c: Cache, g: Lookup): int {
    if Hits(c, g) then c.table[g.rdn] else g.mt
  }

  /** What a lookup of a name other than the modification time leaves. A name that is cached is in the
      table afterwards, with the time of the value that was served. The others are all kept, or all gone
      if the name was there and the context is newer than the stamp. And the stamp stays exactly when the
      name was there and is served from there, or is none that is cached. */
  lemma LookupLeaves(cacheable: set<string>, c: Cache, g: Lookup)
    requires g.rdn != MTIME && c.table.Keys <= cacheable
    ensures var c' := Get(cacheable, c, g);
            && (g.rdn in cacheable ==> g.rdn in c'.table && c'.table[g.rdn] == Served(c, g))
            && (if g.rdn in c.table && c.stamp < g.mt then c'.table.Keys == {g.rdn}
                else c'.table - {g.rdn} == c.table - {g.rdn})
            && (g.rdn !in cacheable ==> c' == c)
            && c'.stamp == (if g.rdn in cacheable && (g.rdn !in c.table || c.stamp < g.mt) then g.mt else c.stamp)
            && Served(c, g) == (if g.rdn in c.table && g.mt <= c.stamp then c.table[g.rdn] else g.mt)
  {
  }

  /** The modification time itself is always read directly; where it is cached nevertheless, only the first
      lookup leaves anything. */
  lemma TimeIsReadDirectly(cacheable: set<string>, c: Cache, mt: int)
    ensures Served(c, Lookup(MTIME, mt)) == mt
    ensures Get(cacheable, c, Lookup(MTIME, mt)) ==
            if MTIME in cacheable && MTIME !in c.table then Cache(c.table[MTIME := mt], mt) else c
  {
  }

  // ---------------------------------------------------------------------------------------
  // Histories
  // ---------------------------------------------------------------------------------------

  function After(cacheable: set<string>, stamp: int, gs: seq<Lookup>): Cache
    decreases |gs|
  {
    if gs == [] then Cache(map[], stamp)
    else Get(cacheable, After(cacheable, stamp, gs[..|gs| - 1]), gs[|gs| - 1])
  }

  predicate FlushedAt(cacheable: set<string>, stamp: int, gs: seq<Lookup>, i: nat)
    requires i < |gs|
  {
    Flushes(After(cacheable, stamp, gs[..i]), gs[i])
  }

  predicate InsertedAt(cacheable: set<string>, stamp: int, gs: seq<Lookup>, i: nat)
    requires i < |gs|
  {
    Inserts(cacheable, After(cacheable, stamp, gs[..i]), gs[i])
  }

  /** The i-th lookup inserted the name and the table was not flushed since. */
  predicate LastFill(cacheable: set<string>, stamp: int, gs: seq<Lookup>, n: string, i: nat) {
    && i < |gs| && gs[i].rdn == n && InsertedAt(cacheable, stamp, gs, i)
    && forall k :: i < k < |gs| ==> !FlushedAt(cacheable, stamp, gs, k)
  }

  /** Modification times never go back, and none is before the stamp the table starts with. */
  predicate Monotone(stamp: int, gs: seq<Lookup>) {
    && (forall i :: 0 <= i < |gs| ==> stamp <= gs[i].mt)
    && (forall i, j :: 0 <= i < j < |gs| ==> gs[i].mt <= gs[j].mt)
  }

  lemma PrefixSame(cacheable: set<string>, stamp: int, gs: seq<Lookup>, m: nat, i: nat)
    requires i < m <= |gs|
    ensures FlushedAt(cacheable, stamp, gs[..m], i) <==> FlushedAt(cacheable, stamp, gs, i)
    ensures InsertedAt(cacheable, stamp, gs[..m], i) <==> InsertedAt(cacheable, stamp, gs, i)
    ensures gs[..m][i] == gs[i]
  {
    assert gs[..m][..i] == gs[..i];
  }

  lemma LastFillPrefix(cacheable: set<string>, stamp: int, gs: seq<Lookup>, n: string, i: nat)
    requires i + 1 < |gs|
    ensures LastFill(cacheable, stamp, gs, n, i) <==>
            LastFill(cacheable, stamp, gs[..|gs| - 1], n, i) && !FlushedAt(cacheable, stamp, gs, |gs| - 1)
  {
    var m := |gs| - 1;
    forall k | 0 <= k < m
      ensures FlushedAt(cacheable, stamp, gs[..m], k) <==> FlushedAt(cacheable, stamp, gs, k)
      ensures InsertedAt(cacheable, stamp, gs[..m], k) <==> InsertedAt(cacheable, stamp, gs, k)
    {
      PrefixSame(cacheable, stamp, gs, m, k);
    }
  }

  /** The table is the history: who is in it was inserted since the last flush, at the time that
      is noted. */
  lemma {:induction false} TableIs(cacheable: set<string>, stamp: int, gs: seq<Lookup>, n: string)
    ensures n in After(cacheable, stamp, gs).table <==> exists i: nat :: LastFill(cacheable, stamp, gs, n, i)
    ensures forall i: nat :: LastFill(cacheable, stamp, gs, n, i) && n in After(cacheable, stamp, gs).table
                             ==> After(cacheable, stamp, gs).table[n] == gs[i].mt
    decreases |gs|
  {
    if gs != [] {
      var m := |gs| - 1;
      var c := After(cacheable, stamp, gs[..m]);
      TableIs(cacheable, stamp, gs[..m], n);
      forall i: nat | i < m
        ensures LastFill(cacheable, stamp, gs, n, i) <==>
                LastFill(cacheable, stamp, gs[..m], n, i) && !Flushes(c, gs[m])
      {
        LastFillPrefix(cacheable, stamp, gs, n, i);
      }
      assert LastFill(cacheable, stamp, gs, n, m) <==> gs[m].rdn == n && Inserts(cacheable, c, gs[m]);
    }
  }

  /** The j-th lookup moved the stamp, and no later one did. */
  predicate LastInsert(cacheable: set<string>, stamp: int, gs: seq<Lookup>, j: nat) {
    && j < |gs| && InsertedAt(cacheable, stamp, gs, j)
    && forall k :: j < k < |gs| ==> !InsertedAt(cacheable, stamp, gs, k)
  }

  ghost predicate NoInsert(cacheable: set<string>, stamp: int, gs: seq<Lookup>) {
    forall k :: 0 <= k < |gs| ==> !InsertedAt(cacheable, stamp, gs, k)
  }

  /** Only cacheable names get into the table. */
  lemma {:induction false} TableIsCacheable(cacheable: set<string>, stamp: int, gs: seq<Lookup>)
    ensures After(cacheable, stamp, gs).table.Keys <= cacheable
    decreases |gs|
  {
    if gs != [] {
      TableIsCacheable(cacheable, stamp, gs[..|gs| - 1]);
    }
  }

  /** The stamp is the time of the last insertion. */
  lemma {:induction false} StampIs(cacheable: set<string>, stamp: int, gs: seq<Lookup>)
    ensures if NoInsert(cacheable, stamp, gs) then After(cacheable, stamp, gs) == Cache(map[], stamp)
            else exists j: nat :: LastInsert(cacheable, stamp, gs, j) && After(cacheable, stamp, gs).stamp == gs[j].mt
    decreases |gs|
  {
    hide InsertedAt;
    if gs != [] {
      var m := |gs| - 1;
      var c := After(cacheable, stamp, gs[..m]);
      StampIs(cacheable, stamp, gs[..m]);
      TableIsCacheable(cacheable, stamp, gs[..m]);
      InsertedPrefix(cacheable, stamp, gs);
      InsertedLast(cacheable, stamp, gs);
      if Inserts(cacheable, c, gs[m]) {
        assert LastInsert(cacheable, stamp, gs, m);
      } else {
        assert Get(cacheable, c, gs[m]) == c;
        if !NoInsert(cacheable, stamp, gs[..m]) {
          var j: nat :| LastInsert(cacheable, stamp, gs[..m], j) && c.stamp == gs[..m][j].mt;
          LastInsertLater(cacheable, stamp, gs, j);
        } else {
          assert NoInsert(cacheable, stamp, gs);
        }
      }
    }
  }

  lemma InsertedLast(cacheable: set<string>, stamp: int, gs: seq<Lookup>)
    requires gs != []
    ensures var m := |gs| - 1;
            InsertedAt(cacheable, stamp, gs, m) <==> Inserts(cacheable, After(cacheable, stamp, gs[..m]), gs[m])
  {
  }

  lemma InsertedPrefix(cacheable: set<string>, stamp: int, gs: seq<Lookup>)
    requires gs != []
    ensures var init := gs[..|gs| - 1];
            forall k :: 0 <= k < |init| ==>
              (InsertedAt(cacheable, stamp, init, k) <==> InsertedAt(cacheable, stamp, gs, k)) && init[k] == gs[k]
  {
    forall k | 0 <= k < |gs| - 1
      ensures InsertedAt(cacheable, stamp, gs[..|gs| - 1], k) <==> InsertedAt(cacheable, stamp, gs, k)
    {
      PrefixSame(cacheable, stamp, gs, |gs| - 1, k);
    }
  }

  lemma LastInsertLater(cacheable: set<string>, stamp: int, gs: seq<Lookup>, j: nat)
    requires gs != [] && LastInsert(cacheable, stamp, gs[..|gs| - 1], j) && !InsertedAt(cacheable, stamp, gs, |gs| - 1)
    ensures LastInsert(cacheable, stamp, gs, j) && gs[..|gs| - 1][j] == gs[j]
  {
    hide InsertedAt;
    InsertedPrefix(cacheable, stamp, gs);
  }

  // ---------------------------------------------------------------------------------------
  // Staleness
  // ---------------------------------------------------------------------------------------

  /** The name was read before the last change, and since that change another insertion moved
      the stamp while the table was kept. */
  predicate Overtaken(cacheable: set<string>, stamp: int, gs: seq<Lookup>, g: Lookup, i: nat, j: nat) {
    && i < j < |gs| && LastFill(cacheable, stamp, gs, g.rdn, i) && gs[i].mt < g.mt
    && InsertedAt(cacheable, stamp, gs, j) && gs[j].mt == g.mt
  }

  lemma StaleIsOvertaken(cacheable: set<string>, stamp: int, gs: seq<Lookup>, g: Lookup) returns (i: nat, j: nat)
    requires Monotone(stamp, gs + [g]) && Served(After(cacheable, stamp, gs), g) < g.mt
    ensures g.rdn != MTIME && Overtaken(cacheable, stamp, gs, g, i, j)
  {
    hide After, InsertedAt, FlushedAt;
    var c := After(cacheable, stamp, gs);
    MonotoneBefore(stamp, gs, g);
    StampIs(cacheable, stamp, gs);
    TableIs(cacheable, stamp, gs, g.rdn);
    i :| LastFill(cacheable, stamp, gs, g.rdn, i);
    j :| LastInsert(cacheable, stamp, gs, j) && c.stamp == gs[j].mt;
  }

  lemma OvertakenIsStale(cacheable: set<string>, stamp: int, gs: seq<Lookup>, g: Lookup, i: nat, j: nat)
    requires Monotone(stamp, gs + [g]) && g.rdn != MTIME && Overtaken(cacheable, stamp, gs, g, i, j)
    ensures Served(After(cacheable, stamp, gs), g) < g.mt
  {
    hide After, InsertedAt, FlushedAt;
    var c := After(cacheable, stamp, gs);
    MonotoneBefore(stamp, gs, g);
    StampIs(cacheable, stamp, gs);
    TableIs(cacheable, stamp, gs, g.rdn);
    var k: nat :| LastInsert(cacheable, stamp, gs, k) && c.stamp == gs[k].mt;
    assert j <= k;
  }

  /** A lookup serves a value older than the context exactly when its name has been overtaken. */
  lemma StaleIff(cacheable: set<string>, stamp: int, gs: seq<Lookup>, g: Lookup)
    requires Monotone(stamp, gs + [g])
    ensures Served(After(cacheable, stamp, gs), g) < g.mt <==>
            g.rdn != MTIME && exists i: nat, j: nat :: Overtaken(cacheable, stamp, gs, g, i, j)
  {
    hide Overtaken, Served, After;
    if Served(After(cacheable, stamp, gs), g) < g.mt {
      var i, j := StaleIsOvertaken(cacheable, stamp, gs, g);
    }
    if i: nat, j: nat :| g.rdn != MTIME && Overtaken(cacheable, stamp, gs, g, i, j) {
      OvertakenIsStale(cacheable, stamp, gs, g, i, j);
    }
  }

  lemma MonotoneBefore(stamp: int, gs: seq<Lookup>, g: Lookup)
    requires Monotone(stamp, gs + [g])
    ensures Monotone(stamp, gs) && stamp <= g.mt && forall i :: 0 <= i < |gs| ==> gs[i].mt <= g.mt
  {
    forall i | 0 <= i < |gs|
      ensures stamp <= gs[i].mt <= g.mt && forall j :: i < j < |gs| ==> gs[i].mt <= gs[j].mt
    {
      assert (gs + [g])[i] == gs[i] && (gs + [g])[|gs|] == g;
      assert forall j :: i < j < |gs| ==> (gs + [g])[j] == gs[j];
    }
    assert (gs + [g])[|gs|] == g;
  }

  /** When the values depend on the modification time alone, a value that is served and is not
      the current one has been overtaken. */
  lemma WrongValueIsOvertaken(cacheable: set<string>, stamp: int, gs: seq<Lookup>, g: Lookup,
                              value: (string, int) -> string)
    requires Monotone(stamp, gs + [g])
    requires value(g.rdn, Served(After(cacheable, stamp, gs), g)) != value(g.rdn, g.mt)
    ensures exists i: nat, j: nat :: Overtaken(cacheable, stamp, gs, g, i, j)
  {
    StaleIff(cacheable, stamp, gs, g);
    ServedIsPast(cacheable, stamp, gs, g);
  }

  lemma ServedIsPast(cacheable: set<string>, stamp: int, gs: seq<Lookup>, g: Lookup)
    requires Monotone(stamp, gs + [g])
    ensures Served(After(cacheable, stamp, gs), g) <= g.mt
  {
    MonotoneBefore(stamp, gs, g);
    TableIs(cacheable, stamp, gs, g.rdn);
    if Hits(After(cacheable, stamp, gs), g) {
      var i: nat :| LastFill(cacheable, stamp, gs, g.rdn, i);
    }
  }

  /** With a single cached name every run is coherent. */
  lemma OneNameIsCoherent(cacheable: set<string>, stamp: int, gs: seq<Lookup>, g: Lookup, n: string)
    requires Monotone(stamp, gs + [g]) && forall h :: h in gs && h.rdn in cacheable ==> h.rdn == n
    ensures Served(After(cacheable, stamp, gs), g) == g.mt
  {
    StaleIff(cacheable, stamp, gs, g);
    ServedIsPast(cacheable, stamp, gs, g);
    forall i: nat, j: nat
      ensures !Overtaken(cacheable, stamp, gs, g, i, j)
    {
      if i < j < |gs| && InsertedAt(cacheable, stamp, gs, i) && InsertedAt(cacheable, stamp, gs, j) {
        assert gs[i] in gs && gs[j] in gs;
        FilledBefore(cacheable, stamp, gs, n, i, j);
      }
    }
  }

  /** A name that is in the table can only be inserted again after a flush. */
  lemma FilledBefore(cacheable: set<string>, stamp: int, gs: seq<Lookup>, n: string, i: nat, j: nat)
    requires i < j < |gs| && gs[j].rdn == n
    ensures !(LastFill(cacheable, stamp, gs, n, i) && InsertedAt(cacheable, stamp, gs, j))
  {
    if LastFill(cacheable, stamp, gs, n, i) {
      forall k | 0 <= k < j
        ensures FlushedAt(cacheable, stamp, gs[..j], k) <==> FlushedAt(cacheable, stamp, gs, k)
        ensures InsertedAt(cacheable, stamp, gs[..j], k) <==> InsertedAt(cacheable, stamp, gs, k)
      {
        PrefixSame(cacheable, stamp, gs, j, k);
      }
      assert gs[..j][i] == gs[i];
      assert LastFill(cacheable, stamp, gs[..j], n, i);
      TableIs(cacheable, stamp, gs[..j], n);
      assert !FlushedAt(cacheable, stamp, gs, j);
      assert n in After(cacheable, stamp, gs[..j]).table;
    }
  }

  /** Two names are enough to go wrong: b is read before a change, a after it, and b is served
      as it was. */
  lemma TwoNamesAreNot(value: (string, int) -> string)
    requires value("b", 1) != value("b", 2)
    ensures var gs := [Lookup("b", 1), Lookup("a", 2)];
            var c := After({"a", "b"}, 0, gs);
            Served(c, Lookup("b", 2)) == 1 && value("b", Served(c, Lookup("b", 2))) != value("b", 2)
  {
    var gs := [Lookup("b", 1), Lookup("a", 2)];
    assert gs[..1] == [Lookup("b", 1)] && [Lookup("b", 1)][..0] == [];
    assert After({"a", "b"}, 0, [Lookup("b", 1)]) == Cache(map["b" := 1], 1);
    assert After({"a", "b"}, 0, gs) == Cache(map["b" := 1, "a" := 2], 2);
  }

  // ---------------------------------------------------------------------------------------
  // The table as objects
  // ---------------------------------------------------------------------------------------

  /** A cached attribute: its value is read when it is first asked for. read notes when. */
  class RDFCacheAttribute {
    var cache: string
    var shouldUpdateRDFStore: bool
    ghost var read: int

    constructor ()
      ensures shouldUpdateRDFStore
    {
      cache, shouldUpdateRDFStore := "", true;
    }

    /** current is what the wrapped attribute would give now. */
    method GetIStream(current: string, ghost now: int) returns (value: string)
      modifies this
      ensures !shouldUpdateRDFStore && value == cache
      ensures if old(shouldUpdateRDFStore) then cache == current && read == now
              else cache == old(cache) && read == old(read)
    {
      if shouldUpdateRDFStore {
        cache, read := current, now;
        shouldUpdateRDFStore := false;
      }
      return cache;
    }
  }

  class AttributeCollection {
    const shouldCache: set<string>
    ghost const value: (string, int) -> string
    var rdfCacheAttributes: map<string, RDFCacheAttribute>
    var rdfCacheMTime: int

    /** Every cached attribute has been read, and holds the value of that time. */
    ghost predicate Valid()
      reads this, rdfCacheAttributes.Values
    {
      forall n :: n in rdfCacheAttributes ==>
        var a := rdfCacheAttributes[n];
        !a.shouldUpdateRDFStore && a.cache == value(n, a.read)
    }

    ghost function State(): Cache
      reads this, rdfCacheAttributes.Values
    {
      Cache(map n | n in rdfCacheAttributes :: rdfCacheAttributes[n].read, rdfCacheMTime)
    }

    constructor (shouldCache: set<string>, ghost value: (string, int) -> string)
      ensures Valid() && State() == Cache(map[], 0) && this.shouldCache == shouldCache && this.value == value
    {
      this.shouldCache, this.value := shouldCache, value;
      rdfCacheAttributes, rdfCacheMTime := map[], 0;
    }

    /** The cached attribute to read the value through, or none if it is read directly. */
    method GetAttributeIfExists(rdn: string, mtime: int) returns (atom: RDFCacheAttribute?)
      requires Valid()
      modifies this
      ensures var g := Lookup(rdn, mtime);
              var c := old(State());
              && rdfCacheMTime == Get(shouldCache, c, g).stamp
              && (if Hits(c, g) then
                    && rdfCacheAttributes == old(rdfCacheAttributes) && atom == old(rdfCacheAttributes)[rdn]
                  else if Inserts(shouldCache, c, g) then
                    && atom != null && fresh(atom) && atom.shouldUpdateRDFStore
                    && rdfCacheAttributes == (if Flushes(c, g) then map[] else old(rdfCacheAttributes))[rdn := atom]
                  else
                    && atom == null
                    && rdfCacheAttributes == if Flushes(c, g) then map[] else old(rdfCacheAttributes))
    {
      if rdn != MTIME {
        if rdn in rdfCacheAttributes {
          if mtime <= rdfCacheMTime {
            return rdfCacheAttributes[rdn];
          }
          rdfCacheAttributes := map[];
          rdfCacheMTime := mtime;
        }
      }
      if rdn in shouldCache && rdn !in rdfCacheAttributes {
        atom := new RDFCacheAttribute();
        rdfCacheAttributes := rdfCacheAttributes[rdn := atom];
        rdfCacheMTime := mtime;
        return;
      }
      return null;
    }

    /** A lookup whose value is read before the context changes again. */
    method Read(rdn: string, mtime: int, current: string) returns (v: string)
      requires Valid() && current == value(rdn, mtime)
      modifies this, rdfCacheAttributes.Values
      ensures Valid() && State() == Get(shouldCache, old(State()), Lookup(rdn, mtime))
      ensures v == value(rdn, Served(old(State()), Lookup(rdn, mtime)))
    {
      var atom := GetAttributeIfExists(rdn, mtime);
      if atom == null {
        return current;
      }
      ghost var g := Lookup(rdn, mtime);
      ghost var c := old(State());
      v := atom.GetIStream(current, mtime);
      if Hits(c, g) {
        assert State().table == c.table;
      } else {
        assert State().table == (if Flushes(c, g) then map[] else c.table)[rdn := mtime];
      }
    }
  }
}
