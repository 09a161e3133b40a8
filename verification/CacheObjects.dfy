/** The cache and its objects as they are: reference counts on the objects, a signal to the
    cache, and the two structures the cache keeps. Each method is one step of ObjectCache. */
module CacheObjects {
  import Spec = ObjectCache

  class CacheHandlable<Key(==)> {
    var refCount: int
    // the slot connected to the only-in-cache signal
    var slot: Cache?<Key>

    constructor ()
      ensures refCount == 1 && slot == null
    {
      refCount, slot := 1, null;
    }

    method AddRef()
      modifies this`refCount
      ensures refCount == old(refCount) + 1
    {
      refCount := refCount + 1;
    }

    method Release() returns (ret: int)
      modifies this`refCount, (if slot == null then {} else {slot})`collectable,
               (if slot == null then {} else {slot})`log
      ensures ret == refCount == old(refCount) - 1
      ensures slot != null ==>
                if ret == 1 then slot.collectable == old(slot.collectable) + [this] &&
                                 slot.log == old(slot.log) + [Spec.Synced(this)]
                else slot.collectable == old(slot.collectable) && slot.log == old(slot.log)
    {
      refCount := refCount - 1;
      ret := refCount;
      // the number of caches an object is in is always one
      if ret == 1 && slot != null {
        slot.OnGenericCloseSignal(this);
      }
    }
  }

  class Cache<Key(==)> {
    var m: map<Key, CacheHandlable<Key>>
    var collectable: seq<CacheHandlable<Key>>
    var maxCollectableSize: int

    // what the counts are, the clients' ledger, and the history
    ghost var refs: map<CacheHandlable<Key>, int>
    ghost var ext: map<CacheHandlable<Key>, nat>
    ghost var born: set<CacheHandlable<Key>>
    ghost var keyOf: map<CacheHandlable<Key>, Key>
    ghost var latest: map<Key, CacheHandlable<Key>>
    ghost var log: seq<Spec.Event<CacheHandlable<Key>>>

    ghost function State(): Spec.State<Key, CacheHandlable<Key>>
      reads this
    {
      Spec.State(m, collectable, maxCollectableSize, refs, ext, born, keyOf, latest, log)
    }

    /** The objects carry the counts, and the signals of those that were put lead here. */
    ghost predicate Faithful()
      reads this, refs.Keys
    {
      forall o :: o in refs ==> o.refCount == refs[o] && o.slot == if o in keyOf then this else null
    }

    ghost predicate Valid()
      reads this, refs.Keys
    {
      Spec.Inv(State()) && Faithful()
    }

    constructor ()
      ensures Valid() && State() == Spec.Empty()
    {
      m, collectable, maxCollectableSize := map[], [], 100;
      refs, ext, born, keyOf, latest, log := map[], map[], {}, map[], map[], [];
    }

    method OnGenericCloseSignal(v: CacheHandlable<Key>)
      modifies this`collectable, this`log
      ensures collectable == old(collectable) + [v] && log == old(log) + [Spec.Synced(v)]
    {
      collectable := collectable + [v];
      log := log + [Spec.Synced(v)];
    }

    // -------------------------------------------------------------------------------------
    // What clients do with handles
    // -------------------------------------------------------------------------------------

    method Create() returns (o: CacheHandlable<Key>)
      requires Faithful() && keyOf.Keys <= born
      modifies this
      ensures fresh(o) && State() == Spec.New(old(State()), o)
      ensures o !in old(born) ==> Faithful()
    {
      o := new CacheHandlable();
      refs, ext, born, log := refs[o := 1], ext[o := 1], born + {o}, log + [Spec.Used(o)];
    }

    method CopyHandle(o: CacheHandlable<Key>)
      requires Faithful() && o in refs && o in ext
      modifies this, o`refCount
      ensures Faithful() && State() == Spec.Copy(old(State()), o)
    {
      o.AddRef();
      refs, ext, log := refs[o := refs[o] + 1], ext[o := ext[o] + 1], log + [Spec.Used(o)];
    }

    method DropHandle(o: CacheHandlable<Key>)
      requires Faithful() && o in refs && o in ext && ext[o] > 0
      modifies this, o`refCount
      ensures Faithful() && State() == Spec.Drop(old(State()), o)
    {
      assert o.refCount == refs[o] && o.slot == if o in keyOf then this else null;
      log := log + [Spec.Released(o)];
      var ret := o.Release();
      refs, ext := if ret == 0 then refs - {o} else refs[o := ret], if ret == 0 then ext - {o} else ext[o := ext[o] - 1];
    }

    // -------------------------------------------------------------------------------------
    // The cache's own operations
    // -------------------------------------------------------------------------------------

    /** Takes the first queue entry that is h off the queue. */
    method Purge(h: CacheHandlable<Key>)
      modifies this`collectable
      ensures collectable == Spec.RemoveFirst(old(collectable), h)
    {
      ghost var q := collectable;
      var i := 0;
      while i < |collectable|
        invariant 0 <= i <= |q| && collectable == q
        invariant Spec.RemoveFirst(q, h) == q[..i] + Spec.RemoveFirst(q[i..], h)
      {
        assert q[i..][1..] == q[i + 1..];
        if collectable[i] == h {
          collectable := collectable[..i] + collectable[i + 1..];
          return;
        }
        assert q[..i] + [q[i]] == q[..i + 1];
        i := i + 1;
      }
      assert q[..i] == q;
    }

    method Get(k: Key) returns (v: CacheHandlable?<Key>)
      requires Faithful()
      requires k in m ==> m[k] in refs && m[k] in ext
      modifies this, refs.Keys`refCount
      ensures Faithful() && State() == Spec.Get(old(State()), k)
      ensures v == if k in old(m) then old(m)[k] else null
    {
      if k !in m {
        return null;
      }
      v := m[k];
      if v.refCount != 0 {
        Purge(v);
      }
      CopyHandle(v);
    }

    /** Erases every map entry that holds h, each of which gives up its handle. */
    method EraseEntries(h: CacheHandlable<Key>)
      requires h.refCount == 1 && (h.slot == this || h.slot == null)
      requires exists k0 :: k0 in m && m[k0] == h && forall k :: k in m && m[k] == h ==> k == k0
      modifies this`m, this`collectable, this`log, h`refCount
      ensures m == map k | k in old(m) && old(m)[k] != h :: old(m)[k]
      ensures h.refCount == 0 && collectable == old(collectable) && log == old(log)
    {
      ghost var k0 :| k0 in m && m[k0] == h && forall k :: k in m && m[k] == h ==> k == k0;
      ghost var m0 := m;
      var todo := m.Keys;
      while todo != {}
        invariant todo <= m.Keys <= m0.Keys && forall k :: k in m ==> m[k] == m0[k]
        invariant forall k :: k in m0 && (k in todo || m0[k] != h) ==> k in m
        invariant forall k :: k in m && k !in todo ==> m0[k] != h
        invariant h.refCount == if k0 in todo then 1 else 0
        invariant h.slot == old(h.slot) && collectable == old(collectable) && log == old(log)
      {
        var k :| k in todo;
        todo := todo - {k};
        if m[k] == h {
          m := m - {k};
          var ret := h.Release();
        }
      }
    }

    method MaybeCollect(count0: nat)
      requires Valid()
      modifies this, refs.Keys`refCount
      ensures Valid() && State() == Spec.MaybeCollect(old(State()), count0)
      ensures refs.Keys <= old(refs.Keys)
    {
      hide Spec.Inv, Faithful;
      ghost var s := State();
      ghost var all := refs.Keys;
      var count := count0;
      if count == 0 {
        if 0 <= maxCollectableSize <= |collectable| {
          count := |collectable| - maxCollectableSize;
        }
      }
      if count > 0 && collectable != [] {
        count := if count < |collectable| then count else |collectable|;
        for i := 0 to count
          invariant Valid() && refs.Keys <= all && count - i <= |collectable|
          invariant Spec.CollectSome(State(), count - i) == Spec.CollectSome(s, count)
        {
          CollectValid();
        }
      }
    }

    /** h is held by one map entry and by nothing else. */
    ghost predicate Idle(h: CacheHandlable<Key>)
      reads this
    {
      h in refs && refs[h] == 1 && h in keyOf && keyOf[h] in m && m[keyOf[h]] == h &&
      forall k :: k in m && m[k] == h ==> k == keyOf[h]
    }

    lemma FrontIsIdle(s: Spec.State<Key, CacheHandlable<Key>>)
      requires s == State() && Spec.Inv(s) && s.queue != []
      ensures Idle(s.queue[0])
    {
      assert s.queue[0] in s.queue;
    }

    /** One turn of the collection loop. */
    method CollectOne()
      requires Faithful() && collectable != [] && Idle(collectable[0])
      modifies this, refs.Keys`refCount
      ensures Faithful() && State() == Spec.CollectOne(old(State()))
      ensures refs.Keys <= old(refs.Keys)
    {
      var h := collectable[0];
      collectable := collectable[1..];
      if h.refCount > 1 {
        // it was referenced again through the cache
        return;
      }
      assert keyOf[h] in m;
      EraseEntries(h);
      refs, ext, log := refs - {h}, ext - {h}, log + [Spec.Evicted(h)];
    }

    method CollectValid()
      requires Valid() && collectable != []
      modifies this, refs.Keys`refCount
      ensures Valid() && State() == Spec.CollectOne(old(State()))
      ensures refs.Keys <= old(refs.Keys) && |collectable| == old(|collectable|) - 1
    {
      Spec.CollectOneKeeps(State());
      FrontIsIdle(State());
      CollectOne();
    }

    method TimerF()
      requires Valid()
      modifies this, refs.Keys`refCount
      ensures Valid() && State() == Spec.MaybeCollect(old(State()), |old(collectable)|)
    {
      MaybeCollect(|collectable|);
    }

    method Put(k: Key, v: CacheHandlable?<Key>)
      requires Valid()
      requires v != null ==> Spec.Allowed(State(), Spec.Put(k, v))
      modifies this, refs.Keys
      ensures Faithful()
      ensures State() == if v == null then old(State()) else Spec.Step(old(State()), Spec.Put(k, v))
    {
      if v == null {
        return;
      }
      Spec.CollectKeeps(State(), 0);
      MaybeCollect(0);
      PutNoCollect(k, v);
    }

    method PutNoCollect(k: Key, v: CacheHandlable?<Key>)
      requires Faithful() && (v != null ==> v in refs && v !in keyOf && k !in m)
      modifies this, refs.Keys
      ensures Faithful()
      ensures State() == if v == null then old(State()) else Spec.Bind(old(State()), k, v)
    {
      if v == null {
        return;
      }
      v.slot := this;
      v.AddRef();
      m := m[k := v];
      refs, keyOf, latest := refs[v := refs[v] + 1], keyOf[v := k], latest[k := v];
    }

    method SetMaxCollectableSize(v: int)
      requires Faithful()
      modifies this`maxCollectableSize
      ensures Faithful() && State() == old(State()).(max := v)
    {
      maxCollectableSize := v;
    }

    /** Any call a lawful client makes on existing objects: the objects and the two structures
        stay valid, and move exactly as the state machine does. */
    method Perform(c: Spec.Call<Key, CacheHandlable<Key>>)
      requires Valid() && !c.Create? && Spec.Allowed(State(), c)
      modifies this, refs.Keys
      ensures Valid() && State() == Spec.Step(old(State()), c)
    {
      Spec.StepKeeps(State(), c);
      match c {
        case CopyHandle(o) => CopyHandle(o);
        case DropHandle(o) => DropHandle(o);
        case Find(k) => var v := Get(k);
        case Put(k, o) => Put(k, o);
        case PutNoCollect(k, o) => PutNoCollect(k, o);
        case Timer => TimerF();
        case SetMax(v) => SetMaxCollectableSize(v);
      }
    }
  }
}
