/** The reference-counted object cache, as a state machine over the calls its clients make. */
module ObjectCache {
  import opened Options

  /** What happens to an object, in the order it happens. Used is a new external handle. */
  datatype Event<O> = Used(o: O) | Released(o: O) | Synced(o: O) | Evicted(o: O)

  /** m, queue and max are the cache's own fields and refs the reference counts of the live
      objects; ext is the clients' ledger of the handles they hold. The rest is history:
      every object there has been, the key each was put under (its signal is connected from
      then on), and the last value put under each key. */
  datatype State<K, O> = State(
    m: map<K, O>,
    queue: seq<O>,
    max: int,
    refs: map<O, int>,
    ext: map<O, nat>,
    born: set<O>,
    keyOf: map<O, K>,
    latest: map<K, O>,
    log: seq<Event<O>>)

  function Empty<K, O>(): (s: State<K, O>)
    ensures Inv(s)
  {
    State(map[], [], 100, map[], map[], {}, map[], map[], [])
  }

  // ---------------------------------------------------------------------------------------
  // The steps
  // ---------------------------------------------------------------------------------------

  /** The only-in-cache signal of a connected object. */
  function OnlyInCache<K, O>(s: State<K, O>, o: O): State<K, O> {
    s.(queue := s.queue + [o], log := s.log + [Synced(o)])
  }

  /** A client lets one of its handles go. */
  function Drop<K, O>(s: State<K, O>, o: O): State<K, O>
    requires o in s.refs && o in s.ext && s.ext[o] > 0
  {
    var ret := s.refs[o] - 1;
    var s1 := s.(log := s.log + [Released(o)]);
    if ret == 0 then s1.(refs := s.refs - {o}, ext := s.ext - {o})
    else
      var s2 := s1.(refs := s.refs[o := ret], ext := s.ext[o := s.ext[o] - 1]);
      if ret == 1 && o in s.keyOf then OnlyInCache(s2, o) else s2
  }

  /** A client copies a handle it holds. */
  function Copy<K, O>(s: State<K, O>, o: O): State<K, O>
    requires o in s.refs && o in s.ext
  {
    s.(refs := s.refs[o := s.refs[o] + 1], ext := s.ext[o := s.ext[o] + 1], log := s.log + [Used(o)])
  }

  function New<K, O>(s: State<K, O>, o: O): State<K, O> {
    s.(refs := s.refs[o := 1], ext := s.ext[o := 1], born := s.born + {o}, log := s.log + [Used(o)])
  }

  function RemoveFirst<O(==)>(q: seq<O>, o: O): seq<O> {
    if q == [] then [] else if q[0] == o then q[1..] else [q[0]] + RemoveFirst(q[1..], o)
  }

  function Lookup<K, O>(s: State<K, O>, k: K): Option<O> {
    if k in s.m then Some(s.m[k]) else None
  }

  /** A lookup that hits takes the object off the collectable queue and hands out a handle. */
  function Get<K, O(==)>(s: State<K, O>, k: K): State<K, O>
    requires k in s.m ==> s.m[k] in s.refs && s.m[k] in s.ext
  {
    if k !in s.m then s
    else if s.refs[s.m[k]] != 0 then Copy(s.(queue := RemoveFirst(s.queue, s.m[k])), s.m[k])
    else Copy(s, s.m[k])
  }

  function Bind<K, O>(s: State<K, O>, k: K, o: O): State<K, O>
    requires o in s.refs
  {
    s.(m := s.m[k := o], refs := s.refs[o := s.refs[o] + 1],
       keyOf := s.keyOf[o := k], latest := s.latest[k := o])
  }

  /** The object at the front of the queue goes, with the entry that holds it, unless it is in use again. */
  function CollectOne<K, O(==)>(s: State<K, O>): State<K, O>
    requires s.queue != []
  {
    var h := s.queue[0];
    var s1 := s.(queue := s.queue[1..]);
    if h in s.refs && s.refs[h] > 1 then s1
    else s1.(m := map k | k in s.m && s.m[k] != h :: s.m[k],
             refs := s.refs - {h}, ext := s.ext - {h}, log := s.log + [Evicted(h)])
  }

  predicate Distinct<O(==)>(q: seq<O>) {
    forall i, j :: 0 <= i < j < |q| ==> q[i] != q[j]
  }

  function CollectSome<K, O(==)>(s: State<K, O>, n: nat): State<K, O>
    requires n <= |s.queue|
    decreases n
  {
    if n == 0 then s else CollectSome(CollectOne(s), n - 1)
  }

  /** How many objects a collection looks at; a negative limit never matches, because the
      source compares it as an unsigned number. */
  function CollectCount<K, O>(s: State<K, O>, count: nat): nat {
    var n := if count == 0 && 0 <= s.max <= |s.queue| then |s.queue| - s.max else count;
    if n < |s.queue| then n else |s.queue|
  }

  function MaybeCollect<K, O(==)>(s: State<K, O>, count: nat): State<K, O> {
    CollectSome(s, CollectCount(s, count))
  }

  // ---------------------------------------------------------------------------------------
  // The invariant
  // ---------------------------------------------------------------------------------------

  /** Every count is the clients' handles plus the one map entry of an object that was put;
      such an object stays in the map as long as it lives. */
  ghost predicate Counted<K, O>(s: State<K, O>) {
    && s.refs.Keys == s.ext.Keys
    && s.refs.Keys <= s.born && s.keyOf.Keys <= s.born
    && (forall k :: k in s.m ==> s.m[k] in s.refs && s.m[k] in s.keyOf && s.keyOf[s.m[k]] == k)
    && (forall o :: o in s.refs && o in s.keyOf ==> s.keyOf[o] in s.m && s.m[s.keyOf[o]] == o)
    && (forall o :: o in s.refs ==> s.refs[o] >= 1 && s.refs[o] == s.ext[o] + if o in s.keyOf then 1 else 0)
  }

  /** The queue holds exactly the cached objects nobody else refers to, each once. */
  ghost predicate QueueExact<K, O>(s: State<K, O>) {
    && Distinct(s.queue)
    && (forall o :: o in s.queue ==> o in s.ext && o in s.keyOf && s.ext[o] == 0)
    && (forall o :: o in s.ext && o in s.keyOf && s.ext[o] == 0 ==> o in s.queue)
  }

  /** The cache answers from the last put, and forgets a put only once its object is gone. */
  ghost predicate RefinesMap<K, O>(s: State<K, O>) {
    && (forall k :: k in s.m ==> k in s.latest && s.latest[k] == s.m[k])
    && (forall k :: k in s.latest && k !in s.m ==> s.latest[k] in s.born && s.latest[k] !in s.refs)
  }

  /** One past the last event about o, 0 when there is none. */
  function LastAt<O(==)>(log: seq<Event<O>>, o: O): (n: nat)
    ensures n <= |log|
    ensures n > 0 ==> log[n - 1].o == o
    ensures forall i :: n <= i < |log| ==> log[i].o != o
  {
    if log == [] then 0
    else if log[|log| - 1].o == o then |log|
    else LastAt(log[..|log| - 1], o)
  }

  /** A reference queue computed from the history alone: an object enters at the back when it
      is synced and leaves at whatever happens to it next. */
  function QueueOf<O(==)>(log: seq<Event<O>>): seq<O> {
    if log == [] then []
    else
      var e := log[|log| - 1];
      var q := RemoveFirst(QueueOf(log[..|log| - 1]), e.o);
      if e.Synced? then q + [e.o] else q
  }

  /** Between an object's last use and its eviction it was synced. */
  ghost predicate SyncedBefore<O>(log: seq<Event<O>>, i: nat)
    requires i < |log| && log[i].Evicted?
  {
    var n := LastAt(log[..i], log[i].o);
    n > 0 && log[n - 1] == Synced(log[i].o)
  }

  ghost predicate EvictionsSynced<O>(log: seq<Event<O>>) {
    forall i :: 0 <= i < |log| && log[i].Evicted? ==> SyncedBefore(log, i)
  }

  ghost predicate Inv<K, O>(s: State<K, O>) {
    Counted(s) && QueueExact(s) && RefinesMap(s) && s.queue == QueueOf(s.log) && EvictionsSynced(s.log)
  }

  // ---------------------------------------------------------------------------------------
  // Facts about queues and histories
  // ---------------------------------------------------------------------------------------

  lemma {:induction false} RemoveAbsent<O>(q: seq<O>, o: O)
    requires o !in q
    ensures RemoveFirst(q, o) == q
    decreases |q|
  {
    if q != [] {
      assert forall x :: x in q[1..] ==> x in q;
      RemoveAbsent(q[1..], o);
    }
  }

  lemma {:induction false} RemoveFirstAt<O>(q: seq<O>, o: O) returns (i: nat)
    requires o in q
    ensures i < |q| && q[i] == o && RemoveFirst(q, o) == q[..i] + q[i + 1..]
    decreases |q|
  {
    if q[0] == o {
      i := 0;
    } else {
      var j := RemoveFirstAt(q[1..], o);
      i := j + 1;
    }
  }

  lemma RemoveKeepsDistinct<O>(q: seq<O>, o: O)
    requires Distinct(q)
    ensures Distinct(RemoveFirst(q, o))
    ensures forall x :: x in RemoveFirst(q, o) <==> x in q && x != o
  {
    if o in q {
      var i := RemoveFirstAt(q, o);
      var r := q[..i] + q[i + 1..];
      forall x
        ensures x in r <==> x in q && x != o
      {
        if x in q && x != o {
          var k :| 0 <= k < |q| && q[k] == x;
          assert x == r[if k < i then k else k - 1];
        }
      }
    } else {
      RemoveAbsent(q, o);
    }
  }

  lemma QueueOfSnoc<O>(log: seq<Event<O>>, e: Event<O>)
    ensures var q := RemoveFirst(QueueOf(log), e.o);
            QueueOf(log + [e]) == if e.Synced? then q + [e.o] else q
  {
    assert (log + [e])[..|log|] == log;
  }

  lemma LastAtSnoc<O>(log: seq<Event<O>>, e: Event<O>, o: O)
    ensures LastAt(log + [e], o) == if e.o == o then |log| + 1 else LastAt(log, o)
  {
    assert (log + [e])[..|log|] == log;
  }

  predicate ByLast<O(==)>(log: seq<Event<O>>, q: seq<O>) {
    forall i, j :: 0 <= i < j < |q| ==> LastAt(log, q[i]) < LastAt(log, q[j])
  }

  /** The last thing that happened to o was that it was synced. */
  predicate LastSynced<O(==)>(log: seq<Event<O>>, o: O) {
    var n := LastAt(log, o);
    n > 0 && log[n - 1] == Synced(o)
  }

  /** The reference queue holds exactly the objects that were synced last of all, in that order. */
  lemma {:induction false} QueueOfMeaning<O>(log: seq<Event<O>>)
    ensures ByLast(log, QueueOf(log)) && Distinct(QueueOf(log))
    ensures forall o :: o in QueueOf(log) <==> LastSynced(log, o)
    decreases |log|
  {
    if log != [] {
      var init, e := log[..|log| - 1], log[|log| - 1];
      QueueOfMeaning(init);
      assert log == init + [e];
      QueueOfStep(init, e);
    }
  }

  lemma QueueOfStep<O>(log: seq<Event<O>>, e: Event<O>)
    requires ByLast(log, QueueOf(log)) && Distinct(QueueOf(log))
    requires forall o :: o in QueueOf(log) <==> LastSynced(log, o)
    ensures ByLast(log + [e], QueueOf(log + [e])) && Distinct(QueueOf(log + [e]))
    ensures forall o :: o in QueueOf(log + [e]) <==> LastSynced(log + [e], o)
  {
    var q := RemoveFirst(QueueOf(log), e.o);
    QueueOfSnoc(log, e);
    RemoveKeepsDistinct(QueueOf(log), e.o);
    ByLastRemove(log, QueueOf(log), e.o);
    ByLastLater(log, e, q);
    LastAtSnoc(log, e, e.o);
    if e.Synced? {
      ByLastSnoc(log + [e], q, e.o);
    }
    forall o
      ensures o in QueueOf(log + [e]) <==> LastSynced(log + [e], o)
    {
      LastAtSnoc(log, e, o);
      if o != e.o {
        assert o in q <==> o in QueueOf(log);
      }
    }
  }

  lemma ByLastRemove<O>(log: seq<Event<O>>, q: seq<O>, o: O)
    requires ByLast(log, q)
    ensures ByLast(log, RemoveFirst(q, o))
  {
    if o in q {
      var i := RemoveFirstAt(q, o);
    } else {
      RemoveAbsent(q, o);
    }
  }

  lemma ByLastLater<O>(log: seq<Event<O>>, e: Event<O>, q: seq<O>)
    requires ByLast(log, q) && e.o !in q
    ensures ByLast(log + [e], q)
  {
    forall o | o in q
      ensures LastAt(log + [e], o) == LastAt(log, o)
    {
      LastAtSnoc(log, e, o);
    }
  }

  lemma ByLastSnoc<O>(log: seq<Event<O>>, q: seq<O>, o: O)
    requires ByLast(log, q) && Distinct(q) && o !in q && LastAt(log, o) == |log| > 0
    ensures ByLast(log, q + [o]) && Distinct(q + [o])
  {
    forall i | 0 <= i < |q|
      ensures LastAt(log, q[i]) < |log|
    {
      assert q[i] in q;
    }
  }

  /** Appending an event that is no eviction, or the eviction of an object synced last of all. */
  lemma EvictionsSnoc<O>(log: seq<Event<O>>, e: Event<O>)
    requires EvictionsSynced(log)
    requires e.Evicted? ==> LastSynced(log, e.o)
    ensures EvictionsSynced(log + [e])
  {
    var all := log + [e];
    forall i | 0 <= i < |all| && all[i].Evicted?
      ensures SyncedBefore(all, i)
    {
      if i < |log| {
        assert all[..i] == log[..i];
        assert SyncedBefore(log, i);
      } else {
        assert all[..i] == log;
      }
    }
  }

  // ---------------------------------------------------------------------------------------
  // Every step keeps the invariant
  // ---------------------------------------------------------------------------------------

  lemma CopyKeeps<K, O>(s: State<K, O>, o: O)
    requires Inv(s) && o in s.ext && s.ext[o] > 0
    ensures Inv(Copy(s, o))
  {
    QueueOfSnoc(s.log, Used(o));
    RemoveAbsent(s.queue, o);
    EvictionsSnoc(s.log, Used(o));
  }

  lemma NewKeeps<K, O>(s: State<K, O>, o: O)
    requires Inv(s) && o !in s.born
    ensures Inv(New(s, o))
  {
    QueueOfSnoc(s.log, Used(o));
    RemoveAbsent(s.queue, o);
    EvictionsSnoc(s.log, Used(o));
  }

  lemma DropKeeps<K, O>(s: State<K, O>, o: O)
    requires Inv(s) && o in s.ext && s.ext[o] > 0
    ensures Inv(Drop(s, o))
  {
    DropCounted(s, o);
    DropLog(s, o);
    if s.refs[o] == 2 && o in s.keyOf {
      QueuePushed(s, Drop(s, o), o);
    } else {
      DropQueue(s, o);
    }
  }

  lemma DropLog<K, O>(s: State<K, O>, o: O)
    requires o in s.refs && o in s.ext && s.ext[o] > 0
    requires o !in s.queue && s.queue == QueueOf(s.log) && EvictionsSynced(s.log)
    ensures Drop(s, o).queue == QueueOf(Drop(s, o).log) && EvictionsSynced(Drop(s, o).log)
  {
    var log1 := s.log + [Released(o)];
    QueueOfSnoc(s.log, Released(o));
    RemoveAbsent(s.queue, o);
    EvictionsSnoc(s.log, Released(o));
    QueueOfSnoc(log1, Synced(o));
    EvictionsSnoc(log1, Synced(o));
  }

  lemma DropQueue<K, O>(s: State<K, O>, o: O)
    requires Counted(s) && QueueExact(s) && o in s.ext && s.ext[o] > 0
    requires !(s.refs[o] == 2 && o in s.keyOf)
    ensures QueueExact(Drop(s, o))
  {
  }

  lemma DropCounted<K, O>(s: State<K, O>, o: O)
    requires Counted(s) && RefinesMap(s) && o in s.ext && s.ext[o] > 0
    ensures Counted(Drop(s, o)) && RefinesMap(Drop(s, o))
  {
  }

  lemma QueuePushed<K, O>(s: State<K, O>, s': State<K, O>, o: O)
    requires QueueExact(s) && o !in s.queue && o in s.ext && o in s.keyOf
    requires s'.queue == s.queue + [o] && s'.ext == s.ext[o := 0] && s'.keyOf == s.keyOf
    ensures QueueExact(s')
  {
  }

  lemma GetKeeps<K, O>(s: State<K, O>, k: K)
    requires Inv(s)
    ensures Inv(Get(s, k))
  {
    if k in s.m {
      var s' := Copy(s.(queue := RemoveFirst(s.queue, s.m[k])), s.m[k]);
      assert Get(s, k) == s';
      UseKeeps(s, s', s.m[k]);
    }
  }

  lemma UseKeeps<K, O>(s: State<K, O>, s': State<K, O>, o: O)
    requires Inv(s) && o in s.ext && o in s.keyOf
    requires s' == Copy(s.(queue := RemoveFirst(s.queue, o)), o)
    ensures Inv(s')
  {
    hide QueueExact, RefinesMap, QueueOf, EvictionsSynced, RemoveFirst;
    UseQueue(s, s', o);
    UseCounted(s, s', o);
    UseLog(s.log, o);
  }

  lemma UseLog<O>(log: seq<Event<O>>, o: O)
    requires EvictionsSynced(log)
    ensures RemoveFirst(QueueOf(log), o) == QueueOf(log + [Used(o)])
    ensures EvictionsSynced(log + [Used(o)])
  {
    QueueOfSnoc(log, Used(o));
    EvictionsSnoc(log, Used(o));
  }

  lemma UseCounted<K, O>(s: State<K, O>, s': State<K, O>, o: O)
    requires Counted(s) && RefinesMap(s) && o in s.ext
    requires s' == Copy(s, o).(queue := s'.queue)
    ensures Counted(s') && RefinesMap(s')
  {
  }

  lemma UseQueue<K, O>(s: State<K, O>, s': State<K, O>, o: O)
    requires QueueExact(s) && o in s.ext && o in s.keyOf
    requires s'.queue == RemoveFirst(s.queue, o) && s'.ext == s.ext[o := s.ext[o] + 1] && s'.keyOf == s.keyOf
    ensures QueueExact(s')
  {
    RemoveKeepsDistinct(s.queue, o);
  }

  lemma CollectOneKeeps<K, O>(s: State<K, O>)
    requires Inv(s) && s.queue != []
    ensures Inv(CollectOne(s))
    ensures Collected(s, CollectOne(s), 1)
  {
    var h := s.queue[0];
    assert h in s.queue;
    QueueOfMeaning(s.log);
    QueueOfSnoc(s.log, Evicted(h));
    RemoveKeepsDistinct(s.queue, h);
    EvictionsSnoc(s.log, Evicted(h));
  }

  /** From s to s' the first n objects of the queue have gone, and nothing else. */
  ghost predicate Collected<K, O>(s: State<K, O>, s': State<K, O>, n: nat) {
    && n <= |s.queue| && s'.queue == s.queue[n..]
    && s'.max == s.max && s'.keyOf == s.keyOf && s'.m.Keys <= s.m.Keys
    && (forall o :: o in s'.ext ==> o in s.ext && o !in s.queue[..n] && s'.ext[o] == s.ext[o])
    && (forall o :: o in s.ext && o !in s.queue[..n] ==> o in s'.ext)
  }

  lemma {:induction false} CollectSomeKeeps<K, O>(s: State<K, O>, n: nat)
    requires Inv(s) && n <= |s.queue|
    ensures Inv(CollectSome(s, n)) && Collected(s, CollectSome(s, n), n)
    decreases n
  {
    if n == 0 {
      CollectNone(s);
    } else {
      CollectOneKeeps(s);
      var s1 := CollectOne(s);
      assert |s1.queue| == |s.queue| - 1;
      CollectSomeKeeps(s1, n - 1);
      CollectCompose(s, s1, CollectSome(s1, n - 1), n);
    }
  }

  lemma CollectNone<K, O>(s: State<K, O>)
    ensures Collected(s, s, 0) && CollectSome(s, 0) == s
  {
    assert s.queue[0..] == s.queue && s.queue[..0] == [];
  }

  lemma CollectCompose<K, O>(s: State<K, O>, s1: State<K, O>, s2: State<K, O>, n: nat)
    requires n > 0 && Collected(s, s1, 1) && Collected(s1, s2, n - 1)
    ensures Collected(s, s2, n)
  {
    TakeTail(s.queue, n);
    assert forall o :: o in s.queue[..1] <==> o == s.queue[0];
  }

  lemma TakeTail<O>(q: seq<O>, n: nat)
    requires 0 < n <= |q|
    ensures q[1..][n - 1..] == q[n..]
    ensures forall o :: o in q[..n] <==> o == q[0] || o in q[1..][..n - 1]
  {
    assert q[..n] == [q[0]] + q[1..][..n - 1];
  }

  lemma BindKeeps<K, O>(s: State<K, O>, k: K, o: O)
    requires Inv(s) && o in s.ext && s.ext[o] > 0 && k !in s.m && o !in s.keyOf
    ensures Inv(Bind(s, k, o))
  {
    BindCounted(s, k, o);
  }

  lemma BindCounted<K, O>(s: State<K, O>, k: K, o: O)
    requires Counted(s) && RefinesMap(s) && o in s.ext && k !in s.m && o !in s.keyOf
    ensures Counted(Bind(s, k, o)) && RefinesMap(Bind(s, k, o))
  {
  }

  // ---------------------------------------------------------------------------------------
  // Runs of client calls
  // ---------------------------------------------------------------------------------------

  datatype Call<K, O> =
    | Create(o: O)
    | CopyHandle(o: O)
    | DropHandle(o: O)
    | Find(k: K)
    | Put(k: K, o: O)
    | PutNoCollect(k: K, o: O)
    | Timer
    | SetMax(v: int)

  /** What clients are asked to respect: only handles they hold are copied, dropped or put, no
      bound key is overwritten and no object is put twice. */
  ghost predicate Allowed<K, O>(s: State<K, O>, c: Call<K, O>) {
    match c
    case Create(o) => o !in s.born
    case CopyHandle(o) => o in s.ext && s.ext[o] > 0
    case DropHandle(o) => o in s.ext && s.ext[o] > 0
    case Put(k, o) => o in s.ext && s.ext[o] > 0 && k !in s.m && o !in s.keyOf
    case PutNoCollect(k, o) => o in s.ext && s.ext[o] > 0 && k !in s.m && o !in s.keyOf
    case _ => true
  }

  lemma CollectKeeps<K, O>(s: State<K, O>, count: nat)
    requires Inv(s)
    ensures Inv(MaybeCollect(s, count))
    ensures var s', n := MaybeCollect(s, count), CollectCount(s, count);
            s'.queue == s.queue[n..] && s'.max == s.max && s'.m.Keys <= s.m.Keys && s'.keyOf == s.keyOf &&
            forall o :: o in s.ext && s.ext[o] > 0 ==> o in s'.ext && s'.ext[o] == s.ext[o]
  {
    CollectSomeKeeps(s, CollectCount(s, count));
    assert forall o :: o in s.queue[..CollectCount(s, count)] ==> o in s.queue;
  }

  function Step<K, O(==)>(s: State<K, O>, c: Call<K, O>): State<K, O>
    requires Inv(s) && Allowed(s, c)
  {
    match c
    case Create(o) => New(s, o)
    case CopyHandle(o) => Copy(s, o)
    case DropHandle(o) => Drop(s, o)
    case Find(k) => Get(s, k)
    case Put(k, o) =>
      CollectKeeps(s, 0);
      Bind(MaybeCollect(s, 0), k, o)
    case PutNoCollect(k, o) => Bind(s, k, o)
    case Timer => MaybeCollect(s, |s.queue|)
    case SetMax(v) => s.(max := v)
  }

  lemma StepKeeps<K, O>(s: State<K, O>, c: Call<K, O>)
    requires Inv(s) && Allowed(s, c)
    ensures Inv(Step(s, c))
  {
    match c
    case Create(o) => NewKeeps(s, o);
    case CopyHandle(o) => CopyKeeps(s, o);
    case DropHandle(o) => DropKeeps(s, o);
    case Find(k) => GetKeeps(s, k);
    case Put(k, o) =>
      CollectKeeps(s, 0);
      BindKeeps(MaybeCollect(s, 0), k, o);
    case PutNoCollect(k, o) => BindKeeps(s, k, o);
    case Timer => CollectKeeps(s, |s.queue|);
    case SetMax(v) =>
  }

  /** Every call of the run respects the client rules in the state it is made in. */
  ghost predicate Lawful<K, O>(s: State<K, O>, calls: seq<Call<K, O>>)
    requires Inv(s)
    decreases |calls|
  {
    calls == [] ||
    (Allowed(s, calls[0]) && (StepKeeps(s, calls[0]); Lawful(Step(s, calls[0]), calls[1..])))
  }

  ghost function Run<K, O>(s: State<K, O>, calls: seq<Call<K, O>>): (s': State<K, O>)
    requires Inv(s) && Lawful(s, calls)
    ensures Inv(s')
    decreases |calls|
  {
    if calls == [] then s
    else
      StepKeeps(s, calls[0]);
      Run(Step(s, calls[0]), calls[1..])
  }

  /** How many map entries hold o. */
  function Entries<K, O(==)>(s: State<K, O>, o: O): nat {
    |set k | k in s.m && s.m[k] == o|
  }

  /** After any lawful run every reference count is the clients' handles plus the map entries,
      and the collectable queue holds, each once, exactly the objects whose one reference is the cache's. */
  lemma CountsAndQueueAgree<K, O>(calls: seq<Call<K, O>>)
    requires Lawful(Empty(), calls)
    ensures var s := Run(Empty(), calls);
            && (forall o :: o in s.refs ==> o in s.ext && s.refs[o] == s.ext[o] + Entries(s, o))
            && (forall i, j :: 0 <= i < j < |s.queue| ==> s.queue[i] != s.queue[j])
            && (forall o :: o in s.queue <==> o in s.refs && s.refs[o] == 1 && Entries(s, o) == 1)
  {
    var s := Run(Empty(), calls);
    forall o | o in s.refs
      ensures Entries(s, o) == if o in s.keyOf then 1 else 0
    {
      var ks := set k | k in s.m && s.m[k] == o;
      if o in s.keyOf {
        assert ks == {s.keyOf[o]};
      } else {
        assert ks == {};
      }
    }
    assert forall o :: o in s.queue ==> o in s.refs;
  }

  /** A lookup finds the last value put under its key, or nothing; and it finds that value
      whenever some client still holds a handle on it. */
  lemma LookupRefinesMap<K, O>(calls: seq<Call<K, O>>, k: K)
    requires Lawful(Empty(), calls)
    ensures var s := Run(Empty(), calls);
            match Lookup(s, k)
            case Some(o) => k in s.latest && o == s.latest[k]
            case None => k in s.latest ==> s.latest[k] !in s.ext
  {
  }

  /** Collection takes the front of the queue, and the queue is in the order its objects were
      last let go: nobody in it, and nobody evicted, was let go after an object that stays. */
  lemma EvictionIsLeastRecent<K, O>(calls: seq<Call<K, O>>, count: nat, gone: O, stays: O)
    requires Lawful(Empty(), calls)
    requires var s := Run(Empty(), calls);
             gone in s.queue && gone !in MaybeCollect(s, count).queue && stays in MaybeCollect(s, count).queue
    ensures var s := Run(Empty(), calls);
            LastSynced(s.log, gone) && LastSynced(s.log, stays) && LastAt(s.log, gone) < LastAt(s.log, stays)
  {
    var s := Run(Empty(), calls);
    CollectKeeps(s, count);
    QueueOfMeaning(s.log);
    PrefixGoesFirst(s.log, s.queue, CollectCount(s, count), gone, stays);
  }

  lemma PrefixGoesFirst<O>(log: seq<Event<O>>, q: seq<O>, n: nat, gone: O, stays: O)
    requires ByLast(log, q) && n <= |q|
    requires gone in q && gone !in q[n..] && stays in q[n..]
    ensures LastAt(log, gone) < LastAt(log, stays) && stays in q
  {
    var i :| 0 <= i < |q| && q[i] == gone;
    var j :| 0 <= j < |q[n..]| && q[n..][j] == stays;
    assert q[n + j] == stays;
    assert forall x :: n <= x < |q| ==> q[n..][x - n] == q[x];
  }

  /** Every evicted object was synced after its last use: nothing happened to it between its
      last sync and its eviction. */
  lemma EvictedAfterSync<K, O>(calls: seq<Call<K, O>>, i: nat)
    requires Lawful(Empty(), calls)
    requires var log := Run(Empty(), calls).log; i < |log| && log[i].Evicted?
    ensures var log := Run(Empty(), calls).log;
            exists j :: 0 <= j < i && log[j] == Synced(log[i].o) && forall x :: j < x < i ==> log[x].o != log[i].o
  {
    var log := Run(Empty(), calls).log;
    var n := LastAt(log[..i], log[i].o);
    assert SyncedBefore(log, i);
    assert log[n - 1] == log[..i][n - 1];
    assert forall x :: n <= x < i ==> log[x] == log[..i][x];
  }

  /** After a put the queue is within a limit that is not negative; a negative one is no limit. */
  lemma PutBoundsQueue<K, O>(s: State<K, O>, k: K, o: O)
    requires Inv(s) && Allowed(s, Put(k, o))
    ensures var s' := Step(s, Put(k, o));
            if 0 <= s.max then |s'.queue| == (if |s.queue| < s.max then |s.queue| else s.max)
            else s'.queue == s.queue
  {
    CollectKeeps(s, 0);
  }

  /** The timer empties the queue, whatever the limit. */
  lemma TimerEmptiesQueue<K, O>(s: State<K, O>)
    requires Inv(s)
    ensures Step(s, Timer).queue == []
    ensures forall k :: k in s.m ==> (k in Step(s, Timer).m <==> s.ext[s.m[k]] > 0)
  {
    CollectKeeps(s, |s.queue|);
    CollectSomeKeeps(s, |s.queue|);
    var s' := Step(s, Timer);
    forall k | k in s.m
      ensures k in s'.m <==> s.ext[s.m[k]] > 0
    {
      var o := s.m[k];
      assert o in s.queue[..|s.queue|] <==> o in s.queue;
    }
  }
}
