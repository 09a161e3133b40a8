/** What each call of a client does to the handles, the queue and the answers of the object cache, and
    what the calls of a whole run come to. */
module CacheCalls {
  import opened Options
  import opened ObjectCache

  /** The handles that clients hold on o, none when it is gone. */
  function Handles<K, O(==)>(s: State<K, O>, o: O): nat {
    if o in s.ext then s.ext[o] else 0
  }

  predicate Cached<K, O(==)>(s: State<K, O>, o: O) {
    exists k :: k in s.m && s.m[k] == o
  }

  /** Everybody but o has the handles it had. */
  predicate OnlyHandles<K, O(==)>(s: State<K, O>, s': State<K, O>, o: O) {
    s'.ext - {o} == s.ext - {o}
  }

  lemma KeyOfIsCached<K, O>(s: State<K, O>, o: O)
    requires Inv(s) && o in s.refs
    ensures o in s.keyOf <==> Cached(s, o)
    ensures o in s.queue <==> Cached(s, o) && Handles(s, o) == 0
  {
    if o in s.keyOf {
      assert s.m[s.keyOf[o]] == o;
    }
  }

  // ---------------------------------------------------------------------------------------
  // Lookups
  // ---------------------------------------------------------------------------------------

  /** A lookup that hits hands out one counted handle on the object and takes it off the queue; the
      rest of the queue keeps its order. */
  lemma FindHits<K, O>(s: State<K, O>, k: K)
    requires Inv(s) && k in s.m
    ensures var o, s' := s.m[k], Step(s, Find(k));
            && Handles(s', o) == Handles(s, o) + 1 && s'.refs[o] == s.refs[o] + 1
            && OnlyHandles(s, s', o) && (forall x :: x in s.refs && x != o ==> x in s'.refs && s'.refs[x] == s.refs[x])
            && o !in s'.queue && s'.m == s.m && s'.log == s.log + [Used(o)]
            && (if o in s.queue then exists i :: 0 <= i < |s.queue| && s.queue[i] == o
                                                && s'.queue == s.queue[..i] + s.queue[i + 1..]
                else s'.queue == s.queue)
  {
    hide RefinesMap, QueueOf, EvictionsSynced;
    var o := s.m[k];
    GetKeeps(s, k);
    RemoveKeepsDistinct(s.queue, o);
    if o in s.queue {
      var i := RemoveFirstAt(s.queue, o);
    } else {
      RemoveAbsent(s.queue, o);
    }
  }

  lemma FindMisses<K, O>(s: State<K, O>, k: K)
    requires Inv(s) && k !in s.m
    ensures Step(s, Find(k)) == s && Lookup(s, k) == None
  {
  }

  // ---------------------------------------------------------------------------------------
  // Handles
  // ---------------------------------------------------------------------------------------

  lemma CreateIs<K, O>(s: State<K, O>, o: O)
    requires Inv(s) && Allowed(s, Create(o))
    ensures var s' := Step(s, Create(o));
            && Handles(s', o) == 1 && s'.refs[o] == 1 && OnlyHandles(s, s', o)
            && s'.m == s.m && s'.queue == s.queue && s'.log == s.log + [Used(o)]
  {
  }

  lemma CopyIs<K, O>(s: State<K, O>, o: O)
    requires Inv(s) && Allowed(s, CopyHandle(o))
    ensures var s' := Step(s, CopyHandle(o));
            && Handles(s', o) == Handles(s, o) + 1 && OnlyHandles(s, s', o)
            && s'.m == s.m && s'.queue == s.queue && s'.log == s.log + [Used(o)]
  {
  }

  /** A handle less. With the last one an object that is cached joins the queue at the back and is
      synced, and one that is not is gone. */
  lemma DropIs<K, O>(s: State<K, O>, o: O)
    requires Inv(s) && Allowed(s, DropHandle(o))
    ensures var s' := Step(s, DropHandle(o));
            && Handles(s', o) == Handles(s, o) - 1 && OnlyHandles(s, s', o) && s'.m == s.m
            && (o in s'.refs <==> Handles(s, o) > 1 || Cached(s, o))
            && (if Handles(s, o) == 1 && Cached(s, o) then
                  s'.queue == s.queue + [o] && s'.log == s.log + [Released(o), Synced(o)]
                else s'.queue == s.queue && s'.log == s.log + [Released(o)])
  {
    KeyOfIsCached(s, o);
    assert s.log + [Released(o)] + [Synced(o)] == s.log + [Released(o), Synced(o)];
  }

  // ---------------------------------------------------------------------------------------
  // Puts
  // ---------------------------------------------------------------------------------------

  /** How far the queue is over a limit that is not negative. */
  function Surplus<K, O>(s: State<K, O>): nat {
    if 0 <= s.max < |s.queue| then |s.queue| - s.max else 0
  }

  /** After a put the key answers the value, which the cache holds one reference on. The oldest of the
      queue go first, as many as it is over its limit, and no other entry and no handle changes. */
  lemma PutIs<K, O>(s: State<K, O>, k: K, o: O)
    requires Inv(s) && Allowed(s, Put(k, o))
    ensures var s' := Step(s, Put(k, o));
            && Lookup(s', k) == Some(o) && s'.refs[o] == s.refs[o] + 1
            && s'.queue == s.queue[Surplus(s)..] && s'.max == s.max
            && (forall x :: x in s.m ==> if s.m[x] in s.queue[..Surplus(s)] then x !in s'.m
                                         else x in s'.m && s'.m[x] == s.m[x])
            && s'.m.Keys <= s.m.Keys + {k} && forall x :: Handles(s', x) == Handles(s, x)
  {
    var n := Surplus(s);
    assert CollectCount(s, 0) == n;
    CollectSomeKeeps(s, n);
    var c := CollectSome(s, n);
    GoneFrom(s, c, n);
    assert o !in s.queue;
    assert forall x :: x in s.queue[..n] ==> x in s.queue;
    assert o in c.ext;
    forall x
      ensures Handles(c, x) == Handles(s, x)
    {
      assert x in s.queue[..n] ==> x in s.queue && s.ext[x] == 0;
    }
    assert c.refs[o] == s.refs[o];
  }

  /** A collection of the first n takes the entries of those and of nobody else. */
  lemma GoneFrom<K, O>(s: State<K, O>, c: State<K, O>, n: nat)
    requires Inv(s) && Inv(c) && Collected(s, c, n)
    ensures forall x :: x in s.m ==> if s.m[x] in s.queue[..n] then x !in c.m else x in c.m && c.m[x] == s.m[x]
  {
    forall x | x in s.m
      ensures if s.m[x] in s.queue[..n] then x !in c.m else x in c.m && c.m[x] == s.m[x]
    {
      var o := s.m[x];
      assert s.keyOf[o] == x && (o in c.ext <==> o !in s.queue[..n]);
      assert x in c.m ==> s.m[s.keyOf[c.m[x]]] == c.m[x] && s.keyOf[c.m[x]] == x;
    }
  }

  lemma PutNoCollectIs<K, O>(s: State<K, O>, k: K, o: O)
    requires Inv(s) && Allowed(s, PutNoCollect(k, o))
    ensures var s' := Step(s, PutNoCollect(k, o));
            && Lookup(s', k) == Some(o) && s'.refs[o] == s.refs[o] + 1 && s'.queue == s.queue && s'.log == s.log
            && (forall x :: x != k ==> Lookup(s', x) == Lookup(s, x)) && forall x :: Handles(s', x) == Handles(s, x)
  {
  }

  /** A limit that is set is the one the next put goes by. */
  lemma LimitHolds<K, O>(s: State<K, O>, v: int, k: K, o: O)
    requires Inv(s) && Allowed(s, Put(k, o))
    ensures var s1 := Step(s, SetMax(v));
            && Inv(s1) && Allowed(s1, Put(k, o)) && s1.queue == s.queue && s1.m == s.m && s1.ext == s.ext
            && (0 <= v ==> |Step(s1, Put(k, o)).queue| == if |s.queue| < v then |s.queue| else v)
  {
    StepKeeps(s, SetMax(v));
    PutBoundsQueue(Step(s, SetMax(v)), k, o);
  }

  /** Whoever stands at the front of the queue and is in use again is only taken off it. */
  lemma UsedIsSpared<K, O>(s: State<K, O>)
    requires s.queue != [] && s.queue[0] in s.refs && s.refs[s.queue[0]] > 1
    ensures CollectOne(s) == s.(queue := s.queue[1..])
  {
  }

  // ---------------------------------------------------------------------------------------
  // Whole runs
  // ---------------------------------------------------------------------------------------

  /** What one call hands out on o, or takes back, seen by the client: a lookup hands out what it
      answers. */
  function Handed<K, O(==)>(answer: Option<O>, c: Call<K, O>, o: O): int {
    match c
    case Create(x) => if x == o then 1 else 0
    case CopyHandle(x) => if x == o then 1 else 0
    case DropHandle(x) => if x == o then -1 else 0
    case Find(_) => if answer == Some(o) then 1 else 0
    case _ => 0
  }

  function AnswerTo<K, O>(s: State<K, O>, c: Call<K, O>): Option<O> {
    if c.Find? then Lookup(s, c.k) else None
  }

  /** The account of the calls of a run alone: what they handed out on o less what they took back. */
  ghost function Account<K, O>(s: State<K, O>, calls: seq<Call<K, O>>, o: O): int
    requires Inv(s) && Lawful(s, calls)
    decreases |calls|
  {
    if calls == [] then 0
    else
      StepKeeps(s, calls[0]);
      Handed(AnswerTo(s, calls[0]), calls[0], o) + Account(Step(s, calls[0]), calls[1..], o)
  }

  lemma StepAccounts<K, O>(s: State<K, O>, c: Call<K, O>, o: O)
    requires Inv(s) && Allowed(s, c)
    ensures Handles(Step(s, c), o) == Handles(s, o) + Handed(AnswerTo(s, c), c, o)
  {
    hide Inv, Step, Allowed;
    match c
    case Create(x) => CreateStep(s, x, o);
    case CopyHandle(x) =>
      CopyIs(s, x);
      SameElsewhere(s, Step(s, c), x, o);
    case DropHandle(x) =>
      DropIs(s, x);
      SameElsewhere(s, Step(s, c), x, o);
    case Find(k) =>
      if k in s.m {
        FindHits(s, k);
        SameElsewhere(s, Step(s, c), s.m[k], o);
      } else {
        FindMisses(s, k);
      }
    case Put(k, x) => PutIs(s, k, x);
    case PutNoCollect(k, x) => PutNoCollectIs(s, k, x);
    case Timer => TimerHandles(s, o);
    case SetMax(v) => SetMaxHandles(s, v, o);
  }

  lemma SameElsewhere<K, O>(s: State<K, O>, s': State<K, O>, x: O, o: O)
    requires OnlyHandles(s, s', x)
    ensures x != o ==> Handles(s', o) == Handles(s, o)
  {
    if x != o {
      assert o in s.ext <==> o in s.ext - {x};
      assert o in s'.ext <==> o in s'.ext - {x};
    }
  }

  lemma CreateStep<K, O>(s: State<K, O>, x: O, o: O)
    requires Inv(s) && Allowed(s, Create(x))
    ensures Handles(Step(s, Create(x)), o) == Handles(s, o) + if x == o then 1 else 0
  {
    CreateIs(s, x);
    assert x !in s.ext;
  }

  lemma SetMaxHandles<K, O>(s: State<K, O>, v: int, o: O)
    requires Inv(s)
    ensures Handles(Step(s, SetMax(v)), o) == Handles(s, o)
  {
  }

  lemma TimerHandles<K, O>(s: State<K, O>, o: O)
    requires Inv(s)
    ensures Handles(Step(s, Timer), o) == Handles(s, o)
  {
    CollectSomeKeeps(s, |s.queue|);
    assert s.queue[..|s.queue|] == s.queue;
  }

  /** The ledger is no invention of the model: the handles on every object are what the calls come
      to. */
  lemma {:induction false} RunAccounts<K, O>(s: State<K, O>, calls: seq<Call<K, O>>, o: O)
    requires Inv(s) && Lawful(s, calls)
    ensures Handles(Run(s, calls), o) == Handles(s, o) + Account(s, calls, o)
    decreases |calls|
  {
    if calls != [] {
      StepKeeps(s, calls[0]);
      StepAccounts(s, calls[0], o);
      RunAccounts(Step(s, calls[0]), calls[1..], o);
    }
  }

  /** From an empty cache: nobody can hold a handle less than none, and as long as the calls have left
      somebody a handle on the last value put under a key, the key answers it. */
  lemma AnsweredWhileHeld<K, O>(calls: seq<Call<K, O>>, k: K)
    requires Lawful(Empty(), calls)
    ensures var s := Run(Empty(), calls);
            && (forall o :: Account(Empty(), calls, o) >= 0)
            && (k in s.latest && Account(Empty(), calls, s.latest[k]) > 0 ==> Lookup(s, k) == Some(s.latest[k]))
  {
    var s := Run(Empty(), calls);
    forall o
      ensures Account(Empty(), calls, o) == Handles(s, o)
    {
      RunAccounts(Empty(), calls, o);
    }
    LookupRefinesMap(calls, k);
    assert k in s.latest ==> Account(Empty(), calls, s.latest[k]) == Handles(s, s.latest[k]);
  }
}
