/** Views kept up by events. Setup connects a view to the signals of its first base only; the
    handlers insert and remove single names. When does the view still show what setup would? */
module ViewEvents {
  import opened OrderedMerge

  /** The names a view shows, those of the base it is connected to, and those of the others. */
  datatype Names = Names(view: set<string>, first: set<string>, others: seq<set<string>>)

  /** An event of the first base; Exists announces a child it already has. */
  datatype Event = Created(n: string) | Exists(n: string) | Deleted(n: string)

  /** How many of the other bases hold n. */
  function Others(others: seq<set<string>>, n: string): (c: nat)
    ensures c <= |others|
    ensures c == 0 <==> forall i :: 0 <= i < |others| ==> n !in others[i]
    ensures c == |others| <==> forall i :: 0 <= i < |others| ==> n in others[i]
  {
    if others == [] then 0
    else Others(others[1..], n) + if n in others[0] then 1 else 0
  }

  lemma {:induction false} OthersSnoc(held: seq<set<string>>, k: nat, n: string)
    requires k < |held|
    ensures Others(held[..k + 1], n) == Others(held[..k], n) + if n in held[k] then 1 else 0
    decreases k
  {
    if k == 0 {
      assert held[..1] == [held[0]] && held[..0] == [] && [held[0]][1..] == [];
      assert Others([held[0]], n) == Others([], n) + if n in held[0] then 1 else 0;
    } else {
      assert held[..k + 1][1..] == held[1..][..k] && held[..k][1..] == held[1..][..k - 1];
      OthersSnoc(held[1..], k - 1, n);
    }
  }

  /** What setup shows for the bases as they are. */
  predicate Batch(op: SetOp, s: Names, n: string) {
    var others := Others(s.others, n);
    match op
    case Union => n in s.first || others > 0
    case Difference => n in s.first && others == 0
    case Intersection => n in s.first && others == |s.others|
    case SymmetricDifference => (others + if n in s.first then 1 else 0) % 2 == 1
  }

  /** shouldInsertContext: not shown yet, and the operation's own test on the bases. */
  predicate ShouldInsert(op: SetOp, s: Names, n: string) {
    n !in s.view &&
    match op
    case Union => true
    case Difference => Others(s.others, n) == 0
    case Intersection => n in s.first && Others(s.others, n) == |s.others|
    case SymmetricDifference => Others(s.others, n) + (if n in s.first then 1 else 0) == 1
  }

  function Insert(op: SetOp, s: Names, n: string): Names {
    if ShouldInsert(op, s, n) then s.(view := s.view + {n}) else s
  }

  /** The base changes, then its signal reaches the view. */
  function Step(op: SetOp, s: Names, e: Event): Names {
    match e
    case Created(n) => Insert(op, s.(first := s.first + {n}), n)
    case Exists(n) => Insert(op, s, n)
    case Deleted(n) => s.(first := s.first - {n}, view := s.view - {n})
  }

  function Run(op: SetOp, s: Names, events: seq<Event>): Names
    decreases |events|
  {
    if events == [] then s else Run(op, Step(op, s, events[0]), events[1..])
  }

  /** A child is created where there is none, and only existing ones are announced or deleted. */
  predicate Possible(s: Names, e: Event) {
    match e
    case Created(n) => n !in s.first
    case Exists(n) => n in s.first
    case Deleted(n) => n in s.first
  }

  predicate Lawful(op: SetOp, s: Names, events: seq<Event>)
    decreases |events|
  {
    events == [] || (Possible(s, events[0]) && Lawful(op, Step(op, s, events[0]), events[1..]))
  }

  predicate AgreesOn(op: SetOp, s: Names, n: string) {
    n in s.view <==> Batch(op, s, n)
  }

  ghost predicate Agrees(op: SetOp, s: Names) {
    forall n :: AgreesOn(op, s, n)
  }

  // ---------------------------------------------------------------------------------------
  // One event
  // ---------------------------------------------------------------------------------------

  /** Whether one event on a view that agrees with setup leaves it agreeing: always for the
      difference and the intersection; for the union unless a name is deleted that another base
      holds; for the symmetric difference only when another base's hold on the name does not
      change the outcome. */
  predicate Harmless(op: SetOp, s: Names, e: Event) {
    match op
    case Union => e.Deleted? ==> Others(s.others, e.n) == 0
    case Difference => true
    case Intersection => true
    case SymmetricDifference =>
      match e
      case Created(n) => Others(s.others, n) == 0
      case Exists(_) => true
      case Deleted(n) => Others(s.others, n) % 2 == 0
  }

  lemma OtherNamesKeep(op: SetOp, s: Names, e: Event, n: string)
    requires n != e.n
    ensures AgreesOn(op, Step(op, s, e), n) <==> AgreesOn(op, s, n)
  {
  }

  lemma StepAgrees(op: SetOp, s: Names, e: Event)
    requires Agrees(op, s) && Possible(s, e)
    ensures Agrees(op, Step(op, s, e)) <==> Harmless(op, s, e)
  {
    var s' := Step(op, s, e);
    assert AgreesOn(op, s, e.n);
    forall n | n != e.n
      ensures AgreesOn(op, s', n)
    {
      OtherNamesKeep(op, s, e, n);
      assert AgreesOn(op, s, n);
    }
    assert AgreesOn(op, s', e.n) <==> Harmless(op, s, e);
  }

  // ---------------------------------------------------------------------------------------
  // Whole runs
  // ---------------------------------------------------------------------------------------

  predicate EverDeleted(events: seq<Event>, n: string) {
    exists e :: e in events && e.n == n && e.Deleted?
  }

  predicate EverCreated(events: seq<Event>, n: string) {
    exists e :: e in events && e.n == n && e.Created?
  }

  predicate EverTouched(events: seq<Event>, n: string) {
    exists e :: e in events && e.n == n
  }

  /** The other bases, whose changes the view never hears of, let a difference or an intersection
      show n. */
  predicate LetThrough(op: SetOp, s: Names, n: string) {
    Others(s.others, n) == if op.Intersection? then |s.others| else 0
  }

  /** What a run does for a name the view was wrong about: its deletion puts it right, and so does
      any event unless the name is shown and the other bases do not let it through. */
  predicate Repaired(op: SetOp, s: Names, events: seq<Event>, n: string) {
    EverDeleted(events, n) || (EverTouched(events, n) && (n !in s.view || LetThrough(op, s, n)))
  }

  lemma EverCons(events: seq<Event>, n: string)
    ensures events == [] ==> !EverDeleted(events, n) && !EverTouched(events, n)
    ensures events != [] ==>
              var e := events[0];
              && (EverDeleted(events, n) <==> (e.n == n && e.Deleted?) || EverDeleted(events[1..], n))
              && (EverTouched(events, n) <==> e.n == n || EverTouched(events[1..], n))
  {
    if events != [] {
      assert events == [events[0]] + events[1..] && events[0] in events;
      assert forall e :: e in events[1..] ==> e in events;
    }
  }

  /** A name is shown rightly after a run exactly when it was before or the run repairs it. */
  lemma {:induction false} RunAgreesOnIff(op: SetOp, s: Names, events: seq<Event>, n: string)
    requires op.Difference? || op.Intersection?
    requires Lawful(op, s, events)
    ensures AgreesOn(op, Run(op, s, events), n) <==> AgreesOn(op, s, n) || Repaired(op, s, events, n)
    decreases |events|
  {
    hide EverDeleted, EverTouched, Others;
    EverCons(events, n);
    if events != [] {
      RunAgreesOnIff(op, Step(op, s, events[0]), events[1..], n);
    }
  }

  /** However long the run and whatever the view shows at its start, a difference or intersection
      view shows at its end what setup would show exactly when every name it was wrong about is
      repaired; a view that starts right stays right. */
  lemma IncrementalAgrees(op: SetOp, s: Names, events: seq<Event>)
    requires op.Difference? || op.Intersection?
    requires Lawful(op, s, events)
    ensures Agrees(op, Run(op, s, events)) <==> forall n :: AgreesOn(op, s, n) || Repaired(op, s, events, n)
    ensures Agrees(op, s) ==> Agrees(op, Run(op, s, events))
  {
    forall n
      ensures AgreesOn(op, Run(op, s, events), n) <==> AgreesOn(op, s, n) || Repaired(op, s, events, n)
    {
      RunAgreesOnIff(op, s, events, n);
    }
  }

  /** n is deleted in the run and not created again after that. */
  predicate LastDeleted(events: seq<Event>, n: string)
    decreases |events|
  {
    events != [] &&
    var e := events[|events| - 1];
    if e.n == n then e.Deleted? else LastDeleted(events[..|events| - 1], n)
  }

  lemma {:induction false} RunSnoc(op: SetOp, s: Names, events: seq<Event>, e: Event)
    ensures Run(op, s, events + [e]) == Step(op, Run(op, s, events), e)
    ensures Lawful(op, s, events + [e]) <==> Lawful(op, s, events) && Possible(Run(op, s, events), e)
    decreases |events|
  {
    if events == [] {
      assert events + [e] == [e] && [e][1..] == [];
      assert Run(op, s, [e]) == Run(op, Step(op, s, e), []);
    } else {
      assert (events + [e])[1..] == events[1..] + [e];
      RunSnoc(op, Step(op, s, events[0]), events[1..], e);
    }
  }

  /** A union view misses exactly the names whose last event was a deletion and that some other
      base still holds. */
  lemma {:induction false} UnionShows(s: Names, events: seq<Event>, n: string)
    requires AgreesOn(Union, s, n) && Lawful(Union, s, events)
    ensures var s' := Run(Union, s, events);
            (n in s'.view <==> Batch(Union, s', n) && !LastDeleted(events, n)) &&
            (LastDeleted(events, n) ==> n !in s'.first) && s'.others == s.others
    decreases |events|
  {
    if events != [] {
      var init, e := events[..|events| - 1], events[|events| - 1];
      assert events == init + [e];
      RunSnoc(Union, s, init, e);
      UnionShows(s, init, n);
    }
  }

  /** So it agrees with setup exactly when no such name is held elsewhere; in particular after
      every run without deletions. */
  lemma UnionAgreesIff(s: Names, events: seq<Event>)
    requires Agrees(Union, s) && Lawful(Union, s, events)
    ensures Agrees(Union, Run(Union, s, events)) <==>
            forall e :: e in events && LastDeleted(events, e.n) ==> Others(s.others, e.n) == 0
    ensures (forall e :: e in events ==> !e.Deleted?) ==> Agrees(Union, Run(Union, s, events))
  {
    var s' := Run(Union, s, events);
    forall n
      ensures AgreesOn(Union, s', n) <==> (LastDeleted(events, n) ==> Others(s.others, n) == 0)
      ensures LastDeleted(events, n) ==> exists e :: e in events && e.n == n && e.Deleted?
    {
      assert AgreesOn(Union, s, n);
      UnionShows(s, events, n);
      if LastDeleted(events, n) {
        DeletedOccurs(events, n);
      }
    }
  }

  lemma {:induction false} DeletedOccurs(events: seq<Event>, n: string)
    requires LastDeleted(events, n)
    ensures exists e :: e in events && e.n == n && e.Deleted?
    decreases |events|
  {
    var e := events[|events| - 1];
    if e.n == n {
      assert e in events;
    } else {
      DeletedOccurs(events[..|events| - 1], n);
    }
  }

  // ---------------------------------------------------------------------------------------
  // The symmetric difference
  // ---------------------------------------------------------------------------------------

  /** How many bases hold n, the first one included. */
  function Held(s: Names, n: string): nat {
    Others(s.others, n) + if n in s.first then 1 else 0
  }

  /** The insert rule asks for exactly one holder and setup for an odd number of them; the two
      agree on every possible content of the bases exactly when there are at most two bases. */
  lemma OneIsOddIff(bases: nat)
    requires bases > 0
    ensures (forall s: Names, n :: |s.others| == bases - 1 ==> (Held(s, n) == 1 <==> Held(s, n) % 2 == 1))
            <==> bases <= 2
  {
    if bases > 2 {
      var three := Names({}, {"a"}, Holders(2, bases - 1));
      HoldersCount(2, bases - 1);
      assert Held(three, "a") == 3;
    }
  }

  /** n bases of which the first k hold the name. */
  function Holders(k: nat, n: nat): (r: seq<set<string>>)
    ensures |r| == n
  {
    if n == 0 then [] else [if k > 0 then {"a"} else {}] + Holders(if k > 0 then k - 1 else 0, n - 1)
  }

  lemma {:induction false} HoldersCount(k: nat, n: nat)
    requires k <= n
    ensures Others(Holders(k, n), "a") == k
    decreases n
  {
    if n > 0 {
      HoldersCount(if k > 0 then k - 1 else 0, n - 1);
      assert Holders(k, n)[1..] == Holders(if k > 0 then k - 1 else 0, n - 1);
    }
  }

  /** Even with two bases the view goes wrong: a name both hold stays shown, because creation
      never removes one. */
  lemma SymmetricDifferenceGoesStale()
    ensures var s := Names({"a"}, {}, [{"a"}]);
            Agrees(SymmetricDifference, s) && Possible(s, Created("a")) &&
            !AgreesOn(SymmetricDifference, Step(SymmetricDifference, s, Created("a")), "a")
  {
    var s := Names({"a"}, {}, [{"a"}]);
    assert s.others[1..] == [];
    forall n
      ensures AgreesOn(SymmetricDifference, s, n)
    {
      assert Others(s.others, n) == if n == "a" then 1 else 0;
    }
  }

  lemma EverSnoc(events: seq<Event>, e: Event, n: string)
    ensures EverDeleted(events + [e], n) <==> EverDeleted(events, n) || (e.n == n && e.Deleted?)
    ensures EverCreated(events + [e], n) <==> EverCreated(events, n) || (e.n == n && e.Created?)
    ensures LastDeleted(events + [e], n) <==> if e.n == n then e.Deleted? else LastDeleted(events, n)
  {
    assert (events + [e])[..|events|] == events;
    assert e in events + [e];
    assert forall x :: x in events ==> x in events + [e];
  }

  lemma SymmetricStep(s: Names, e: Event, n: string)
    requires Possible(s, e)
    ensures var s' := Step(SymmetricDifference, s, e);
            && s'.others == s.others
            && (n in s'.first <==> if e.n == n then !e.Deleted? else n in s.first)
            && (Others(s.others, n) > 0 ==> (n in s'.view <==> n in s.view && !(e.n == n && e.Deleted?)))
            && (Others(s.others, n) == 0 && AgreesOn(SymmetricDifference, s, n) ==> AgreesOn(SymmetricDifference, s', n))
            && (e.n == n ==> (n in s.first <==> !e.Created?))
  {
    hide Others;
  }

  /** What a run leaves of a name some other base holds: it is shown as before until its first
      deletion and never again after that. */
  lemma {:induction false} SymmetricState(s: Names, events: seq<Event>, n: string)
    requires Lawful(SymmetricDifference, s, events)
    ensures var s' := Run(SymmetricDifference, s, events);
            && s'.others == s.others
            && (n in s'.first <==> !LastDeleted(events, n) && (n in s.first || EverCreated(events, n)))
            && (Others(s.others, n) > 0 ==> (n in s'.view <==> n in s.view && !EverDeleted(events, n)))
            && (LastDeleted(events, n) ==> EverDeleted(events, n))
            && (EverCreated(events, n) && !EverDeleted(events, n) ==> n !in s.first)
            && (EverDeleted(events, n) ==> n in s.first || EverCreated(events, n))
            && (Others(s.others, n) == 0 && AgreesOn(SymmetricDifference, s, n) ==> AgreesOn(SymmetricDifference, s', n))
    decreases |events|
  {
    if events != [] {
      var init, e := events[..|events| - 1], events[|events| - 1];
      assert events == init + [e];
      RunSnoc(SymmetricDifference, s, init, e);
      SymmetricState(s, init, n);
      EverSnoc(init, e, n);
      hide EverDeleted, EverCreated, LastDeleted, Run, Lawful, Others;
      SymmetricStep(Run(SymmetricDifference, s, init), e, n);
    } else {
      assert Run(SymmetricDifference, s, events) == s;
    }
  }

  /** Whether the view is right about a name after the run: nobody else holds it; or its last
      event was its deletion and an even number of others hold it; or it is back after a
      deletion and an odd number of others hold it; or it was neither created nor deleted. */
  predicate Settles(others: nat, events: seq<Event>, n: string) {
    || others == 0
    || if LastDeleted(events, n) then others % 2 == 0
       else if EverDeleted(events, n) then others % 2 == 1
       else !EverCreated(events, n)
  }

  lemma SymmetricShows(s: Names, events: seq<Event>, n: string)
    requires AgreesOn(SymmetricDifference, s, n) && Lawful(SymmetricDifference, s, events)
    ensures AgreesOn(SymmetricDifference, Run(SymmetricDifference, s, events), n) <==>
            Settles(Others(s.others, n), events, n)
  {
    hide EverDeleted, EverCreated, LastDeleted, Run, Lawful, Others;
    var others := Others(s.others, n);
    assert (others + 1) % 2 == 1 - others % 2;
    SymmetricState(s, events, n);
  }

  /** A symmetric difference agrees with setup after a run exactly when every name of the run
      has settled. */
  lemma SymmetricAgreesIff(s: Names, events: seq<Event>)
    requires Agrees(SymmetricDifference, s) && Lawful(SymmetricDifference, s, events)
    ensures Agrees(SymmetricDifference, Run(SymmetricDifference, s, events)) <==>
            forall e :: e in events ==> Settles(Others(s.others, e.n), events, e.n)
  {
    var s' := Run(SymmetricDifference, s, events);
    forall n
      ensures AgreesOn(SymmetricDifference, s', n) <==> Settles(Others(s.others, n), events, n)
      ensures Settles(Others(s.others, n), events, n) || exists e :: e in events && e.n == n
    {
      assert AgreesOn(SymmetricDifference, s, n);
      SymmetricShows(s, events, n);
      if LastDeleted(events, n) {
        DeletedOccurs(events, n);
      }
    }
  }
}
