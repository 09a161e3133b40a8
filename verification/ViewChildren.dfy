/** The children that a view kept up by events shows, and where each of them comes from. */
module ViewChildren {
  import opened OrderedMerge
  import opened ViewEvents

  /** What the first base announces. */
  datatype Announcement = Born(c: Child) | There(c: Child) | Gone(n: string)

  datatype Shown = Shown(items: map<string, Child>, names: Names)

  function EventOf(a: Announcement): Event {
    match a
    case Born(c) => Created(c.name)
    case There(c) => Exists(c.name)
    case Gone(n) => Deleted(n)
  }

  /** The names are as the events say, and a name that is new is the child's that was announced. */
  function Follow(op: SetOp, s: Shown, a: Announcement): Shown {
    var names := Step(op, s.names, EventOf(a));
    if a.Gone? then Shown(s.items - {a.n}, names)
    else Shown(if a.c.name in names.view - s.items.Keys then s.items[a.c.name := a.c] else s.items, names)
  }

  function FollowAll(op: SetOp, s: Shown, all: seq<Announcement>): Shown
    decreases |all|
  {
    if all == [] then s else FollowAll(op, Follow(op, s, all[0]), all[1..])
  }

  /** The view shows under each name a child of that name. */
  predicate Consistent(s: Shown) {
    s.names.view == s.items.Keys && forall n :: n in s.items ==> s.items[n].name == n
  }

  predicate Announces(a: Announcement, c: Child) {
    !a.Gone? && a.c == c
  }

  /** From its i-th on the run takes n away nowhere. */
  predicate NeverGone(all: seq<Announcement>, i: nat, n: string) {
    forall j :: i <= j < |all| ==> all[j] != Gone(n)
  }

  lemma FollowKeeps(op: SetOp, s: Shown, a: Announcement)
    requires Consistent(s)
    ensures Consistent(Follow(op, s, a))
  {
  }

  /** Every child shown after a run was shown at its start and never taken away, or the first base
      announced it in the run and did not take it away after that. */
  lemma {:induction false} ShownWasAnnounced(op: SetOp, s: Shown, all: seq<Announcement>, n: string)
    requires Consistent(s)
    ensures var s' := FollowAll(op, s, all);
            && Consistent(s')
            && (n in s'.items ==>
                  || (n in s.items && s'.items[n] == s.items[n] && NeverGone(all, 0, n))
                  || exists i :: 0 <= i < |all| && Announces(all[i], s'.items[n]) && NeverGone(all, i, n))
    decreases |all|
  {
    if all != [] {
      var s1, rest := Follow(op, s, all[0]), all[1..];
      FollowKeeps(op, s, all[0]);
      ShownWasAnnounced(op, s1, rest, n);
      var s' := FollowAll(op, s1, rest);
      if n in s'.items {
        if i :| 0 <= i < |rest| && Announces(rest[i], s'.items[n]) && NeverGone(rest, i, n) {
          LaterAnnounced(all, i, s'.items[n], n);
        } else {
          assert forall j :: 1 <= j < |all| ==> all[j] == rest[j - 1];
        }
      }
    }
  }

  lemma LaterAnnounced(all: seq<Announcement>, i: nat, c: Child, n: string)
    requires all != [] && i < |all[1..]| && Announces(all[1..][i], c) && NeverGone(all[1..], i, n)
    ensures Announces(all[i + 1], c) && NeverGone(all, i + 1, n)
  {
    assert forall j :: 1 <= j < |all| ==> all[j] == all[1..][j - 1];
  }

  /** The names shown are those of the events alone. */
  lemma {:induction false} NamesFollow(op: SetOp, s: Shown, all: seq<Announcement>)
    ensures FollowAll(op, s, all).names == Run(op, s.names, Events(all))
    decreases |all|
  {
    if all != [] {
      NamesFollow(op, Follow(op, s, all[0]), all[1..]);
      assert Events(all) == [EventOf(all[0])] + Events(all[1..]);
    }
  }

  function Events(all: seq<Announcement>): seq<Event> {
    if all == [] then [] else [EventOf(all[0])] + Events(all[1..])
  }
}
