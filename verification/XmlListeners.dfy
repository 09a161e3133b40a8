/** What listeners to the message collector hear, and what is kept for the next chunk, when a message
    is rejected: what the way a stream is cut does to them. */
module XmlListeners {
  import opened Sequences
  import opened XmlFraming

  predicate Rejects(read: Reader, msg: string) {
    read(TrimBlank(msg)).Threw?
  }

  /** What comes behind the first message that is rejected. */
  function Behind(read: Reader, s: string): (r: string)
    ensures |r| <= |s|
    decreases |s|
  {
    var n := FrameEnd(START, s);
    if n == 0 then ""
    else if Rejects(read, s[..n]) then s[n..]
    else Behind(read, s[n..])
  }

  /** Wherever reading is taken up in s, the first thing to come is a message that is rejected. */
  predicate Hopeless(read: Reader, s: string) {
    forall i :: 0 <= i < |s| ==> StartsRejected(read, s[i..])
  }

  predicate StartsRejected(read: Reader, s: string) {
    var n := FrameEnd(START, s);
    n > 0 && Rejects(read, s[..n])
  }

  /** What listeners have heard and what is kept are those of a single chunk. */
  predicate HeardAlike(c: Collected, c': Collected) {
    c.arrived == c'.arrived && c.overflow == c'.overflow
  }

  ghost predicate CutUnheard(read: Reader, c: Collected, s: string) {
    forall chunks :: Concat(chunks) == s ==> HeardAlike(FeedAll(read, c, chunks), Feed(read, c, s))
  }

  lemma HopelessSuffix(read: Reader, s: string, n: nat)
    requires Hopeless(read, s) && n <= |s|
    ensures Hopeless(read, s[n..])
  {
    forall i | 0 <= i < |s[n..]|
      ensures StartsRejected(read, s[n..][i..])
    {
      assert s[n..][i..] == s[n + i..];
    }
  }

  lemma HopelessStarts(read: Reader, s: string)
    requires Hopeless(read, s)
    ensures s == "" || StartsRejected(read, s)
  {
    assert s[0..] == s;
  }

  // ---------------------------------------------------------------------------------------
  // Messages behind a cut
  // ---------------------------------------------------------------------------------------

  lemma AcceptsFirst(read: Reader, frames: seq<string>)
    requires frames != []
    ensures Accepts(read, frames) <==> !Rejects(read, frames[0]) && Accepts(read, frames[1..])
  {
    assert frames == [frames[0]] + frames[1..];
  }

  /** As long as messages are accepted, only what is left over matters. */
  lemma {:induction false} BehindAccepted(read: Reader, a: string, b: string)
    requires Accepts(read, Frames(a).frames)
    ensures Behind(read, a + b) == Behind(read, Frames(a).rest + b)
    decreases |a|
  {
    var n := FrameEnd(START, a);
    if n > 0 {
      AcceptsFirst(read, Frames(a).frames);
      FrameEndPrefix(START, a, b);
      SplitAppend(a, b, n);
      BehindAccepted(read, a[n..], b);
    }
  }

  /** Once a message is rejected, what follows in the chunk is behind it and changes nothing. */
  lemma {:induction false} BehindRejected(read: Reader, c: Collected, a: string, b: string)
    requires !Accepts(read, Frames(a).frames)
    ensures Behind(read, a + b) == Behind(read, a) + b && !Accepts(read, Frames(a + b).frames)
    ensures Deliver(read, c, Frames(a + b)) == Deliver(read, c, Frames(a))
    ensures Deliver(read, c, Frames(a)).overflow == c.overflow
    decreases |a|
  {
    var n := FrameEnd(START, a);
    FrameEndPrefix(START, a, b);
    SplitAppend(a, b, n);
    AcceptsFirst(read, Frames(a).frames);
    AcceptsFirst(read, Frames(a + b).frames);
    if !Rejects(read, a[..n]) {
      var msg := TrimBlank(a[..n]);
      var fields := read(msg).fields;
      var c' := c.(msg := msg, fields := fields, arrived := c.arrived + [Arrival(msg, fields)]);
      BehindRejected(read, c', a[n..], b);
    }
  }

  lemma FirstFrame(a: string, b: string)
    requires IsFrame(a)
    ensures FrameEnd(START, a + b) == |a| && Frames(a + b).frames == [a] + Frames(b).frames
  {
    FrameEndPrefix(START, a, b);
    SplitAppend(a, b, |a|);
  }

  /** What is behind a rejected message, and what is in front of that. */
  lemma {:induction false} BehindIsSuffix(read: Reader, s: string) returns (front: string)
    requires Behind(read, s) != ""
    ensures s == front + Behind(read, s) && !Accepts(read, Frames(front).frames)
    ensures 0 < FrameEnd(START, s) <= |front|
    decreases |s|
  {
    hide FrameEnd, Frames, Silent;
    var n := FrameEnd(START, s);
    var first, more := s[..n], s[n..];
    FrameEndTake(START, s);
    if Rejects(read, first) {
      front := first;
      FirstFrame(first, "");
      assert first + "" == first;
      AcceptsFirst(read, Frames(front).frames);
    } else {
      var rest := BehindIsSuffix(read, more);
      front := first + rest;
      FirstFrame(first, rest);
      AcceptsFirst(read, Frames(front).frames);
      AppendAssoc(first, rest, Behind(read, more));
    }
  }

  lemma {:induction false} DeliverGrows(read: Reader, c: Collected, f: Framed)
    ensures |Deliver(read, c, f).arrived| >= |c.arrived|
    ensures f.frames != [] && !Rejects(read, f.frames[0]) ==> |Deliver(read, c, f).arrived| > |c.arrived|
    decreases |f.frames|
  {
    if f.frames != [] {
      var msg := TrimBlank(f.frames[0]);
      if read(msg).Read? {
        var fields := read(msg).fields;
        DeliverGrows(read, c.(msg := msg, fields := fields, arrived := c.arrived + [Arrival(msg, fields)]),
                     f.(frames := f.frames[1..]));
      }
    }
  }

  // ---------------------------------------------------------------------------------------
  // What is heard
  // ---------------------------------------------------------------------------------------

  /** Of a hopeless stream nothing is heard and nothing is kept, however it is cut. */
  lemma {:induction false} NothingHeard(read: Reader, c: Collected, chunks: seq<string>)
    requires Silent(START, c.overflow) && Hopeless(read, c.overflow + Concat(chunks))
    ensures FeedAll(read, c, chunks).arrived == c.arrived && FeedAll(read, c, chunks).overflow == ""
    decreases |chunks|
  {
    if chunks == [] {
      assert c.overflow + "" == c.overflow;
      HopelessStarts(read, c.overflow);
    } else {
      var t, b := c.overflow + chunks[0], Concat(chunks[1..]);
      AppendAssoc(c.overflow, chunks[0], b);
      var c1 := Feed(read, c, chunks[0]);
      if FrameEnd(START, t) == 0 {
        assert c1.arrived == c.arrived && c1.overflow == t;
      } else {
        FrameEndPrefix(START, t, b);
        HopelessStarts(read, t + b);
        assert (t + b)[..FrameEnd(START, t)] == t[..FrameEnd(START, t)];
        assert c1.arrived == c.arrived && c1.overflow == "";
        HopelessSuffix(read, t + b, |t|);
        assert (t + b)[|t|..] == b && "" + b == b;
      }
      NothingHeard(read, c1, chunks[1..]);
    }
  }

  lemma {:induction false} HeardAnyway(read: Reader, c: Collected, chunks: seq<string>)
    requires Settled(c) && Hopeless(read, Behind(read, c.overflow + Concat(chunks)))
    ensures HeardAlike(FeedAll(read, c, chunks), Feed(read, c, Concat(chunks)))
    decreases |chunks|
  {
    if chunks == [] {
      assert c.overflow + "" == c.overflow;
      assert Frames(c.overflow) == Framed([], c.overflow);
    } else {
      var a, b := chunks[0], Concat(chunks[1..]);
      var t := c.overflow + a;
      AppendAssoc(c.overflow, a, b);
      if Accepts(read, Frames(t).frames) {
        FeedOn(read, c, a, b);
        BehindAccepted(read, t, b);
        HeardAnyway(read, Feed(read, c, a), chunks[1..]);
      } else {
        var rest := Behind(read, t);
        BehindRejected(read, c.(overflow := ""), t, b);
        HopelessSuffix(read, rest + b, |rest|);
        assert (rest + b)[|rest|..] == b && "" + b == b;
        NothingHeard(read, Feed(read, c, a), chunks[1..]);
      }
    }
  }

  /** A cut behind a rejected message where something could be taken up again. */
  lemma CutIsHeard(read: Reader, c: Collected, s: string, i: nat)
    requires Settled(c) && i < |Behind(read, c.overflow + s)|
    requires !StartsRejected(read, Behind(read, c.overflow + s)[i..])
    ensures !CutUnheard(read, c, s)
  {
    hide Deliver, Frames, FrameEnd, Silent, Behind, FeedAll, Concat, Accepts;
    var t := c.overflow + s;
    var rest := Behind(read, t);
    var front := BehindIsSuffix(read, t);
    FrameEndAppend(START, c.overflow, s);
    var a, b := front[|c.overflow|..] + rest[..i], rest[i..];
    SplitStream(c.overflow, s, front, rest, i);
    BehindRejected(read, c, front, rest[..i]);
    BehindRejected(read, c.(overflow := ""), c.overflow + a, b);
    AppendAssoc(c.overflow, a, b);
    CutInTwo(read, c, a, b);
    TakenUp(read, Feed(read, c, a), b);
    assert !HeardAlike(FeedAll(read, c, [a, b]), Feed(read, c, s));
  }

  lemma SplitStream(o: string, s: string, front: string, rest: string, i: nat)
    requires o + s == front + rest && |o| <= |front| && i <= |rest|
    ensures s == front[|o|..] + rest[..i] + rest[i..]
    ensures o + (front[|o|..] + rest[..i]) == front + rest[..i]
  {
    assert (o + s)[|o|..] == s && (front + rest)[|o|..] == front[|o|..] + rest;
    assert front[..|o|] == o by {
      assert (o + s)[..|o|] == o && (front + rest)[..|o|] == front[..|o|];
    }
    assert front == front[..|o|] + front[|o|..];
  }

  /** A chunk that starts with no rejected message is heard or kept. */
  lemma TakenUp(read: Reader, c: Collected, b: string)
    requires c.overflow == "" && b != "" && !StartsRejected(read, b)
    ensures Feed(read, c, b).overflow != "" || |Feed(read, c, b).arrived| > |c.arrived|
  {
    assert c.overflow + b == b;
    DeliverGrows(read, c.(overflow := ""), Frames(b));
  }

  /** Listeners hear the same, and the same is kept, however the string is cut, exactly when behind its
      first rejected message reading could be taken up nowhere. Where all is accepted or nothing
      follows the rejected message, that is so. */
  lemma CutUnheardIff(read: Reader, c: Collected, s: string)
    requires Settled(c)
    ensures CutUnheard(read, c, s) <==> Hopeless(read, Behind(read, c.overflow + s))
  {
    if Hopeless(read, Behind(read, c.overflow + s)) {
      forall chunks | Concat(chunks) == s
        ensures HeardAlike(FeedAll(read, c, chunks), Feed(read, c, s))
      {
        HeardAnyway(read, c, chunks);
      }
    } else {
      var i :| 0 <= i < |Behind(read, c.overflow + s)| && !StartsRejected(read, Behind(read, c.overflow + s)[i..]);
      CutIsHeard(read, c, s, i);
    }
  }

  /** In particular nothing may follow that does not end with a bracket. */
  lemma HopelessEnds(read: Reader, s: string)
    requires Hopeless(read, s) && s != ""
    ensures s[|s| - 1] == '>' && Rejects(read, ">")
  {
    var last := s[|s| - 1..];
    assert last == [s[|s| - 1]] && StartsRejected(read, last);
    assert last[1..] == "" && last[..1] == last;
  }
}
