/** The message framer of XMLMsgStreamCollector: it cuts a byte stream that arrives in
    arbitrary chunks into XML messages with a one-character look-back and a bracket counter. */
module XmlFraming {
  import opened Sequences

  // ---------------------------------------------------------------------------------------
  // What one pass over a string does
  // ---------------------------------------------------------------------------------------

  /** The two loop variables of the framer: the previous character and the open brackets. */
  datatype Scan = Scan(last: char, depth: int)

  const START := Scan('\0', 0)

  function Next(st: Scan, ch: char): Scan {
    var d := if st.last != '<' then st.depth else if ch == '/' then st.depth - 1 else st.depth + 1;
    Scan(ch, if ch == '>' && (st.last == '?' || st.last == '/') then d - 1 else d)
  }

  /** True when reading ch in state st completes a message. */
  predicate Ends(st: Scan, ch: char) {
    ch == '>' && st.last != '?' && Next(st, ch).depth == 0
  }

  function After(st: Scan, s: string): Scan
    decreases |s|
  {
    if s == [] then st else After(Next(st, s[0]), s[1..])
  }

  /** No prefix of s completes a message. */
  predicate Silent(st: Scan, s: string)
    decreases |s|
  {
    s == [] || (!Ends(st, s[0]) && Silent(Next(st, s[0]), s[1..]))
  }

  /** The length of the first message in s, or 0 when s holds no complete message. */
  function FrameEnd(st: Scan, s: string): (n: nat)
    ensures n <= |s|
    ensures n == 0 <==> Silent(st, s)
    ensures n > 0 ==> s[n - 1] == '>'
    decreases |s|
  {
    if s == [] then 0
    else if Ends(st, s[0]) then 1
    else
      var n := FrameEnd(Next(st, s[0]), s[1..]);
      if n == 0 then 0 else n + 1
  }

  lemma {:induction false} AfterAppend(st: Scan, a: string, b: string)
    ensures After(st, a + b) == After(After(st, a), b)
    ensures Silent(st, a + b) <==> Silent(st, a) && Silent(After(st, a), b)
    decreases |a|
  {
    if a == [] {
      assert a + b == b;
    } else {
      assert (a + b)[0] == a[0] && (a + b)[1..] == a[1..] + b;
      AfterAppend(Next(st, a[0]), a[1..], b);
    }
  }

  /** A silent stretch only shifts where the first message ends. */
  lemma {:induction false} FrameEndAppend(st: Scan, a: string, b: string)
    requires Silent(st, a)
    ensures var n := FrameEnd(After(st, a), b);
            FrameEnd(st, a + b) == if n == 0 then 0 else |a| + n
    decreases |a|
  {
    if a == [] {
      assert a + b == b;
    } else {
      assert (a + b)[0] == a[0] && (a + b)[1..] == a[1..] + b;
      FrameEndAppend(Next(st, a[0]), a[1..], b);
    }
  }

  /** One more character of the loop: it either ends the message there or keeps the scan silent. */
  lemma ScanStep(before: string, ch: char, rest: string)
    requires Silent(START, before)
    ensures var st, s := After(START, before), before + [ch] + rest;
            if Ends(st, ch) then FrameEnd(START, s) == |before| + 1 && s[..|before| + 1] == before + [ch]
            else Silent(START, before + [ch]) && After(START, before + [ch]) == Next(st, ch)
  {
    var st := After(START, before);
    if Ends(st, ch) {
      FrameEndAppend(START, before, [ch] + rest);
      assert before + [ch] + rest == before + ([ch] + rest);
    } else {
      AfterAppend(START, before, [ch]);
    }
  }

  /** Once a message is complete, what follows does not matter. */
  lemma {:induction false} FrameEndPrefix(st: Scan, a: string, b: string)
    requires !Silent(st, a)
    ensures FrameEnd(st, a + b) == FrameEnd(st, a)
    decreases |a|
  {
    assert (a + b)[0] == a[0] && (a + b)[1..] == a[1..] + b;
    if !Ends(st, a[0]) {
      FrameEndPrefix(Next(st, a[0]), a[1..], b);
    }
  }

  // ---------------------------------------------------------------------------------------
  // All the messages of a string
  // ---------------------------------------------------------------------------------------

  datatype Framed = Framed(frames: seq<string>, rest: string)

  function Frames(s: string): Framed
    decreases |s|
  {
    var n := FrameEnd(START, s);
    if n == 0 then Framed([], s)
    else
      Cons(s[..n], Frames(s[n..]))
  }

  function Cons(frame: string, f: Framed): Framed {
    f.(frames := [frame] + f.frames)
  }

  function Concat(parts: seq<string>): string {
    if parts == [] then [] else parts[0] + Concat(parts[1..])
  }

  /** Exactly one message: complete at its last character and not before. */
  predicate IsFrame(s: string) {
    s != "" && FrameEnd(START, s) == |s|
  }

  /** Framing loses nothing and invents nothing: frames and rest put together are the input. */
  lemma {:induction false} FramesConcat(s: string)
    ensures Concat(Frames(s).frames) + Frames(s).rest == s
    decreases |s|
  {
    var n := FrameEnd(START, s);
    if n > 0 {
      var f := Frames(s[n..]);
      FramesConcat(s[n..]);
      ConcatCons(s[..n], f.frames);
      Rejoin(s, n, Concat(f.frames), f.rest);
    }
  }

  lemma Rejoin(s: string, n: nat, b: string, c: string)
    requires n <= |s| && b + c == s[n..]
    ensures s[..n] + b + c == s
  {
    AppendAssoc(s[..n], b, c);
  }

  lemma ConcatCons(part: string, parts: seq<string>)
    ensures Concat([part] + parts) == part + Concat(parts)
  {
    assert ([part] + parts)[1..] == parts;
  }

  /** Every frame is exactly one message, and no complete message stays behind. */
  lemma {:induction false} FramesComplete(s: string)
    ensures forall f :: f in Frames(s).frames ==> IsFrame(f)
    ensures Silent(START, Frames(s).rest)
    decreases |s|
  {
    var n := FrameEnd(START, s);
    if n > 0 {
      FrameEndTake(START, s);
      FramesComplete(s[n..]);
    }
  }

  lemma {:induction false} FrameEndTake(st: Scan, s: string)
    requires !Silent(st, s)
    ensures FrameEnd(st, s[..FrameEnd(st, s)]) == FrameEnd(st, s)
    decreases |s|
  {
    if !Ends(st, s[0]) {
      var n := FrameEnd(st, s);
      FrameEndTake(Next(st, s[0]), s[1..]);
      assert s[..n][1..] == s[1..][..n - 1];
    }
  }

  /** Rescanning the overflow in front of the next chunk finds the messages a single pass
      over both would have found. */
  lemma {:induction false} FramesAppend(a: string, b: string)
    ensures var f := Frames(a);
            var g := Frames(f.rest + b);
            Frames(a + b) == Framed(f.frames + g.frames, g.rest)
    decreases |a|
  {
    var n := FrameEnd(START, a);
    if n > 0 {
      FrameEndPrefix(START, a, b);
      SplitAppend(a, b, n);
      var f := Frames(a[n..]);
      FramesAppend(a[n..], b);
      AppendAssoc([a[..n]], f.frames, Frames(f.rest + b).frames);
    }
  }

  // ---------------------------------------------------------------------------------------
  // The collector
  // ---------------------------------------------------------------------------------------

  predicate IsBlank(c: char) { c == '\n' || c == ' ' || c == '\t' }

  /** The prefix trimmer: blanks go, but the last character always stays. */
  function TrimBlank(s: string): (r: string)
    ensures s != [] ==> r != []
    ensures r == [] ==> s == []
  {
    if |s| > 1 && IsBlank(s[0]) then TrimBlank(s[1..]) else s
  }

  /** Newlines, spaces and tabs go from the front, and nothing else goes; the last character stays. */
  lemma {:induction false} TrimMeans(s: string) returns (n: nat)
    ensures n <= |s| && TrimBlank(s) == s[n..]
    ensures forall i :: 0 <= i < n ==> s[i] == '\n' || s[i] == ' ' || s[i] == '\t'
    ensures n + 1 < |s| ==> s[n] != '\n' && s[n] != ' ' && s[n] != '\t'
    ensures s != "" ==> n < |s|
    decreases |s|
  {
    n := 0;
    if |s| > 1 && IsBlank(s[0]) {
      var k := TrimMeans(s[1..]);
      n := k + 1;
      assert s[1..][k..] == s[n..];
    }
  }

  type StringMap = map<string, string>

  /** What the XML parser makes of a message; left is what it put into the map before it threw. */
  datatype ReadResult = Read(fields: StringMap) | Threw(left: StringMap)

  type Reader = string -> ReadResult

  /** What a listener of the message signal sees. */
  datatype Arrival = Arrival(msg: string, fields: StringMap)

  datatype Collected = Collected(msg: string, overflow: string, fields: StringMap, arrived: seq<Arrival>)

  const FRESH := Collected("", "", map[], [])

  function Deliver(read: Reader, c: Collected, f: Framed): Collected
    decreases |f.frames|
  {
    if f.frames == [] then c.(msg := "", overflow := f.rest)
    else
      var msg := TrimBlank(f.frames[0]);
      match read(msg)
      case Threw(left) => c.(msg := msg, fields := left)
      case Read(fields) =>
        var c' := c.(msg := msg, fields := fields, arrived := c.arrived + [Arrival(msg, fields)]);
        Deliver(read, c', f.(frames := f.frames[1..]))
  }

  /** The effect of one chunk on the collector. */
  function Feed(read: Reader, c: Collected, chunk: string): Collected {
    Deliver(read, c.(overflow := ""), Frames(c.overflow + chunk))
  }

  function FeedAll(read: Reader, c: Collected, chunks: seq<string>): Collected
    decreases |chunks|
  {
    if chunks == [] then c else FeedAll(read, Feed(read, c, chunks[0]), chunks[1..])
  }

  predicate Accepts(read: Reader, frames: seq<string>) {
    forall f :: f in frames ==> read(TrimBlank(f)).Read?
  }

  /** Between two chunks: nothing is pending but an incomplete message. */
  predicate Settled(c: Collected) {
    c.msg == "" && Silent(START, c.overflow)
  }

  function Arrivals(read: Reader, frames: seq<string>): seq<Arrival>
    requires Accepts(read, frames)
  {
    if frames == [] then []
    else
      var msg := TrimBlank(frames[0]);
      [Arrival(msg, read(msg).fields)] + Arrivals(read, frames[1..])
  }

  /** When every message is accepted, exactly the messages arrive, in order, and the overflow is what is left. */
  lemma {:induction false} DeliverAccepted(read: Reader, c: Collected, f: Framed)
    requires Accepts(read, f.frames)
    ensures var c' := Deliver(read, c, f);
            && c'.msg == "" && c'.overflow == f.rest && c'.arrived == c.arrived + Arrivals(read, f.frames)
            && c'.fields == if f.frames == [] then c.fields else read(TrimBlank(f.frames[|f.frames| - 1])).fields
    decreases |f.frames|
  {
    if f.frames == [] {
      assert c.arrived + [] == c.arrived;
    } else {
      var msg := TrimBlank(f.frames[0]);
      var fields := read(msg).fields;
      var c' := c.(msg := msg, fields := fields, arrived := c.arrived + [Arrival(msg, fields)]);
      DeliverAccepted(read, c', f.(frames := f.frames[1..]));
    }
  }

  lemma {:induction false} DeliverConcat(read: Reader, c: Collected, a: seq<string>, f: Framed)
    requires Accepts(read, a)
    requires c.overflow == ""
    requires a == [] ==> c.msg == ""
    ensures Deliver(read, c, Framed(a + f.frames, f.rest)) ==
            Deliver(read, Deliver(read, c, Framed(a, "")), f)
    decreases |a|
  {
    if a == [] {
      assert a + f.frames == f.frames;
    } else {
      assert (a + f.frames)[0] == a[0] && (a + f.frames)[1..] == a[1..] + f.frames;
      var msg := TrimBlank(a[0]);
      var fields := read(msg).fields;
      var c' := c.(msg := msg, fields := fields, arrived := c.arrived + [Arrival(msg, fields)]);
      if a[1..] == [] {
        assert a[1..] + f.frames == f.frames;
        DeliverIgnoresMsg(read, c', f);
      } else {
        DeliverConcat(read, c', a[1..], f);
      }
    }
  }

  lemma {:induction false} DeliverIgnoresMsg(read: Reader, c: Collected, f: Framed)
    ensures Deliver(read, c, f) == Deliver(read, c.(msg := ""), f)
  {
  }

  /** Feeding one chunk, in terms of the frames it completes and the bytes it leaves. */
  lemma FeedAccepted(read: Reader, c: Collected, a: string)
    requires Settled(c)
    requires Accepts(read, Frames(c.overflow + a).frames)
    ensures var f := Frames(c.overflow + a);
            Feed(read, c, a) == Deliver(read, c.(overflow := ""), Framed(f.frames, "")).(overflow := f.rest)
    ensures Settled(Feed(read, c, a))
    ensures Deliver(read, c.(overflow := ""), Framed(Frames(c.overflow + a).frames, "")).overflow == ""
  {
    var f := Frames(c.overflow + a);
    FramesComplete(c.overflow + a);
    DeliverAccepted(read, c.(overflow := ""), f);
    DeliverAccepted(read, c.(overflow := ""), Framed(f.frames, ""));
    DeliverRest(read, c.(overflow := ""), f.frames, f.rest);
  }

  lemma AcceptsParts(read: Reader, a: seq<string>, b: seq<string>)
    requires Accepts(read, a + b)
    ensures Accepts(read, a) && Accepts(read, b)
  {
    assert forall f :: f in a ==> f in a + b;
    assert forall f :: f in b ==> f in a + b;
  }

  lemma FeedTwo(read: Reader, c: Collected, a: string, b: string)
    requires Settled(c)
    requires Accepts(read, Frames(c.overflow + (a + b)).frames)
    ensures var c' := Feed(read, c, a);
            Settled(c') && Accepts(read, Frames(c'.overflow + b).frames) &&
            Feed(read, c', b) == Feed(read, c, a + b)
  {
    var fa := Frames(c.overflow + a);
    AppendAssoc(c.overflow, a, b);
    FramesAppend(c.overflow + a, b);
    var fb := Frames(fa.rest + b);
    AcceptsParts(read, fa.frames, fb.frames);
    FeedOn(read, c, a, b);
  }

  /** For that the messages of the first chunk need be accepted only. */
  lemma FeedOn(read: Reader, c: Collected, a: string, b: string)
    requires Settled(c)
    requires Accepts(read, Frames(c.overflow + a).frames)
    ensures var c' := Feed(read, c, a);
            Settled(c') && c'.overflow == Frames(c.overflow + a).rest && Feed(read, c', b) == Feed(read, c, a + b)
  {
    var fa := Frames(c.overflow + a);
    AppendAssoc(c.overflow, a, b);
    FramesAppend(c.overflow + a, b);
    FeedAccepted(read, c, a);
    DeliverConcat(read, c.(overflow := ""), fa.frames, Frames(fa.rest + b));
  }

  lemma {:induction false} DeliverRest(read: Reader, c: Collected, frames: seq<string>, rest: string)
    requires Accepts(read, frames)
    ensures Deliver(read, c, Framed(frames, rest)) == Deliver(read, c, Framed(frames, "")).(overflow := rest)
    decreases |frames|
  {
    if frames != [] {
      var msg := TrimBlank(frames[0]);
      var fields := read(msg).fields;
      DeliverRest(read, c.(msg := msg, fields := fields, arrived := c.arrived + [Arrival(msg, fields)]),
                  frames[1..], rest);
    }
  }

  /** Chunk independence: however a byte string is cut, if the parser accepts its messages the
      collector ends in the state a single chunk would have given. */
  lemma {:induction false} ChunkIndependence(read: Reader, c: Collected, chunks: seq<string>)
    requires Settled(c)
    requires Accepts(read, Frames(c.overflow + Concat(chunks)).frames)
    ensures FeedAll(read, c, chunks) == Feed(read, c, Concat(chunks))
    ensures Settled(FeedAll(read, c, chunks))
    decreases |chunks|
  {
    if chunks == [] {
      assert c.overflow + "" == c.overflow;
      assert Frames(c.overflow) == Framed([], c.overflow);
    } else {
      var a, b := chunks[0], Concat(chunks[1..]);
      FeedTwo(read, c, a, b);
      ChunkIndependence(read, Feed(read, c, a), chunks[1..]);
    }
  }

  /** A message the parser rejects takes everything behind it in the same chunk with it, so
      the outcome then does depend on where the stream was cut. */
  lemma {:induction false} RejectionDropsChunk(read: Reader, c: Collected, a: string, bad: string, b: string)
    requires Settled(c)
    requires Frames(c.overflow + a).rest == "" && Accepts(read, Frames(c.overflow + a).frames)
    requires IsFrame(bad) && read(TrimBlank(bad)).Threw?
    ensures Feed(read, c, a + bad + b) == Feed(read, c, a + bad)
    ensures Feed(read, c, a + bad).overflow == ""
    ensures Feed(read, c, a + bad).msg == TrimBlank(bad)
    ensures Feed(read, c, a + bad).arrived == c.arrived + Arrivals(read, Frames(c.overflow + a).frames)
  {
    var start := c.(overflow := "");
    DeliverAccepted(read, start, Framed(Frames(c.overflow + a).frames, ""));
    FeedRejected(read, c, a, bad, b);
    FeedRejected(read, c, a, bad, "");
    assert a + bad + "" == a + bad;
  }

  lemma FeedRejected(read: Reader, c: Collected, a: string, bad: string, b: string)
    requires Settled(c)
    requires Frames(c.overflow + a).rest == "" && Accepts(read, Frames(c.overflow + a).frames)
    requires IsFrame(bad) && read(TrimBlank(bad)).Threw?
    ensures Feed(read, c, a + bad + b) ==
            Deliver(read, c.(overflow := ""), Framed(Frames(c.overflow + a).frames, ""))
            .(msg := TrimBlank(bad), fields := read(TrimBlank(bad)).left)
  {
    hide Silent, TrimBlank;
    var fa := Frames(c.overflow + a);
    AppendAssoc(a, bad, b);
    AppendAssoc(c.overflow, a, bad + b);
    FramesAppend(c.overflow + a, bad + b);
    assert fa.rest + (bad + b) == bad + b;
    FrameEndPrefix(START, bad, b);
    assert (bad + b)[..|bad|] == bad;
    DeliverConcat(read, c.(overflow := ""), fa.frames, Frames(bad + b));
  }

  /** However the string is cut, the outcome is that of a single chunk. */
  ghost predicate CutIndependent(read: Reader, c: Collected, s: string) {
    forall chunks :: Concat(chunks) == s ==> FeedAll(read, c, chunks) == Feed(read, c, s)
  }

  /** A delivery that is rejected leaves the rejected message behind and no overflow. */
  lemma {:induction false} DeliverRejected(read: Reader, c: Collected, f: Framed)
    requires !Accepts(read, f.frames) && c.overflow == "" && forall m :: m in f.frames ==> m != ""
    ensures Deliver(read, c, f).msg != "" && Deliver(read, c, f).overflow == ""
    decreases |f.frames|
  {
    var msg := TrimBlank(f.frames[0]);
    assert f.frames[0] in f.frames && f.frames == [f.frames[0]] + f.frames[1..];
    if read(msg).Read? {
      var fields := read(msg).fields;
      var bad :| bad in f.frames && !read(TrimBlank(bad)).Read?;
      assert bad in f.frames[1..];
      assert !Accepts(read, f.frames[1..]);
      assert forall m :: m in f.frames[1..] ==> m in f.frames;
      DeliverRejected(read, c.(msg := msg, fields := fields, arrived := c.arrived + [Arrival(msg, fields)]),
                      f.(frames := f.frames[1..]));
    }
  }

  /** Chunk independence holds exactly when the parser accepts every message of the string. */
  lemma CutIndependentIff(read: Reader, c: Collected, s: string)
    requires Settled(c)
    ensures CutIndependent(read, c, s) <==> Accepts(read, Frames(c.overflow + s).frames)
  {
    if Accepts(read, Frames(c.overflow + s).frames) {
      forall chunks | Concat(chunks) == s
        ensures FeedAll(read, c, chunks) == Feed(read, c, s)
      {
        ChunkIndependence(read, c, chunks);
      }
    } else {
      var c1 := Feed(read, c, s);
      FramesComplete(c.overflow + s);
      DeliverRejected(read, c.(overflow := ""), Frames(c.overflow + s));
      EmptyChunk(read, c1);
      CutInTwo(read, c, s, "");
      assert s + "" == s;
    }
  }

  /** A chunk without bytes settles the collector. */
  lemma EmptyChunk(read: Reader, c: Collected)
    requires c.overflow == ""
    ensures Feed(read, c, "") == c.(msg := "")
  {
    assert "" + "" == "" && Frames("") == Framed([], "");
  }

  lemma CutInTwo(read: Reader, c: Collected, a: string, b: string)
    ensures Concat([a, b]) == a + b
    ensures FeedAll(read, c, [a, b]) == Feed(read, Feed(read, c, a), b)
  {
    assert [a, b][1..] == [b] && [b][1..] == [];
    assert Concat([b]) == b + "" == b;
    assert FeedAll(read, Feed(read, c, a), [b]) == Feed(read, Feed(read, c, a), b);
  }

  /** And listeners notice: a good message behind a rejected one is announced if and only if
      it comes in a chunk of its own. */
  lemma GoodAfterRejected(read: Reader, bad: string, good: string)
    requires IsFrame(bad) && read(TrimBlank(bad)).Threw?
    requires IsFrame(good) && read(TrimBlank(good)).Read?
    ensures FeedAll(read, FRESH, [bad + good]).arrived == []
    ensures FeedAll(read, FRESH, [bad, good]).arrived == [Arrival(TrimBlank(good), read(TrimBlank(good)).fields)]
  {
    BadFirst(read, bad, good);
    OneChunk(read, FRESH, bad + good);
    CutInTwo(read, FRESH, bad, good);
    OneFrame(good);
    var c := Feed(read, FRESH, bad);
    assert c.overflow + good == good;
    DeliverAccepted(read, c, Frames(good));
    assert [good][1..] == [];
  }

  lemma BadFirst(read: Reader, bad: string, good: string)
    requires IsFrame(bad) && read(TrimBlank(bad)).Threw?
    ensures Feed(read, FRESH, bad + good).arrived == [] && Feed(read, FRESH, bad).arrived == []
    ensures Feed(read, FRESH, bad).overflow == ""
  {
    assert "" + "" == "" && Frames("") == Framed([], "");
    RejectionDropsChunk(read, FRESH, "", bad, good);
    assert "" + bad == bad;
  }

  lemma OneChunk(read: Reader, c: Collected, s: string)
    ensures FeedAll(read, c, [s]) == Feed(read, c, s)
  {
    assert [s][1..] == [];
  }

  lemma OneFrame(s: string)
    requires IsFrame(s)
    ensures Frames(s) == Framed([s], "")
  {
    assert s[..|s|] == s && s[|s|..] == "";
    assert Frames("") == Framed([], "");
  }

  // ---------------------------------------------------------------------------------------
  // The code
  // ---------------------------------------------------------------------------------------

  /** A string stream read one character at a time, blanks included. */
  class CharStream {
    const data: string
    var pos: nat

    constructor (s: string)
      ensures data == s && pos == 0
    {
      data, pos := s, 0;
    }

    ghost predicate Valid()
      reads this
    {
      pos <= |data|
    }

    function Remaining(): string
      requires Valid()
      reads this
    {
      data[pos..]
    }

    method Get() returns (ok: bool, ch: char)
      requires Valid()
      modifies this`pos
      ensures Valid()
      ensures ok == (old(Remaining()) != "")
      ensures ok ==> ch == old(Remaining())[0] && Remaining() == old(Remaining())[1..]
      ensures !ok ==> Remaining() == ""
    {
      if pos == |data| {
        return false, '\0';
      }
      ok, ch := true, data[pos];
      pos := pos + 1;
    }
  }

  /** The trimmer's retry loop over its three codes. */
  method TrimPrefix(s: string) returns (r: string)
    ensures r == TrimBlank(s)
  {
    r := s;
    var codes := ['\n', ' ', '\t'];
    var foundPrefix := true;
    while foundPrefix
      invariant TrimBlank(r) == TrimBlank(s)
      invariant !foundPrefix ==> |r| <= 1 || !IsBlank(r[0])
      decreases |r|, foundPrefix
    {
      foundPrefix := false;
      for i := 0 to |codes|
        invariant |r| > 1 ==> forall k :: 0 <= k < i ==> r[0] != codes[k]
      {
        if 1 < |r| && r[0] == codes[i] {
          foundPrefix := true;
          break;
        }
      }
      if foundPrefix {
        r := r[1..];
      } else {
        assert |r| > 1 ==> r[0] != codes[0] && r[0] != codes[1] && r[0] != codes[2];
      }
    }
  }

  class XMLMsgStreamCollector {
    var msg: string
    var overflow: string
    var fields: StringMap
    // the emissions of the message-arrived signal, in order
    var arrived: seq<Arrival>

    constructor ()
      ensures State() == FRESH
    {
      msg, overflow, fields, arrived := "", "", map[], [];
    }

    function State(): Collected
      reads this
    {
      Collected(msg, overflow, fields, arrived)
    }

    method GetNextXMLMsg(iss: CharStream) returns (r: string)
      requires iss.Valid()
      modifies this`overflow, iss`pos
      ensures iss.Valid()
      ensures var s := old(iss.Remaining());
              var n := FrameEnd(START, s);
              if n == 0 then r == "" && overflow == s && iss.Remaining() == ""
              else r == TrimBlank(s[..n]) && overflow == old(overflow) && iss.Remaining() == s[n..]
    {
      ghost var s := iss.Remaining();
      var ret := "";
      var lastch := '\0';
      var bracketCount := 0;
      var ok, ch := iss.Get();
      while ok
        invariant iss.Valid() && overflow == old(overflow)
        invariant s == if ok then ret + [ch] + iss.Remaining() else ret
        invariant !ok ==> iss.Remaining() == ""
        invariant Silent(START, ret) && After(START, ret) == Scan(lastch, bracketCount)
        decreases ok, |iss.Remaining()|
      {
        ScanStep(ret, ch, iss.Remaining());
        ret := ret + [ch];
        if lastch == '<' {
          if ch == '/' {
            bracketCount := bracketCount - 1;
          } else {
            bracketCount := bracketCount + 1;
          }
        }
        if ch == '>' && lastch == '?' {
          bracketCount := bracketCount - 1;
        } else if ch == '>' {
          if lastch == '/' {
            bracketCount := bracketCount - 1;
          }
          if bracketCount == 0 {
            r := TrimPrefix(ret);
            return;
          }
        }
        lastch := ch;
        ok, ch := iss.Get();
      }
      overflow := ret;
      r := "";
    }

    /** What GetNextXMLMsg returned, in terms of the frames still to be delivered. */
    lemma NextFrame(read: Reader, c: Collected, s: string)
      ensures var n := FrameEnd(START, s);
              if n == 0 then Deliver(read, c, Frames(s)) == c.(msg := "", overflow := s)
              else Frames(s) == Cons(s[..n], Frames(s[n..]))
    {
    }

    method IoCb(read: Reader, chunk: string)
      modifies this
      ensures State() == Feed(read, old(State()), chunk)
    {
      hide FrameEnd, Frames, TrimBlank, Silent;
      var msgss := new CharStream(overflow + chunk);
      ghost var target := Feed(read, State(), chunk);
      overflow := "";
      ghost var s := msgss.Remaining();
      assert s == old(overflow) + chunk;
      ghost var state := State();
      msg := GetNextXMLMsg(msgss);
      NextFrame(read, state, s);
      while msg != ""
        invariant msgss.Valid() && fresh(msgss)
        invariant state.overflow == "" && target == Deliver(read, state, Frames(s))
        invariant State() == state.(msg := msg, overflow := overflow)
        invariant var n := FrameEnd(START, s);
                  if msg == "" then n == 0 && overflow == s
                  else n > 0 && msg == TrimBlank(s[..n]) && overflow == "" && msgss.Remaining() == s[n..]
        decreases |s|
      {
        ghost var n := FrameEnd(START, s);
        NextFrame(read, state, s);
        match read(msg) {
          case Threw(left) =>
            fields := left;
            return;
          case Read(m) =>
            fields := m;
        }
        arrived := arrived + [Arrival(msg, fields)];
        state := State();
        s := s[n..];
        msg := GetNextXMLMsg(msgss);
      }
      NextFrame(read, state, s);
    }
  }
}
