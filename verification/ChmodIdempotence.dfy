/** When applying a compiled mode string twice is applying it once. */
module ChmodIdempotence {
  import opened Sequences
  import opened ChmodOperations
  import opened ChmodParser
  import opened ChmodMeaning

  predicate Idempotent(ops: seq<Op>, m: Mode) {
    Run(ops, Run(ops, m)) == Run(ops, m)
  }

  // ---------------------------------------------------------------------------------------
  // One clause of the letters r, w, x, X, s and t
  // ---------------------------------------------------------------------------------------

  predicate SettledLetter(c: char) { IsPlainLetter(c) || c == 'X' }

  predicate SettledLetters(letters: string) {
    forall i :: 0 <= i < |letters| ==> SettledLetter(letters[i])
  }

  /** Whether X applies: to a directory, or where some class may execute. */
  predicate Fires(dir: bool, st: Mode) {
    dir || st * ALL_X != {}
  }

  function Bits(c: char, a: Mode, dir: bool, st: Mode): Mode {
    if c == 'X' && !Fires(dir, st) then {} else LetterBits(c) * a
  }

  /** What the operation of one letter does. */
  function Letter(kind: Kind, c: char, a: Mode, dir: bool, st: Mode): Mode {
    match kind
    case Equals => (st - a) + Bits(c, a, dir, st)
    case Plus => st + Bits(c, a, dir, st)
    case Minus => st - Bits(c, a, dir, st)
  }

  function Letters(kind: Kind, letters: string, a: Mode, dir: bool, st: Mode): Mode
    decreases |letters|
  {
    if letters == "" then st else Letters(kind, letters[1..], a, dir, Letter(kind, letters[0], a, dir, st))
  }

  lemma LetterIsApply(kind: Kind, c: char, a: Mode, e: Mode, st: Mode)
    requires SettledLetter(c)
    ensures Apply(LetterOp(kind, a, c), e, st) == Letter(kind, c, a, IsDir(e), st)
  {
    assert st * CHMOD_MODE_BITS * ALL_X == st * ALL_X;
    assert c == 'X' ==> LetterBits(c) * a - ALL_X == {};
  }

  lemma {:induction false} LettersAreChain(kind: Kind, letters: string, a: Mode, e: Mode, st: Mode)
    requires SettledLetters(letters)
    ensures Chain(LetterOps(kind, a, letters), e, st) == Letters(kind, letters, a, IsDir(e), st)
    decreases |letters|
  {
    if letters != "" {
      LetterIsApply(kind, letters[0], a, e, st);
      assert SettledLetters(letters[1..]);
      assert LetterOps(kind, a, letters)[1..] == LetterOps(kind, a, letters[1..]);
      LettersAreChain(kind, letters[1..], a, e, Apply(LetterOp(kind, a, letters[0]), e, st));
    }
  }

  /** The letters change nothing more: whatever they name is settled already. */
  predicate Settled(kind: Kind, letters: string, a: Mode, dir: bool, st: Mode)
    requires !kind.Equals?
  {
    forall c :: c in letters ==> Letter(kind, c, a, dir, st) == st
  }

  lemma {:induction false} SettledStays(kind: Kind, letters: string, a: Mode, dir: bool, st: Mode)
    requires !kind.Equals? && Settled(kind, letters, a, dir, st)
    ensures Letters(kind, letters, a, dir, st) == st
    decreases |letters|
  {
    if letters != "" {
      assert letters[0] in letters;
      assert forall c :: c in letters[1..] ==> c in letters;
      SettledStays(kind, letters[1..], a, dir, st);
    }
  }

  lemma NoExecute(c: char, a: Mode)
    requires SettledLetter(c) && c != 'x' && c != 'X'
    ensures LetterBits(c) * a * ALL_X == {}
  {
  }

  /** `+` adds all the affected execute bits or none, and leaves its letters settled. */
  lemma {:induction false} PlusSettles(letters: string, a: Mode, dir: bool, st: Mode)
    requires SettledLetters(letters)
    ensures var r := Letters(Plus, letters, a, dir, st);
            && st <= r && (ALL_X * a <= r || r * ALL_X == st * ALL_X)
            && Settled(Plus, letters, a, dir, r)
    decreases |letters|
  {
    if letters != "" {
      var c := letters[0];
      var st1 := Letter(Plus, c, a, dir, st);
      assert SettledLetters(letters[1..]);
      PlusSettles(letters[1..], a, dir, st1);
      var r := Letters(Plus, letters, a, dir, st);
      if c != 'x' && c != 'X' {
        NoExecute(c, a);
      }
      assert letters == [c] + letters[1..];
      assert Letter(Plus, c, a, dir, r) == r;
    }
  }

  /** `-` likewise. */
  lemma {:induction false} MinusSettles(letters: string, a: Mode, dir: bool, st: Mode)
    requires SettledLetters(letters)
    ensures var r := Letters(Minus, letters, a, dir, st);
            r <= st && Settled(Minus, letters, a, dir, r)
    decreases |letters|
  {
    if letters != "" {
      var c := letters[0];
      var st1 := Letter(Minus, c, a, dir, st);
      assert SettledLetters(letters[1..]);
      MinusSettles(letters[1..], a, dir, st1);
      var r := Letters(Minus, letters, a, dir, st);
      assert letters == [c] + letters[1..];
      assert r * ALL_X != {} ==> st * ALL_X != {};
      assert Letter(Minus, c, a, dir, r) == r;
    }
  }

  /** `=` leaves what is not affected, and of the rest what the last letter gives. */
  lemma {:induction false} EqualsShape(letters: string, a: Mode, dir: bool, st: Mode)
    requires SettledLetters(letters) && letters != ""
    ensures var last := letters[|letters| - 1];
            var r := Letters(Equals, letters, a, dir, st);
            || r == (st - a) + LetterBits(last) * a
            || (last == 'X' && r == st - a)
    decreases |letters|
  {
    if |letters| > 1 {
      assert SettledLetters(letters[1..]);
      EqualsShape(letters[1..], a, dir, Letter(Equals, letters[0], a, dir, st));
    } else {
      assert letters[1..] == "";
    }
  }

  /** A start in which X fires more easily ends with at least as many bits. */
  lemma {:induction false} EqualsGrows(letters: string, a: Mode, dir: bool, st: Mode, st': Mode)
    requires letters != "" && st - a == st' - a && (Fires(dir, st) ==> Fires(dir, st'))
    ensures Letters(Equals, letters, a, dir, st) <= Letters(Equals, letters, a, dir, st')
    decreases |letters|
  {
    var s1, s1' := Letter(Equals, letters[0], a, dir, st), Letter(Equals, letters[0], a, dir, st');
    assert s1 <= s1';
    if |letters| > 1 {
      EqualsGrows(letters[1..], a, dir, s1, s1');
    } else {
      assert letters[1..] == "";
    }
  }

  lemma EqualsSettles(letters: string, a: Mode, dir: bool, st: Mode)
    requires SettledLetters(letters)
    ensures var r := Letters(Equals, letters, a, dir, st); Letters(Equals, letters, a, dir, r) == r
  {
    if letters != "" {
      var r := Letters(Equals, letters, a, dir, st);
      EqualsShape(letters, a, dir, st);
      EqualsShape(letters, a, dir, r);
      assert r - a == st - a;
      if Fires(dir, st) ==> Fires(dir, r) {
        EqualsGrows(letters, a, dir, st, r);
      }
      if Fires(dir, r) ==> Fires(dir, st) {
        EqualsGrows(letters, a, dir, r, st);
      }
    }
  }

  lemma LettersSettle(kind: Kind, letters: string, a: Mode, dir: bool, st: Mode)
    requires SettledLetters(letters)
    ensures var r := Letters(kind, letters, a, dir, st); Letters(kind, letters, a, dir, r) == r
  {
    match kind
    case Equals => EqualsSettles(letters, a, dir, st);
    case Plus =>
      PlusSettles(letters, a, dir, st);
      SettledStays(Plus, letters, a, dir, Letters(Plus, letters, a, dir, st));
    case Minus =>
      MinusSettles(letters, a, dir, st);
      SettledStays(Minus, letters, a, dir, Letters(Minus, letters, a, dir, st));
  }

  lemma SameType(m: Mode, r: Mode)
    requires r - CHMOD_MODE_BITS == m - CHMOD_MODE_BITS
    ensures IsDir(r) == IsDir(m)
  {
    assert m * S_IFMT == (m - CHMOD_MODE_BITS) * S_IFMT;
    assert r * S_IFMT == (r - CHMOD_MODE_BITS) * S_IFMT;
  }

  lemma LetterOpsKeepType(kind: Kind, letters: string, a: Mode, e: Mode, st: Mode)
    requires SettledLetters(letters) && a <= CHMOD_MODE_BITS
    ensures Letters(kind, letters, a, IsDir(e), st) - CHMOD_MODE_BITS == st - CHMOD_MODE_BITS
  {
    LettersAreChain(kind, letters, a, e, st);
    LetterOpsWithin(kind, a, letters);
    ChainKeepsType(LetterOps(kind, a, letters), e, st);
  }

  lemma ClauseRuns(kind: Kind, who: Mode, letters: string, u: Umask, m: Mode)
    requires SettledLetters(letters)
    ensures var clears := who == {} && kind == Equals && Equals in u.ops;
            Run(ClauseOps(kind, who, letters, u), m) ==
            Letters(kind, letters, Affected(kind, who, u), IsDir(m), if clears then m - CHMOD_MODE_BITS else m)
  {
    var a := Affected(kind, who, u);
    var ops := LetterOps(kind, a, letters);
    assert [] + ops == ops;
    ChainAppend([CLEAR_ALL], ops, m, m);
    ChainOne(CLEAR_ALL, m, m);
    assert Apply(CLEAR_ALL, m, m) == m - CHMOD_MODE_BITS;
    LettersAreChain(kind, letters, a, m, m);
    LettersAreChain(kind, letters, a, m, m - CHMOD_MODE_BITS);
  }

  /** One clause of these letters, in any order and number, X among them as often as one likes,
      is idempotent for every operator, every affected mask and every umask. */
  lemma OneClauseIsIdempotent(kind: Kind, who: Mode, letters: string, u: Umask, m: Mode)
    requires SettledLetters(letters) && who <= CHMOD_MODE_BITS
    ensures Idempotent(ClauseOps(kind, who, letters, u), m)
  {
    var a := Affected(kind, who, u);
    var clears := who == {} && kind == Equals && Equals in u.ops;
    var st := if clears then m - CHMOD_MODE_BITS else m;
    var r := Run(ClauseOps(kind, who, letters, u), m);
    ClauseRuns(kind, who, letters, u, m);
    ClauseRuns(kind, who, letters, u, r);
    LetterOpsKeepType(kind, letters, a, m, st);
    assert st - CHMOD_MODE_BITS == m - CHMOD_MODE_BITS;
    SameType(m, r);
    LettersSettle(kind, letters, a, IsDir(m), st);
  }

  // ---------------------------------------------------------------------------------------
  // Every string of plain letters
  // ---------------------------------------------------------------------------------------

  /** The letters behind the operator of one turn, and behind those of all turns. */
  function TurnLetters(t: string): string {
    var w := ParseWho(t);
    if w.rest == "" || KindOf(w.rest[0]).None? then "" else w.rest[1..][..LetterCount(w.rest[1..])]
  }

  function AllLetters(t: string, u: Umask): string
    decreases |t|
  {
    match ParseTurn(t, u)
    case Stop(_) => TurnLetters(t)
    case More(_, rest) => TurnLetters(t) + AllLetters(rest, u)
    case Refuse => ""
  }

  lemma PlainParts(a: string, b: string)
    requires PlainLetters(a + b)
    ensures PlainLetters(a) && PlainLetters(b)
  {
    assert forall i :: 0 <= i < |a| ==> (a + b)[i] == a[i];
    assert forall i :: 0 <= i < |b| ==> (a + b)[|a| + i] == b[i];
  }

  lemma {:induction false} PlainParse(t: string, u: Umask)
    requires PlainLetters(AllLetters(t, u))
    ensures ParseClauses(t, u).Compiled? ==> AllPlain(ParseClauses(t, u).ops)
    decreases |t|
  {
    var turn := ParseTurn(t, u);
    if turn.More? {
      PlainParts(TurnLetters(t), AllLetters(turn.rest, u));
      PlainParse(turn.rest, u);
    }
    if !turn.Refuse? {
      PlainTurn(t, u);
    }
  }

  lemma PlainTurn(t: string, u: Umask)
    requires PlainLetters(TurnLetters(t)) && !ParseTurn(t, u).Refuse?
    ensures AllPlain(ParseTurn(t, u).ops)
  {
    var w := ParseWho(t);
    if w.rest != "" && KindOf(w.rest[0]).Some? {
      var kind := KindOf(w.rest[0]).value;
      PlainLetterOps(kind, Affected(kind, w.mask, u), TurnLetters(t));
    }
  }

  /** Every string that compiles is idempotent if its operators are followed by plain letters
      only, whatever else it holds: blanks, stray characters, empty clauses, octal digits. */
  lemma PlainStringIsIdempotent(s: string, u: Umask, m: Mode)
    requires IsNumber(s) || PlainLetters(AllLetters(Strip(s), u))
    ensures Compile(s, u).Compiled? ==> Idempotent(Compile(s, u).ops, m)
  {
    if Compile(s, u).Compiled? {
      if !IsNumber(s) {
        PlainParse(Strip(s), u);
      }
      RunIdempotent(Compile(s, u).ops, m);
    }
  }

  // ---------------------------------------------------------------------------------------
  // One X among plain letters, over any number of clauses
  // ---------------------------------------------------------------------------------------

  /** Bits the operation of an X takes away when it does not add them. */
  function Taken(x: Op): Mode {
    if x.kind.Equals? then x.affected else {}
  }

  predicate ConditionalExecute(x: Op) {
    x.xIfAnyX && !x.copyExisting && x.mode <= ALL_X && x.mode <= x.affected
  }

  function XOn(x: Op, fires: bool, st: Mode): Mode {
    var value := if fires then x.mode else {};
    match x.kind
    case Equals => (st - x.affected) + value
    case Plus => st + value
    case Minus => st - value
  }

  /** With P and Q the masks in front of the X and behind it, the string is idempotent if and
      only if: P adds an execute bit, so that the X always applies; or the X removes bits; or Q
      decides every bit the X adds; or else no execute bit that Q adds can wake the X, as P clears
      them all, and no execute bit that woke it can be lost, unless one that X adds wakes it again. */
  predicate Stable(p: Masks, x: Op, q: Masks) {
    || p.added * ALL_X != {}
    || x.kind.Minus?
    || x.mode <= q.cleared + q.added
    || (q.added * ALL_X <= p.cleared &&
        ((ALL_X - p.cleared) * (Taken(x) + q.cleared) == {} || !(x.mode - q.cleared <= p.cleared)))
  }

  /** The three steps of such a string. */
  function Steps(p: Masks, x: Op, q: Masks, dir: bool, m: Mode): Mode {
    q.On(XOn(x, Fires(dir, p.On(m)), p.On(m)))
  }

  lemma OneXRuns(pre: seq<Op>, x: Op, post: seq<Op>, m: Mode)
    requires AllPlain(pre) && AllPlain(post) && ConditionalExecute(x)
    ensures Run(pre + [x] + post, m) == Steps(ChainMasks(pre), x, ChainMasks(post), IsDir(m), m)
  {
    ChainAppend(pre + [x], post, m, m);
    ChainAppend(pre, [x], m, m);
    ChainIsOneMask(pre, m, m);
    var st := ChainMasks(pre).On(m);
    ChainOne(x, m, st);
    assert st * CHMOD_MODE_BITS * ALL_X == st * ALL_X;
    assert x.mode - ALL_X == {};
    ChainIsOneMask(post, m, Apply(x, m, st));
  }

  /** Both runs apply the X, or neither. */
  lemma SameFiring(p: Masks, x: Op, q: Masks, dir: bool, m: Mode)
    requires var r := Steps(p, x, q, dir, m); Fires(dir, p.On(r)) == Fires(dir, p.On(m))
    ensures var r := Steps(p, x, q, dir, m); Steps(p, x, q, dir, r) == r
  {
  }

  /** The X applied in the first run only: it is asleep afterwards. */
  lemma FellAsleep(p: Masks, x: Op, q: Masks, m: Mode)
    requires ConditionalExecute(x) && Stable(p, x, q)
    requires Fires(false, p.On(m)) && !Fires(false, p.On(Steps(p, x, q, false, m)))
    ensures var r := Steps(p, x, q, false, m); Steps(p, x, q, false, r) == r
  {
    var st := p.On(m);
    var r := Steps(p, x, q, false, m);
    forall f | f in r * ALL_X + p.added * ALL_X
      ensures f in p.cleared && f !in p.added
    {
      assert (f in p.cleared && f !in p.added) || f in p.On(r) * ALL_X;
    }
    assert q.added <= r;
    assert !x.kind.Minus? ==> x.mode - q.cleared <= r;
    var e :| e in st * ALL_X;
    assert e in p.added * ALL_X || e in m - p.cleared;
    assert e in ALL_X - p.cleared && e !in r;
    assert !x.kind.Minus? ==> e in Taken(x) + q.cleared;
    assert x.kind.Minus? || x.mode <= q.cleared + q.added;
  }

  /** It applies in the second run only: the string woke it. */
  lemma WokeUp(p: Masks, x: Op, q: Masks, m: Mode)
    requires ConditionalExecute(x) && Stable(p, x, q)
    requires !Fires(false, p.On(m)) && Fires(false, p.On(Steps(p, x, q, false, m)))
    ensures var r := Steps(p, x, q, false, m); Steps(p, x, q, false, r) == r
  {
    var r := Steps(p, x, q, false, m);
    var e :| e in p.On(r) * ALL_X;
    assert p.added * ALL_X == {} && e in r && e !in p.cleared;
    assert e in q.added;
  }

  lemma StableIsEnough(p: Masks, x: Op, q: Masks, dir: bool, m: Mode)
    requires ConditionalExecute(x) && Stable(p, x, q)
    ensures var r := Steps(p, x, q, dir, m); Steps(p, x, q, dir, r) == r
  {
    var r := Steps(p, x, q, dir, m);
    if Fires(dir, p.On(r)) == Fires(dir, p.On(m)) {
      SameFiring(p, x, q, dir, m);
    } else if Fires(dir, p.On(m)) {
      FellAsleep(p, x, q, m);
    } else {
      WokeUp(p, x, q, m);
    }
  }

  /** Otherwise a file with no execute bit or with one shows the difference. */
  lemma UnstableFails(p: Masks, x: Op, q: Masks) returns (m: Mode)
    requires ConditionalExecute(x) && !Stable(p, x, q)
    ensures m <= ALL_X && var r := Steps(p, x, q, false, m); Steps(p, x, q, false, r) != r
  {
    var b :| b in x.mode && b !in q.cleared + q.added;
    if e :| e in q.added * ALL_X && e !in p.cleared {
      m := {};
      var r := Steps(p, x, q, false, m);
      assert e in p.On(r) * ALL_X;
      assert b !in r && b in Steps(p, x, q, false, r);
    } else {
      var e :| e in (ALL_X - p.cleared) * (Taken(x) + q.cleared);
      m := {e};
      var r := Steps(p, x, q, false, m);
      assert e in p.On(m) * ALL_X;
      assert b in r;
      assert b in x.mode - q.cleared && b in p.cleared;
      Asleep(p, x, q, e);
      assert b !in Steps(p, x, q, false, r);
    }
  }

  lemma Asleep(p: Masks, x: Op, q: Masks, e: nat)
    requires ConditionalExecute(x) && p.added * ALL_X == {} && q.added * ALL_X <= p.cleared && !x.kind.Minus?
    requires x.mode - q.cleared <= p.cleared && e in ALL_X - p.cleared && e in Taken(x) + q.cleared
    ensures p.On(Steps(p, x, q, false, {e})) * ALL_X == {}
  {
    var r := Steps(p, x, q, false, {e});
    forall f | f in r * ALL_X
      ensures f in p.cleared
    {
      assert (f in x.mode && f !in q.cleared) || f == e || f in q.added || f in p.added;
    }
  }

  /** A string with one X, in any number of clauses around it, is idempotent on every mode if
      and only if its masks are stable. */
  lemma OneXIsIdempotentIff(pre: seq<Op>, x: Op, post: seq<Op>)
    requires AllPlain(pre) && AllPlain(post) && ConditionalExecute(x)
    requires AllWithin(pre) && Within(x) && AllWithin(post)
    ensures (forall m :: Idempotent(pre + [x] + post, m)) <==> Stable(ChainMasks(pre), x, ChainMasks(post))
  {
    var ops, p, q := pre + [x] + post, ChainMasks(pre), ChainMasks(post);
    forall m
      ensures var r := Steps(p, x, q, IsDir(m), m);
              Idempotent(ops, m) <==> Steps(p, x, q, IsDir(m), r) == r
    {
      var r := Run(ops, m);
      OneXRuns(pre, x, post, m);
      OneXRuns(pre, x, post, r);
      ChainKeepsType(ops, m, m);
      SameType(m, r);
    }
    if Stable(p, x, q) {
      forall m
        ensures Idempotent(ops, m)
      {
        StableIsEnough(p, x, q, IsDir(m), m);
      }
    } else {
      var m := UnstableFails(p, x, q);
      assert m * S_IFMT == {};
      assert 14 in S_IFDIR;
      assert !IsDir(m);
      assert !Idempotent(ops, m);
    }
  }

  // ---------------------------------------------------------------------------------------
  // Any number of X
  // ---------------------------------------------------------------------------------------

  predicate NoCopies(ops: seq<Op>) {
    forall op :: op in ops ==> Plain(op) || ConditionalExecute(op)
  }

  /** What the operation does to the bits that are no execute bits: X never adds or removes one. */
  function Elsewhere(op: Op): Op {
    op.(mode := op.mode - ALL_X, xIfAnyX := false)
  }

  function AllElsewhere(ops: seq<Op>): seq<Op> {
    if ops == [] then [] else [Elsewhere(ops[0])] + AllElsewhere(ops[1..])
  }

  lemma ApplySplits(op: Op, e: Mode, st: Mode, f: Mode, rest: Mode)
    requires (Plain(op) || ConditionalExecute(op)) && IsDir(e) == IsDir(f)
    requires rest * ALL_X == st * ALL_X
    ensures Apply(op, e, st) * ALL_X == Apply(op, f, rest) * ALL_X
    ensures Apply(op, e, st) - ALL_X == Apply(Elsewhere(op), f, st - ALL_X) - ALL_X
  {
    assert st * CHMOD_MODE_BITS * ALL_X == st * ALL_X;
    assert rest * CHMOD_MODE_BITS * ALL_X == rest * ALL_X;
    var v := CalcMode(op, e, st);
    assert v == CalcMode(op, f, rest);
    assert v - ALL_X == op.mode - ALL_X;
    forall b
      ensures b in Apply(op, e, st) * ALL_X <==> b in Apply(op, f, rest) * ALL_X
    {
      assert b in ALL_X ==> (b in st <==> b in st * ALL_X) && (b in rest <==> b in rest * ALL_X);
    }
    forall b
      ensures b in Apply(op, e, st) - ALL_X <==> b in Apply(Elsewhere(op), f, st - ALL_X) - ALL_X
    {
      assert b in v - ALL_X <==> b in op.mode - ALL_X;
    }
  }

  /** The execute bits of the outcome come from the execute bits alone. */
  lemma {:induction false} ExecuteBits(ops: seq<Op>, e: Mode, st: Mode, f: Mode, rest: Mode)
    requires NoCopies(ops) && IsDir(e) == IsDir(f) && rest * ALL_X == st * ALL_X
    ensures Chain(ops, e, st) * ALL_X == Chain(ops, f, rest) * ALL_X
    decreases |ops|
  {
    if ops != [] {
      assert ops[0] in ops && forall op :: op in ops[1..] ==> op in ops;
      ApplySplits(ops[0], e, st, f, rest);
      ExecuteBits(ops[1..], e, Apply(ops[0], e, st), f, Apply(ops[0], f, rest));
    }
  }

  /** The others go through one mask. */
  lemma {:induction false} OtherBits(ops: seq<Op>, e: Mode, st: Mode)
    requires NoCopies(ops)
    ensures Chain(ops, e, st) - ALL_X == ChainMasks(AllElsewhere(ops)).On(st) - ALL_X
    decreases |ops|
  {
    if ops != [] {
      assert ops[0] in ops && forall op :: op in ops[1..] ==> op in ops;
      var o := Elsewhere(ops[0]);
      ApplySplits(ops[0], e, st, e, st);
      OtherBits(ops[1..], e, Apply(ops[0], e, st));
      assert AllElsewhere(ops)[1..] == AllElsewhere(ops[1..]);
      assert Apply(ops[0], e, st) - ALL_X == OpMasks(o).On(st) - ALL_X;
    }
  }

  lemma OtherBitsSettle(ops: seq<Op>, m: Mode)
    requires NoCopies(ops)
    ensures Run(ops, Run(ops, m)) - ALL_X == Run(ops, m) - ALL_X
  {
    var r, k := Run(ops, m), ChainMasks(AllElsewhere(ops));
    OtherBits(ops, m, m);
    OtherBits(ops, r, r);
    assert k.On(r) - ALL_X == k.On(r - ALL_X) - ALL_X;
  }

  /** Without copies the eight modes that have execute bits only decide: a string, whatever its
      clauses and however many X it has, is idempotent on every mode if and only if it is on those. */
  lemma EightModesDecide(ops: seq<Op>)
    requires NoCopies(ops) && AllWithin(ops)
    ensures (forall m :: Idempotent(ops, m)) <==> forall m :: m <= ALL_X ==> Idempotent(ops, m)
  {
    if forall m :: m <= ALL_X ==> Idempotent(ops, m) {
      forall m
        ensures Idempotent(ops, m)
      {
        var r := Run(ops, m);
        OtherBitsSettle(ops, m);
        ChainKeepsType(ops, m, m);
        SameType(m, r);
        if IsDir(m) {
          DirectorySettles(ops, m);
        } else {
          FileSettles(ops, m);
        }
        assert Run(ops, r) == Run(ops, r) * ALL_X + (Run(ops, r) - ALL_X);
        assert r == r * ALL_X + (r - ALL_X);
      }
    }
  }

  lemma FileSettles(ops: seq<Op>, m: Mode)
    requires NoCopies(ops) && AllWithin(ops) && !IsDir(m) && Idempotent(ops, m * ALL_X)
    ensures Run(ops, Run(ops, m)) * ALL_X == Run(ops, m) * ALL_X
  {
    var x := m * ALL_X;
    assert x * S_IFMT == {} && 14 in S_IFDIR;
    ChainKeepsType(ops, m, m);
    ChainKeepsType(ops, x, x);
    SameType(m, Run(ops, m));
    SameType(x, Run(ops, x));
    assert x * ALL_X == m * ALL_X;
    ExecuteBits(ops, m, m, x, x);
    ExecuteBits(ops, Run(ops, m), Run(ops, m), Run(ops, x), Run(ops, x));
  }

  /** With every X applying the string is one of plain operations. */
  function AlwaysOn(ops: seq<Op>): seq<Op> {
    if ops == [] then [] else [ops[0].(xIfAnyX := false)] + AlwaysOn(ops[1..])
  }

  lemma {:induction false} DirectoryChain(ops: seq<Op>, e: Mode, st: Mode)
    requires NoCopies(ops) && IsDir(e)
    ensures Chain(ops, e, st) == Chain(AlwaysOn(ops), e, st) && AllPlain(AlwaysOn(ops))
    decreases |ops|
  {
    if ops != [] {
      assert ops[0] in ops && forall op :: op in ops[1..] ==> op in ops;
      DirectoryChain(ops[1..], e, Apply(ops[0], e, st));
      assert AlwaysOn(ops)[1..] == AlwaysOn(ops[1..]);
    }
  }

  lemma DirectorySettles(ops: seq<Op>, m: Mode)
    requires NoCopies(ops) && AllWithin(ops) && IsDir(m)
    ensures Idempotent(ops, m)
  {
    ChainKeepsType(ops, m, m);
    SameType(m, Run(ops, m));
    DirectoryChain(ops, m, m);
    DirectoryChain(ops, Run(ops, m), Run(ops, m));
    RunIdempotent(AlwaysOn(ops), m);
  }
}
