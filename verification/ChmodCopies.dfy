/** Strings that copy the permissions of one class to another, which the source does with one write
    bit turned into a read bit. */
module ChmodCopies {
  import opened ChmodOperations
  import opened ChmodParser
  import opened ChmodMeaning
  import opened ChmodIdempotence

  // ---------------------------------------------------------------------------------------
  // One copy
  // ---------------------------------------------------------------------------------------

  /** Adding a class's bits to others, or setting others to them, leaves them what they are. */
  lemma CopyLeavesSource(kind: Kind, a: Mode, from: char, m: Mode)
    requires IsCopyLetter(from) && kind != Minus
    ensures Apply(LetterOp(kind, a, from), m, m) * CHMOD_MODE_BITS * LetterBits(from) ==
            m * CHMOD_MODE_BITS * LetterBits(from)
  {
    CopyBranch(from, m * CHMOD_MODE_BITS * LetterBits(from));
  }

  /** What a second copy takes away is gone already. */
  lemma CopyTakesLess(a: Mode, from: char, m: Mode)
    requires IsCopyLetter(from)
    ensures var op := LetterOp(Minus, a, from);
            var r := Apply(op, m, m);
            CalcMode(op, r, r) <= CalcMode(op, m, m)
  {
    var op := LetterOp(Minus, a, from);
    CopyBranch(from, m * CHMOD_MODE_BITS * LetterBits(from));
    CopyBranch(from, Apply(op, m, m) * CHMOD_MODE_BITS * LetterBits(from));
  }

  lemma CopyOnce(kind: Kind, a: Mode, from: char, m: Mode)
    requires IsCopyLetter(from)
    ensures var op := LetterOp(kind, a, from);
            var r := Apply(op, m, m);
            Apply(op, r, r) == r
  {
    hide CopyBits, LetterBits;
    if kind == Minus {
      CopyTakesLess(a, from, m);
    } else {
      CopyLeavesSource(kind, a, from, m);
    }
  }

  /** A single copy letter is idempotent, for every operator and every affected mask. */
  lemma CopyIsIdempotent(kind: Kind, a: Mode, from: char, m: Mode)
    requires IsCopyLetter(from)
    ensures Idempotent([LetterOp(kind, a, from)], m)
  {
    hide Chain;
    var op := LetterOp(kind, a, from);
    ChainOne(op, m, m);
    ChainOne(op, Apply(op, m, m), Apply(op, m, m));
    CopyOnce(kind, a, from, m);
  }

  // ---------------------------------------------------------------------------------------
  // Two copies
  // ---------------------------------------------------------------------------------------

  /** What `to=from` gives. */
  function Given(to: char, from: char, m: Mode): Mode {
    var value := m * CHMOD_MODE_BITS * LetterBits(from);
    (value + CopyBits(LetterBits(from), value)) * WhoBits(to)
  }

  function Set(to: char, from: char, m: Mode): Mode {
    (m - WhoBits(to)) + Given(to, from, m)
  }

  lemma SetIsApply(to: char, from: char, e: Mode, m: Mode)
    requires IsCopyLetter(from)
    ensures Apply(LetterOp(Equals, WhoBits(to), from), e, m) == Set(to, from, m)
  {
  }

  /** The classes do not overlap, and a copy gives what the source class alone decides. */
  lemma Classes(t: char, f: char)
    requires IsCopyLetter(t) && IsCopyLetter(f)
    ensures t != f ==> WhoBits(t) !! WhoBits(f)
    ensures LetterBits(f) <= WhoBits(f) && LetterBits(f) <= CHMOD_MODE_BITS
  {
  }

  lemma GivenBySource(to: char, from: char, m: Mode, m': Mode)
    requires IsCopyLetter(to) && IsCopyLetter(from) && m * LetterBits(from) == m' * LetterBits(from)
    ensures Given(to, from, m) == Given(to, from, m')
  {
    Classes(to, from);
    assert m * CHMOD_MODE_BITS * LetterBits(from) == m * LetterBits(from);
    assert m' * CHMOD_MODE_BITS * LetterBits(from) == m' * LetterBits(from);
  }

  lemma GivenToItself(c: char, m: Mode)
    requires IsCopyLetter(c)
    ensures Given(c, c, m) == m * LetterBits(c)
  {
    var value := m * CHMOD_MODE_BITS * LetterBits(c);
    CopyBranch(c, value);
  }

  /** Setting leaves the other classes alone. */
  lemma SetElsewhere(to: char, from: char, c: char, m: Mode)
    requires IsCopyLetter(to) && IsCopyLetter(from) && IsCopyLetter(c) && c != to
    ensures Set(to, from, m) * WhoBits(c) == m * WhoBits(c) && Set(to, from, m) * LetterBits(c) == m * LetterBits(c)
  {
    Classes(to, c);
    hide LetterBits, WhoBits, CopyBits;
  }

  /** Setting again changes nothing, as long as the source and the class are as they were. */
  lemma SetAgain(to: char, from: char, m: Mode, r: Mode)
    requires IsCopyLetter(to) && IsCopyLetter(from)
    requires r * WhoBits(to) == Given(to, from, m) && (from != to ==> r * LetterBits(from) == m * LetterBits(from))
    ensures Set(to, from, r) == r
  {
    hide LetterBits, WhoBits, CopyBits;
    Classes(to, from);
    if from == to {
      GivenToItself(to, m);
      GivenToItself(to, r);
      assert r * LetterBits(to) == (r * WhoBits(to)) * LetterBits(to);
    } else {
      GivenBySource(to, from, m, r);
    }
  }

  lemma SetOwn(to: char, from: char, m: Mode)
    ensures Set(to, from, m) * WhoBits(to) == Given(to, from, m)
  {
    hide LetterBits, WhoBits, CopyBits;
  }

  /** The second clause does not write the class the first one reads, or each reads its own. */
  lemma ApartSettles(t1: char, f1: char, t2: char, f2: char, m: Mode)
    requires IsCopyLetter(t1) && IsCopyLetter(f1) && IsCopyLetter(t2) && IsCopyLetter(f2) && t2 != f1
    ensures var r := Set(t2, f2, Set(t1, f1, m)); Set(t2, f2, Set(t1, f1, r)) == r
  {
    hide Given, LetterBits, WhoBits, CopyBits, Set;
    var a := Set(t1, f1, m);
    var r := Set(t2, f2, a);
    SetOwn(t1, f1, m);
    SetOwn(t2, f2, a);
    SetElsewhere(t2, f2, f1, a);
    if t1 != f1 {
      SetElsewhere(t1, f1, f1, m);
    }
    if t2 != t1 {
      SetElsewhere(t2, f2, t1, a);
      SetAgain(t1, f1, m, r);
      if f2 != t2 {
        SetElsewhere(t2, f2, f2, a);
      }
      SetAgain(t2, f2, a, r);
    } else {
      GivenBySource(t1, f1, m, r);
      SetOver(t1, f1, f2, m);
    }
  }

  lemma SetOver(t: char, f1: char, f2: char, m: Mode)
    ensures var r := Set(t, f2, Set(t, f1, m));
            Given(t, f1, r) == Given(t, f1, m) ==> Set(t, f1, r) == Set(t, f1, m)
  {
    hide Given, LetterBits, WhoBits, CopyBits;
    var r := Set(t, f2, Set(t, f1, m));
    SetOwnWithin(t, f1, m);
    SetOwnWithin(t, f2, Set(t, f1, m));
    assert r - WhoBits(t) == m - WhoBits(t);
  }

  lemma SetOwnWithin(to: char, from: char, m: Mode)
    ensures Given(to, from, m) <= WhoBits(to)
  {
    hide LetterBits, WhoBits, CopyBits;
  }

  /** The second clause writes the class the first one reads, and one of them reads its own. */
  lemma OwnSettles(t1: char, t2: char, f2: char, m: Mode)
    requires IsCopyLetter(t1) && IsCopyLetter(t2) && IsCopyLetter(f2) && (t1 == t2 || f2 == t2)
    ensures var r := Set(t2, f2, Set(t1, t2, m)); Set(t2, f2, Set(t1, t2, r)) == r
  {
    hide Given, LetterBits, WhoBits, CopyBits, Set;
    var a := Set(t1, t2, m);
    var r := Set(t2, f2, a);
    var a' := Set(t1, t2, r);
    SetOwn(t1, t2, m);
    SetOwn(t2, f2, a);
    SetOwn(t1, t2, r);
    if t1 == t2 {
      if f2 != t2 {
        SetElsewhere(t1, t2, f2, m);
        SetElsewhere(t2, f2, f2, a);
        SetElsewhere(t1, t2, f2, r);
        GivenBySource(t2, f2, a, a');
        SetTwice(t2, t2, f2, r);
        SetAgain(t2, f2, a, r);
      } else {
        GivenToItself(t2, m);
        GivenToItself(t2, a);
        Classes(t2, t2);
        assert a * LetterBits(t2) == (a * WhoBits(t2)) * LetterBits(t2);
        SetAgain(t2, t2, a, r);
        SetAgain(t2, t2, a, a');
      }
    } else {
      SetElsewhere(t1, t2, t2, m);
      SetElsewhere(t2, t2, t1, a);
      GivenToItself(t2, a);
      Classes(t2, t2);
      assert r * LetterBits(t2) == (r * WhoBits(t2)) * LetterBits(t2);
      SetAgain(t1, t2, m, r);
      SetAgain(t2, t2, a, r);
    }
  }

  /** The last of two settings of a class counts, if both read what it reads. */
  lemma SetTwice(t: char, f1: char, f2: char, m: Mode)
    requires IsCopyLetter(t) && IsCopyLetter(f2) && f2 != t && IsCopyLetter(f1)
    ensures Set(t, f2, Set(t, f1, m)) == Set(t, f2, m)
  {
    hide Given, LetterBits, WhoBits, CopyBits;
    SetElsewhere(t, f1, f2, m);
    GivenBySource(t, f2, m, Set(t, f1, m));
    SetOwnWithin(t, f1, m);
  }

  /** The bits of `to=from`, one by one: a misdirected write bit becomes a read bit. */
  function Sent(to: char, from: char, m: Mode): Mode {
    var (r, w, x) := ClassBits(to);
    var (r', w', x') := ClassBits(from);
    When(m, r', {r}) + When(m, w', {if WriteIsLost(from, to) then r else w}) + When(m, x', {x})
  }

  lemma GivenFromUser(to: char, m: Mode)
    requires to == 'g' || to == 'o'
    ensures Given(to, 'u', m) == Sent(to, 'u', m)
  {
    hide CopyBits;
    CopyBranch('u', m * CHMOD_MODE_BITS * LetterBits('u'));
  }

  lemma GivenFromGroup(to: char, m: Mode)
    requires to == 'u' || to == 'o'
    ensures Given(to, 'g', m) == Sent(to, 'g', m)
  {
    hide CopyBits;
    CopyBranch('g', m * CHMOD_MODE_BITS * LetterBits('g'));
  }

  lemma GivenFromOther(to: char, m: Mode)
    requires to == 'u' || to == 'g'
    ensures Given(to, 'o', m) == Sent(to, 'o', m)
  {
    hide CopyBits;
    CopyBranch('o', m * CHMOD_MODE_BITS * LetterBits('o'));
  }

  lemma GivenIsSent(to: char, from: char, m: Mode)
    requires IsCopyLetter(to) && IsCopyLetter(from) && to != from
    ensures Given(to, from, m) == Sent(to, from, m)
  {
    hide Given, Sent;
    match from
    case 'u' => GivenFromUser(to, m);
    case 'g' => GivenFromGroup(to, m);
    case _ => GivenFromOther(to, m);
  }

  /** What a class holds once it is set, bit by bit. */
  lemma SetBits(to: char, from: char, m: Mode)
    requires IsCopyLetter(to) && IsCopyLetter(from) && to != from
    ensures var (r, w, x) := ClassBits(to);
            var (r', w', x') := ClassBits(from);
            var s := Set(to, from, m);
            && (r in s <==> r' in m || (WriteIsLost(from, to) && w' in m))
            && (w in s <==> w' in m && !WriteIsLost(from, to))
            && (x in s <==> x' in m)
  {
    GivenIsSent(to, from, m);
  }

  /** Two classes set from each other, the second from what the first has become. */
  lemma SwapSettles(t: char, f: char, m: Mode)
    requires IsCopyLetter(t) && IsCopyLetter(f) && t != f && !(t == 'u' && f == 'o')
    ensures var r := Set(f, t, Set(t, f, m)); Set(f, t, Set(t, f, r)) == r
  {
    hide Given, LetterBits, WhoBits, CopyBits, Set;
    var a := Set(t, f, m);
    var r := Set(f, t, a);
    SetOwn(t, f, m);
    SetOwn(f, t, a);
    SetElsewhere(f, t, t, a);
    SetBits(t, f, m);
    SetBits(f, t, a);
    TriadStays(f, t, t, a);
    GivenIsSent(t, f, m);
    GivenIsSent(t, f, r);
    GivenIsSent(f, t, a);
    GivenIsSent(f, t, r);
    SetAgain(t, f, r, r);
    SetAgain(f, t, r, r);
  }

  lemma TriadStays(to: char, from: char, c: char, m: Mode)
    requires IsCopyLetter(to) && IsCopyLetter(from) && IsCopyLetter(c) && c != to
    ensures SameTriad(Set(to, from, m), c, m, c)
  {
    SetElsewhere(to, from, c, m);
    TriadBits(c, m);
    TriadBits(c, Set(to, from, m));
  }

  lemma TriadBits(c: char, m: Mode)
    requires IsCopyLetter(c)
    ensures var (r, w, x) := ClassBits(c);
            && (r in m <==> r in m * LetterBits(c)) && (w in m <==> w in m * LetterBits(c))
            && (x in m <==> x in m * LetterBits(c))
  {
  }

  /** The second clause writes another class's bits over those the first one has just read. Only
      where it writes back what the first has copied, and the copying is exact, does that not matter. */
  predicate Mixed(t1: char, f1: char, t2: char, f2: char) {
    t2 == f1 && t1 != f1 && f2 != f1 && (f2 != t1 || (t1 == 'u' && f1 == 'o'))
  }

  lemma UnmixedSettles(t1: char, f1: char, t2: char, f2: char, m: Mode)
    requires IsCopyLetter(t1) && IsCopyLetter(f1) && IsCopyLetter(t2) && IsCopyLetter(f2) && !Mixed(t1, f1, t2, f2)
    ensures var r := Set(t2, f2, Set(t1, f1, m)); Set(t2, f2, Set(t1, f1, r)) == r
  {
    hide Set;
    if t2 != f1 {
      ApartSettles(t1, f1, t2, f2, m);
    } else if t1 == t2 || f2 == t2 {
      OwnSettles(t1, t2, f2, m);
    } else {
      SwapSettles(t1, f1, m);
    }
  }

  /** The mode that shows it: the last class read may execute, or the others may write. */
  lemma MixedFails(t1: char, f1: char, f2: char)
    requires IsCopyLetter(t1) && IsCopyLetter(f1) && IsCopyLetter(f2) && Mixed(t1, f1, f1, f2)
    ensures var m := if f2 == t1 then {WOTH} else {ClassBits(f2).2};
            var r := Set(f1, f2, Set(t1, f1, m)); Set(f1, f2, Set(t1, f1, r)) != r
  {
    hide Set;
    var m := if f2 == t1 then {WOTH} else {ClassBits(f2).2};
    var a := Set(t1, f1, m);
    var r := Set(f1, f2, a);
    var a' := Set(t1, f1, r);
    SetBits(t1, f1, m);
    SetBits(f1, f2, a);
    SetBits(t1, f1, r);
    TriadStays(f1, f2, t1, a);
    TriadStays(f1, f2, t1, a');
    if f2 != t1 {
      TriadStays(t1, f1, f2, m);
    }
  }

  lemma CopiesRun(t1: char, f1: char, t2: char, f2: char, m: Mode)
    requires IsCopyLetter(f1) && IsCopyLetter(f2)
    ensures Run([LetterOp(Equals, WhoBits(t1), f1), LetterOp(Equals, WhoBits(t2), f2)], m) == Set(t2, f2, Set(t1, f1, m))
  {
    var x, y := LetterOp(Equals, WhoBits(t1), f1), LetterOp(Equals, WhoBits(t2), f2);
    hide Apply, LetterOp, Set;
    assert [x, y][1..] == [y];
    ChainOne(y, m, Apply(x, m, m));
    SetIsApply(t1, f1, m, m);
    SetIsApply(t2, f2, m, Set(t1, f1, m));
  }

  /** A string `t1=f1,t2=f2` is idempotent on every mode if and only if it is not mixed: seven of
      the eighty-one are. */
  lemma TwoCopiesIff(t1: char, f1: char, t2: char, f2: char, u: Umask)
    requires IsCopyLetter(t1) && IsCopyLetter(f1) && IsCopyLetter(t2) && IsCopyLetter(f2)
    ensures var ops := OpsOfAll([Clause([t1], Equals, [f1]), Clause([t2], Equals, [f2])], u);
            (forall m :: Idempotent(ops, m)) <==> !Mixed(t1, f1, t2, f2)
  {
    CopiesCompile(t1, f1, t2, f2, u);
    hide LetterOp, Set, OpsOfAll, WhoBits;
    var ops := [LetterOp(Equals, WhoBits(t1), f1), LetterOp(Equals, WhoBits(t2), f2)];
    forall m
      ensures Run(ops, m) == Set(t2, f2, Set(t1, f1, m))
    {
      CopiesRun(t1, f1, t2, f2, m);
    }
    if Mixed(t1, f1, t2, f2) {
      MixedFails(t1, f1, f2);
      assert !Idempotent(ops, if f2 == t1 then {WOTH} else {ClassBits(f2).2});
    } else {
      forall m
        ensures Idempotent(ops, m)
      {
        UnmixedSettles(t1, f1, t2, f2, m);
      }
    }
  }

  lemma CopiesCompile(t1: char, f1: char, t2: char, f2: char, u: Umask)
    requires IsCopyLetter(t1) && IsCopyLetter(f1) && IsCopyLetter(t2) && IsCopyLetter(f2)
    ensures OpsOfAll([Clause([t1], Equals, [f1]), Clause([t2], Equals, [f2])], u) ==
            [LetterOp(Equals, WhoBits(t1), f1), LetterOp(Equals, WhoBits(t2), f2)]
  {
    var x, y := Clause([t1], Equals, [f1]), Clause([t2], Equals, [f2]);
    OneCopy(t1, f1, u);
    OneCopy(t2, f2, u);
    hide LetterOp, OpsOf;
    assert [x, y][1..] == [y] && [y][1..] == [];
    assert OpsOfAll([y], u) == OpsOf(y, u) + [];
  }

  lemma OneCopy(t: char, f: char, u: Umask)
    requires IsCopyLetter(t) && IsCopyLetter(f)
    ensures OpsOf(Clause([t], Equals, [f]), u) == [LetterOp(Equals, WhoBits(t), f)]
  {
    hide LetterOp;
    assert [t][1..] == "" && [f][1..] == "";
    assert WhoMask([t]) == WhoBits(t) + {} == WhoBits(t);
    assert WhoBits(t) != {};
    assert LetterOps(Equals, WhoBits(t), [f]) == [LetterOp(Equals, WhoBits(t), f)] + LetterOps(Equals, WhoBits(t), "");
  }

  // ---------------------------------------------------------------------------------------
  // Any string
  // ---------------------------------------------------------------------------------------

  /** An operation looks at the permission bits and at whether it is a directory. */
  lemma ApplyWithin(op: Op, e: Mode, st: Mode, f: Mode, rest: Mode)
    requires IsDir(e) == IsDir(f) && st * CHMOD_MODE_BITS == rest * CHMOD_MODE_BITS
    ensures Apply(op, e, st) * CHMOD_MODE_BITS == Apply(op, f, rest) * CHMOD_MODE_BITS
  {
    var v := CalcMode(op, e, st);
    assert v == CalcMode(op, f, rest);
    WithinApart(st, op.affected, v);
    WithinApart(rest, op.affected, v);
  }

  lemma WithinApart(st: Mode, a: Mode, v: Mode)
    ensures (st - a + v) * CHMOD_MODE_BITS == (st * CHMOD_MODE_BITS - a) + v * CHMOD_MODE_BITS
    ensures (st + v) * CHMOD_MODE_BITS == st * CHMOD_MODE_BITS + v * CHMOD_MODE_BITS
    ensures (st - v) * CHMOD_MODE_BITS == st * CHMOD_MODE_BITS - v
  {
  }

  lemma {:induction false} ChainWithin(ops: seq<Op>, e: Mode, st: Mode, f: Mode, rest: Mode)
    requires IsDir(e) == IsDir(f) && st * CHMOD_MODE_BITS == rest * CHMOD_MODE_BITS
    ensures Chain(ops, e, st) * CHMOD_MODE_BITS == Chain(ops, f, rest) * CHMOD_MODE_BITS
    decreases |ops|
  {
    hide IsDir, Apply;
    if ops != [] {
      ApplyWithin(ops[0], e, st, f, rest);
      ChainWithin(ops[1..], e, Apply(ops[0], e, st), f, Apply(ops[0], f, rest));
    }
  }

  /** The permission bits of a mode, and whether it is a directory. */
  function Essence(m: Mode): Mode {
    m * CHMOD_MODE_BITS + if IsDir(m) then S_IFDIR else {}
  }

  lemma EssenceIs(m: Mode)
    ensures IsDir(Essence(m)) == IsDir(m) && Essence(m) * CHMOD_MODE_BITS == m * CHMOD_MODE_BITS
  {
    var e := Essence(m);
    assert S_IFDIR * S_IFMT == S_IFDIR && S_IFDIR * CHMOD_MODE_BITS == {} && CHMOD_MODE_BITS * S_IFMT == {};
    assert e * S_IFMT == if IsDir(m) then S_IFDIR else {};
    assert 14 in S_IFDIR;
  }

  /** The modes of permission bits only, with and without that of a directory, decide whether a
      chain within them is idempotent on every mode. */
  lemma PermissionModesDecide(ops: seq<Op>)
    requires AllWithin(ops)
    ensures (forall m :: Idempotent(ops, m)) <==>
            forall m :: m <= CHMOD_MODE_BITS ==> Idempotent(ops, m) && Idempotent(ops, m + S_IFDIR)
  {
    if forall m :: m <= CHMOD_MODE_BITS ==> Idempotent(ops, m) && Idempotent(ops, m + S_IFDIR) {
      forall m
        ensures Idempotent(ops, m)
      {
        assert Essence(m) == m * CHMOD_MODE_BITS || Essence(m) == m * CHMOD_MODE_BITS + S_IFDIR by {
          assert m * CHMOD_MODE_BITS + {} == m * CHMOD_MODE_BITS;
        }
        assert m * CHMOD_MODE_BITS <= CHMOD_MODE_BITS;
        EssenceDecides(ops, m);
      }
    }
  }

  /** So for every string, copies and X included. */
  lemma StringModesDecide(s: string, u: Umask)
    ensures match Compile(s, u)
            case Compiled(ops) =>
              (forall m :: Idempotent(ops, m)) <==>
              forall m :: m <= CHMOD_MODE_BITS ==> Idempotent(ops, m) && Idempotent(ops, m + S_IFDIR)
            case Invalid => true
  {
    var o := Compile(s, u);
    if o.Compiled? {
      CompiledWithin(s, u);
      PermissionModesDecide(o.ops);
    }
  }

  lemma EssenceDecides(ops: seq<Op>, m: Mode)
    requires AllWithin(ops) && Idempotent(ops, Essence(m))
    ensures Idempotent(ops, m)
  {
    hide IsDir, Chain, Essence, AllWithin;
    var e := Essence(m);
    var r, s := Run(ops, m), Run(ops, e);
    EssenceIs(m);
    ChainWithin(ops, m, m, e, e);
    ChainKeepsType(ops, m, m);
    ChainKeepsType(ops, e, e);
    SameType(m, r);
    SameType(e, s);
    ChainWithin(ops, r, r, s, s);
    ChainKeepsType(ops, r, r);
    var r2 := Run(ops, r);
    assert r2 == r2 * CHMOD_MODE_BITS + (r2 - CHMOD_MODE_BITS);
    assert r == r * CHMOD_MODE_BITS + (r - CHMOD_MODE_BITS);
  }

  // ---------------------------------------------------------------------------------------
  // Strings that take away plain letters only
  // ---------------------------------------------------------------------------------------

  /** Nothing is taken away that depends on the mode. */
  predicate Joining(ops: seq<Op>) {
    forall op :: op in ops && op.kind.Minus? ==> Plain(op)
  }

  lemma ApplyJoins(op: Op, e: Mode, a: Mode, b: Mode)
    requires op.kind.Minus? ==> Plain(op)
    ensures Apply(op, e, a + b) == Apply(op, e, a) + Apply(op, e, b)
  {
    hide CopyBits, IsDir;
    CopyJoins(op.mode, a * CHMOD_MODE_BITS * op.mode, b * CHMOD_MODE_BITS * op.mode);
    assert (a + b) * CHMOD_MODE_BITS == a * CHMOD_MODE_BITS + b * CHMOD_MODE_BITS;
    assert (a + b) * CHMOD_MODE_BITS * op.mode == a * CHMOD_MODE_BITS * op.mode + b * CHMOD_MODE_BITS * op.mode;
    assert (a + b) * CHMOD_MODE_BITS * ALL_X == a * CHMOD_MODE_BITS * ALL_X + b * CHMOD_MODE_BITS * ALL_X;
  }

  lemma CopyJoins(mode: Mode, v: Mode, w: Mode)
    ensures CopyBits(mode, v + w) == CopyBits(mode, v) + CopyBits(mode, w)
  {
  }

  /** Such a chain makes of two modes together what it makes of each. */
  lemma {:induction false} ChainJoins(ops: seq<Op>, e: Mode, a: Mode, b: Mode)
    requires Joining(ops)
    ensures Chain(ops, e, a + b) == Chain(ops, e, a) + Chain(ops, e, b)
    decreases |ops|
  {
    hide Apply;
    if ops != [] {
      assert ops[0] in ops && forall op :: op in ops[1..] ==> op in ops;
      ApplyJoins(ops[0], e, a, b);
      ChainJoins(ops[1..], e, Apply(ops[0], e, a), Apply(ops[0], e, b));
    }
  }

  lemma {:induction false} ChainSees(ops: seq<Op>, e: Mode, f: Mode, st: Mode)
    requires IsDir(e) == IsDir(f)
    ensures Chain(ops, e, st) == Chain(ops, f, st)
    decreases |ops|
  {
    if ops != [] {
      ChainSees(ops[1..], e, f, Apply(ops[0], e, st));
    }
  }

  lemma RunJoins(ops: seq<Op>, a: Mode, b: Mode)
    requires Joining(ops) && IsDir(a) == IsDir(a + b) == IsDir(b)
    ensures Run(ops, a + b) == Run(ops, a) + Run(ops, b)
  {
    hide IsDir, Chain;
    ChainJoins(ops, a + b, a, b);
    ChainSees(ops, a + b, a, a);
    ChainSees(ops, a + b, b, b);
  }

  lemma RunKeepsType(ops: seq<Op>, m: Mode)
    requires AllWithin(ops)
    ensures IsDir(Run(ops, m)) == IsDir(m)
  {
    hide IsDir, Chain;
    ChainKeepsType(ops, m, m);
    SameType(m, Run(ops, m));
  }

  /** So what settles each of two modes settles both together. */
  lemma SettledJoin(ops: seq<Op>, a: Mode, b: Mode)
    requires Joining(ops) && AllWithin(ops) && IsDir(a) == IsDir(a + b) == IsDir(b)
    requires Idempotent(ops, a) && Idempotent(ops, b)
    ensures Idempotent(ops, a + b)
  {
    hide IsDir, Run;
    RunJoins(ops, a, b);
    RunKeepsType(ops, a);
    RunKeepsType(ops, b);
    RunKeepsType(ops, a + b);
    RunJoins(ops, Run(ops, a), Run(ops, b));
  }

  lemma DirOf(m: Mode, d: Mode)
    requires m <= CHMOD_MODE_BITS && (d == {} || d == S_IFDIR)
    ensures IsDir(m + d) <==> d == S_IFDIR
  {
    assert CHMOD_MODE_BITS * S_IFMT == {};
    assert (m + d) * S_IFMT == d * S_IFMT;
    assert S_IFDIR * S_IFMT == S_IFDIR && {} != S_IFDIR by { assert 14 in S_IFDIR; }
  }

  lemma BitApart(m: Mode, b: nat, d: Mode)
    requires b in m
    ensures (m - {b} + d) + ({b} + d) == m + d
  {
  }

  lemma {:induction false} BitByBit(ops: seq<Op>, m: Mode, d: Mode)
    requires Joining(ops) && AllWithin(ops) && m <= CHMOD_MODE_BITS && (d == {} || d == S_IFDIR)
    requires Idempotent(ops, d) && forall b :: b in CHMOD_MODE_BITS ==> Idempotent(ops, {b} + d)
    ensures Idempotent(ops, m + d)
    decreases |m|
  {
    hide IsDir, Run, Joining, AllWithin, CHMOD_MODE_BITS, S_IFDIR;
    if m == {} {
      assert m + d == d;
    } else {
      var b :| b in m;
      var rest := m - {b};
      BitByBit(ops, rest, d);
      BitJoins(ops, m, b, d);
    }
  }

  lemma BitJoins(ops: seq<Op>, m: Mode, b: nat, d: Mode)
    requires Joining(ops) && AllWithin(ops) && m <= CHMOD_MODE_BITS && b in m && (d == {} || d == S_IFDIR)
    requires Idempotent(ops, m - {b} + d) && Idempotent(ops, {b} + d)
    ensures Idempotent(ops, m + d)
  {
    hide IsDir, Run, Joining, AllWithin, CHMOD_MODE_BITS, S_IFDIR;
    BitApart(m, b, d);
    DirOf(m - {b}, d);
    DirOf({b}, d);
    DirOf(m, d);
    SettledJoin(ops, m - {b} + d, {b} + d);
  }

  /** No bit and one bit alone, with and without that of a directory, decide: any chain that takes
      away plain letters only, however many X and copies it has, is idempotent on every mode if and
      only if it is on those twenty-six. */
  lemma OneBitModesDecide(ops: seq<Op>)
    requires Joining(ops) && AllWithin(ops)
    ensures (forall m :: Idempotent(ops, m)) <==>
            (Idempotent(ops, {}) && Idempotent(ops, S_IFDIR) &&
             forall b :: b in CHMOD_MODE_BITS ==> Idempotent(ops, {b}) && Idempotent(ops, {b} + S_IFDIR))
  {
    hide Run, Joining, AllWithin;
    if Idempotent(ops, {}) && Idempotent(ops, S_IFDIR) &&
       forall b :: b in CHMOD_MODE_BITS ==> Idempotent(ops, {b}) && Idempotent(ops, {b} + S_IFDIR)
    {
      assert forall b: nat :: {b} + {} == {b};
      forall m: Mode | m <= CHMOD_MODE_BITS
        ensures Idempotent(ops, m) && Idempotent(ops, m + S_IFDIR)
      {
        BitByBit(ops, m, {});
        BitByBit(ops, m, S_IFDIR);
        assert m + {} == m;
      }
      PermissionModesDecide(ops);
    }
  }

  /** Mode strings whose `-` clauses have plain letters only compile to such chains. */
  lemma {:induction false} ClausesJoin(cs: seq<Clause>, u: Umask)
    requires forall c :: c in cs && c.kind.Minus? ==> PlainLetters(c.letters)
    ensures Joining(OpsOfAll(cs, u))
    decreases |cs|
  {
    if cs != [] {
      var c := cs[0];
      assert c in cs && forall d :: d in cs[1..] ==> d in cs;
      ClausesJoin(cs[1..], u);
      if c.kind.Minus? {
        PlainLetterOps(c.kind, Affected(c.kind, WhoMask(c.who), u), c.letters);
      } else {
        LettersKind(c.kind, Affected(c.kind, WhoMask(c.who), u), c.letters);
      }
    }
  }

  lemma {:induction false} LettersKind(kind: Kind, affected: Mode, letters: string)
    ensures forall op :: op in LetterOps(kind, affected, letters) ==> op.kind == kind
    decreases |letters|
  {
    if letters != "" {
      LettersKind(kind, affected, letters[1..]);
    }
  }
}
