/** What compiled mode strings do to a mode, and where that differs from the POSIX chmod utility. */
module ChmodMeaning {
  import opened Sequences
  import opened ChmodOperations
  import opened ChmodParser

  // ---------------------------------------------------------------------------------------
  // Every string
  // ---------------------------------------------------------------------------------------

  lemma {:induction false} LetterOpsWithin(kind: Kind, affected: Mode, letters: string)
    requires affected <= CHMOD_MODE_BITS
    ensures AllWithin(LetterOps(kind, affected, letters))
    decreases |letters|
  {
    if letters != "" {
      LetterOpsWithin(kind, affected, letters[1..]);
      assert Within(LetterOp(kind, affected, letters[0]));
    }
  }

  lemma {:induction false} WhoWithin(t: string)
    ensures ParseWho(t).mask <= CHMOD_MODE_BITS
    decreases |t|
  {
    if t != "" && IsWho(t[0]) {
      WhoWithin(t[1..]);
    }
  }

  lemma {:induction false} ParseWithin(t: string, u: Umask)
    ensures var o := ParseClauses(t, u); o.Compiled? ==> AllWithin(o.ops)
    decreases |t|
  {
    var w := ParseWho(t);
    WhoWithin(t);
    if w.rest != "" && KindOf(w.rest[0]).Some? {
      var t' := w.rest[1..];
      LetterOpsWithin(KindOf(w.rest[0]).value, Affected(KindOf(w.rest[0]).value, w.mask, u), t'[..LetterCount(t')]);
    }
    var turn := ParseTurn(t, u);
    if turn.More? {
      ParseWithin(turn.rest, u);
    }
  }

  lemma {:induction false} BitsWithin(i: nat, n: nat, v: nat)
    requires v < Power2(n)
    ensures forall b :: b in BitsFrom(i, v) ==> i <= b < i + n
    decreases n
  {
    if n > 0 && v > 0 {
      BitsWithin(i + 1, n - 1, v / 2);
    }
  }

  function Power2(n: nat): nat {
    if n == 0 then 1 else 2 * Power2(n - 1)
  }

  lemma CompiledWithin(s: string, u: Umask)
    ensures var o := Compile(s, u); o.Compiled? ==> AllWithin(o.ops)
  {
    if IsNumber(s) {
      assert Power2(12) == 0x1000;
      BitsWithin(0, 12, OctalValue(0, s) % 0x1000);
    } else {
      ParseWithin(Strip(s), u);
    }
  }

  /** Whatever the string, X and copy letters included, only permission bits ever change. */
  lemma FileTypeIsKept(s: string, u: Umask, m: Mode)
    ensures match Compile(s, u)
            case Compiled(ops) => Run(ops, m) - CHMOD_MODE_BITS == m - CHMOD_MODE_BITS
            case Invalid => true
  {
    var o := Compile(s, u);
    if o.Compiled? {
      CompiledWithin(s, u);
      ChainKeepsType(o.ops, m, m);
    }
  }

  // ---------------------------------------------------------------------------------------
  // Clauses of plain letters
  // ---------------------------------------------------------------------------------------

  predicate PlainLetters(letters: string) {
    forall i :: 0 <= i < |letters| ==> IsPlainLetter(letters[i])
  }

  /** The bits all the letters together name. */
  function Named(letters: string): Mode {
    if letters == "" then {} else LetterBits(letters[0]) + Named(letters[1..])
  }

  /** `+` adds and `-` removes exactly the named bits of the affected classes. */
  lemma {:induction false} PlusAndMinus(affected: Mode, letters: string, existing: Mode, m: Mode)
    requires PlainLetters(letters)
    ensures Chain(LetterOps(Plus, affected, letters), existing, m) == m + Named(letters) * affected
    ensures Chain(LetterOps(Minus, affected, letters), existing, m) == m - Named(letters) * affected
    decreases |letters|
  {
    if letters != "" {
      var bits := LetterBits(letters[0]) * affected;
      assert PlainLetters(letters[1..]);
      PlusAndMinus(affected, letters[1..], existing, m + bits);
      PlusAndMinus(affected, letters[1..], existing, m - bits);
      assert LetterOps(Plus, affected, letters)[1..] == LetterOps(Plus, affected, letters[1..]);
      assert LetterOps(Minus, affected, letters)[1..] == LetterOps(Minus, affected, letters[1..]);
    }
  }

  /** In an `=` clause every letter clears what the one before it set: the last one wins. */
  lemma {:induction false} LastLetterWins(affected: Mode, letters: string, existing: Mode, m: Mode)
    requires PlainLetters(letters) && letters != ""
    ensures Chain(LetterOps(Equals, affected, letters), existing, m) ==
            (m - affected) + LetterBits(letters[|letters| - 1]) * affected
    decreases |letters|
  {
    var m' := (m - affected) + LetterBits(letters[0]) * affected;
    assert LetterOps(Equals, affected, letters)[1..] == LetterOps(Equals, affected, letters[1..]);
    if |letters| > 1 {
      assert PlainLetters(letters[1..]);
      LastLetterWins(affected, letters[1..], existing, m');
    } else {
      assert letters[1..] == "";
    }
  }

  /** POSIX gives the affected classes exactly the named bits. */
  function PosixEquals(affected: Mode, letters: string, m: Mode): Mode {
    (m - affected) + Named(letters) * affected
  }

  /** The code meets POSIX on an `=` clause exactly when the last letter already names every
      affected bit the clause names, and a clause without letters when it affects nothing. */
  lemma EqualsMeetsPosix(affected: Mode, letters: string)
    requires PlainLetters(letters)
    ensures (forall m :: Run(LetterOps(Equals, affected, letters), m) == PosixEquals(affected, letters, m)) <==>
            if letters == "" then affected == {}
            else Named(letters) * affected <= LetterBits(letters[|letters| - 1])
  {
    var ops := LetterOps(Equals, affected, letters);
    if letters == "" {
      assert Run(ops, affected) == affected;
      assert PosixEquals(affected, letters, affected) == {};
    } else {
      LastIsNamed(letters);
      forall m
        ensures Run(ops, m) == (m - affected) + LetterBits(letters[|letters| - 1]) * affected
      {
        LastLetterWins(affected, letters, m, m);
      }
      assert Run(ops, {}) == LetterBits(letters[|letters| - 1]) * affected;
      assert PosixEquals(affected, letters, {}) == Named(letters) * affected;
    }
  }

  lemma {:induction false} LastIsNamed(letters: string)
    requires letters != ""
    ensures LetterBits(letters[|letters| - 1]) <= Named(letters)
    decreases |letters|
  {
    if |letters| > 1 {
      LastIsNamed(letters[1..]);
    }
  }

  lemma {:induction false} PlainLetterOps(kind: Kind, affected: Mode, letters: string)
    requires PlainLetters(letters)
    ensures AllPlain(LetterOps(kind, affected, letters))
    decreases |letters|
  {
    if letters != "" {
      assert PlainLetters(letters[1..]);
      PlainLetterOps(kind, affected, letters[1..]);
    }
  }

  /** With X this fails: `g+X,u+x` needs two runs to settle on a file without execute bits. */
  lemma ConditionalExecuteIsNotIdempotent()
    ensures var ops := OpsOfAll([Clause("g", Plus, "X"), Clause("u", Plus, "x")], Umask({}, {}));
            Run(ops, {}) == {XUSR} && Run(ops, Run(ops, {})) == {XUSR, XGRP}
  {
    var g := LetterOp(Plus, WhoBits('g'), 'X');
    var x := LetterOp(Plus, WhoBits('u'), 'x');
    var c0, c1 := Clause("g", Plus, "X"), Clause("u", Plus, "x");
    var u := Umask({}, {});
    assert "g"[1..] == "" && "u"[1..] == "" && "X"[1..] == "" && "x"[1..] == "";
    assert WhoMask("g") == WhoBits('g') && WhoMask("u") == WhoBits('u');
    assert OpsOf(c0, u) == [g] && OpsOf(c1, u) == [x];
    assert [c0, c1][1..] == [c1] && [c1][1..] == [];
    assert OpsOfAll([c1], u) == [x];
    var ops := [g, x];
    assert OpsOfAll([c0, c1], u) == ops;
    assert x.mode == {XUSR} && g.mode == {XGRP};
    forall m: Mode
      ensures Run(ops, m) == Apply(x, m, Apply(g, m, m))
    {
      assert ops[1..] == [x];
      ChainOne(x, m, Apply(g, m, m));
    }
  }

  // ---------------------------------------------------------------------------------------
  // Copying one class onto another
  // ---------------------------------------------------------------------------------------

  /** The bit numbers of a class: read, write, execute. */
  function ClassBits(c: char): (nat, nat, nat) {
    match c case 'u' => (RUSR, WUSR, XUSR) case 'g' => (RGRP, WGRP, XGRP) case _ => (ROTH, WOTH, XOTH)
  }

  predicate SameTriad(a: Mode, x: char, b: Mode, y: char) {
    var (r, w, e) := ClassBits(x);
    var (r', w', e') := ClassBits(y);
    (r in a <==> r' in b) && (w in a <==> w' in b) && (e in a <==> e' in b)
  }

  /** The class whose write bit the source turns into a read bit. */
  predicate WriteIsLost(from: char, to: char) {
    if from == 'o' then to == 'g' else to == 'o'
  }

  /** `to=from` gives one class the permissions of another exactly unless it copies onto the
      class with the misdirected write bit and the source class may write. */
  lemma CopyIsExact(from: char, to: char, m: Mode)
    requires from in {'u', 'g', 'o'} && to in {'u', 'g', 'o'}
    ensures var ops := ClauseOps(Equals, WhoBits(to), [from], Umask({}, {}));
            SameTriad(Run(ops, m), to, m, from) <==>
            from == to || !WriteIsLost(from, to) || ClassBits(from).1 !in m
  {
    RunOfCopy(from, to, m);
    match from {
      case 'u' => CopiedFromUser(to, m);
      case 'g' => CopiedFromGroup(to, m);
      case _ => CopiedFromOther(to, m);
    }
  }

  function Copied(from: char, to: char, m: Mode): Mode {
    var value := m * LetterBits(from);
    (m - WhoBits(to)) + (value + CopyBits(LetterBits(from), value)) * WhoBits(to)
  }

  lemma CopiedFromUser(to: char, m: Mode)
    requires to in {'u', 'g', 'o'}
    ensures SameTriad(Copied('u', to, m), to, m, 'u') <==> to != 'o' || WUSR !in m
  {
    CopyBranch('u', m * S_IRWXU);
  }

  lemma CopiedFromGroup(to: char, m: Mode)
    requires to in {'u', 'g', 'o'}
    ensures SameTriad(Copied('g', to, m), to, m, 'g') <==> to != 'o' || WGRP !in m
  {
    CopyBranch('g', m * S_IRWXG);
  }

  lemma CopiedFromOther(to: char, m: Mode)
    requires to in {'u', 'g', 'o'}
    ensures SameTriad(Copied('o', to, m), to, m, 'o') <==> to != 'g' || WOTH !in m
  {
    CopyBranch('o', m * S_IRWXO);
  }

  lemma RunOfCopy(from: char, to: char, m: Mode)
    requires from in {'u', 'g', 'o'} && to in {'u', 'g', 'o'}
    ensures Run(ClauseOps(Equals, WhoBits(to), [from], Umask({}, {})), m) == Copied(from, to, m)
  {
    var op := LetterOp(Equals, WhoBits(to), from);
    assert [from][1..] == "" && WhoBits(to) != {};
    assert LetterOps(Equals, WhoBits(to), "") == [];
    assert ClauseOps(Equals, WhoBits(to), [from], Umask({}, {})) == [op];
    ChainOne(op, m, m);
    assert m * CHMOD_MODE_BITS * LetterBits(from) == m * LetterBits(from);
  }

  /** Which of the three copy branches a class takes. */
  lemma CopyBranch(from: char, value: Mode)
    requires from in {'u', 'g', 'o'}
    ensures CopyBits(LetterBits(from), value) ==
            match from
            case 'u' =>
              When(value, RUSR, {RGRP, ROTH}) + When(value, WUSR, {WGRP, ROTH}) +
              When(value, XUSR, {XGRP, XOTH})
            case 'g' =>
              When(value, RGRP, {RUSR, ROTH}) + When(value, WGRP, {WUSR, ROTH}) +
              When(value, XGRP, {XUSR, XOTH})
            case _ =>
              When(value, ROTH, {RUSR, RGRP}) + When(value, WOTH, {WUSR, RGRP}) +
              When(value, XOTH, {XUSR, XGRP})
  {
    assert RUSR in S_IRWXU * S_IRWXU && RGRP in S_IRWXG * S_IRWXG;
    assert S_IRWXG * S_IRWXU == {} && S_IRWXO * S_IRWXU == {} && S_IRWXO * S_IRWXG == {};
  }

  // ---------------------------------------------------------------------------------------
  // Octal strings
  // ---------------------------------------------------------------------------------------

  function PrintOctal(v: nat): string {
    if v < 8 then [('0' as int + v) as char] else PrintOctal(v / 8) + [('0' as int + v % 8) as char]
  }

  lemma {:induction false} OctalSnoc(acc: nat, s: string, c: char)
    requires IsNumber(s) && '0' <= c <= '7'
    requires forall i :: 0 <= i < |s| ==> s[i] <= '7'
    ensures OctalValue(acc, s + [c]) == OctalValue(acc, s) * 8 + (c as int - '0' as int)
    decreases |s|
  {
    if s == "" {
      assert s + [c] == [c] && [c][1..] == "";
    } else {
      assert (s + [c])[1..] == s[1..] + [c];
      assert IsNumber(s[1..]);
      OctalSnoc(acc * 8 + (s[0] as int - '0' as int), s[1..], c);
    }
  }

  lemma {:induction false} OctalRoundTrip(v: nat)
    ensures OctalValue(0, PrintOctal(v)) == v
    ensures IsNumber(PrintOctal(v)) && forall i :: 0 <= i < |PrintOctal(v)| ==> PrintOctal(v)[i] <= '7'
    decreases v
  {
    if v < 8 {
      var s := PrintOctal(v);
      assert s[1..] == "";
    } else {
      OctalRoundTrip(v / 8);
      OctalSnoc(0, PrintOctal(v / 8), ('0' as int + v % 8) as char);
    }
  }

  /** An octal string sets exactly the twelve low bits of its value, ignores four above them,
      and is refused exactly when it has any other. */
  lemma OctalSetsMode(v: nat, u: Umask, m: Mode)
    ensures match Compile(PrintOctal(v), u)
            case Compiled(ops) => v < 0x10000 && Run(ops, m) == (m - CHMOD_MODE_BITS) + BitsFrom(0, v % 0x1000)
            case Invalid => v >= 0x10000
  {
    OctalRoundTrip(v);
    if v < 0x10000 {
      var op := Op(Equals, BitsFrom(0, v % 0x1000), false, false, CHMOD_MODE_BITS);
      ChainOne(op, m, m);
    }
  }

  /** The empty string counts as a number: it compiles to `=` nothing and clears every bit. */
  lemma EmptyStringClears(u: Umask, m: Mode)
    ensures var o := Compile("", u); o.Compiled? && Run(o.ops, m) == m - CHMOD_MODE_BITS
  {
    var op := Op(Equals, {}, false, false, CHMOD_MODE_BITS);
    ChainOne(op, m, m);
  }
}
