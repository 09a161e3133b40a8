/** Mode strings in bit numbers: what each class, operator and letter does to the twelve permission bits,
    from the characters of the string to the mode. */
module ChmodLetters {
  import opened Sequences
  import opened ChmodOperations
  import opened ChmodParser
  import opened ChmodMeaning
  import opened ChmodIdempotence
  import opened ChmodCopies

  // ---------------------------------------------------------------------------------------
  // The table
  // ---------------------------------------------------------------------------------------

  predicate IsClass(c: char) { c == 'u' || c == 'g' || c == 'o' || c == 'a' }

  /** The bits of a class: set-id or sticky bit, read, write, execute. */
  function ClassNumbers(who: char): Mode {
    match who
    case 'u' => {11, 8, 7, 6}
    case 'g' => {10, 5, 4, 3}
    case 'o' => {9, 2, 1, 0}
    case _ => {11, 10, 9, 8, 7, 6, 5, 4, 3, 2, 1, 0}
  }

  /** The bits that a letter names for a class. */
  function Numbers(who: char, letter: char): Mode {
    match who
    case 'u' => (match letter case 'r' => {8} case 'w' => {7} case 'x' => {6} case 's' => {11} case _ => {})
    case 'g' => (match letter case 'r' => {5} case 'w' => {4} case 'x' => {3} case 's' => {10} case _ => {})
    case 'o' => (match letter case 'r' => {2} case 'w' => {1} case 'x' => {0} case 's' => {} case _ => {9})
    case _ =>
      match letter
      case 'r' => {8, 5, 2}
      case 'w' => {7, 4, 1}
      case 'x' => {6, 3, 0}
      case 's' => {11, 10}
      case _ => {9}
  }

  /** Where the bits of one class go when they are copied: to the same bits of all, but one write bit
      to a read bit. */
  function Sent(from: char, m: Mode): Mode {
    match from
    case 'u' => When(m, 8, {8, 5, 2}) + When(m, 7, {7, 4, 2}) + When(m, 6, {6, 3, 0})
    case 'g' => When(m, 5, {8, 5, 2}) + When(m, 4, {7, 4, 2}) + When(m, 3, {6, 3, 0})
    case _ => When(m, 2, {8, 5, 2}) + When(m, 1, {7, 1, 5}) + When(m, 0, {6, 3, 0})
  }

  function Classes(who: string): Mode {
    if who == "" then {} else ClassNumbers(who[0]) + Classes(who[1..])
  }

  function SpreadOne(who: string, letter: char): Mode {
    if who == "" then {} else Numbers(who[0], letter) + SpreadOne(who[1..], letter)
  }

  /** The bits that any of the letters names for any of the classes. */
  function Spread(who: string, letters: string): Mode {
    if letters == "" then {} else SpreadOne(who, letters[0]) + Spread(who, letters[1..])
  }

  predicate ClassString(who: string) {
    forall i :: 0 <= i < |who| ==> IsClass(who[i])
  }

  lemma OneClass(c: char)
    requires IsClass(c)
    ensures WhoBits(c) == ClassNumbers(c)
  {
  }

  lemma OneNumber(c: char, letter: char)
    requires IsClass(c) && IsPlainLetter(letter)
    ensures WhoBits(c) * LetterBits(letter) == Numbers(c, letter)
  {
    hide WhoBits;
    OneClass(c);
    match letter
    case 'r' => assert LetterBits('r') == {8, 5, 2};
    case 'w' => assert LetterBits('w') == {7, 4, 1};
    case 'x' => assert LetterBits('x') == {6, 3, 0};
    case 's' => assert LetterBits('s') == {11, 10};
    case _ => assert LetterBits('t') == {9};
  }

  lemma {:induction false} MaskIsClasses(who: string)
    requires ClassString(who)
    ensures WhoMask(who) == Classes(who) && (who != "" ==> WhoMask(who) != {})
    decreases |who|
  {
    hide WhoBits, ClassNumbers;
    if who != "" {
      MaskIsClasses(who[1..]);
      OneClass(who[0]);
      SomeNumber(who[0]);
    }
  }

  lemma SomeNumber(c: char)
    ensures ClassNumbers(c) != {}
  {
    assert 11 in ClassNumbers(c) || 10 in ClassNumbers(c) || 9 in ClassNumbers(c);
  }

  lemma {:induction false} MaskSpreadsOne(who: string, letter: char)
    requires ClassString(who) && IsPlainLetter(letter)
    ensures WhoMask(who) * LetterBits(letter) == SpreadOne(who, letter)
    decreases |who|
  {
    hide WhoBits, LetterBits, Numbers;
    if who != "" {
      OneNumber(who[0], letter);
      MaskSpreadsOne(who[1..], letter);
    }
  }

  lemma {:induction false} MaskSpreads(who: string, letters: string)
    requires ClassString(who) && PlainLetters(letters)
    ensures Named(letters) * WhoMask(who) == Spread(who, letters)
    decreases |letters|
  {
    hide WhoMask, LetterBits, SpreadOne;
    if letters != "" {
      assert PlainLetters(letters[1..]);
      MaskSpreadsOne(who, letters[0]);
      MaskSpreads(who, letters[1..]);
    }
  }

  // ---------------------------------------------------------------------------------------
  // One clause
  // ---------------------------------------------------------------------------------------

  lemma {:induction false} NothingToStrip(s: string)
    requires forall i :: 0 <= i < |s| ==> !IsBlank(s[i])
    ensures Strip(s) == s
    decreases |s|
  {
    if s != "" {
      NothingToStrip(s[1..]);
    }
  }

  function KindBy(op: char): Kind {
    match op case '+' => Plus case '-' => Minus case _ => Equals
  }

  /** A string that is one clause compiles to the operations of that clause. */
  lemma OneClause(who: string, op: char, letters: string, u: Umask)
    requires ClassString(who) && op in {'+', '-', '='} && forall i :: 0 <= i < |letters| ==> IsLetter(letters[i])
    ensures Compile(who + [op] + letters, u) == Compiled(ClauseOps(KindBy(op), WhoMask(who), letters, u))
  {
    var c := Clause(who, KindBy(op), letters);
    var s := who + [op] + letters;
    assert PrintClauses([c]) == s;
    forall i | 0 <= i < |s|
      ensures !IsBlank(s[i])
    {
      assert s[i] == if i < |who| then who[i] else if i == |who| then op else letters[i - |who| - 1];
    }
    NothingToStrip(s);
    ModeStringsRoundTrip([c], s, u);
    assert [c][1..] == [] && OpsOfAll([c], u) == OpsOf(c, u) + [];
  }

  /** With classes given, for any of the letters r, w, x, s and t: `+` adds exactly the bits of the table,
      `-` takes exactly those away, and `=` leaves of the classes only what the last letter names. */
  lemma ClauseMeans(who: string, letters: string, u: Umask, m: Mode)
    requires who != "" && ClassString(who) && letters != "" && PlainLetters(letters)
    ensures var o := Compile(who + ['+'] + letters, u); o.Compiled? && Run(o.ops, m) == m + Spread(who, letters)
    ensures var o := Compile(who + ['-'] + letters, u); o.Compiled? && Run(o.ops, m) == m - Spread(who, letters)
    ensures var o := Compile(who + ['='] + letters, u);
            o.Compiled? && Run(o.ops, m) == (m - Classes(who)) + SpreadOne(who, letters[|letters| - 1])
  {
    hide Compile, Named, LetterOps, Chain, LetterBits;
    OneClause(who, '+', letters, u);
    OneClause(who, '-', letters, u);
    OneClause(who, '=', letters, u);
    MaskIsClasses(who);
    MaskSpreads(who, letters);
    MaskSpreadsOne(who, letters[|letters| - 1]);
    PlusAndMinus(WhoMask(who), letters, m, m);
    LastLetterWins(WhoMask(who), letters, m, m);
    ClauseIsLetters(Plus, who, letters, u);
    ClauseIsLetters(Minus, who, letters, u);
    ClauseIsLetters(Equals, who, letters, u);
  }

  lemma ClauseIsLetters(kind: Kind, who: string, letters: string, u: Umask)
    requires WhoMask(who) != {}
    ensures ClauseOps(kind, WhoMask(who), letters, u) == LetterOps(kind, WhoMask(who), letters)
  {
    assert [] + LetterOps(kind, WhoMask(who), letters) == LetterOps(kind, WhoMask(who), letters);
  }

  /** The single class and letter. */
  lemma LetterMeans(who: char, letter: char, u: Umask, m: Mode)
    requires IsClass(who) && IsPlainLetter(letter)
    ensures var o := Compile([who, '+', letter], u); o.Compiled? && Run(o.ops, m) == m + Numbers(who, letter)
    ensures var o := Compile([who, '-', letter], u); o.Compiled? && Run(o.ops, m) == m - Numbers(who, letter)
    ensures var o := Compile([who, '=', letter], u);
            o.Compiled? && Run(o.ops, m) == (m - ClassNumbers(who)) + Numbers(who, letter)
  {
    hide Compile, Run, Numbers, ClassNumbers;
    ClauseMeans([who], [letter], u, m);
    assert [who][1..] == "" && [letter][1..] == "";
    assert [who] + ['+'] + [letter] == [who, '+', letter];
    assert [who] + ['-'] + [letter] == [who, '-', letter];
    assert [who] + ['='] + [letter] == [who, '=', letter];
    assert SpreadOne([who], letter) == Numbers(who, letter) + {} == Numbers(who, letter);
    assert Spread([who], [letter]) == SpreadOne([who], letter) + {};
    assert Classes([who]) == ClassNumbers(who) + {} == ClassNumbers(who);
  }

  /** What one operation makes of a mode once it is known which bits it is about. */
  function Changed(op: char, m: Mode, classes: Mode, bits: Mode): Mode {
    match op case '+' => m + bits case '-' => m - bits case _ => (m - classes) + bits
  }

  /** X is x where the file is a directory or anybody may execute it, and otherwise no bit at all. */
  lemma ExecuteMeans(who: string, op: char, u: Umask, m: Mode)
    requires who != "" && ClassString(who) && op in {'+', '-', '='}
    ensures var o := Compile(who + [op] + ['X'], u);
            o.Compiled? &&
            Run(o.ops, m) == Changed(op, m, Classes(who),
                                     if IsDir(m) || 6 in m || 3 in m || 0 in m then SpreadOne(who, 'x') else {})
  {
    hide Compile, IsDir;
    OneClause(who, op, ['X'], u);
    MaskIsClasses(who);
    MaskSpreadsOne(who, 'x');
    ClauseIsLetters(KindBy(op), who, ['X'], u);
    OneLetter(KindBy(op), WhoMask(who), 'X', m);
    var mask := LetterBits('X') * WhoMask(who);
    assert LetterBits('X') == LetterBits('x') == ALL_X;
    assert mask - ALL_X == {};
    AnyExecute(m);
  }

  lemma AnyExecute(m: Mode)
    ensures m * CHMOD_MODE_BITS * ALL_X == {} <==> 6 !in m && 3 !in m && 0 !in m
  {
    if 6 in m {
      assert 6 in m * CHMOD_MODE_BITS * ALL_X;
    }
    if 3 in m {
      assert 3 in m * CHMOD_MODE_BITS * ALL_X;
    }
    if 0 in m {
      assert 0 in m * CHMOD_MODE_BITS * ALL_X;
    }
  }

  lemma OneLetter(kind: Kind, affected: Mode, c: char, m: Mode)
    ensures LetterOps(kind, affected, [c]) == [LetterOp(kind, affected, c)]
    ensures Run(LetterOps(kind, affected, [c]), m) == Apply(LetterOp(kind, affected, c), m, m)
  {
    assert [c][1..] == "" && LetterOps(kind, affected, "") == [];
    ChainOne(LetterOp(kind, affected, c), m, m);
  }

  /** A copy gives the classes what the copied class has, but for the one write bit. */
  lemma CopyMeans(who: string, op: char, from: char, u: Umask, m: Mode)
    requires who != "" && ClassString(who) && op in {'+', '-', '='} && IsCopyLetter(from)
    ensures var o := Compile(who + [op] + [from], u);
            o.Compiled? && Run(o.ops, m) == Changed(op, m, Classes(who), Sent(from, m) * Classes(who))
  {
    hide Compile, Sent, CopyBits;
    OneClause(who, op, [from], u);
    MaskIsClasses(who);
    ClauseIsLetters(KindBy(op), who, [from], u);
    OneLetter(KindBy(op), WhoMask(who), from, m);
    SentBits(from, m);
  }

  lemma SentBits(from: char, m: Mode)
    requires IsCopyLetter(from)
    ensures var v := m * CHMOD_MODE_BITS * LetterBits(from); v + CopyBits(LetterBits(from), v) == Sent(from, m)
  {
    var v := m * CHMOD_MODE_BITS * LetterBits(from);
    CopyBranch(from, v);
  }

  // ---------------------------------------------------------------------------------------
  // Without classes, and more than one clause
  // ---------------------------------------------------------------------------------------

  /** Without classes all are meant, but for the bits of the umask where the operator goes by it; and then
      `=` clears all of them first. */
  lemma NoClassMeans(letters: string, u: Umask, m: Mode)
    requires letters != "" && PlainLetters(letters)
    ensures var o := Compile("+" + letters, u);
            o.Compiled? && Run(o.ops, m) == m + (Spread("a", letters) - if Plus in u.ops then u.bits else {})
    ensures var o := Compile("-" + letters, u);
            o.Compiled? && Run(o.ops, m) == m - (Spread("a", letters) - if Minus in u.ops then u.bits else {})
    ensures var o := Compile("=" + letters, u);
            o.Compiled? &&
            Run(o.ops, m) == (m - Classes("a")) +
                             (SpreadOne("a", letters[|letters| - 1]) - if Equals in u.ops then u.bits else {})
  {
    hide Compile, Named, LetterOps, Chain, LetterBits, WhoMask, Classes;
    assert "" + ['+'] + letters == "+" + letters && "" + ['-'] + letters == "-" + letters;
    assert "" + ['='] + letters == "=" + letters;
    OneClause("", '+', letters, u);
    OneClause("", '-', letters, u);
    OneClause("", '=', letters, u);
    EveryClass();
    MaskSpreads("a", letters);
    MaskSpreadsOne("a", letters[|letters| - 1]);
    UnmaskedMeans(Plus, letters, u, m);
    UnmaskedMeans(Minus, letters, u, m);
    UnmaskedEquals(letters, u, m);
  }

  lemma EveryClass()
    ensures WhoMask("a") == CHMOD_MODE_BITS == Classes("a") && WhoMask("") == {}
  {
    assert "a"[1..] == "";
    MaskIsClasses("a");
    assert Classes("a") == ClassNumbers('a') + {};
  }

  lemma UnmaskedMeans(kind: Kind, letters: string, u: Umask, m: Mode)
    requires PlainLetters(letters) && !kind.Equals?
    ensures var bits := Named(letters) * CHMOD_MODE_BITS - if kind in u.ops then u.bits else {};
            Run(ClauseOps(kind, {}, letters, u), m) == if kind.Plus? then m + bits else m - bits
  {
    hide LetterOps, Named;
    var a := Affected(kind, {}, u);
    PlusAndMinus(a, letters, m, m);
    assert ClauseOps(kind, {}, letters, u) == [] + LetterOps(kind, a, letters) == LetterOps(kind, a, letters);
    assert Named(letters) * a == Named(letters) * CHMOD_MODE_BITS - if kind in u.ops then u.bits else {};
  }

  lemma UnmaskedEquals(letters: string, u: Umask, m: Mode)
    requires PlainLetters(letters) && letters != ""
    ensures Run(ClauseOps(Equals, {}, letters, u), m) ==
            (m - CHMOD_MODE_BITS) +
            (LetterBits(letters[|letters| - 1]) * CHMOD_MODE_BITS - if Equals in u.ops then u.bits else {})
  {
    hide LetterOps, LetterBits;
    var a, last := Affected(Equals, {}, u), LetterBits(letters[|letters| - 1]);
    var ops := LetterOps(Equals, a, letters);
    assert last * a == last * CHMOD_MODE_BITS - if Equals in u.ops then u.bits else {};
    if Equals in u.ops {
      var cleared := Apply(CLEAR_ALL, m, m);
      ChainAppend([CLEAR_ALL], ops, m, m);
      ChainOne(CLEAR_ALL, m, m);
      LastLetterWins(a, letters, m, cleared);
      assert cleared == m - CHMOD_MODE_BITS;
      assert cleared - a == cleared;
    } else {
      assert ClauseOps(Equals, {}, letters, u) == [] + ops == ops;
      LastLetterWins(a, letters, m, m);
    }
  }

  lemma {:induction false} MoreClauses(cs: seq<Clause>, ds: seq<Clause>, u: Umask)
    requires cs != [] && ds != []
    ensures PrintClauses(cs + ds) == PrintClauses(cs) + "," + PrintClauses(ds)
    ensures OpsOfAll(cs + ds, u) == OpsOfAll(cs, u) + OpsOfAll(ds, u)
    decreases |cs|
  {
    assert (cs + ds)[0] == cs[0] && (cs + ds)[1..] == cs[1..] + ds;
    if |cs| == 1 {
      assert cs[1..] == [] && cs[1..] + ds == ds;
      assert OpsOfAll(cs, u) == OpsOf(cs[0], u) + [] == OpsOf(cs[0], u);
    } else {
      MoreClauses(cs[1..], ds, u);
      AppendAssoc(PrintClause(cs[0]) + ",", PrintClauses(cs[1..]), "," + PrintClauses(ds));
      AppendAssoc(PrintClauses(cs[1..]), ",", PrintClauses(ds));
      AppendAssoc(PrintClause(cs[0]) + "," + PrintClauses(cs[1..]), ",", PrintClauses(ds));
      AppendAssoc(OpsOf(cs[0], u), OpsOfAll(cs[1..], u), OpsOfAll(ds, u));
    }
  }

  lemma {:induction false} NoBlanksPrinted(cs: seq<Clause>)
    requires cs != [] && forall c :: c in cs ==> ValidClause(c)
    ensures forall i :: 0 <= i < |PrintClauses(cs)| ==> !IsBlank(PrintClauses(cs)[i])
    decreases |cs|
  {
    var c, s := cs[0], PrintClause(cs[0]);
    assert c in cs && forall d :: d in cs[1..] ==> d in cs;
    forall i | 0 <= i < |s|
      ensures !IsBlank(s[i])
    {
      assert s[i] == if i < |c.who| then c.who[i] else if i == |c.who| then KindChar(c.kind) else c.letters[i - |c.who| - 1];
    }
    if |cs| > 1 {
      NoBlanksPrinted(cs[1..]);
      var rest, all := PrintClauses(cs[1..]), PrintClauses(cs);
      forall i | 0 <= i < |all|
        ensures !IsBlank(all[i])
      {
        assert all[i] == if i < |s| then s[i] else if i == |s| then ',' else rest[i - |s| - 1];
      }
    }
  }

  lemma PrintedCompiles(cs: seq<Clause>, u: Umask)
    requires cs != [] && forall c :: c in cs ==> ValidClause(c)
    ensures Compile(PrintClauses(cs), u) == Compiled(OpsOfAll(cs, u)) && AllWithin(OpsOfAll(cs, u))
  {
    NoBlanksPrinted(cs);
    NothingToStrip(PrintClauses(cs));
    ModeStringsRoundTrip(cs, PrintClauses(cs), u);
    CompiledWithin(PrintClauses(cs), u);
  }

  /** A comma means then: two lists of clauses do one after the other what each does alone. */
  lemma CommaMeansThen(cs: seq<Clause>, ds: seq<Clause>, u: Umask, m: Mode)
    requires cs != [] && ds != [] && forall c :: c in cs + ds ==> ValidClause(c)
    ensures var a, b := Compile(PrintClauses(cs), u), Compile(PrintClauses(ds), u);
            var both := Compile(PrintClauses(cs) + "," + PrintClauses(ds), u);
            a.Compiled? && b.Compiled? && both.Compiled? && Run(both.ops, m) == Run(b.ops, Run(a.ops, m))
  {
    hide Compile, IsDir, PrintClauses, OpsOfAll, AllWithin, ValidClause;
    assert forall c :: c in cs ==> c in cs + ds;
    assert forall c :: c in ds ==> c in cs + ds;
    MoreClauses(cs, ds, u);
    PrintedCompiles(cs, u);
    PrintedCompiles(ds, u);
    PrintedCompiles(cs + ds, u);
    var a, b := OpsOfAll(cs, u), OpsOfAll(ds, u);
    ChainAppend(a, b, m, m);
    RunKeepsType(a, m);
    ChainSees(b, m, Run(a, m), Run(a, m));
  }

  // ---------------------------------------------------------------------------------------
  // What is skipped
  // ---------------------------------------------------------------------------------------

  /** Blanks, tabs and line ends go, and nothing else. */
  lemma {:induction false} StripMeans(s: string, c: char)
    ensures Strip([c]) == if c in {' ', '\t', '\n', '\r', 11 as char, 12 as char} then "" else [c]
    ensures Strip([c] + s) == Strip([c]) + Strip(s)
  {
    assert [c][1..] == "" && ([c] + s)[1..] == s;
    assert Strip("") == "";
  }

  /** A character that is no operator is skipped, together with the classes in front of it. */
  lemma StrayIsSkipped(who: string, z: char, rest: string, u: Umask)
    requires (forall i :: 0 <= i < |who| ==> IsClass(who[i]) || who[i] == ',')
    requires !IsClass(z) && z != ',' && z !in {'+', '-', '='}
    ensures ParseClauses(who + ([z] + rest), u) == ParseClauses(rest, u)
  {
    WhoInverts(who, [z] + rest);
    assert ([z] + rest)[0] == z && ([z] + rest)[1..] == rest;
    var o := ParseClauses(rest, u);
    assert o.Compiled? ==> [] + o.ops == o.ops;
  }

  /** Commas among the classes say nothing. */
  lemma CommasAmongClasses(rest: string)
    ensures ParseWho("," + rest) == ParseWho(rest)
  {
    assert ("," + rest)[1..] == rest;
    assert {} + ParseWho(rest).mask == ParseWho(rest).mask;
  }

  // ---------------------------------------------------------------------------------------
  // Octal strings
  // ---------------------------------------------------------------------------------------

  lemma DivideTwice(v: nat, k: nat)
    requires k > 0
    ensures v / 2 / k == v / (2 * k)
  {
    var q, r := v / 2 / k, v / 2 % k;
    assert v / 2 == q * k + r;
    assert v == 2 * (q * k + r) + v % 2;
    assert 2 * (q * k) == q * (2 * k);
    QuotientIs(v, 2 * k, q, 2 * r + v % 2);
  }

  lemma QuotientIs(v: nat, d: nat, q: nat, r: nat)
    requires d > 0 && v == q * d + r && r < d
    ensures v / d == q
  {
    var e := v / d;
    var f := v - e * d;
    assert 0 <= f < d;
    if e > q {
      AtLeast(e, q, d);
    } else if e < q {
      AtLeast(q, e, d);
    }
  }

  lemma AtLeast(a: nat, b: nat, d: nat)
    requires a > b && d > 0
    ensures a * d >= b * d + d
  {
    assert a * d == b * d + (a - b - 1) * d + d;
  }

  /** The bits that an octal number sets are its binary digits. */
  lemma {:induction false} BitsAre(i: nat, v: nat, b: nat)
    ensures Power2(b) > 0
    ensures i + b in BitsFrom(i, v) <==> v / Power2(b) % 2 == 1
    ensures b < i ==> b !in BitsFrom(i, v)
    decreases v, b
  {
    PowerIsPositive(b);
    BitsAbove(i, v);
    if v > 0 {
      BitsAbove(i + 1, v / 2);
      if b > 0 {
        BitsAre(i + 1, v / 2, b - 1);
        DivideTwice(v, Power2(b - 1));
        assert i + 1 + (b - 1) == i + b;
      }
    }
  }

  lemma {:induction false} PowerIsPositive(b: nat)
    ensures Power2(b) > 0
  {
    if b > 0 {
      PowerIsPositive(b - 1);
    }
  }

  lemma {:induction false} BitsAbove(i: nat, v: nat)
    ensures forall b :: b in BitsFrom(i, v) ==> b >= i
    decreases v
  {
    if v > 0 {
      BitsAbove(i + 1, v / 2);
    }
  }

  /** The digits 8 and 9 make a number of the string, and end its value. */
  lemma DecimalDigits(a: string, c: char, b: string, u: Umask)
    requires (forall i :: 0 <= i < |a| ==> '0' <= a[i] <= '7') && '8' <= c <= '9'
    requires forall i :: 0 <= i < |b| ==> '0' <= b[i] <= '9'
    ensures Compile(a + ([c] + b), u) == Compile(a, u)
  {
    NoOctalDigit(0, a, c, b);
  }

  lemma {:induction false} NoOctalDigit(acc: nat, a: string, c: char, b: string)
    requires (forall i :: 0 <= i < |a| ==> '0' <= a[i] <= '7') && !('0' <= c <= '7')
    ensures OctalValue(acc, a + ([c] + b)) == OctalValue(acc, a)
    decreases |a|
  {
    if a == "" {
      assert a + ([c] + b) == [c] + b;
    } else {
      assert (a + ([c] + b))[0] == a[0] && (a + ([c] + b))[1..] == a[1..] + ([c] + b);
      NoOctalDigit(acc * 8 + (a[0] as int - '0' as int), a[1..], c, b);
    }
  }
}
