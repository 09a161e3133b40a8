/** The mode-string compiler: from a string like `ug+rw,o=` or `0644` to a chain of operations. */
module ChmodParser {
  import opened Options
  import opened Sequences
  import opened ChmodOperations

  // ---------------------------------------------------------------------------------------
  // What a string compiles to
  // ---------------------------------------------------------------------------------------

  datatype Outcome = Compiled(ops: seq<Op>) | Invalid

  /** What formatted extraction of a character skips. */
  predicate IsBlank(c: char) {
    c == ' ' || c == '\t' || c == '\n' || c == '\r' || c as int == 11 || c as int == 12
  }

  function Strip(s: string): string {
    if s == "" then ""
    else if IsBlank(s[0]) then Strip(s[1..])
    else [s[0]] + Strip(s[1..])
  }

  predicate IsWho(c: char) { c == ',' || c == 'u' || c == 'g' || c == 'o' || c == 'a' }

  function WhoBits(c: char): Mode {
    match c
    case 'u' => S_ISUID + S_IRWXU
    case 'g' => S_ISGID + S_IRWXG
    case 'o' => S_ISVTX + S_IRWXO
    case 'a' => CHMOD_MODE_BITS
    case _ => {}
  }

  datatype Who = Who(mask: Mode, rest: string)

  /** The leading who letters, commas among them included, and what follows them. */
  function ParseWho(t: string): (w: Who)
    ensures |w.rest| <= |t|
    ensures w.rest != "" ==> !IsWho(w.rest[0])
  {
    if t == "" || !IsWho(t[0]) then Who({}, t)
    else
      var w := ParseWho(t[1..]);
      Who(WhoBits(t[0]) + w.mask, w.rest)
  }

  function KindOf(c: char): Option<Kind> {
    match c
    case '=' => Some(Equals)
    case '+' => Some(Plus)
    case '-' => Some(Minus)
    case _ => None
  }

  predicate IsPlainLetter(c: char) { c == 'r' || c == 'w' || c == 'x' || c == 's' || c == 't' }

  predicate IsCopyLetter(c: char) { c == 'u' || c == 'g' || c == 'o' }

  predicate IsLetter(c: char) { IsPlainLetter(c) || c == 'X' || IsCopyLetter(c) }

  function LetterBits(c: char): Mode {
    match c
    case 'r' => ALL_R
    case 'w' => ALL_W
    case 'x' => ALL_X
    case 'X' => ALL_X
    case 's' => S_ISUID + S_ISGID
    case 't' => S_ISVTX
    case 'u' => S_IRWXU
    case 'g' => S_IRWXG
    case 'o' => S_IRWXO
    case _ => {}
  }

  /** Every letter becomes an operation of its own. */
  function LetterOp(kind: Kind, affected: Mode, c: char): Op {
    Op(kind, if IsCopyLetter(c) then LetterBits(c) else LetterBits(c) * affected, c == 'X', IsCopyLetter(c), affected)
  }

  function LetterOps(kind: Kind, affected: Mode, letters: string): seq<Op> {
    if letters == "" then []
    else [LetterOp(kind, affected, letters[0])] + LetterOps(kind, affected, letters[1..])
  }

  /** How many letters t starts with. */
  function LetterCount(t: string): (n: nat)
    ensures n <= |t|
    ensures forall i :: 0 <= i < n ==> IsLetter(t[i])
    ensures n < |t| ==> !IsLetter(t[n])
  {
    if t == "" || !IsLetter(t[0]) then 0 else 1 + LetterCount(t[1..])
  }

  /** The operator kinds the umask applies to when no who is given, and the umask. */
  datatype Umask = Umask(ops: set<Kind>, bits: Mode)

  const CLEAR_ALL := Op(Equals, {}, false, false, CHMOD_MODE_BITS)

  function Affected(kind: Kind, who: Mode, u: Umask): Mode {
    if who != {} then who
    else if kind in u.ops then CHMOD_MODE_BITS - u.bits
    else CHMOD_MODE_BITS
  }

  function ClauseOps(kind: Kind, who: Mode, letters: string, u: Umask): seq<Op> {
    (if who == {} && kind == Equals && Equals in u.ops then [CLEAR_ALL] else []) +
    LetterOps(kind, Affected(kind, who, u), letters)
  }

  function Prepend(ops: seq<Op>, o: Outcome): Outcome {
    match o
    case Compiled(more) => Compiled(ops + more)
    case Invalid => Invalid
  }

  /** One turn of the outer loop: the string ends, or more is to be read, or it is refused. */
  datatype Turn = Stop(ops: seq<Op>) | More(ops: seq<Op>, rest: string) | Refuse

  function ParseTurn(t: string, u: Umask): (turn: Turn)
    ensures turn.More? ==> |turn.rest| < |t|
  {
    var w := ParseWho(t);
    if w.rest == "" then Stop([])
    else
      match KindOf(w.rest[0])
      case None => More([], w.rest[1..])
      case Some(kind) =>
        var t' := w.rest[1..];
        var n := LetterCount(t');
        var ops := ClauseOps(kind, w.mask, t'[..n], u);
        if n == |t'| then Stop(ops)
        else if t'[n] == ',' then More(ops, t'[n + 1..])
        else Refuse
  }

  function ParseClauses(t: string, u: Umask): Outcome
    decreases |t|
  {
    match ParseTurn(t, u)
    case Stop(ops) => Compiled(ops)
    case More(ops, rest) => Prepend(ops, ParseClauses(rest, u))
    case Refuse => Invalid
  }

  predicate IsNumber(s: string) {
    forall i :: 0 <= i < |s| ==> '0' <= s[i] <= '9'
  }

  /** Octal extraction: the digits up to the first that is not octal. */
  function OctalValue(acc: nat, s: string): nat
    decreases |s|
  {
    if s == "" || !('0' <= s[0] <= '7') then acc
    else OctalValue(acc * 8 + (s[0] as int - '0' as int), s[1..])
  }

  function BitsFrom(i: nat, v: nat): Mode
    decreases v
  {
    if v == 0 then {} else (if v % 2 == 1 then {i} else {}) + BitsFrom(i + 1, v / 2)
  }

  /** The S_IFMT bits of a number are dropped; any higher bit is refused. */
  function CompileNumber(s: string): Outcome {
    var v := OctalValue(0, s);
    if v >= 0x10000 then Invalid
    else Compiled([Op(Equals, BitsFrom(0, v % 0x1000), false, false, CHMOD_MODE_BITS)])
  }

  function Compile(s: string, u: Umask): Outcome {
    if IsNumber(s) then CompileNumber(s) else ParseClauses(Strip(s), u)
  }

  // ---------------------------------------------------------------------------------------
  // The code
  // ---------------------------------------------------------------------------------------

  /** A string stream under formatted extraction: blanks are skipped, and a failed read
      leaves the stream bad for good. */
  class ModeStream {
    const data: string
    var pos: nat
    var bad: bool

    constructor (s: string)
      ensures data == s && pos == 0 && !bad
    {
      data, pos, bad := s, 0, false;
    }

    ghost predicate Valid()
      reads this
    {
      pos <= |data|
    }

    function Rest(): string
      requires Valid()
      reads this
    {
      Strip(data[pos..])
    }

    method Read() returns (ok: bool, c: char)
      requires Valid()
      modifies this
      ensures Valid()
      ensures ok == (!old(bad) && old(Rest()) != "")
      ensures ok ==> !bad && c == old(Rest())[0] && Rest() == old(Rest())[1..]
      ensures ok ==> pos > 0 && data[pos - 1] == c && !IsBlank(c)
      ensures !ok ==> bad
    {
      c := '\0';
      if bad {
        return false, c;
      }
      while pos < |data| && IsBlank(data[pos])
        invariant Valid() && !bad && Rest() == old(Rest())
      {
        assert data[pos..][1..] == data[pos + 1..];
        pos := pos + 1;
      }
      if pos == |data| {
        bad := true;
        return false, c;
      }
      assert data[pos..][1..] == data[pos + 1..];
      c := data[pos];
      pos := pos + 1;
      ok := true;
    }

    method Unget()
      requires Valid() && pos > 0 && !IsBlank(data[pos - 1])
      modifies this`pos
      ensures Valid() && Rest() == [data[old(pos) - 1]] + old(Rest())
    {
      pos := pos - 1;
      assert data[pos..][1..] == data[pos + 1..];
    }
  }

  method ParseAffectedBits(ss: ModeStream) returns (ret: Mode)
    requires ss.Valid() && !ss.bad
    modifies ss
    ensures ss.Valid()
    ensures var w := ParseWho(old(ss.Rest()));
            ret == w.mask && ss.bad == (w.rest == "") && (w.rest != "" ==> ss.Rest() == w.rest)
  {
    ret := {};
    ghost var t := ss.Rest();
    ghost var all := ParseWho(t);
    var ok, c := ss.Read();
    while ok
      invariant ss.Valid()
      invariant ok ==> !ss.bad && ss.pos > 0 && ss.data[ss.pos - 1] == c && !IsBlank(c)
      invariant ok ==> t == [c] + ss.Rest()
      invariant !ok ==> ss.bad && t == ""
      invariant all == Who(ret + ParseWho(t).mask, ParseWho(t).rest)
      decreases ok, |t|
    {
      match c {
        case ',' =>
        case 'u' => ret := ret + (S_ISUID + S_IRWXU);
        case 'g' => ret := ret + (S_ISGID + S_IRWXG);
        case 'o' => ret := ret + (S_ISVTX + S_IRWXO);
        case 'a' => ret := ret + CHMOD_MODE_BITS;
        case _ =>
          ss.Unget();
          return;
      }
      t := t[1..];
      ok, c := ss.Read();
    }
  }

  method MakeOp(opcode: char, affected: Mode, ch: char) returns (op: Option<Op>)
    requires KindOf(opcode).Some?
    ensures op == if IsLetter(ch) then Some(LetterOp(KindOf(opcode).value, affected, ch)) else None
  {
    var kind := KindOf(opcode).value;
    match ch {
      case 'r' => op := Some(Op(kind, ALL_R * affected, false, false, affected));
      case 'w' => op := Some(Op(kind, ALL_W * affected, false, false, affected));
      case 'x' => op := Some(Op(kind, ALL_X * affected, false, false, affected));
      case 'X' => op := Some(Op(kind, ALL_X * affected, true, false, affected));
      case 's' => op := Some(Op(kind, (S_ISUID + S_ISGID) * affected, false, false, affected));
      case 't' => op := Some(Op(kind, S_ISVTX * affected, false, false, affected));
      case 'u' => op := Some(Op(kind, S_IRWXU, false, true, affected));
      case 'g' => op := Some(Op(kind, S_IRWXG, false, true, affected));
      case 'o' => op := Some(Op(kind, S_IRWXO, false, true, affected));
      case _ => op := None;
    }
  }

  /** Reads the letters of one clause and the character behind them, if there is one. */
  method ReadLetters(ss: ModeStream, ret: Chmod, opcode: char, affected: Mode) returns (ch: char)
    requires ss.Valid() && !ss.bad && KindOf(opcode).Some?
    modifies ss, ret
    ensures ss.Valid()
    ensures var t := old(ss.Rest());
            var n := LetterCount(t);
            ret.operations == old(ret.operations) + LetterOps(KindOf(opcode).value, affected, t[..n]) &&
            ss.bad == (n == |t|) &&
            (n < |t| ==> ch == t[n] && ss.Rest() == t[n + 1..])
  {
    ghost var kind := KindOf(opcode).value;
    ghost var t := ss.Rest();
    ghost var done := 0;
    ghost var start := ret.operations;
    var ok, c := ss.Read();
    ch := c;
    var gettingValues := true;
    while gettingValues && ok
      invariant ss.Valid() && gettingValues
      invariant done <= |t| && LetterCount(t) == done + LetterCount(t[done..])
      invariant ret.operations == start + LetterOps(kind, affected, t[..done])
      invariant if ok then !ss.bad && done < |t| && ch == t[done] && ss.Rest() == t[done + 1..]
                else ss.bad && done == |t|
      decreases ok, |t| - done
    {
      var op := MakeOp(opcode, affected, ch);
      match op {
        case None =>
          gettingValues := false;
          assert LetterCount(t) == done;
          return;
        case Some(o) =>
          ret.Append(o);
          LetterOpsSnoc(kind, affected, t, done);
          assert t[done..][1..] == t[done + 1..];
      }
      done := done + 1;
      ok, c := ss.Read();
      if ok {
        ch := c;
      }
    }
    assert t[..done] == t;
  }

  lemma {:induction false} LetterOpsSnoc(kind: Kind, affected: Mode, t: string, n: nat)
    requires n < |t|
    ensures LetterOps(kind, affected, t[..n + 1]) ==
            LetterOps(kind, affected, t[..n]) + [LetterOp(kind, affected, t[n])]
    decreases n
  {
    if n == 0 {
      assert t[..1] == [t[0]] && t[..0] == "";
    } else {
      LetterOpsSnoc(kind, affected, t[1..], n - 1);
      assert t[..n + 1][1..] == t[1..][..n] && t[..n][1..] == t[1..][..n - 1];
    }
  }

  /** One turn of the outer loop. */
  method ReadClause(ss: ModeStream, ret: Chmod, u: Umask) returns (valid: bool)
    requires ss.Valid() && !ss.bad
    modifies ss, ret
    ensures ss.Valid()
    ensures match ParseTurn(old(ss.Rest()), u)
            case Stop(ops) => valid && ss.bad && ret.operations == old(ret.operations) + ops
            case More(ops, rest) =>
              valid && !ss.bad && ss.Rest() == rest && ret.operations == old(ret.operations) + ops
            case Refuse => !valid
  {
    hide LetterOps, LetterCount, ParseWho;
    valid := true;
    ghost var start := ret.operations;
    var affected := ParseAffectedBits(ss);
    ghost var who := affected;
    var userSpecified := affected != {};
    var opsToMask: set<Kind> := {};
    if !userSpecified {
      affected := CHMOD_MODE_BITS;
      opsToMask := u.ops;
    }
    var ok, opcode := ss.Read();
    if ok && KindOf(opcode).Some? {
      var kind := KindOf(opcode).value;
      if !userSpecified && kind == Equals && Equals in opsToMask {
        ret.Append(CLEAR_ALL);
      }
      if kind in opsToMask {
        affected := affected - u.bits;
      }
      ghost var pre := ret.operations;
      ghost var t := ss.Rest();
      var ch := ReadLetters(ss, ret, opcode, affected);
      ghost var letters := LetterOps(kind, affected, t[..LetterCount(t)]);
      assert pre + letters == start + ClauseOps(kind, who, t[..LetterCount(t)], u);
      if !ss.bad && ch != ',' {
        valid := false;
      }
    }
  }

  method MakeChmod(s: string, u: Umask) returns (valid: bool, ret: Chmod)
    ensures fresh(ret)
    ensures match Compile(s, u)
            case Compiled(ops) => valid && ret.operations == ops
            case Invalid => !valid
  {
    ret := new Chmod();
    valid := true;
    if IsNumber(s) {
      var value := OctalValue(0, s);
      if value >= 0x10000 {
        return false, ret;
      }
      ret.Append(Op(Equals, BitsFrom(0, value % 0x1000), false, false, CHMOD_MODE_BITS));
      return;
    }
    var ss := new ModeStream(s);
    while !ss.bad
      invariant ss.Valid() && fresh(ss) && fresh(ret) && valid
      invariant Compile(s, u) == if ss.bad then Compiled(ret.operations)
                                 else Prepend(ret.operations, ParseClauses(ss.Rest(), u))
      decreases !ss.bad, |ss.Rest()|
    {
      ghost var t, start := ss.Rest(), ret.operations;
      ghost var turn := ParseTurn(t, u);
      valid := ReadClause(ss, ret, u);
      if !valid {
        return;
      }
      if turn.More? {
        PrependTwice(start, turn.ops, ParseClauses(turn.rest, u));
      }
    }
  }

  lemma PrependTwice(a: seq<Op>, b: seq<Op>, o: Outcome)
    ensures Prepend(a, Prepend(b, o)) == Prepend(a + b, o)
  {
    if o.Compiled? {
      assert a + (b + o.ops) == a + b + o.ops;
    }
  }

  // ---------------------------------------------------------------------------------------
  // Printing and parsing
  // ---------------------------------------------------------------------------------------

  datatype Clause = Clause(who: string, kind: Kind, letters: string)

  predicate ValidClause(c: Clause) {
    && (forall i :: 0 <= i < |c.who| ==> IsWho(c.who[i]) && c.who[i] != ',')
    && (forall i :: 0 <= i < |c.letters| ==> IsLetter(c.letters[i]))
  }

  function KindChar(k: Kind): char {
    match k case Equals => '=' case Plus => '+' case Minus => '-'
  }

  function PrintClause(c: Clause): string {
    c.who + [KindChar(c.kind)] + c.letters
  }

  /** The clauses with commas between them. */
  function PrintClauses(cs: seq<Clause>): string
    requires cs != []
  {
    if |cs| == 1 then PrintClause(cs[0]) else PrintClause(cs[0]) + "," + PrintClauses(cs[1..])
  }

  function WhoMask(who: string): Mode {
    if who == "" then {} else WhoBits(who[0]) + WhoMask(who[1..])
  }

  function OpsOf(c: Clause, u: Umask): seq<Op> {
    ClauseOps(c.kind, WhoMask(c.who), c.letters, u)
  }

  function OpsOfAll(cs: seq<Clause>, u: Umask): seq<Op> {
    if cs == [] then [] else OpsOf(cs[0], u) + OpsOfAll(cs[1..], u)
  }

  lemma {:induction false} WhoInverts(who: string, rest: string)
    requires forall i :: 0 <= i < |who| ==> IsWho(who[i])
    requires rest != "" && !IsWho(rest[0])
    ensures ParseWho(who + rest) == Who(WhoMask(who), rest)
    decreases |who|
  {
    if who == "" {
      assert who + rest == rest;
    } else {
      assert (who + rest)[1..] == who[1..] + rest;
      WhoInverts(who[1..], rest);
    }
  }

  lemma {:induction false} LettersInvert(letters: string, rest: string)
    requires forall i :: 0 <= i < |letters| ==> IsLetter(letters[i])
    requires rest == "" || !IsLetter(rest[0])
    ensures LetterCount(letters + rest) == |letters|
    decreases |letters|
  {
    if letters == "" {
      assert letters + rest == rest;
    } else {
      assert (letters + rest)[1..] == letters[1..] + rest;
      LettersInvert(letters[1..], rest);
    }
  }

  /** One printed clause is parsed as that clause, and what follows it decides what is next. */
  lemma TurnInverts(c: Clause, rest: string, u: Umask)
    requires ValidClause(c)
    requires rest == "" || !IsLetter(rest[0])
    ensures ParseTurn(PrintClause(c) + rest, u) ==
            if rest == "" then Stop(OpsOf(c, u))
            else if rest[0] == ',' then More(OpsOf(c, u), rest[1..])
            else Refuse
  {
    hide ClauseOps, WhoMask, ParseWho;
    var tail := c.letters + rest;
    AppendAssoc(c.who + [KindChar(c.kind)], c.letters, rest);
    AppendAssoc(c.who, [KindChar(c.kind)], tail);
    WhoInverts(c.who, [KindChar(c.kind)] + tail);
    assert ([KindChar(c.kind)] + tail)[1..] == tail;
    LettersInvert(c.letters, rest);
    assert tail[..|c.letters|] == c.letters;
    if rest != "" {
      assert tail[|c.letters| + 1..] == rest[1..];
    }
  }

  lemma {:induction false} ParsingInvertsPrinting(cs: seq<Clause>, u: Umask)
    requires cs != [] && forall c :: c in cs ==> ValidClause(c)
    ensures ParseClauses(PrintClauses(cs), u) == Compiled(OpsOfAll(cs, u))
    decreases |cs|
  {
    var c := cs[0];
    assert c in cs;
    if |cs| == 1 {
      TurnInverts(c, "", u);
      assert PrintClause(c) + "" == PrintClause(c);
      assert cs[1..] == [] && OpsOf(c, u) + [] == OpsOf(c, u);
    } else {
      var rest := "," + PrintClauses(cs[1..]);
      TurnInverts(c, rest, u);
      assert PrintClauses(cs) == PrintClause(c) + rest;
      assert rest[1..] == PrintClauses(cs[1..]);
      assert forall d :: d in cs[1..] ==> d in cs;
      ParsingInvertsPrinting(cs[1..], u);
    }
  }

  /** Blanks may stand anywhere in a mode string; the compiled chain is that of the clauses. */
  lemma ModeStringsRoundTrip(cs: seq<Clause>, s: string, u: Umask)
    requires cs != [] && forall c :: c in cs ==> ValidClause(c)
    requires Strip(s) == PrintClauses(cs)
    ensures Compile(s, u) == Compiled(OpsOfAll(cs, u))
  {
    ParsingInvertsPrinting(cs, u);
    StripOfNumber(s);
    ClausesAreNoNumber(cs);
  }

  lemma {:induction false} StripOfNumber(s: string)
    ensures IsNumber(s) ==> Strip(s) == s
    decreases |s|
  {
    if s != "" {
      assert IsNumber(s) ==> IsNumber(s[1..]);
      StripOfNumber(s[1..]);
    }
  }

  lemma ClausesAreNoNumber(cs: seq<Clause>)
    requires cs != []
    ensures !IsNumber(PrintClauses(cs))
  {
    var k := |cs[0].who|;
    assert PrintClause(cs[0])[k] == KindChar(cs[0].kind);
    assert PrintClauses(cs)[k] == PrintClause(cs[0])[k];
  }

  /** A second operator in one clause, which POSIX allows, makes the whole string invalid. */
  lemma {:induction false} SecondOperatorIsRefused(cs: seq<Clause>, next: Kind, rest: string, u: Umask)
    requires cs != [] && forall c :: c in cs ==> ValidClause(c)
    ensures ParseClauses(PrintClauses(cs) + ([KindChar(next)] + rest), u) == Invalid
    decreases |cs|
  {
    var c := cs[0];
    assert c in cs;
    var more := [KindChar(next)] + rest;
    if |cs| == 1 {
      TurnInverts(c, more, u);
    } else {
      var tail := PrintClauses(cs[1..]);
      TurnInverts(c, "," + (tail + more), u);
      AppendAssoc(PrintClause(c) + ",", tail, more);
      AppendAssoc(PrintClause(c), ",", tail + more);
      assert ("," + (tail + more))[1..] == tail + more;
      assert forall d :: d in cs[1..] ==> d in cs;
      SecondOperatorIsRefused(cs[1..], next, rest, u);
    }
  }
}
