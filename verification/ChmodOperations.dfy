/** Mode operations: what one compiled operation does to a mode, and what a chain of them does. */
module ChmodOperations {

  /** A mode_t as the set of its one-bits: `|` is union, `&` intersection, and `& ~` difference. */
  type Mode = set<nat>

  const S_ISUID: Mode := {11}
  const S_ISGID: Mode := {10}
  const S_ISVTX: Mode := {9}
  const S_IRWXU: Mode := {8, 7, 6}
  const S_IRWXG: Mode := {5, 4, 3}
  const S_IRWXO: Mode := {2, 1, 0}
  const ALL_R: Mode := {8, 5, 2}
  const ALL_W: Mode := {7, 4, 1}
  const ALL_X: Mode := {6, 3, 0}
  const CHMOD_MODE_BITS: Mode := {11, 10, 9, 8, 7, 6, 5, 4, 3, 2, 1, 0}
  const S_IFMT: Mode := {15, 14, 13, 12}
  const S_IFDIR: Mode := {14}

  // bit numbers
  const RUSR: nat := 8
  const WUSR: nat := 7
  const XUSR: nat := 6
  const RGRP: nat := 5
  const WGRP: nat := 4
  const XGRP: nat := 3
  const ROTH: nat := 2
  const WOTH: nat := 1
  const XOTH: nat := 0

  predicate IsDir(m: Mode) { m * S_IFMT == S_IFDIR }

  datatype Kind = Equals | Plus | Minus

  datatype Op = Op(kind: Kind, mode: Mode, xIfAnyX: bool, copyExisting: bool, affected: Mode)

  /** `v & bit ? bits : 0` */
  function When(v: Mode, bit: nat, bits: Mode): Mode {
    if bit in v then bits else {}
  }

  /** The source copies a write bit onto one write bit and, where the second write bit should
      be, onto a read bit. */
  function CopyBits(mode: Mode, v: Mode): Mode {
    if mode * S_IRWXU != {} then
      When(v, RUSR, {RGRP, ROTH}) + When(v, WUSR, {WGRP, ROTH}) + When(v, XUSR, {XGRP, XOTH})
    else if mode * S_IRWXG != {} then
      When(v, RGRP, {RUSR, ROTH}) + When(v, WGRP, {WUSR, ROTH}) + When(v, XGRP, {XUSR, XOTH})
    else
      When(v, ROTH, {RUSR, RGRP}) + When(v, WOTH, {WUSR, RGRP}) + When(v, XOTH, {XUSR, XGRP})
  }

  function CalcMode(op: Op, existing: Mode, chained0: Mode): Mode {
    var chained := chained0 * CHMOD_MODE_BITS;
    if op.copyExisting then
      var value := chained * op.mode;
      (value + CopyBits(op.mode, value)) * op.affected
    else if op.xIfAnyX && !IsDir(existing) && chained * ALL_X == {} then
      op.mode - ALL_X
    else
      op.mode
  }

  function Apply(op: Op, existing: Mode, chained: Mode): Mode {
    var value := CalcMode(op, existing, chained);
    match op.kind
    case Equals => (chained - op.affected) + value
    case Plus => chained + value
    case Minus => chained - value
  }

  function Chain(ops: seq<Op>, existing: Mode, chained: Mode): Mode
    decreases |ops|
  {
    if ops == [] then chained else Chain(ops[1..], existing, Apply(ops[0], existing, chained))
  }

  /** What a compiled object makes of a mode: the first operation sees the mode itself. */
  function Run(ops: seq<Op>, m: Mode): Mode {
    Chain(ops, m, m)
  }

  lemma ChainOne(op: Op, existing: Mode, m: Mode)
    ensures Chain([op], existing, m) == Apply(op, existing, m)
  {
    assert [op][1..] == [];
    assert Chain([], existing, Apply(op, existing, m)) == Apply(op, existing, m);
  }

  lemma {:induction false} ChainAppend(a: seq<Op>, b: seq<Op>, existing: Mode, chained: Mode)
    ensures Chain(a + b, existing, chained) == Chain(b, existing, Chain(a, existing, chained))
    decreases |a|
  {
    if a == [] {
      assert a + b == b;
    } else {
      assert (a + b)[0] == a[0] && (a + b)[1..] == a[1..] + b;
      ChainAppend(a[1..], b, existing, Apply(a[0], existing, chained));
    }
  }

  class Chmod {
    var operations: seq<Op>

    constructor ()
      ensures operations == []
    {
      operations := [];
    }

    method Append(o: Op)
      modifies this
      ensures operations == old(operations) + [o]
    {
      operations := operations + [o];
    }

    method Call(m: Mode) returns (chained: Mode)
      ensures chained == Run(operations, m)
    {
      chained := m;
      for i := 0 to |operations|
        invariant Chain(operations[i..], m, chained) == Run(operations, m)
      {
        assert operations[i..][1..] == operations[i + 1..];
        chained := Apply(operations[i], m, chained);
      }
    }
  }

  // ---------------------------------------------------------------------------------------
  // A chain without X and without copies is one mask
  // ---------------------------------------------------------------------------------------

  predicate Plain(op: Op) {
    !op.xIfAnyX && !op.copyExisting
  }

  predicate AllPlain(ops: seq<Op>) {
    forall op :: op in ops ==> Plain(op)
  }

  datatype Masks = Masks(cleared: Mode, added: Mode) {
    function On(m: Mode): Mode { (m - cleared) + added }

    function Then(next: Masks): Masks {
      Masks(cleared + next.cleared, (added - next.cleared) + next.added)
    }
  }

  function OpMasks(op: Op): Masks {
    match op.kind
    case Equals => Masks(op.affected, op.mode)
    case Plus => Masks({}, op.mode)
    case Minus => Masks(op.mode, {})
  }

  function ChainMasks(ops: seq<Op>): Masks
    decreases |ops|
  {
    if ops == [] then Masks({}, {}) else OpMasks(ops[0]).Then(ChainMasks(ops[1..]))
  }

  /** However long the chain, its effect is one clear mask and one set mask. */
  lemma {:induction false} ChainIsOneMask(ops: seq<Op>, existing: Mode, m: Mode)
    requires AllPlain(ops)
    ensures Chain(ops, existing, m) == ChainMasks(ops).On(m)
    decreases |ops|
  {
    if ops != [] {
      assert Plain(ops[0]) && forall op :: op in ops[1..] ==> op in ops;
      ChainIsOneMask(ops[1..], existing, Apply(ops[0], existing, m));
    }
  }

  /** Running such a chain twice is running it once. */
  lemma RunIdempotent(ops: seq<Op>, m: Mode)
    requires AllPlain(ops)
    ensures Run(ops, Run(ops, m)) == Run(ops, m)
  {
    ChainIsOneMask(ops, m, m);
    ChainIsOneMask(ops, Run(ops, m), Run(ops, m));
  }

  // ---------------------------------------------------------------------------------------
  // Any chain leaves the file type alone
  // ---------------------------------------------------------------------------------------

  predicate Within(op: Op) {
    op.mode <= CHMOD_MODE_BITS && op.affected <= CHMOD_MODE_BITS
  }

  predicate AllWithin(ops: seq<Op>) {
    forall op :: op in ops ==> Within(op)
  }

  lemma ApplyKeepsType(op: Op, existing: Mode, m: Mode)
    requires Within(op)
    ensures Apply(op, existing, m) - CHMOD_MODE_BITS == m - CHMOD_MODE_BITS
  {
    assert CalcMode(op, existing, m) <= CHMOD_MODE_BITS;
  }

  lemma {:induction false} ChainKeepsType(ops: seq<Op>, existing: Mode, m: Mode)
    requires AllWithin(ops)
    ensures Chain(ops, existing, m) - CHMOD_MODE_BITS == m - CHMOD_MODE_BITS
    decreases |ops|
  {
    if ops != [] {
      assert Within(ops[0]) && forall op :: op in ops[1..] ==> op in ops;
      ApplyKeepsType(ops[0], existing, m);
      ChainKeepsType(ops[1..], existing, Apply(ops[0], existing, m));
    }
  }
}
