/** The merges of the standard set algorithms over name-ordered children, as the set views use them. */
module OrderedMerge {
  import opened Sequences

  /** A child of a directory: its name, and which object it is. */
  datatype Child = Child(name: string, id: nat)

  // ---------------------------------------------------------------------------------------
  // Name order
  // ---------------------------------------------------------------------------------------

  predicate Less(a: string, b: string) {
    b != "" && (a == "" || a[0] < b[0] || (a[0] == b[0] && Less(a[1..], b[1..])))
  }

  lemma {:induction false} LessIrreflexive(a: string)
    ensures !Less(a, a)
    decreases |a|
  {
    if a != "" {
      LessIrreflexive(a[1..]);
    }
  }

  lemma {:induction false} LessTransitive(a: string, b: string, c: string)
    requires Less(a, b) && Less(b, c)
    ensures Less(a, c)
    decreases |a|
  {
    if a != "" && a[0] == b[0] == c[0] {
      LessTransitive(a[1..], b[1..], c[1..]);
    }
  }

  lemma {:induction false} LessTotal(a: string, b: string)
    ensures Less(a, b) || Less(b, a) || a == b
    decreases |a|
  {
    if a != "" && b != "" && a[0] == b[0] {
      LessTotal(a[1..], b[1..]);
      assert a == [a[0]] + a[1..] && b == [b[0]] + b[1..];
    }
  }

  /** The order of strings: a proper prefix comes first, and otherwise the first character in which they
      differ decides. */
  lemma {:induction false} LessMeans(a: string, b: string)
    ensures Less(a, b) <==>
            || (|a| < |b| && a == b[..|a|])
            || exists i :: 0 <= i < |a| && i < |b| && a[..i] == b[..i] && a[i] < b[i]
    decreases |a|
  {
    if a != "" && b != "" && a[0] == b[0] {
      LessMeans(a[1..], b[1..]);
      assert a == [a[0]] + a[1..] && b == [b[0]] + b[1..];
      LessShifted(a, b);
    } else if a != "" && b != "" {
      assert a[..0] == b[..0];
      assert forall i :: 0 < i < |a| && i < |b| ==> a[..i][0] != b[..i][0];
      assert |a| <= |b| ==> b[..|a|][0] == b[0];
    }
  }

  lemma LessShifted(a: string, b: string)
    requires a != "" && b != "" && a[0] == b[0]
    ensures |a| <= |b| ==> (a == b[..|a|] <==> a[1..] == b[1..][..|a[1..]|])
    ensures (exists i :: 0 <= i < |a| && i < |b| && a[..i] == b[..i] && a[i] < b[i]) <==>
            exists i :: 0 <= i < |a[1..]| && i < |b[1..]| && a[1..][..i] == b[1..][..i] && a[1..][i] < b[1..][i]
  {
    assert a == [a[0]] + a[1..] && b == [b[0]] + b[1..];
    if |a| <= |b| {
      assert b[..|a|] == [b[0]] + b[1..][..|a| - 1];
    }
    if i :| 0 <= i < |a| && i < |b| && a[..i] == b[..i] && a[i] < b[i] {
      assert i > 0;
      assert a[1..][..i - 1] == a[..i][1..] && b[1..][..i - 1] == b[..i][1..];
      assert a[1..][i - 1] == a[i] && b[1..][i - 1] == b[i];
    }
    if i :| 0 <= i < |a[1..]| && i < |b[1..]| && a[1..][..i] == b[1..][..i] && a[1..][i] < b[1..][i] {
      assert a[..i + 1] == [a[0]] + a[1..][..i] && b[..i + 1] == [b[0]] + b[1..][..i];
      assert a[i + 1] == a[1..][i] && b[i + 1] == b[1..][i];
    }
  }

  predicate Ordered(s: seq<Child>) {
    forall i, j :: 0 <= i < j < |s| ==> Less(s[i].name, s[j].name)
  }

  function Names(s: seq<Child>): set<string> {
    set c | c in s :: c.name
  }

  predicate DistinctNames(s: seq<Child>) {
    forall i, j :: 0 <= i < j < |s| ==> s[i].name != s[j].name
  }

  lemma OrderedDistinct(s: seq<Child>)
    requires Ordered(s)
    ensures DistinctNames(s)
  {
    forall i, j | 0 <= i < j < |s|
      ensures s[i].name != s[j].name
    {
      LessIrreflexive(s[i].name);
    }
  }

  // ---------------------------------------------------------------------------------------
  // One merge
  // ---------------------------------------------------------------------------------------

  datatype SetOp = Union | Difference | Intersection | SymmetricDifference {
    predicate KeepsLeft() { !Intersection? }
    predicate KeepsRight() { Union? || SymmetricDifference? }
    predicate KeepsBoth() { Union? || Intersection? }

    /** Whether a name held (or not) by either operand is in the result. */
    predicate Holds(left: bool, right: bool) {
      if left && right then KeepsBoth() else (left && KeepsLeft()) || (right && KeepsRight())
    }
  }

  function KeepIf(b: bool, c: Child): seq<Child> {
    if b then [c] else []
  }

  /** The merge of two ordered ranges; the left operand supplies what both hold. */
  function Merge(op: SetOp, a: seq<Child>, b: seq<Child>): seq<Child>
    decreases |a| + |b|
  {
    if a == [] then if op.KeepsRight() then b else []
    else if b == [] then if op.KeepsLeft() then a else []
    else if Less(a[0].name, b[0].name) then KeepIf(op.KeepsLeft(), a[0]) + Merge(op, a[1..], b)
    else if Less(b[0].name, a[0].name) then KeepIf(op.KeepsRight(), b[0]) + Merge(op, a, b[1..])
    else KeepIf(op.KeepsBoth(), a[0]) + Merge(op, a[1..], b[1..])
  }

  /** c comes from the left operand, or from the right one under a name the left lacks. */
  predicate Supplied(a: seq<Child>, b: seq<Child>, c: Child) {
    c in a || (c in b && c.name !in Names(a))
  }

  predicate AllAfter(s: seq<Child>, name: string) {
    forall c :: c in s ==> Less(name, c.name)
  }

  lemma TailAfter(s: seq<Child>)
    requires Ordered(s) && s != []
    ensures Ordered(s[1..]) && AllAfter(s[1..], s[0].name)
    ensures Names(s) == {s[0].name} + Names(s[1..])
    ensures s[0].name !in Names(s[1..])
  {
    assert s == [s[0]] + s[1..];
    LessIrreflexive(s[0].name);
  }

  lemma AllAfterWeaken(s: seq<Child>, n: string, n': string)
    requires AllAfter(s, n) && Less(n', n)
    ensures AllAfter(s, n')
  {
    forall c | c in s
      ensures Less(n', c.name)
    {
      LessTransitive(n', n, c.name);
    }
  }

  lemma OrderedCons(c: Child, s: seq<Child>)
    requires Ordered(s) && AllAfter(s, c.name)
    ensures Ordered([c] + s)
  {
  }

  lemma AfterExcludes(s: seq<Child>, n: string)
    requires AllAfter(s, n)
    ensures n !in Names(s)
  {
    LessIrreflexive(n);
  }

  lemma {:induction false} MergeAfter(op: SetOp, a: seq<Child>, b: seq<Child>, n: string)
    requires AllAfter(a, n) && AllAfter(b, n)
    ensures AllAfter(Merge(op, a, b), n)
    ensures forall c :: c in Merge(op, a, b) ==> c in a || c in b
    decreases |a| + |b|
  {
    if a != [] && b != [] {
      assert forall c :: c in a[1..] ==> c in a;
      assert forall c :: c in b[1..] ==> c in b;
      if Less(a[0].name, b[0].name) {
        MergeAfter(op, a[1..], b, n);
      } else if Less(b[0].name, a[0].name) {
        MergeAfter(op, a, b[1..], n);
      } else {
        MergeAfter(op, a[1..], b[1..], n);
      }
    }
  }

  /** A merge of ordered ranges is ordered. */
  lemma {:induction false} MergeOrdered(op: SetOp, a: seq<Child>, b: seq<Child>)
    requires Ordered(a) && Ordered(b)
    ensures Ordered(Merge(op, a, b))
    decreases |a| + |b|
  {
    if a != [] && b != [] {
      TailAfter(a);
      TailAfter(b);
      if Less(a[0].name, b[0].name) {
        AllAfterWeaken(b[1..], b[0].name, a[0].name);
        MergeOrdered(op, a[1..], b);
        MergeAfter(op, a[1..], b, a[0].name);
        OrderedCons(a[0], Merge(op, a[1..], b));
      } else if Less(b[0].name, a[0].name) {
        AllAfterWeaken(a[1..], a[0].name, b[0].name);
        MergeOrdered(op, a, b[1..]);
        MergeAfter(op, a, b[1..], b[0].name);
        OrderedCons(b[0], Merge(op, a, b[1..]));
      } else {
        LessTotal(a[0].name, b[0].name);
        MergeOrdered(op, a[1..], b[1..]);
        MergeAfter(op, a[1..], b[1..], a[0].name);
        OrderedCons(a[0], Merge(op, a[1..], b[1..]));
      }
    }
  }

  lemma NamesKeep(k: bool, c: Child, s: seq<Child>)
    ensures Names(KeepIf(k, c) + s) == (if k then {c.name} else {}) + Names(s)
  {
  }

  /** It holds exactly the names the set operation asks for. */
  lemma {:induction false} MergeNames(op: SetOp, a: seq<Child>, b: seq<Child>, n: string)
    requires Ordered(a) && Ordered(b)
    ensures n in Names(Merge(op, a, b)) <==> op.Holds(n in Names(a), n in Names(b))
    decreases |a| + |b|
  {
    if a == [] || b == [] {
    } else {
      TailAfter(a);
      TailAfter(b);
      if Less(a[0].name, b[0].name) {
        MergeNames(op, a[1..], b, n);
        NamesKeep(op.KeepsLeft(), a[0], Merge(op, a[1..], b));
        AllAfterWeaken(b[1..], b[0].name, a[0].name);
        AfterExcludes(b, a[0].name);
      } else if Less(b[0].name, a[0].name) {
        MergeNames(op, a, b[1..], n);
        NamesKeep(op.KeepsRight(), b[0], Merge(op, a, b[1..]));
        AllAfterWeaken(a[1..], a[0].name, b[0].name);
        AfterExcludes(a, b[0].name);
      } else {
        LessTotal(a[0].name, b[0].name);
        MergeNames(op, a[1..], b[1..], n);
        NamesKeep(op.KeepsBoth(), a[0], Merge(op, a[1..], b[1..]));
      }
    }
  }

  /** For each of the four operations: in either, in the first alone, in both, in one of them. */
  lemma MergeMeans(a: seq<Child>, b: seq<Child>, n: string)
    requires Ordered(a) && Ordered(b)
    ensures n in Names(Merge(Union, a, b)) <==> n in Names(a) || n in Names(b)
    ensures n in Names(Merge(Difference, a, b)) <==> n in Names(a) && n !in Names(b)
    ensures n in Names(Merge(Intersection, a, b)) <==> n in Names(a) && n in Names(b)
    ensures n in Names(Merge(SymmetricDifference, a, b)) <==> (n in Names(a) <==> n !in Names(b))
  {
    hide Merge;
    MergeNames(Union, a, b, n);
    MergeNames(Difference, a, b, n);
    MergeNames(Intersection, a, b, n);
    MergeNames(SymmetricDifference, a, b, n);
  }

  /** On equal names the left operand supplies the child. */
  lemma {:induction false} MergeSupply(op: SetOp, a: seq<Child>, b: seq<Child>, c: Child)
    requires Ordered(a) && Ordered(b) && c in Merge(op, a, b)
    ensures Supplied(a, b, c)
    decreases |a| + |b|
  {
    if a != [] && b != [] {
      TailAfter(a);
      TailAfter(b);
      if Less(a[0].name, b[0].name) {
        if c in Merge(op, a[1..], b) {
          MergeSupply(op, a[1..], b, c);
          AllAfterWeaken(b[1..], b[0].name, a[0].name);
          AfterExcludes(b, a[0].name);
        }
      } else if Less(b[0].name, a[0].name) {
        AllAfterWeaken(a[1..], a[0].name, b[0].name);
        AfterExcludes(a, b[0].name);
        if c in Merge(op, a, b[1..]) {
          MergeSupply(op, a, b[1..], c);
        }
      } else {
        LessTotal(a[0].name, b[0].name);
        if c in Merge(op, a[1..], b[1..]) {
          MergeSupply(op, a[1..], b[1..], c);
        }
      }
    }
  }

  // ---------------------------------------------------------------------------------------
  // Why the ranges have to be in name order
  // ---------------------------------------------------------------------------------------

  /** The merge takes the names of r out of first. */
  ghost predicate Subtracts(first: seq<Child>, r: seq<Child>) {
    forall n :: n in Names(Merge(Difference, first, r)) <==> n in Names(first) && n !in Names(r)
  }

  lemma {:induction false} FirstDescent(s: seq<Child>) returns (i: nat)
    requires DistinctNames(s) && !Ordered(s)
    ensures i + 1 < |s| && Ordered(s[..i + 1]) && Less(s[i + 1].name, s[i].name)
    decreases |s|
  {
    var m := |s| - 1;
    assert |s| <= 1 ==> Ordered(s);
    if Ordered(s[..m]) {
      i := m - 1;
      LessTotal(s[m - 1].name, s[m].name);
      if Less(s[m - 1].name, s[m].name) {
        OrderedSnoc(s, m);
      }
    } else {
      i := FirstDescent(s[..m]);
      assert s[..m][..i + 1] == s[..i + 1];
    }
  }

  lemma OrderedSnoc(s: seq<Child>, m: nat)
    requires |s| == m + 1 && m >= 1 && Ordered(s[..m]) && Less(s[m - 1].name, s[m].name)
    ensures Ordered(s)
  {
    forall i, j | 0 <= i < j < |s|
      ensures Less(s[i].name, s[j].name)
    {
      if j < m {
        assert s[..m][i] == s[i] && s[..m][j] == s[j];
      } else if i < m - 1 {
        assert s[..m][i] == s[i] && s[..m][m - 1] == s[m - 1];
        LessTransitive(s[i].name, s[m - 1].name, s[m].name);
      }
    }
  }

  /** A name that stands behind a greater one is not taken out. */
  lemma {:induction false} DescentIsKept(a: seq<Child>, d: Child, i: nat)
    requires i + 1 < |a| && DistinctNames(a) && Ordered(a[..i + 1])
    requires a[i + 1].name == d.name && Less(d.name, a[i].name)
    ensures d.name in Names(Merge(Difference, a, [d]))
    decreases i
  {
    LessTotal(a[0].name, d.name);
    assert a[i + 1] in a;
    if Less(a[0].name, d.name) {
      if i == 0 {
        LessTransitive(d.name, a[0].name, d.name);
        LessIrreflexive(d.name);
      } else {
        OrderedInside(a, i);
        DescentIsKept(a[1..], d, i - 1);
        NamesKeep(true, a[0], Merge(Difference, a[1..], [d]));
      }
    } else {
      assert [d][1..] == [] && Merge(Difference, a, []) == a;
      assert Merge(Difference, a, [d]) == KeepIf(false, d) + a;
    }
  }

  lemma OrderedInside(a: seq<Child>, i: nat)
    requires 0 < i && i + 1 < |a| && Ordered(a[..i + 1]) && DistinctNames(a)
    ensures Ordered(a[1..][..i]) && DistinctNames(a[1..])
  {
    forall j, k | 0 <= j < k < i
      ensures Less(a[1..][..i][j].name, a[1..][..i][k].name)
    {
      assert a[..i + 1][j + 1] == a[j + 1] && a[..i + 1][k + 1] == a[k + 1];
    }
  }

  /** A range takes part in differences with every ordered range exactly when it is ordered. */
  lemma DifferenceNeedsOrder(first: seq<Child>)
    requires DistinctNames(first)
    ensures (forall r :: Ordered(r) ==> Subtracts(first, r)) <==> Ordered(first)
  {
    if Ordered(first) {
      forall r, n | Ordered(r)
        ensures n in Names(Merge(Difference, first, r)) <==> n in Names(first) && n !in Names(r)
      {
        MergeNames(Difference, first, r, n);
      }
    } else {
      var i := FirstDescent(first);
      var d := first[i + 1];
      DescentIsKept(first, d, i);
      assert d in [d] && d.name in Names([d]);
      assert Ordered([d]) && !Subtracts(first, [d]);
    }
  }

  /** Where the two cursors stand, one step on. */
  lemma MergeAt(op: SetOp, a: seq<Child>, b: seq<Child>, i: nat, j: nat)
    requires i < |a| && j < |b|
    ensures Merge(op, a[i..], b[j..]) ==
            if Less(a[i].name, b[j].name) then KeepIf(op.KeepsLeft(), a[i]) + Merge(op, a[i + 1..], b[j..])
            else if Less(b[j].name, a[i].name) then KeepIf(op.KeepsRight(), b[j]) + Merge(op, a[i..], b[j + 1..])
            else KeepIf(op.KeepsBoth(), a[i]) + Merge(op, a[i + 1..], b[j + 1..])
  {
    assert a[i..][1..] == a[i + 1..] && b[j..][1..] == b[j + 1..];
  }

  /** The loop of the standard algorithms: two cursors, one output iterator. */
  method MergeRanges(op: SetOp, a: seq<Child>, b: seq<Child>) returns (out: seq<Child>)
    ensures out == Merge(op, a, b)
  {
    out := [];
    var i, j := 0, 0;
    ghost var all := Merge(op, a[0..], b[0..]);
    assert a[0..] == a && b[0..] == b;
    while i < |a| && j < |b|
      invariant 0 <= i <= |a| && 0 <= j <= |b|
      invariant out + Merge(op, a[i..], b[j..]) == all
      decreases |a| - i + |b| - j
    {
      MergeAt(op, a, b, i, j);
      var next: seq<Child>;
      if Less(a[i].name, b[j].name) {
        next := KeepIf(op.KeepsLeft(), a[i]);
        i := i + 1;
      } else if Less(b[j].name, a[i].name) {
        next := KeepIf(op.KeepsRight(), b[j]);
        j := j + 1;
      } else {
        next := KeepIf(op.KeepsBoth(), a[i]);
        i, j := i + 1, j + 1;
      }
      AppendAssoc(out, next, Merge(op, a[i..], b[j..]));
      out := out + next;
    }
    if op.KeepsLeft() {
      out := out + a[i..];
    }
    if op.KeepsRight() {
      out := out + b[j..];
    }
  }
}
