/** The invoice-matching problem, stated without reference to any search: which subsets of a
    list of amounts settle a payment, and which of them is the canonical optimum.  A subset is
    a strictly increasing sequence of positions, so invoices with equal ids or equal amounts
    stay distinct. */
module InvoiceSelection {
  import opened Prelude

  type Selection = seq<nat>

  datatype Problem = Problem(amounts: seq<int>, payment: int, tolerance: int, maxCount: int)

  ghost predicate Increasing(q: Selection) {
    forall i, j :: 0 <= i < j < |q| ==> q[i] < q[j]
  }

  predicate Within(q: Selection, n: nat) {
    forall i :: 0 <= i < |q| ==> q[i] < n
  }

  predicate Ascending(a: seq<int>) {
    forall i, j :: 0 <= i < j < |a| ==> a[i] <= a[j]
  }

  predicate Positive(a: seq<int>) {
    forall i :: 0 <= i < |a| ==> a[i] > 0
  }

  function Total(a: seq<int>, q: Selection): int
    requires Within(q, |a|)
  {
    if q == [] then 0 else Total(a, q[..|q| - 1]) + a[q[|q| - 1]]
  }

  function Difference(p: Problem, q: Selection): nat
    requires Within(q, |p.amounts|)
  {
    Abs(Total(p.amounts, q) - p.payment)
  }

  function Objective(p: Problem, q: Selection): nat
    requires Within(q, |p.amounts|)
  {
    Difference(p, q) * 1000 + |q|
  }

  /** A selection that meets every constraint of the problem. */
  ghost predicate Feasible(p: Problem, q: Selection) {
    && Within(q, |p.amounts|)
    && Increasing(q)
    && 1 <= |q| <= p.maxCount
    && Difference(p, q) <= p.tolerance
  }

  /** Lexicographic order on position sequences, a prefix coming before its extensions. */
  predicate LexLess(a: Selection, b: Selection) {
    b != [] && (a == [] || a[0] < b[0] || (a[0] == b[0] && LexLess(a[1..], b[1..])))
  }

  ghost predicate NoWorse(p: Problem, a: Selection, b: Selection)
    requires Within(a, |p.amounts|) && Within(b, |p.amounts|)
  {
    || Objective(p, a) < Objective(p, b)
    || (Objective(p, a) == Objective(p, b) && (a == b || LexLess(a, b)))
  }

  /** The canonical answer: least objective, then first in lexicographic order; None exactly
      when nothing is feasible. */
  ghost predicate IsOptimum(p: Problem, best: Option<Selection>) {
    match best
    case None => forall q: Selection :: !Feasible(p, q)
    case Some(b) =>
      && Feasible(p, b)
      && forall q: Selection :: Feasible(p, q) ==> NoWorse(p, b, q)
  }

  // ----- the lexicographic order

  lemma {:induction false} LexIrreflexive(a: Selection)
    ensures !LexLess(a, a)
  {
    if a != [] {
      LexIrreflexive(a[1..]);
    }
  }

  lemma {:induction false} LexTransitive(a: Selection, b: Selection, c: Selection)
    requires LexLess(a, b) && LexLess(b, c)
    ensures LexLess(a, c)
  {
    if a != [] && a[0] == b[0] == c[0] {
      LexTransitive(a[1..], b[1..], c[1..]);
    }
  }

  lemma {:induction false} LexTotal(a: Selection, b: Selection)
    ensures a == b || LexLess(a, b) || LexLess(b, a)
  {
    if a != [] && b != [] && a[0] == b[0] {
      LexTotal(a[1..], b[1..]);
      assert a == [a[0]] + a[1..] && b == [b[0]] + b[1..];
    }
  }

  /** What precedes c + [i]: everything before c, c itself, and the extensions of c that
      continue with a position below i. */
  lemma {:induction false} LexFrontier(q: Selection, c: Selection, i: nat)
    ensures LexLess(q, c + [i]) <==> LexLess(q, c) || q == c || (c < q && q[|c|] < i)
    decreases |c|
  {
    if c == [] {
      assert c + [i] == [i];
      assert !LexLess(q[if q == [] then 0 else 1..], []);
    } else if q != [] && q[0] == c[0] {
      LexFrontier(q[1..], c[1..], i);
      assert (c + [i])[1..] == c[1..] + [i];
      assert q == [q[0]] + q[1..] && c == [c[0]] + c[1..];
      assert c < q <==> c[1..] < q[1..];
    } else {
      assert (c + [i])[0] == c[0];
    }
  }

  // ----- totals

  lemma TotalAppend(a: seq<int>, q: Selection, i: nat)
    requires Within(q, |a|) && i < |a|
    ensures Total(a, q + [i]) == Total(a, q) + a[i]
  {
    assert (q + [i])[..|q|] == q;
  }

  lemma {:induction false} TotalMonotone(a: seq<int>, c: Selection, q: Selection)
    requires Positive(a) && Within(q, |a|) && c <= q
    ensures Total(a, c) <= Total(a, q)
    decreases |q|
  {
    if c != q {
      TotalMonotone(a, c, q[..|q| - 1]);
    } else {
      assert c == q;
    }
  }

  // ----- the canonical optimum exists and is unique

  lemma OptimumUnique(p: Problem, x: Option<Selection>, y: Option<Selection>)
    requires IsOptimum(p, x) && IsOptimum(p, y)
    ensures x == y
  {
    if x.Some? && y.Some? {
      assert NoWorse(p, x.value, y.value) && NoWorse(p, y.value, x.value);
      if x.value != y.value {
        LexTransitive(x.value, y.value, x.value);
        LexIrreflexive(x.value);
      }
    }
  }

  /** The better of two candidates. */
  function Better(p: Problem, x: Option<Selection>, y: Option<Selection>): Option<Selection>
    requires x.Some? ==> Within(x.value, |p.amounts|)
    requires y.Some? ==> Within(y.value, |p.amounts|)
  {
    if x.None? then y
    else if y.None? then x
    else
      var ox, oy := Objective(p, x.value), Objective(p, y.value);
      if oy < ox || (oy == ox && LexLess(y.value, x.value)) then y else x
  }

  /** Reference answer: enumerate, without pruning, every way of adding positions from i on
      to the selection c, and keep the best. */
  function BestExtension(p: Problem, c: Selection, i: nat): (r: Option<Selection>)
    requires Within(c, |p.amounts|) && i <= |p.amounts|
    ensures r.Some? ==> Within(r.value, |p.amounts|)
    decreases |p.amounts| - i
  {
    if i == |p.amounts| then
      if 1 <= |c| <= p.maxCount && Difference(p, c) <= p.tolerance then Some(c) else None
    else
      Better(p, BestExtension(p, c + [i], i + 1), BestExtension(p, c, i + 1))
  }

  function BruteForce(p: Problem): Option<Selection> {
    BestExtension(p, [], 0)
  }

  ghost predicate Extends(q: Selection, c: Selection, i: nat) {
    c <= q && (|c| < |q| ==> i <= q[|c|])
  }

  ghost predicate BestAmongExtensions(p: Problem, best: Option<Selection>, c: Selection, i: nat) {
    match best
    case None => forall q: Selection :: Extends(q, c, i) ==> !Feasible(p, q)
    case Some(b) =>
      && Feasible(p, b)
      && Extends(b, c, i)
      && forall q: Selection :: Feasible(p, q) && Extends(q, c, i) ==> NoWorse(p, b, q)
  }

  lemma NoWorseTransitive(p: Problem, a: Selection, b: Selection, c: Selection)
    requires Within(a, |p.amounts|) && Within(b, |p.amounts|) && Within(c, |p.amounts|)
    requires NoWorse(p, a, b) && NoWorse(p, b, c)
    ensures NoWorse(p, a, c)
  {
    if LexLess(a, b) && LexLess(b, c) {
      LexTransitive(a, b, c);
    }
  }

  lemma BetterIsBest(p: Problem, x: Option<Selection>, y: Option<Selection>, c: Selection, i: nat)
    requires Within(c, |p.amounts|) && i < |p.amounts|
    requires BestAmongExtensions(p, x, c + [i], i + 1)
    requires BestAmongExtensions(p, y, c, i + 1)
    ensures BestAmongExtensions(p, Better(p, x, y), c, i)
  {
    forall q: Selection | Feasible(p, q) && Extends(q, c, i)
      ensures Extends(q, c + [i], i + 1) || Extends(q, c, i + 1)
    {
      if |q| > |c| && q[|c|] == i {
        assert c + [i] <= q;
      }
    }
    if x.Some? && y.Some? {
      LexTotal(x.value, y.value);
      var b := Better(p, x, y).value;
      forall q: Selection | Feasible(p, q) && Extends(q, c, i)
        ensures NoWorse(p, b, q)
      {
        if Extends(q, c + [i], i + 1) {
          NoWorseTransitive(p, b, x.value, q);
        } else {
          NoWorseTransitive(p, b, y.value, q);
        }
      }
    }
  }

  lemma {:induction false} BestExtensionIsBest(p: Problem, c: Selection, i: nat)
    requires Within(c, i) && Increasing(c) && i <= |p.amounts|
    ensures BestAmongExtensions(p, BestExtension(p, c, i), c, i)
    decreases |p.amounts| - i
  {
    if i == |p.amounts| {
      forall q: Selection | Feasible(p, q) && Extends(q, c, i)
        ensures q == c
      {
      }
      assert BestExtension(p, c, i).Some? ==> Feasible(p, c);
    } else {
      BestExtensionIsBest(p, c + [i], i + 1);
      BestExtensionIsBest(p, c, i + 1);
      BetterIsBest(p, BestExtension(p, c + [i], i + 1), BestExtension(p, c, i + 1), c, i);
    }
  }

  /** The reference enumeration finds the canonical optimum of every problem. */
  lemma BruteForceIsOptimum(p: Problem)
    ensures IsOptimum(p, BruteForce(p))
  {
    BestExtensionIsBest(p, [], 0);
    forall q: Selection
      ensures Extends(q, [], 0)
    {
    }
  }

  // ----- what the weighted objective means

  /** With at most 1000 invoices the weight makes the objective lexicographic: the optimum has
      the least difference of all selections, tolerated or not, and the fewest invoices among those. */
  lemma DifferenceTakesPriority(p: Problem, b: Selection, q: Selection)
    requires p.maxCount <= 1000
    requires IsOptimum(p, Some(b))
    requires Within(q, |p.amounts|) && Increasing(q) && 1 <= |q| <= p.maxCount
    ensures Difference(p, b) <= Difference(p, q)
    ensures Difference(p, b) == Difference(p, q) ==> |b| <= |q|
  {
    if Difference(p, q) <= p.tolerance {
      assert Feasible(p, q);
      assert NoWorse(p, b, q);
    }
  }

  /** Widening the tolerance never changes a match that was already found. */
  lemma ToleranceStable(p: Problem, wider: int, b: Selection)
    requires p.maxCount <= 1000 && p.tolerance <= wider
    requires IsOptimum(p, Some(b))
    ensures IsOptimum(p.(tolerance := wider), Some(b))
  {
    var p' := p.(tolerance := wider);
    forall q: Selection | Feasible(p', q)
      ensures NoWorse(p', b, q)
    {
      DifferenceTakesPriority(p, b, q);
      if Difference(p, q) <= p.tolerance {
        assert Feasible(p, q) && NoWorse(p, b, q);
      }
    }
  }
}
