/** The pruned depth-first search of services/solver/cpsat_solver.py, proved to find the
    canonical optimum of every problem with positive, ascending amounts. */
module BranchAndBound {
  import opened Prelude
  import opened InvoiceSelection

  datatype Invoice = Invoice(id: string, tenant: string, amount: int, currency: string, eligibility: string)

  function Amounts(s: seq<Invoice>): (a: seq<int>)
    ensures |a| == |s| && forall i :: 0 <= i < |s| ==> a[i] == s[i].amount
  {
    seq(|s|, i requires 0 <= i < |s| => s[i].amount)
  }

  function Ids(s: seq<Invoice>): (a: seq<string>)
    ensures |a| == |s| && forall i :: 0 <= i < |s| ==> a[i] == s[i].id
  {
    seq(|s|, i requires 0 <= i < |s| => s[i].id)
  }

  function Picked(s: seq<Invoice>, q: Selection): (r: seq<Invoice>)
    requires Within(q, |s|)
    ensures |r| == |q| && forall i :: 0 <= i < |q| ==> r[i] == s[q[i]]
  {
    seq(|q|, i requires 0 <= i < |q| => s[q[i]])
  }

  // ----- the size of the unpruned search tree

  /** Nodes of the unpruned tree over m remaining invoices with room for r more. */
  function TreeSize(m: nat, r: nat): (t: nat)
    ensures t >= 1
  {
    if m == 0 || r == 0 then 1 else TreeSize(m - 1, r) + TreeSize(m - 1, r - 1)
  }

  lemma TreeSizeSplit(m: nat, r: nat)
    requires m > 0 && r > 0
    ensures TreeSize(m, r) == TreeSize(m - 1, r) + TreeSize(m - 1, r - 1)
  {
  }

  function Binomial(n: nat, j: nat): nat {
    if j == 0 then 1 else if n == 0 then 0 else Binomial(n - 1, j) + Binomial(n - 1, j - 1)
  }

  function SumOfBinomials(n: nat, r: nat): nat {
    if r == 0 then Binomial(n, 0) else SumOfBinomials(n, r - 1) + Binomial(n, r)
  }

  lemma {:induction false} PascalSum(n: nat, r: nat)
    requires n > 0 && r > 0
    ensures SumOfBinomials(n, r) == SumOfBinomials(n - 1, r) + SumOfBinomials(n - 1, r - 1)
    decreases r
  {
    if r == 1 {
      assert SumOfBinomials(n, 0) == 1 && SumOfBinomials(n - 1, 0) == 1;
    } else {
      PascalSum(n, r - 1);
    }
  }

  lemma {:induction false} SumOfBinomialsOfNothing(r: nat)
    ensures SumOfBinomials(0, r) == 1
  {
    if r > 0 {
      SumOfBinomialsOfNothing(r - 1);
    }
  }

  lemma {:induction false} TreeSizeIsSumOfBinomials(m: nat, r: nat)
    ensures TreeSize(m, r) == SumOfBinomials(m, r)
    decreases m
  {
    if m == 0 {
      SumOfBinomialsOfNothing(r);
    } else if r > 0 {
      TreeSizeIsSumOfBinomials(m - 1, r);
      TreeSizeIsSumOfBinomials(m - 1, r - 1);
      PascalSum(m, r);
    }
  }

  // ----- the search frontier

  /** The canonical optimum of the feasible selections that precede f in lexicographic order;
      this is what the search has recorded when it is about to visit f. */
  ghost predicate BestBefore(p: Problem, best: Option<Selection>, f: Selection) {
    match best
    case None => forall q: Selection :: Feasible(p, q) ==> !LexLess(q, f)
    case Some(b) =>
      && Feasible(p, b)
      && LexLess(b, f)
      && forall q: Selection :: Feasible(p, q) && LexLess(q, f) ==> NoWorse(p, b, q)
  }

  /** The frontier may skip from f to g when no feasible selection lies in between. */
  lemma SkipInfeasible(p: Problem, best: Option<Selection>, f: Selection, g: Selection)
    requires BestBefore(p, best, f)
    requires forall q: Selection :: Feasible(p, q) ==> (LexLess(q, f) <==> LexLess(q, g))
    ensures BestBefore(p, best, g)
  {
  }

  /** Visiting c: it replaces the recorded best only when strictly better. */
  lemma VisitNode(p: Problem, best: Option<Selection>, c: Selection, idx: nat, best': Option<Selection>)
    requires BestBefore(p, best, c)
    requires Within(c, idx) && Increasing(c) && (idx == 0 || (c != [] && c[|c| - 1] + 1 == idx))
    requires Within(c, |p.amounts|)
    requires best' == if Feasible(p, c) && (best.None? || Objective(p, c) < Objective(p, best.value))
                      then Some(c) else best
    ensures BestBefore(p, best', c + [idx])
  {
    forall q: Selection | Feasible(p, q)
      ensures LexLess(q, c + [idx]) <==> LexLess(q, c) || q == c
    {
      LexFrontier(q, c, idx);
      if c < q && q[|c|] < idx {
        assert c != [] && q[|c| - 1] == c[|c| - 1];
      }
    }
    LexFrontier(c, c, idx);
  }

  /** After the subtree of c + [i], everything before c + [i + 1] has been covered. */
  lemma LeaveChild(p: Problem, best: Option<Selection>, c: Selection, i: nat)
    requires BestBefore(p, best, c + [i] + [|p.amounts|])
    ensures BestBefore(p, best, c + [i + 1])
  {
    forall q: Selection | Feasible(p, q)
      ensures LexLess(q, c + [i] + [|p.amounts|]) <==> LexLess(q, c + [i + 1])
    {
      LexFrontier(q, c + [i], |p.amounts|);
      LexFrontier(q, c, i);
      LexFrontier(q, c, i + 1);
      assert c + [i] <= q <==> c < q && q[|c|] == i;
      assert c + [i] < q ==> q[|c + [i]|] < |p.amounts|;
    }
    SkipInfeasible(p, best, c + [i] + [|p.amounts|], c + [i + 1]);
  }

  /** The three reasons to stop at i: c is full, c already overshoots, or adding the i-th
      amount does. */
  ghost predicate StopsAt(p: Problem, c: Selection, i: nat)
    requires Within(c, |p.amounts|)
  {
    || |c| >= p.maxCount
    || Total(p.amounts, c) > p.payment + p.tolerance
    || (i < |p.amounts| && Total(p.amounts, c) + p.amounts[i] > p.payment + p.tolerance)
    || i == |p.amounts|
  }

  /** Beyond a stopping point nothing is feasible. */
  lemma PrunedIsInfeasible(p: Problem, c: Selection, i: nat, q: Selection)
    requires Positive(p.amounts) && Ascending(p.amounts) && Within(c, |p.amounts|) && StopsAt(p, c, i)
    requires c < q && i <= q[|c|]
    ensures !Feasible(p, q)
  {
    if Within(q, |p.amounts|) && |c| < p.maxCount {
      var d := c + [q[|c|]];
      assert d <= q;
      TotalAppend(p.amounts, c, q[|c|]);
      TotalMonotone(p.amounts, d, q);
      assert p.amounts[i] <= p.amounts[q[|c|]];
    }
  }

  /** So the loop may stop at i, and the frontier jumps past the whole subtree of c. */
  lemma PruneFrom(p: Problem, best: Option<Selection>, c: Selection, i: nat)
    requires Positive(p.amounts) && Ascending(p.amounts) && Within(c, |p.amounts|) && StopsAt(p, c, i)
    requires i <= |p.amounts|
    requires BestBefore(p, best, c + [i])
    ensures BestBefore(p, best, c + [|p.amounts|])
  {
    forall q: Selection | Feasible(p, q)
      ensures LexLess(q, c + [i]) <==> LexLess(q, c + [|p.amounts|])
    {
      LexFrontier(q, c, i);
      LexFrontier(q, c, |p.amounts|);
      if c < q && i <= q[|c|] {
        PrunedIsInfeasible(p, c, i, q);
      }
    }
    SkipInfeasible(p, best, c + [i], c + [|p.amounts|]);
  }

  /** A frontier at [n] has covered every selection. */
  lemma CoveredIsOptimum(p: Problem, best: Option<Selection>)
    requires BestBefore(p, best, [|p.amounts|])
    ensures IsOptimum(p, best)
  {
    forall q: Selection | Feasible(p, q)
      ensures LexLess(q, [|p.amounts|])
    {
    }
  }

  /** The search stands at the subset c of s, with the invoices from idx on still to try. */
  ghost predicate StandsAt(s: seq<Invoice>, maxCount: int, subset: seq<Invoice>, idx: nat, total: int, c: Selection) {
    && idx <= |s|
    && Within(c, idx) && Within(c, |s|) && Increasing(c) && |c| <= Max(0, maxCount)
    && (idx == 0 || (c != [] && c[|c| - 1] + 1 == idx))
    && subset == Picked(s, c)
    && total == Total(Amounts(s), c)
  }

  lemma Push(s: seq<Invoice>, maxCount: int, subset: seq<Invoice>, idx: nat, total: int, c: Selection, i: nat)
    requires StandsAt(s, maxCount, subset, idx, total, c)
    requires idx <= i < |s| && |c| < maxCount
    ensures StandsAt(s, maxCount, subset + [s[i]], i + 1, total + s[i].amount, c + [i])
  {
    TotalAppend(Amounts(s), c, i);
    assert Picked(s, c + [i]) == Picked(s, c) + [s[i]];
  }

  class Searcher {
    const invoices: seq<Invoice>
    const payment: int
    const tolerance: int
    const maxCount: int

    var bestIds: seq<string>
    var bestTotal: int
    var bestDifference: Option<int>  // None stands for infinity
    var bestObjective: Option<int>
    var subset: seq<Invoice>
    ghost var best: Option<Selection>
    ghost var calls: nat

    ghost function Problem(): Problem {
      InvoiceSelection.Problem(Amounts(invoices), payment, tolerance, maxCount)
    }

    /** The recorded ids, total, difference and objective are those of one selection. */
    ghost predicate Valid()
      reads this
    {
      && Ascending(Amounts(invoices))
      && Positive(Amounts(invoices))
      && match best
         case None => bestIds == [] && bestTotal == 0 && bestDifference == None && bestObjective == None
         case Some(b) =>
           && Within(b, |invoices|)
           && bestIds == Ids(Picked(invoices, b))
           && bestTotal == Total(Amounts(invoices), b)
           && bestDifference == Some(Difference(Problem(), b))
           && bestObjective == Some(Objective(Problem(), b))
    }

    constructor (sorted: seq<Invoice>, payment: int, tolerance: int, maxCount: int)
      requires Ascending(Amounts(sorted)) && Positive(Amounts(sorted))
      ensures invoices == sorted && this.payment == payment && this.tolerance == tolerance && this.maxCount == maxCount
      ensures Valid() && best == None && subset == [] && calls == 0
    {
      invoices, this.payment, this.tolerance, this.maxCount := sorted, payment, tolerance, maxCount;
      bestIds, bestTotal, bestDifference, bestObjective := [], 0, None, None;
      subset, best, calls := [], None, 0;
    }

    /** Record the current subset c when it is feasible and strictly better. */
    method Evaluate(total: int, idx: nat, ghost c: Selection)
      requires Valid()
      requires StandsAt(invoices, maxCount, subset, idx, total, c)
      requires BestBefore(Problem(), best, c)
      modifies this
      ensures Valid() && subset == old(subset) && calls == old(calls)
      ensures BestBefore(Problem(), best, c + [idx])
    {
      hide BestBefore, Amounts, Picked, Ids;
      ghost var before := best;
      if subset != [] {
        var diff := Abs(total - payment);
        if diff <= tolerance {
          var obj := diff * 1000 + |subset|;
          if bestObjective.None? || obj < bestObjective.value {
            bestObjective := Some(obj);
            bestDifference := Some(diff);
            bestTotal := total;
            bestIds := Ids(subset);
            best := Some(c);
          }
        }
      }
      VisitNode(Problem(), before, c, idx, best);
    }

    /** One call of the recursive search.  It covers the whole subtree of c, gives the shared
        list back unchanged, never enters a subset over the limit, and makes no more calls
        than the unpruned tree has nodes. */
    method Search(idx: nat, total: int, ghost c: Selection)
      requires Valid() && StandsAt(invoices, maxCount, subset, idx, total, c)
      requires c != [] ==> total <= payment + tolerance
      requires BestBefore(Problem(), best, c)
      modifies this
      ensures Valid() && subset == old(subset)
      ensures BestBefore(Problem(), best, c + [|invoices|])
      ensures calls <= old(calls) + TreeSize(|invoices| - idx, Max(0, maxCount) - |c|)
      decreases |invoices| - idx, 1
    {
      hide BestBefore, Amounts, Picked, Ids, Objective, Difference, Increasing, Ascending, Positive, TreeSize;
      calls := calls + 1;
      Evaluate(total, idx, c);
      if |subset| >= maxCount || total > payment + tolerance {
        PruneFrom(Problem(), best, c, idx);
        return;
      }
      ghost var room := maxCount - |c|;
      var i := idx;
      while i < |invoices|
        invariant idx <= i <= |invoices|
        invariant Valid() && subset == old(subset)
        invariant BestBefore(Problem(), best, c + [i])
        invariant calls + TreeSize(|invoices| - i, room) <= old(calls) + 1 + TreeSize(|invoices| - idx, room)
      {
        if total + invoices[i].amount > payment + tolerance {
          break;
        }
        TreeSizeSplit(|invoices| - i, room);
        Descend(idx, i, total, c);
        i := i + 1;
      }
      PruneFrom(Problem(), best, c, i);
    }

    /** The loop body of the search: push the i-th invoice, search below it, pop it. */
    method Descend(ghost idx: nat, i: nat, total: int, ghost c: Selection)
      requires idx <= i < |invoices| && |c| < maxCount
      requires Valid() && StandsAt(invoices, maxCount, subset, idx, total, c)
      requires total + invoices[i].amount <= payment + tolerance
      requires BestBefore(Problem(), best, c + [i])
      modifies this
      ensures Valid() && subset == old(subset)
      ensures BestBefore(Problem(), best, c + [i + 1])
      ensures calls <= old(calls) + TreeSize(|invoices| - (i + 1), maxCount - |c| - 1)
      decreases |invoices| - i, 0
    {
      hide BestBefore, Amounts, Picked, Ids;
      Push(invoices, maxCount, subset, idx, total, c, i);
      subset := subset + [invoices[i]];
      Search(i + 1, total + invoices[i].amount, c + [i]);
      subset := subset[..|subset| - 1];
      LeaveChild(Problem(), best, c, i);
    }

    /** The whole search, from the empty subset. */
    method Run()
      requires Valid() && best == None && subset == [] && calls == 0
      modifies this
      ensures Valid() && subset == []
      ensures IsOptimum(Problem(), best)
      ensures calls <= SumOfBinomials(|invoices|, Max(0, maxCount))
    {
      Search(0, 0, []);
      assert [] + [|invoices|] == [|invoices|];
      CoveredIsOptimum(Problem(), best);
      TreeSizeIsSumOfBinomials(|invoices|, Max(0, maxCount));
    }
  }
}
