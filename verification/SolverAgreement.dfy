/** The CP-SAT formulation against the search, and what every caller of the matcher may rely on. */
module SolverAgreement {
  import opened Prelude
  import opened InvoiceSelection
  import opened SubsetSums
  import opened BranchAndBound
  import opened InvoiceMatcher

  // ----- the constraint model handed to OR-Tools, over the input order

  function SumOf(a: seq<int>): int {
    if a == [] then 0 else SumOf(a[..|a| - 1]) + a[|a| - 1]
  }

  /** Upper end of the domain declared for the difference variable. */
  function DifferenceDomain(payment: int): int {
    Max(payment, 1000000)
  }

  ghost predicate CpFeasible(p: Problem, x: seq<bool>, total: int, diff: int) {
    && |x| == |p.amounts|
    && MaskCount(x) <= p.maxCount
    && MaskCount(x) >= 1
    && 0 <= total <= SumOf(p.amounts)
    && total == MaskTotal(p.amounts, x)
    && 0 <= diff <= DifferenceDomain(p.payment)
    && diff == Abs(total - p.payment)
    && diff <= p.tolerance
  }

  /** OPTIMAL and FEASIBLE come with a solution, INFEASIBLE and a timeout without one. */
  datatype CpAnswer =
    | CpSolution(x: seq<bool>, total: int, diff: int, optimal: bool)
    | CpNothing(proved: bool)

  /** What CP-SAT vouches for: a solution is feasible, an OPTIMAL one also has the least
      objective, and INFEASIBLE means that there is no solution. */
  ghost predicate CorrectAnswer(p: Problem, a: CpAnswer) {
    match a
    case CpNothing(proved) => proved ==> forall x, total, diff :: !CpFeasible(p, x, total, diff)
    case CpSolution(x, total, diff, optimal) =>
      && CpFeasible(p, x, total, diff)
      && (optimal ==> forall x', total', diff' :: CpFeasible(p, x', total', diff')
                        ==> diff * 1000 + MaskCount(x) <= diff' * 1000 + MaskCount(x'))
  }

  /** OPTIMAL or INFEASIBLE. */
  predicate Definite(a: CpAnswer) {
    match a
    case CpNothing(proved) => proved
    case CpSolution(_, _, _, optimal) => optimal
  }

  /** Invoices whose variable is set, in input order. */
  function Masked(s: seq<Invoice>, x: seq<bool>): (r: seq<Invoice>)
    requires |x| == |s|
    ensures |r| == MaskCount(x)
    decreases |s|
  {
    if s == [] then []
    else Masked(s[..|s| - 1], x[..|x| - 1]) + if x[|x| - 1] then [s[|s| - 1]] else []
  }

  function InputProblem(invoices: seq<Invoice>, payment: int, tolerance: int, maxCount: int): Problem {
    Problem(Amounts(invoices), payment, tolerance, maxCount)
  }

  /** The wrapper with OR-Tools installed, given the solver's answer. */
  function WithOrTools(invoices: seq<Invoice>, payment: int, tolerance: int, allowPartial: bool, maxCount: int,
                       a: CpAnswer): MatchResult
    requires a.CpSolution? ==> |a.x| == |invoices|
  {
    if invoices == [] then NoMatch(payment)
    else if WithAmount(invoices, payment) != [] then ExactResult(WithAmount(invoices, payment)[0])
    else match a
      case CpSolution(x, total, diff, optimal) =>
        var ids := Ids(Masked(invoices, x));
        MatchResult(MatchStatusFor(diff, |ids|), if optimal then OptimalStatus else FeasibleStatus,
                    ids, total, diff, diff * 1000 + MaskCount(x))
      case CpNothing(_) => Unmatched(StableSort(invoices), payment, allowPartial)
  }

  /** Same status, difference, objective and number of invoices; identical when nothing matched. */
  predicate Agree(r: MatchResult, s: MatchResult) {
    && r.status == s.status
    && r.solverStatus == s.solverStatus
    && r.difference == s.difference
    && r.objective == s.objective
    && |r.ids| == |s.ids|
    && (r.status in {PartialPayment, NoFeasibleMatch} ==> r == s)
  }

  // ----- the two constraint sets

  lemma {:induction false} MaskTotalBounded(a: seq<int>, x: seq<bool>)
    requires Positive(a) && |x| == |a|
    ensures 0 <= MaskTotal(a, x) <= SumOf(a)
    decreases |a|
  {
    if a != [] {
      MaskTotalBounded(a[..|a| - 1], x[..|x| - 1]);
    }
  }

  /** The (sum, count) pairs that meet the problem, independent of how a subset is written. */
  ghost predicate Settles(p: Problem, sum: int, count: int) {
    CanPick(p.amounts, sum, count) && 1 <= count <= p.maxCount && Abs(sum - p.payment) <= p.tolerance
  }

  lemma SettlesSorted(invoices: seq<Invoice>, payment: int, tolerance: int, maxCount: int, sum: int, count: int)
    ensures Settles(SortedProblem(invoices, payment, tolerance, maxCount), sum, count)
            <==> Settles(InputProblem(invoices, payment, tolerance, maxCount), sum, count)
  {
    SortKeepsAmounts(invoices);
    PickIgnoresOrder(Amounts(StableSort(invoices)), Amounts(invoices), sum, count);
  }

  lemma CpFeasibleSettles(p: Problem, x: seq<bool>, total: int, diff: int)
    requires CpFeasible(p, x, total, diff)
    ensures Settles(p, total, MaskCount(x))
  {
    MaskPicks(p.amounts, x);
  }

  lemma SettlesCpFeasible(p: Problem, sum: int, count: int) returns (x: seq<bool>)
    requires Positive(p.amounts)
    requires Settles(p, sum, count) && Abs(sum - p.payment) <= DifferenceDomain(p.payment)
    ensures CpFeasible(p, x, sum, Abs(sum - p.payment)) && MaskCount(x) == count
  {
    x := PickIsMask(p.amounts, sum, count);
    MaskTotalBounded(p.amounts, x);
  }

  lemma FeasibleSettles(p: Problem, q: Selection)
    requires Feasible(p, q)
    ensures Settles(p, Total(p.amounts, q), |q|)
  {
    SelectionPicks(p.amounts, q);
  }

  lemma SettlesFeasible(p: Problem, sum: int, count: int) returns (q: Selection)
    requires Settles(p, sum, count)
    ensures Feasible(p, q) && Total(p.amounts, q) == sum && |q| == count
  {
    q := PickIsSelection(p.amounts, sum, count);
  }

  /** The fallback answers the optimisation problem posed by the unsorted input: it reports a
      match exactly when some subset settles the payment, and its difference and objective
      belong to a subset that no other subset beats. */
  lemma FallbackIsExact(invoices: seq<Invoice>, payment: int, tolerance: int, allowPartial: bool, maxCount: int)
    ensures var p := InputProblem(invoices, payment, tolerance, maxCount);
            var r := Fallback(invoices, payment, tolerance, allowPartial, maxCount);
            && (r.solverStatus == OptimalStatus <==> exists sum, count :: Settles(p, sum, count))
            && (r.solverStatus == OptimalStatus ==>
                  && Settles(p, r.total, |r.ids|)
                  && r.difference == Abs(r.total - payment)
                  && r.objective == r.difference * 1000 + |r.ids|
                  && forall sum, count :: Settles(p, sum, count) ==> r.objective <= Abs(sum - payment) * 1000 + count)
  {
    var p := InputProblem(invoices, payment, tolerance, maxCount);
    var s := SortedProblem(invoices, payment, tolerance, maxCount);
    BruteForceIsOptimum(s);
    forall sum, count | Settles(p, sum, count)
      ensures BruteForce(s).Some? && Objective(s, BruteForce(s).value) <= Abs(sum - payment) * 1000 + count
    {
      SettlesSorted(invoices, payment, tolerance, maxCount, sum, count);
      var q := SettlesFeasible(s, sum, count);
      assert Feasible(s, q);
    }
    if BruteForce(s).Some? {
      var q := BruteForce(s).value;
      FeasibleSettles(s, q);
      SettlesSorted(invoices, payment, tolerance, maxCount, Total(s.amounts, q), |q|);
    }
  }

  /** The ids of a match are those of the canonical optimum, whichever way it was found. */
  lemma FallbackReportsOptimum(invoices: seq<Invoice>, payment: int, tolerance: int, allowPartial: bool, maxCount: int,
                               b: Selection)
    requires IsOptimum(Problem(Amounts(StableSort(invoices)), payment, tolerance, maxCount), Some(b))
    ensures var r := Fallback(invoices, payment, tolerance, allowPartial, maxCount);
            IsMatch(r.status) && Reports(StableSort(invoices), b, r)
  {
    var p := SortedProblem(invoices, payment, tolerance, maxCount);
    BruteForceIsOptimum(p);
    OptimumUnique(p, BruteForce(p), Some(b));
  }

  lemma FallbackShape(invoices: seq<Invoice>, payment: int, tolerance: int, allowPartial: bool, maxCount: int)
    ensures var r := Fallback(invoices, payment, tolerance, allowPartial, maxCount);
            if r.solverStatus == OptimalStatus then r.status == MatchStatusFor(r.difference, |r.ids|)
            else r == Unmatched(StableSort(invoices), payment, allowPartial)
  {
  }

  /** The weighted objective determines difference and count. */
  lemma ObjectiveDetermines(d: int, c: int, d': int, c': int)
    requires 1 <= c <= 1000 && 1 <= c' <= 1000 && d * 1000 + c == d' * 1000 + c'
    ensures d == d' && c == c'
  {
  }

  lemma AgreementWithoutFastPath(invoices: seq<Invoice>, payment: int, tolerance: int,
                                 allowPartial: bool, maxCount: int, a: CpAnswer)
    requires Positive(Amounts(invoices)) && tolerance <= DifferenceDomain(payment) && maxCount <= 1000
    requires CorrectAnswer(InputProblem(invoices, payment, tolerance, maxCount), a) && Definite(a)
    requires WithAmount(invoices, payment) == [] && invoices != []
    ensures Agree(WithOrTools(invoices, payment, tolerance, allowPartial, maxCount, a),
                  Fallback(invoices, payment, tolerance, allowPartial, maxCount))
  {
    var p := InputProblem(invoices, payment, tolerance, maxCount);
    var r := Fallback(invoices, payment, tolerance, allowPartial, maxCount);
    FallbackIsExact(invoices, payment, tolerance, allowPartial, maxCount);
    FallbackShape(invoices, payment, tolerance, allowPartial, maxCount);
    if r.solverStatus == OptimalStatus {
      var x := SettlesCpFeasible(p, r.total, |r.ids|);
      assert a.CpSolution?;
    }
    if a.CpSolution? {
      CpFeasibleSettles(p, a.x, a.total, a.diff);
      assert r.solverStatus == OptimalStatus;
      ObjectiveDetermines(r.difference, |r.ids|, a.diff, MaskCount(a.x));
    }
  }

  /** Within the declared domain of the difference variable the two formulations agree. */
  lemma FormulationsAgree(invoices: seq<Invoice>, payment: int, tolerance: int, allowPartial: bool, maxCount: int,
                          a: CpAnswer)
    requires Positive(Amounts(invoices)) && 0 <= tolerance <= DifferenceDomain(payment) && 1 <= maxCount <= 1000
    requires CorrectAnswer(InputProblem(invoices, payment, tolerance, maxCount), a) && Definite(a)
    ensures Agree(WithOrTools(invoices, payment, tolerance, allowPartial, maxCount, a),
                  Fallback(invoices, payment, tolerance, allowPartial, maxCount))
  {
    if WithAmount(invoices, payment) == [] && invoices != [] {
      AgreementWithoutFastPath(invoices, payment, tolerance, allowPartial, maxCount, a);
    } else {
      FastPathRefines(invoices, payment, tolerance, allowPartial, maxCount);
    }
  }

  ghost predicate AlwaysAgree(payment: int, tolerance: int, allowPartial: bool, maxCount: int) {
    forall invoices, a | Positive(Amounts(invoices)) && Definite(a)
                         && CorrectAnswer(InputProblem(invoices, payment, tolerance, maxCount), a) ::
      Agree(WithOrTools(invoices, payment, tolerance, allowPartial, maxCount, a),
            Fallback(invoices, payment, tolerance, allowPartial, maxCount))
  }

  lemma PickFromOne(amount: int, sum: int, count: int)
    ensures CanPick([amount], sum, count) <==> (sum == 0 && count == 0) || (sum == amount && count == 1)
  {
    assert [amount][..0] == [];
  }

  /** One invoice, otherwise like any given one, whose difference is tolerated but lies outside
      the variable's domain. */
  lemma OversizedTolerance(like: Invoice, payment: int, tolerance: int, allowPartial: bool, maxCount: int)
    returns (invoices: seq<Invoice>)
    requires payment > 0 && maxCount >= 1 && tolerance > DifferenceDomain(payment)
    ensures invoices == [like.(amount := payment + DifferenceDomain(payment) + 1)]
    ensures Positive(Amounts(invoices))
    ensures CorrectAnswer(InputProblem(invoices, payment, tolerance, maxCount), CpNothing(true))
    ensures !Agree(WithOrTools(invoices, payment, tolerance, allowPartial, maxCount, CpNothing(true)),
                   Fallback(invoices, payment, tolerance, allowPartial, maxCount))
  {
    var amount := payment + DifferenceDomain(payment) + 1;
    invoices := [like.(amount := amount)];
    var p := InputProblem(invoices, payment, tolerance, maxCount);
    assert p.amounts == [amount] && p.amounts[..0] == [];
    forall x, total, diff
      ensures !CpFeasible(p, x, total, diff)
    {
      if CpFeasible(p, x, total, diff) {
        CpFeasibleSettles(p, x, total, diff);
        PickFromOne(amount, total, MaskCount(x));
      }
    }
    PickFromOne(amount, amount, 1);
    assert Settles(p, amount, 1);
    FallbackIsExact(invoices, payment, tolerance, allowPartial, maxCount);
    assert Fallback(invoices, payment, tolerance, allowPartial, maxCount).solverStatus == OptimalStatus;
    FastPathIffAmountPresent(invoices, payment);
  }

  /** The domain bound is exact: the formulations agree on all inputs if and only if the
      tolerance fits in the difference variable's domain. */
  lemma AgreementIffToleranceFits(payment: int, tolerance: int, allowPartial: bool, maxCount: int)
    requires payment > 0 && tolerance >= 0 && 1 <= maxCount <= 1000
    ensures AlwaysAgree(payment, tolerance, allowPartial, maxCount) <==> tolerance <= Max(payment, 1000000)
  {
    if tolerance <= DifferenceDomain(payment) {
      forall invoices, a | Positive(Amounts(invoices)) && Definite(a)
                         && CorrectAnswer(InputProblem(invoices, payment, tolerance, maxCount), a)
        ensures Agree(WithOrTools(invoices, payment, tolerance, allowPartial, maxCount, a),
                      Fallback(invoices, payment, tolerance, allowPartial, maxCount))
      {
        FormulationsAgree(invoices, payment, tolerance, allowPartial, maxCount, a);
      }
    } else {
      var like := Invoice("", "", 1, "", "");
      var invoices := OversizedTolerance(like, payment, tolerance, allowPartial, maxCount);
    }
  }

  // ----- what callers may rely on

  lemma {:induction false} FirstAboveByAmounts(s: seq<Invoice>, t: seq<Invoice>, payment: int)
    requires Amounts(s) == Amounts(t)
    ensures FirstAbove(s, payment) == FirstAbove(t, payment)
    decreases |s|
  {
    assert |s| == |t|;
    if s != [] {
      assert s[0].amount == Amounts(s)[0] == t[0].amount;
      assert Amounts(s[1..]) == Amounts(s)[1..] == Amounts(t)[1..] == Amounts(t[1..]);
      FirstAboveByAmounts(s[1..], t[1..], payment);
    }
  }

  /** Apart from the ids, the answer depends only on the multiset of amounts. */
  lemma OrderIndependent(s: seq<Invoice>, t: seq<Invoice>,
                         payment: int, tolerance: int, allowPartial: bool, maxCount: int)
    requires multiset(Amounts(s)) == multiset(Amounts(t))
    ensures var x := Fallback(s, payment, tolerance, allowPartial, maxCount);
            var y := Fallback(t, payment, tolerance, allowPartial, maxCount);
            x.(ids := []) == y.(ids := []) && |x.ids| == |y.ids|
  {
    SortKeepsAmounts(s);
    SortKeepsAmounts(t);
    SortAscends(s);
    SortAscends(t);
    AscendingUnique(Amounts(StableSort(s)), Amounts(StableSort(t)));
    FirstAboveByAmounts(StableSort(s), StableSort(t), payment);
    var i := FirstAbove(StableSort(s), payment);
    if i < |s| {
      assert Amounts(StableSort(s))[i] == Amounts(StableSort(t))[i];
    }
  }

  /** A match found at some tolerance is returned unchanged at every wider one. */
  lemma ToleranceNeverChangesAMatch(invoices: seq<Invoice>,
                                    payment: int, tolerance: int, wider: int, allowPartial: bool, maxCount: int)
    requires maxCount <= 1000 && tolerance <= wider
    requires Fallback(invoices, payment, tolerance, allowPartial, maxCount).solverStatus == OptimalStatus
    ensures Fallback(invoices, payment, wider, allowPartial, maxCount)
            == Fallback(invoices, payment, tolerance, allowPartial, maxCount)
  {
    var p := SortedProblem(invoices, payment, tolerance, maxCount);
    var p' := SortedProblem(invoices, payment, wider, maxCount);
    BruteForceIsOptimum(p);
    BruteForceIsOptimum(p');
    ToleranceStable(p, wider, BruteForce(p).value);
    OptimumUnique(p', BruteForce(p'), BruteForce(p));
  }

  lemma SumOfAppend(s: seq<Invoice>, inv: Invoice)
    ensures SumOf(Amounts(s + [inv])) == SumOf(Amounts(s)) + inv.amount
  {
    assert Amounts(s + [inv]) == Amounts(s) + [inv.amount];
    assert (Amounts(s) + [inv.amount])[..|s|] == Amounts(s);
  }

  lemma {:induction false} PickedTotal(s: seq<Invoice>, q: Selection)
    requires Within(q, |s|)
    ensures SumOf(Amounts(Picked(s, q))) == Total(Amounts(s), q)
    decreases |q|
  {
    if q != [] {
      var n := |q| - 1;
      PickedTotal(s, q[..n]);
      SumOfAppend(Picked(s, q[..n]), s[q[n]]);
      assert Picked(s, q) == Picked(s, q[..n]) + [s[q[n]]];
    }
  }

  lemma {:induction false} PickedFromInvoices(s: seq<Invoice>, q: Selection)
    requires Within(q, |s|) && Increasing(q)
    ensures multiset(Picked(s, q)) <= multiset(s)
    decreases |q|
  {
    if q != [] {
      var n := |q| - 1;
      var j, r := q[n], q[..n];
      PickedFromInvoices(s[..j], r);
      assert Picked(s, q) == Picked(s[..j], r) + [s[j]];
      assert s == s[..j] + [s[j]] + s[j + 1..];
    }
  }

  /** The result names invoices of the input, each used at most once, that add up to its total. */
  ghost predicate NamesInvoices(invoices: seq<Invoice>, r: MatchResult) {
    exists chosen: seq<Invoice> ::
      multiset(chosen) <= multiset(invoices) && r.ids == Ids(chosen) && r.total == SumOf(Amounts(chosen))
  }

  lemma MatchedNames(s: seq<Invoice>, p: Problem, q: Selection)
    requires p.amounts == Amounts(s) && Within(q, |s|) && Increasing(q)
    ensures NamesInvoices(s, Matched(s, p, q))
  {
    PickedFromInvoices(s, q);
    PickedTotal(s, q);
  }

  lemma OneNames(s: seq<Invoice>, i: nat, r: MatchResult)
    requires i < |s| && r.ids == [s[i].id] && r.total == s[i].amount
    ensures NamesInvoices(s, r)
  {
    var chosen := [s[i]];
    SumOfAppend([], s[i]);
    assert [] + chosen == chosen;
    assert r.ids == Ids(chosen);
  }

  lemma UnmatchedNames(s: seq<Invoice>, payment: int, allowPartial: bool)
    ensures NamesInvoices(s, Unmatched(s, payment, allowPartial))
  {
    var i, r := FirstAbove(s, payment), Unmatched(s, payment, allowPartial);
    if allowPartial && i < |s| {
      hide NamesInvoices;
      OneNames(s, i, r);
    } else {
      var chosen: seq<Invoice> := [];
      assert r.ids == Ids(chosen) && r.total == SumOf(Amounts(chosen)) && multiset(chosen) <= multiset(s);
    }
  }

  lemma FallbackNamesInvoices(invoices: seq<Invoice>, payment: int, tolerance: int, allowPartial: bool, maxCount: int)
    ensures NamesInvoices(invoices, Fallback(invoices, payment, tolerance, allowPartial, maxCount))
  {
    var p, s := SortedProblem(invoices, payment, tolerance, maxCount), StableSort(invoices);
    BruteForceIsOptimum(p);
    match BruteForce(p) {
      case Some(q) => MatchedNames(s, p, q);
      case None => UnmatchedNames(s, payment, allowPartial);
    }
    NamesUnsorted(invoices, Fallback(invoices, payment, tolerance, allowPartial, maxCount));
  }

  lemma {:induction false} MaskedFromInvoices(s: seq<Invoice>, x: seq<bool>)
    requires |x| == |s|
    ensures multiset(Masked(s, x)) <= multiset(s)
    decreases |s|
  {
    if s != [] {
      MaskedFromInvoices(s[..|s| - 1], x[..|s| - 1]);
      assert s == s[..|s| - 1] + [s[|s| - 1]];
    }
  }

  lemma {:induction false} MaskedTotal(s: seq<Invoice>, x: seq<bool>)
    requires |x| == |s|
    ensures SumOf(Amounts(Masked(s, x))) == MaskTotal(Amounts(s), x)
    decreases |s|
  {
    if s != [] {
      var n := |s| - 1;
      MaskedTotal(s[..n], x[..n]);
      SumOfAppend(Masked(s[..n], x[..n]), s[n]);
      assert Amounts(s)[..n] == Amounts(s[..n]);
      assert Masked(s[..n], x[..n]) + [] == Masked(s[..n], x[..n]);
    }
  }

  lemma SolutionNames(invoices: seq<Invoice>, r: MatchResult, x: seq<bool>)
    requires |x| == |invoices| && r.ids == Ids(Masked(invoices, x)) && r.total == MaskTotal(Amounts(invoices), x)
    ensures NamesInvoices(invoices, r)
  {
    MaskedFromInvoices(invoices, x);
    MaskedTotal(invoices, x);
  }

  // ----- the result with OR-Tools, spelled out

  /** The positions whose variable is set, in order. */
  ghost predicate SetPositions(x: seq<bool>, q: Selection) {
    Within(q, |x|) && Increasing(q) && forall i :: 0 <= i < |x| ==> (i in q <==> x[i])
  }

  function PositionsOf(x: seq<bool>): (q: Selection)
    ensures Within(q, |x|) && |q| == MaskCount(x)
  {
    if x == [] then []
    else PositionsOf(x[..|x| - 1]) + if x[|x| - 1] then [|x| - 1] else []
  }

  /** One more variable: its position joins the set ones if it is set, above all of them. */
  lemma OneMorePosition(x: seq<bool>, q: Selection)
    requires x != [] && SetPositions(x[..|x| - 1], q)
    ensures SetPositions(x, if x[|x| - 1] then q + [|x| - 1] else q)
  {
    var n := |x| - 1;
    forall i | 0 <= i < |x|
      ensures i in (if x[n] then q + [n] else q) <==> x[i]
    {
      if i == n {
        assert n !in q;
      } else {
        assert i in q <==> x[..n][i];
      }
    }
  }

  lemma {:induction false} PositionsAreSet(x: seq<bool>)
    ensures SetPositions(x, PositionsOf(x))
    decreases |x|
  {
    if x != [] {
      hide SetPositions;
      var n := |x| - 1;
      PositionsAreSet(x[..n]);
      OneMorePosition(x, PositionsOf(x[..n]));
      assert PositionsOf(x) == if x[n] then PositionsOf(x[..n]) + [n] else PositionsOf(x[..n]);
    }
  }

  lemma {:induction false} MaskedIsPicked(s: seq<Invoice>, x: seq<bool>)
    requires |x| == |s|
    ensures Masked(s, x) == Picked(s, PositionsOf(x))
    decreases |s|
  {
    if s != [] {
      var n := |s| - 1;
      MaskedIsPicked(s[..n], x[..n]);
      var p := PositionsOf(x[..n]);
      assert Picked(s[..n], p) == Picked(s, p);
      assert Picked(s, p + [n]) == Picked(s, p) + [s[n]];
      assert p + [] == p;
    }
  }

  lemma MaskPositions(s: seq<Invoice>, x: seq<bool>) returns (q: Selection)
    requires |x| == |s|
    ensures SetPositions(x, q) && |q| == MaskCount(x)
    ensures Masked(s, x) == Picked(s, q) && MaskTotal(Amounts(s), x) == Total(Amounts(s), q)
  {
    hide Masked, Picked, MaskTotal, Total, SumOf, Amounts;
    q := PositionsOf(x);
    PositionsAreSet(x);
    MaskedIsPicked(s, x);
    MaskedTotal(s, x);
    PickedTotal(s, q);
  }

  /** What a match is reported as: the fast path and a proved solution are OPTIMAL. */
  function SolvedStatus(invoices: seq<Invoice>, payment: int, a: CpAnswer): SolverStatus {
    if payment in Amounts(invoices) || (a.CpSolution? && a.optimal) then OptimalStatus else FeasibleStatus
  }

  /** The one result that an answer of the solver calls for: the fallback's own result where an
      amount equals the payment, else the solution read off variable by variable in input order,
      else the unmatched outcome. */
  ghost predicate IsCpOutcome(invoices: seq<Invoice>, payment: int, tolerance: int, allowPartial: bool, maxCount: int,
                              a: CpAnswer, r: MatchResult) {
    if payment in Amounts(invoices) then IsOutcome(invoices, payment, tolerance, allowPartial, maxCount, r)
    else
      && Labelled(r, payment, tolerance, SolvedStatus(invoices, payment, a))
      && match a
         case CpNothing(_) => IsUnmatchedOutcome(invoices, payment, allowPartial, r)
         case CpSolution(x, total, diff, _) =>
           && IsMatch(r.status) && r.total == total && r.difference == diff
           && exists q :: SetPositions(x, q) && Reports(invoices, q, r)
  }

  lemma SolutionMeetsSpec(invoices: seq<Invoice>, payment: int, tolerance: int, allowPartial: bool, maxCount: int,
                          a: CpAnswer)
    requires CorrectAnswer(InputProblem(invoices, payment, tolerance, maxCount), a) && a.CpSolution?
    requires payment !in Amounts(invoices) && WithAmount(invoices, payment) == [] && invoices != []
    ensures IsCpOutcome(invoices, payment, tolerance, allowPartial, maxCount, a,
                        WithOrTools(invoices, payment, tolerance, allowPartial, maxCount, a))
  {
    hide Masked, MaskTotal, MaskCount, Unmatched, Fallback;
    var q := MaskPositions(invoices, a.x);
    assert Reports(invoices, q, WithOrTools(invoices, payment, tolerance, allowPartial, maxCount, a));
  }

  /** With OR-Tools the wrapper gives that result for every answer CP-SAT may give. */
  lemma OrToolsMeetsSpec(invoices: seq<Invoice>, payment: int, tolerance: int, allowPartial: bool, maxCount: int,
                         a: CpAnswer)
    requires tolerance >= 0 && maxCount >= 1
    requires CorrectAnswer(InputProblem(invoices, payment, tolerance, maxCount), a)
    ensures IsCpOutcome(invoices, payment, tolerance, allowPartial, maxCount, a,
                        WithOrTools(invoices, payment, tolerance, allowPartial, maxCount, a))
  {
    hide IsOutcome, Labelled, IsUnmatchedOutcome, Masked, MaskTotal, Unmatched, Fallback;
    FastPathIffAmountPresent(invoices, payment);
    if payment in Amounts(invoices) {
      FastPathRefines(invoices, payment, tolerance, allowPartial, maxCount);
      FallbackMeetsSpec(invoices, payment, tolerance, allowPartial, maxCount);
    } else if invoices == [] {
      EmptyMeetsSpec(payment, tolerance, allowPartial);
    } else if a.CpSolution? {
      SolutionMeetsSpec(invoices, payment, tolerance, allowPartial, maxCount, a);
    } else {
      UnmatchedMeetsSpec(invoices, payment, tolerance, allowPartial);
      var r := Unmatched(StableSort(invoices), payment, allowPartial);
      LabelledUnmatched(r, invoices, payment, tolerance, allowPartial);
    }
  }

  lemma EmptyMeetsSpec(payment: int, tolerance: int, allowPartial: bool)
    ensures IsUnmatchedOutcome([], payment, allowPartial, NoMatch(payment))
    ensures Labelled(NoMatch(payment), payment, tolerance, FeasibleStatus)
  {
  }

  lemma LabelledUnmatched(r: MatchResult, invoices: seq<Invoice>, payment: int, tolerance: int, allowPartial: bool)
    requires IsUnmatchedOutcome(invoices, payment, allowPartial, r) && Labelled(r, payment, tolerance, OptimalStatus)
    ensures Labelled(r, payment, tolerance, FeasibleStatus)
  {
  }

  /** With OR-Tools, too, the result names distinct invoices of the input that add up to its
      total, respects the count, reports the difference and matches only within the tolerance;
      this needs only the feasibility of the solver's solution. */
  lemma OrToolsIsSound(invoices: seq<Invoice>, payment: int, tolerance: int, allowPartial: bool, maxCount: int,
                       a: CpAnswer)
    requires payment >= 0 && tolerance >= 0 && maxCount >= 1
    requires CorrectAnswer(InputProblem(invoices, payment, tolerance, maxCount), a)
    ensures var r := WithOrTools(invoices, payment, tolerance, allowPartial, maxCount, a);
            && NamesInvoices(invoices, r)
            && |r.ids| <= maxCount
            && Labelled(r, payment, tolerance, SolvedStatus(invoices, payment, a))
            && r.difference == Abs(r.total - payment)
  {
    hide NamesInvoices, Fallback, Masked, MaskTotal, MaskCount, StableSort;
    FastPathIffAmountPresent(invoices, payment);
    if invoices == [] || WithAmount(invoices, payment) != [] {
      GuardsAreSound(invoices, payment, tolerance, allowPartial, maxCount);
    } else if a.CpSolution? {
      SolutionNames(invoices, WithOrTools(invoices, payment, tolerance, allowPartial, maxCount, a), a.x);
    } else {
      UnmatchedNames(StableSort(invoices), payment, allowPartial);
      NamesUnsorted(invoices, Unmatched(StableSort(invoices), payment, allowPartial));
    }
  }

  lemma NamesUnsorted(s: seq<Invoice>, r: MatchResult)
    requires NamesInvoices(StableSort(s), r)
    ensures NamesInvoices(s, r)
  {
    SortPermutes(s);
  }

  lemma GuardsAreSound(invoices: seq<Invoice>, payment: int, tolerance: int, allowPartial: bool, maxCount: int)
    requires payment >= 0 && tolerance >= 0 && maxCount >= 1
    ensures var r := WithoutOrTools(invoices, payment, tolerance, allowPartial, maxCount);
            && NamesInvoices(invoices, r)
            && |r.ids| <= maxCount
            && Labelled(r, payment, tolerance, OptimalStatus)
            && r.difference == Abs(r.total - payment)
  {
    hide Fallback, WithoutOrTools, NamesInvoices;
    FastPathRefines(invoices, payment, tolerance, allowPartial, maxCount);
    FallbackNamesInvoices(invoices, payment, tolerance, allowPartial, maxCount);
    FallbackRespectsBounds(invoices, payment, tolerance, allowPartial, maxCount);
    OutcomeCoherent(invoices, payment, tolerance, allowPartial, maxCount);
  }

  lemma FallbackRespectsBounds(invoices: seq<Invoice>, payment: int, tolerance: int, allowPartial: bool, maxCount: int)
    requires maxCount >= 1
    ensures var r := Fallback(invoices, payment, tolerance, allowPartial, maxCount);
            |r.ids| <= maxCount && Labelled(r, payment, tolerance, OptimalStatus)
  {
    BruteForceIsOptimum(SortedProblem(invoices, payment, tolerance, maxCount));
  }

  /** When nothing is feasible, no single invoice is within the tolerance. */
  lemma NoSingleSettles(p: Problem, i: nat)
    requires IsOptimum(p, None) && p.maxCount >= 1 && i < |p.amounts|
    ensures Abs(p.amounts[i] - p.payment) > p.tolerance
  {
    TotalAppend(p.amounts, [], i);
    assert [] + [i] == [i];
    assert !Feasible(p, [i]);
  }

  /** A partial payment is offered only when nothing settles the payment, against the smallest
      larger invoice, with a remainder above the tolerance. */
  lemma PartialPaymentCoherent(invoices: seq<Invoice>, payment: int, tolerance: int, allowPartial: bool, maxCount: int)
    requires maxCount >= 1
    requires Fallback(invoices, payment, tolerance, allowPartial, maxCount).status == PartialPayment
    ensures var r := Fallback(invoices, payment, tolerance, allowPartial, maxCount);
            && allowPartial && r.objective == r.difference == r.total - payment > tolerance
            && r.total in Amounts(invoices) && r.total > payment
            && forall a :: a in Amounts(invoices) && a > payment ==> r.total <= a
  {
    var p, s := SortedProblem(invoices, payment, tolerance, maxCount), StableSort(invoices);
    BruteForceIsOptimum(p);
    SortAscends(invoices);
    SortKeepsAmounts(invoices);
    var i := FirstAbove(s, payment);
    NoSingleSettles(p, i);
    assert p.amounts[i] in multiset(Amounts(invoices));
    forall a | a in Amounts(invoices) && a > payment
      ensures s[i].amount <= a
    {
      assert a in multiset(p.amounts);
      FirstAboveIsSmallest(s, payment, a);
    }
  }

  /** Every exit reports the difference of the total it reports; with partial payments allowed,
      "no match" also means that no invoice exceeds the payment. */
  lemma OutcomeCoherent(invoices: seq<Invoice>, payment: int, tolerance: int, allowPartial: bool, maxCount: int)
    requires payment >= 0
    ensures var r := Fallback(invoices, payment, tolerance, allowPartial, maxCount);
            && r.difference == Abs(r.total - payment)
            && (r.status == NoFeasibleMatch && allowPartial ==> forall a :: a in Amounts(invoices) ==> a <= payment)
  {
    var s := StableSort(invoices);
    SortAscends(invoices);
    SortKeepsAmounts(invoices);
    forall a | a in Amounts(invoices) && a > payment
      ensures FirstAbove(s, payment) < |s|
    {
      assert a in multiset(Amounts(s));
      FirstAboveIsSmallest(s, payment, a);
    }
  }
}
