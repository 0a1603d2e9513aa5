/** services/solver/cpsat_solver.py without OR-Tools: the stable sort, the branch-and-bound
    fallback with its partial-payment exit, and the guards and exact-match fast path of the
    wrapper. */
module InvoiceMatcher {
  import opened Prelude
  import opened InvoiceSelection
  import opened BranchAndBound

  datatype MatchStatus = ExactMatch | SplitMatch | SplitMatchWithTolerance | PartialPayment | NoFeasibleMatch

  datatype SolverStatus = OptimalStatus | FeasibleStatus | InfeasibleStatus

  datatype MatchResult = MatchResult(
    status: MatchStatus, solverStatus: SolverStatus, ids: seq<string>,
    total: int, difference: int, objective: int)

  // ----- Python's sorted(invoices, key=amount): a stable sort

  function Insert(s: seq<Invoice>, x: Invoice): (r: seq<Invoice>)
    ensures |r| == |s| + 1
    decreases |s|
  {
    if s == [] || s[|s| - 1].amount <= x.amount then s + [x]
    else Insert(s[..|s| - 1], x) + [s[|s| - 1]]
  }

  function StableSort(s: seq<Invoice>): (r: seq<Invoice>)
    ensures |r| == |s|
    decreases |s|
  {
    if s == [] then [] else Insert(StableSort(s[..|s| - 1]), s[|s| - 1])
  }

  /** The invoices of one amount, in order. */
  function WithAmount(s: seq<Invoice>, amount: int): seq<Invoice>
    decreases |s|
  {
    if s == [] then []
    else WithAmount(s[..|s| - 1], amount) + if s[|s| - 1].amount == amount then [s[|s| - 1]] else []
  }

  lemma WithAmountAppend(s: seq<Invoice>, x: Invoice, amount: int)
    ensures WithAmount(s + [x], amount) == WithAmount(s, amount) + if x.amount == amount then [x] else []
  {
    assert (s + [x])[..|s|] == s;
  }

  lemma {:induction false} InsertPermutes(s: seq<Invoice>, x: Invoice)
    ensures multiset(Insert(s, x)) == multiset(s) + multiset{x}
    decreases |s|
  {
    if s != [] && s[|s| - 1].amount > x.amount {
      InsertPermutes(s[..|s| - 1], x);
      assert s == s[..|s| - 1] + [s[|s| - 1]];
    }
  }

  lemma {:induction false} InsertKeepsOrder(s: seq<Invoice>, x: Invoice, amount: int)
    ensures WithAmount(Insert(s, x), amount) == WithAmount(s, amount) + if x.amount == amount then [x] else []
    decreases |s|
  {
    if s == [] || s[|s| - 1].amount <= x.amount {
      WithAmountAppend(s, x, amount);
    } else {
      var n := |s| - 1;
      assert s == s[..n] + [s[n]];
      assert Insert(s, x) == Insert(s[..n], x) + [s[n]];
      InsertKeepsOrder(s[..n], x, amount);
      WithAmountAppend(Insert(s[..n], x), s[n], amount);
      WithAmountAppend(s[..n], s[n], amount);
    }
  }

  lemma AscendingAppend(s: seq<Invoice>, x: Invoice)
    requires Ascending(Amounts(s)) && (s == [] || s[|s| - 1].amount <= x.amount)
    ensures Ascending(Amounts(s + [x]))
  {
    assert Amounts(s + [x]) == Amounts(s) + [x.amount];
    assert forall i :: 0 <= i < |s| ==> Amounts(s)[i] <= Amounts(s)[|s| - 1];
  }

  lemma {:induction false} InsertAscends(s: seq<Invoice>, x: Invoice)
    requires Ascending(Amounts(s))
    ensures Ascending(Amounts(Insert(s, x)))
    ensures Insert(s, x)[|s|].amount == if s == [] then x.amount else Max(s[|s| - 1].amount, x.amount)
    decreases |s|
  {
    if s == [] || s[|s| - 1].amount <= x.amount {
      AscendingAppend(s, x);
    } else {
      var n := |s| - 1;
      assert Amounts(s[..n]) == Amounts(s)[..n];
      InsertAscends(s[..n], x);
      assert n > 0 ==> Amounts(s)[n - 1] <= Amounts(s)[n];
      AscendingAppend(Insert(s[..n], x), s[n]);
    }
  }

  lemma {:induction false} SortPermutes(s: seq<Invoice>)
    ensures multiset(StableSort(s)) == multiset(s)
    decreases |s|
  {
    if s != [] {
      SortPermutes(s[..|s| - 1]);
      InsertPermutes(StableSort(s[..|s| - 1]), s[|s| - 1]);
      assert s == s[..|s| - 1] + [s[|s| - 1]];
    }
  }

  lemma {:induction false} SortAscends(s: seq<Invoice>)
    ensures Ascending(Amounts(StableSort(s)))
    decreases |s|
  {
    if s != [] {
      SortAscends(s[..|s| - 1]);
      InsertAscends(StableSort(s[..|s| - 1]), s[|s| - 1]);
    }
  }

  /** Invoices of equal amount stay in their input order. */
  lemma {:induction false} SortIsStable(s: seq<Invoice>, amount: int)
    ensures WithAmount(StableSort(s), amount) == WithAmount(s, amount)
    decreases |s|
  {
    if s != [] {
      SortIsStable(s[..|s| - 1], amount);
      InsertKeepsOrder(StableSort(s[..|s| - 1]), s[|s| - 1], amount);
    }
  }

  lemma {:induction false} AmountBounded(t: seq<Invoice>, amount: int)
    requires Ascending(Amounts(t)) && WithAmount(t, amount) != []
    ensures t != [] && amount <= t[|t| - 1].amount
    decreases |t|
  {
    hide Amounts;
    var n := |t| - 1;
    if t[n].amount != amount {
      assert Amounts(t[..n]) == Amounts(t)[..n];
      AmountBounded(t[..n], amount);
      assert Amounts(t)[n - 1] <= Amounts(t)[n];
    }
  }

  lemma LastWithAmount(s: seq<Invoice>, amount: int)
    requires s != []
    ensures var rest, last := s[..|s| - 1], s[|s| - 1];
            WithAmount(s, amount) == if last.amount == amount then WithAmount(rest, amount) + [last]
                                     else WithAmount(rest, amount)
  {
  }

  lemma AppendInjective<T>(a: seq<T>, x: T, b: seq<T>, y: T)
    requires a + [x] == b + [y]
    ensures a == b && x == y
  {
    assert |a| == |b|;
    assert a == (a + [x])[..|a|] && b == (b + [y])[..|b|];
    assert x == (a + [x])[|a|] && y == (b + [y])[|b|];
  }

  /** The same invoices of each amount, in the same order. */
  ghost predicate SameByAmount(s: seq<Invoice>, t: seq<Invoice>) {
    forall amount :: WithAmount(s, amount) == WithAmount(t, amount)
  }

  lemma EmptyTogether(s: seq<Invoice>, t: seq<Invoice>)
    requires SameByAmount(s, t)
    ensures s == [] ==> t == []
  {
    if t != [] {
      LastWithAmount(t, t[|t| - 1].amount);
      assert WithAmount(s, t[|t| - 1].amount) != [];
    }
  }

  lemma SameLast(s: seq<Invoice>, t: seq<Invoice>)
    requires s != [] && t != [] && Ascending(Amounts(s)) && Ascending(Amounts(t)) && SameByAmount(s, t)
    ensures s[|s| - 1] == t[|t| - 1]
  {
    hide WithAmount, Amounts;
    var x, y := s[|s| - 1], t[|t| - 1];
    LastWithAmount(s, x.amount);
    LastWithAmount(t, y.amount);
    assert WithAmount(t, x.amount) == WithAmount(s, x.amount) && WithAmount(s, y.amount) == WithAmount(t, y.amount);
    AmountBounded(t, x.amount);
    AmountBounded(s, y.amount);
    AppendInjective(WithAmount(s[..|s| - 1], x.amount), x, WithAmount(t[..|t| - 1], x.amount), y);
  }

  lemma SameRest(s: seq<Invoice>, x: Invoice, t: seq<Invoice>)
    requires SameByAmount(s + [x], t + [x])
    ensures SameByAmount(s, t)
  {
    hide WithAmount;
    forall amount
      ensures WithAmount(s, amount) == WithAmount(t, amount)
    {
      WithAmountAppend(s, x, amount);
      WithAmountAppend(t, x, amount);
      assert WithAmount(s + [x], amount) == WithAmount(t + [x], amount);
      if x.amount == amount {
        AppendInjective(WithAmount(s, amount), x, WithAmount(t, amount), x);
      } else {
        assert WithAmount(s, amount) + [] == WithAmount(s, amount);
        assert WithAmount(t, amount) + [] == WithAmount(t, amount);
      }
    }
  }

  /** An ascending list is determined by its invoices of each amount, in order. */
  lemma {:induction false} AscendingByAmounts(s: seq<Invoice>, t: seq<Invoice>)
    requires Ascending(Amounts(s)) && Ascending(Amounts(t)) && SameByAmount(s, t)
    ensures s == t
    decreases |s|
  {
    hide WithAmount, Amounts, SameByAmount;
    EmptyTogether(s, t);
    assert SameByAmount(t, s) by { SameByAmountSymmetric(s, t); }
    EmptyTogether(t, s);
    if s != [] {
      var m, n := |s| - 1, |t| - 1;
      SameLast(s, t);
      assert s == s[..m] + [s[m]] && t == t[..n] + [s[m]];
      SameRest(s[..m], s[m], t[..n]);
      assert Amounts(s[..m]) == Amounts(s)[..m] && Amounts(t[..n]) == Amounts(t)[..n];
      AscendingByAmounts(s[..m], t[..n]);
    }
  }

  lemma SameByAmountSymmetric(s: seq<Invoice>, t: seq<Invoice>)
    requires SameByAmount(s, t)
    ensures SameByAmount(t, s)
  {
  }

  /** There is only one stable sort by amount, so nothing depends on how it is computed. */
  lemma StableSortUnique(s: seq<Invoice>, t: seq<Invoice>)
    requires Ascending(Amounts(t)) && SameByAmount(t, s)
    ensures t == StableSort(s)
  {
    hide WithAmount, Amounts;
    SortAscends(s);
    forall amount
      ensures WithAmount(StableSort(s), amount) == WithAmount(t, amount)
    {
      SortIsStable(s, amount);
    }
    AscendingByAmounts(StableSort(s), t);
  }

  lemma {:induction false} InsertAmounts(s: seq<Invoice>, x: Invoice)
    ensures multiset(Amounts(Insert(s, x))) == multiset(Amounts(s)) + multiset{x.amount}
    decreases |s|
  {
    if s == [] || s[|s| - 1].amount <= x.amount {
      assert Amounts(s + [x]) == Amounts(s) + [x.amount];
    } else {
      var n := |s| - 1;
      InsertAmounts(s[..n], x);
      assert Amounts(s) == Amounts(s[..n]) + [s[n].amount];
      assert Amounts(Insert(s, x)) == Amounts(Insert(s[..n], x)) + [s[n].amount];
    }
  }

  lemma {:induction false} SortKeepsAmounts(s: seq<Invoice>)
    ensures multiset(Amounts(StableSort(s))) == multiset(Amounts(s))
    decreases |s|
  {
    if s != [] {
      var n := |s| - 1;
      SortKeepsAmounts(s[..n]);
      InsertAmounts(StableSort(s[..n]), s[n]);
      assert Amounts(s) == Amounts(s[..n]) + [s[n].amount];
    }
  }

  lemma SortReady(s: seq<Invoice>)
    requires Positive(Amounts(s))
    ensures Ascending(Amounts(StableSort(s))) && Positive(Amounts(StableSort(s)))
  {
    SortAscends(s);
    SortKeepsAmounts(s);
    forall i | 0 <= i < |s|
      ensures Amounts(StableSort(s))[i] > 0
    {
      assert Amounts(StableSort(s))[i] in multiset(Amounts(s));
    }
  }

  // ----- results

  function MatchStatusFor(difference: int, count: nat): MatchStatus {
    if difference == 0 && count == 1 then ExactMatch
    else if difference == 0 then SplitMatch
    else SplitMatchWithTolerance
  }

  function Matched(s: seq<Invoice>, p: Problem, q: Selection): MatchResult
    requires |p.amounts| == |s| && Within(q, |s|)
  {
    var d := Difference(p, q);
    MatchResult(MatchStatusFor(d, |q|), OptimalStatus, Ids(Picked(s, q)), Total(p.amounts, q), d, Objective(p, q))
  }

  /** Position of the first invoice above the payment, or the length when there is none. */
  function FirstAbove(s: seq<Invoice>, payment: int): (i: nat)
    ensures i <= |s|
    ensures forall j :: 0 <= j < i ==> s[j].amount <= payment
    ensures i < |s| ==> s[i].amount > payment
  {
    if s == [] || s[0].amount > payment then 0 else 1 + FirstAbove(s[1..], payment)
  }

  function NoMatch(payment: int): MatchResult {
    MatchResult(NoFeasibleMatch, InfeasibleStatus, [], 0, payment, 0)
  }

  function Unmatched(s: seq<Invoice>, payment: int, allowPartial: bool): MatchResult {
    var i := FirstAbove(s, payment);
    if allowPartial && i < |s| then
      var remaining := s[i].amount - payment;
      MatchResult(PartialPayment, FeasibleStatus, [s[i].id], s[i].amount, remaining, remaining)
    else NoMatch(payment)
  }

  function SortedProblem(invoices: seq<Invoice>, payment: int, tolerance: int, maxCount: int): (p: Problem)
    ensures |p.amounts| == |invoices|
  {
    Problem(Amounts(StableSort(invoices)), payment, tolerance, maxCount)
  }

  /** What the fallback must answer, by exhaustive enumeration. */
  function Fallback(invoices: seq<Invoice>, payment: int, tolerance: int, allowPartial: bool, maxCount: int)
    : MatchResult
  {
    var p := SortedProblem(invoices, payment, tolerance, maxCount);
    match BruteForce(p)
    case Some(q) => Matched(StableSort(invoices), p, q)
    case None => Unmatched(StableSort(invoices), payment, allowPartial)
  }

  // ----- what a result must be, independent of how it is computed

  /** The status, the solver status and the objective say what the numbers say, and a match is
      within the tolerance; `solved` is the solver status of a match. */
  predicate Labelled(r: MatchResult, payment: int, tolerance: int, solved: SolverStatus) {
    match r.status
    case ExactMatch => IsWeighted(r, solved) && r.difference == 0 && |r.ids| == 1
    case SplitMatch => IsWeighted(r, solved) && r.difference == 0 && |r.ids| >= 2
    case SplitMatchWithTolerance => IsWeighted(r, solved) && 0 < r.difference <= tolerance && |r.ids| >= 1
    case PartialPayment =>
      && r.solverStatus == FeasibleStatus
      && r.objective == r.difference == r.total - payment > 0
      && |r.ids| == 1
    case NoFeasibleMatch =>
      && r.solverStatus == InfeasibleStatus
      && r.ids == [] && r.total == 0 && r.difference == payment && r.objective == 0
  }

  predicate IsWeighted(r: MatchResult, solved: SolverStatus) {
    r.solverStatus == solved && r.objective == r.difference * 1000 + |r.ids|
  }

  predicate IsMatch(status: MatchStatus) {
    status in {ExactMatch, SplitMatch, SplitMatchWithTolerance}
  }

  /** The first invoice, in input order, of the smallest amount above the payment. */
  ghost predicate IsSmallestAbove(invoices: seq<Invoice>, payment: int, i: nat) {
    && i < |invoices|
    && invoices[i].amount > payment
    && forall j :: 0 <= j < |invoices| && invoices[j].amount > payment ==>
         invoices[i].amount < invoices[j].amount || (invoices[i].amount == invoices[j].amount && i <= j)
  }

  /** With nothing matched: a partial payment of that invoice if allowed, otherwise no match. */
  ghost predicate IsUnmatchedOutcome(invoices: seq<Invoice>, payment: int, allowPartial: bool, r: MatchResult) {
    if allowPartial && exists j :: 0 <= j < |invoices| && invoices[j].amount > payment then
      && r.status == PartialPayment
      && exists i: nat ::
           IsSmallestAbove(invoices, payment, i) && r.ids == [invoices[i].id] && r.total == invoices[i].amount
    else r.status == NoFeasibleMatch
  }

  /** A result reports a selection b of the sorted invoices s. */
  ghost predicate Reports(s: seq<Invoice>, b: Selection, r: MatchResult) {
    && Within(b, |s|)
    && r.ids == Ids(Picked(s, b))
    && r.total == Total(Amounts(s), b)
  }

  /** The one result the request calls for: the canonical optimum of the sorted invoices where
      there is one, and otherwise the unmatched outcome. */
  ghost predicate IsOutcome(invoices: seq<Invoice>, payment: int, tolerance: int, allowPartial: bool, maxCount: int,
                            r: MatchResult) {
    var s := StableSort(invoices);
    && Labelled(r, payment, tolerance, OptimalStatus)
    && exists best :: IsOptimum(Problem(Amounts(s), payment, tolerance, maxCount), best) &&
         match best
         case Some(b) => IsMatch(r.status) && r.difference == Abs(r.total - payment) && Reports(s, b, r)
         case None => IsUnmatchedOutcome(invoices, payment, allowPartial, r)
  }

  /** In an ascending list the first invoice above the payment is the smallest one. */
  lemma FirstAboveIsSmallest(s: seq<Invoice>, payment: int, a: int)
    requires Ascending(Amounts(s)) && a in Amounts(s) && a > payment
    ensures FirstAbove(s, payment) < |s| && s[FirstAbove(s, payment)].amount <= a
  {
    hide FirstAbove, Amounts;
    var i := FirstAbove(s, payment);
    var j :| 0 <= j < |s| && Amounts(s)[j] == a;
    assert s[j].amount == a;
    assert i < j ==> Amounts(s)[i] <= Amounts(s)[j];
  }

  lemma UnmatchedMeetsSpec(invoices: seq<Invoice>, payment: int, tolerance: int, allowPartial: bool)
    ensures var r := Unmatched(StableSort(invoices), payment, allowPartial);
            Labelled(r, payment, tolerance, OptimalStatus) && IsUnmatchedOutcome(invoices, payment, allowPartial, r)
  {
    var s := StableSort(invoices);
    var k := FirstAbove(s, payment);
    SortAscends(invoices);
    SortKeepsAmounts(invoices);
    forall j | 0 <= j < |invoices| && invoices[j].amount > payment
      ensures k < |s| && s[k].amount <= invoices[j].amount
    {
      assert Amounts(invoices)[j] in multiset(Amounts(s));
      FirstAboveIsSmallest(s, payment, invoices[j].amount);
    }
    if k < |s| {
      var i := FirstInInput(invoices, k);
      assert IsSmallestAbove(invoices, payment, i);
    }
  }

  /** The first invoice of its amount in sorted order is the first of its amount in input order. */
  lemma FirstInInput(invoices: seq<Invoice>, k: nat) returns (i: nat)
    requires k < |invoices|
    requires forall j :: 0 <= j < k ==> StableSort(invoices)[j].amount != StableSort(invoices)[k].amount
    ensures i < |invoices| && invoices[i] == StableSort(invoices)[k]
    ensures forall j :: 0 <= j < i ==> invoices[j].amount != invoices[i].amount
  {
    var a := StableSort(invoices)[k].amount;
    FirstOfAmount(StableSort(invoices), k, a);
    SortIsStable(invoices, a);
    i := FirstPosition(invoices, a);
  }

  lemma MatchedMeetsSpec(s: seq<Invoice>, p: Problem, b: Selection)
    requires p.amounts == Amounts(s) && Feasible(p, b)
    ensures var r := Matched(s, p, b);
            && Labelled(r, p.payment, p.tolerance, OptimalStatus)
            && IsMatch(r.status) && r.difference == Abs(r.total - p.payment) && Reports(s, b, r)
  {
  }

  /** Exhaustive enumeration, and with it the pruned search, gives that result on every input. */
  lemma FallbackMeetsSpec(invoices: seq<Invoice>, payment: int, tolerance: int, allowPartial: bool, maxCount: int)
    ensures IsOutcome(invoices, payment, tolerance, allowPartial, maxCount,
                      Fallback(invoices, payment, tolerance, allowPartial, maxCount))
  {
    hide Labelled, IsUnmatchedOutcome, Reports, Matched, Unmatched;
    var p := SortedProblem(invoices, payment, tolerance, maxCount);
    BruteForceIsOptimum(p);
    match BruteForce(p)
    case Some(b) => MatchedMeetsSpec(StableSort(invoices), p, b);
    case None => UnmatchedMeetsSpec(invoices, payment, tolerance, allowPartial);
  }

  /** The fallback: pruned search, then the partial-payment scan.  It answers what exhaustive
      enumeration answers, tie-breaking included. */
  method SolveFallback(invoices: seq<Invoice>, payment: int, tolerance: int, allowPartial: bool, maxCount: int)
    returns (r: MatchResult)
    requires Positive(Amounts(invoices))
    ensures r == Fallback(invoices, payment, tolerance, allowPartial, maxCount)
    ensures IsOutcome(invoices, payment, tolerance, allowPartial, maxCount, r)
  {
    FallbackMeetsSpec(invoices, payment, tolerance, allowPartial, maxCount);
    hide IsOutcome;
    ghost var p := SortedProblem(invoices, payment, tolerance, maxCount);
    var sorted := StableSort(invoices);
    SortReady(invoices);
    var searcher := new Searcher(sorted, payment, tolerance, maxCount);
    searcher.Run();
    BruteForceIsOptimum(p);
    OptimumUnique(p, searcher.best, BruteForce(p));
    if searcher.bestIds != [] {
      var difference := searcher.bestDifference.value;
      var status := MatchStatusFor(difference, |searcher.bestIds|);
      return MatchResult(status, OptimalStatus, searcher.bestIds, searcher.bestTotal,
                         difference, searcher.bestObjective.value);
    }
    r := PartialScan(sorted, payment, allowPartial);
  }

  method PartialScan(sorted: seq<Invoice>, payment: int, allowPartial: bool) returns (r: MatchResult)
    ensures r == Unmatched(sorted, payment, allowPartial)
    ensures r.status == PartialPayment <==> allowPartial && exists i :: 0 <= i < |sorted| && sorted[i].amount > payment
    ensures r.status == PartialPayment || r.status == NoFeasibleMatch
    ensures Labelled(r, payment, 0, OptimalStatus)
  {
    if allowPartial {
      for i := 0 to |sorted|
        invariant forall j :: 0 <= j < i ==> sorted[j].amount <= payment
      {
        if sorted[i].amount > payment {
          var remaining := sorted[i].amount - payment;
          return MatchResult(PartialPayment, FeasibleStatus, [sorted[i].id], sorted[i].amount, remaining, remaining);
        }
      }
    }
    r := NoMatch(payment);
  }

  // ----- the wrapper without OR-Tools

  function ExactResult(inv: Invoice): MatchResult {
    MatchResult(ExactMatch, OptimalStatus, [inv.id], inv.amount, 0, 1)
  }

  function WithoutOrTools(invoices: seq<Invoice>, payment: int, tolerance: int, allowPartial: bool, maxCount: int)
    : MatchResult
  {
    if invoices == [] then NoMatch(payment)
    else if WithAmount(invoices, payment) != [] then ExactResult(WithAmount(invoices, payment)[0])
    else Fallback(invoices, payment, tolerance, allowPartial, maxCount)
  }

  lemma {:induction false} FirstOfAmount(s: seq<Invoice>, i: nat, amount: int)
    requires i < |s| && s[i].amount == amount
    requires forall j :: 0 <= j < i ==> s[j].amount != amount
    ensures WithAmount(s, amount) != [] && WithAmount(s, amount)[0] == s[i]
    decreases |s|
  {
    if i == |s| - 1 {
      NoneOfAmount(s[..i], amount);
    } else {
      FirstOfAmount(s[..|s| - 1], i, amount);
    }
  }

  lemma {:induction false} NoneOfAmount(s: seq<Invoice>, amount: int)
    requires forall j :: 0 <= j < |s| ==> s[j].amount != amount
    ensures WithAmount(s, amount) == []
    decreases |s|
  {
    if s != [] {
      NoneOfAmount(s[..|s| - 1], amount);
    }
  }

  method SolveWithoutOrTools(invoices: seq<Invoice>, payment: int, tolerance: int, allowPartial: bool, maxCount: int)
    returns (r: MatchResult)
    requires Positive(Amounts(invoices))
    ensures r == WithoutOrTools(invoices, payment, tolerance, allowPartial, maxCount)
    ensures tolerance >= 0 && maxCount >= 1 ==> IsOutcome(invoices, payment, tolerance, allowPartial, maxCount, r)
  {
    if tolerance >= 0 && maxCount >= 1 {
      WithoutOrToolsMeetsSpec(invoices, payment, tolerance, allowPartial, maxCount);
    }
    hide IsOutcome;
    if invoices == [] {
      return NoMatch(payment);
    }
    for i := 0 to |invoices|
      invariant forall j :: 0 <= j < i ==> invoices[j].amount != payment
    {
      if invoices[i].amount == payment {
        FirstOfAmount(invoices, i, payment);
        return ExactResult(invoices[i]);
      }
    }
    NoneOfAmount(invoices, payment);
    r := SolveFallback(invoices, payment, tolerance, allowPartial, maxCount);
  }

  /** When some amount equals the payment, the optimum is the first such invoice alone. */
  lemma SingleIsOptimum(p: Problem, j: nat)
    requires j < |p.amounts| && p.amounts[j] == p.payment
    requires forall i :: 0 <= i < j ==> p.amounts[i] != p.payment
    requires p.tolerance >= 0 && p.maxCount >= 1
    ensures IsOptimum(p, Some([j]))
  {
    TotalAppend(p.amounts, [], j);
    assert [] + [j] == [j];
    forall q: Selection | Feasible(p, q)
      ensures NoWorse(p, [j], q)
    {
      if Objective(p, q) == 1 {
        assert q[..0] == [];
        assert Total(p.amounts, q) == p.amounts[q[0]];
      }
    }
  }

  lemma FirstPosition(s: seq<Invoice>, amount: int) returns (j: nat)
    requires WithAmount(s, amount) != []
    ensures j < |s| && s[j].amount == amount && s[j] == WithAmount(s, amount)[0]
    ensures forall i :: 0 <= i < j ==> s[i].amount != amount
  {
    j := 0;
    while j < |s| && s[j].amount != amount
      invariant j <= |s| && forall i :: 0 <= i < j ==> s[i].amount != amount
    {
      j := j + 1;
    }
    if j == |s| {
      NoneOfAmount(s, amount);
    } else {
      FirstOfAmount(s, j, amount);
    }
  }

  lemma {:induction false} SomeOfAmount(s: seq<Invoice>, i: nat)
    requires i < |s|
    ensures WithAmount(s, s[i].amount) != []
    decreases |s|
  {
    if i < |s| - 1 {
      SomeOfAmount(s[..|s| - 1], i);
    }
  }

  lemma FastPathIffAmountPresent(invoices: seq<Invoice>, payment: int)
    ensures WithAmount(invoices, payment) != [] <==> payment in Amounts(invoices)
  {
    if payment in Amounts(invoices) {
      var i :| 0 <= i < |invoices| && Amounts(invoices)[i] == payment;
      SomeOfAmount(invoices, i);
    } else {
      assert forall j :: 0 <= j < |invoices| ==> Amounts(invoices)[j] != payment;
      NoneOfAmount(invoices, payment);
    }
  }

  /** The exhaustive answer also is the first exact invoice in input order. */
  lemma FallbackOnExactAmount(invoices: seq<Invoice>, payment: int, tolerance: int, allowPartial: bool, maxCount: int)
    requires tolerance >= 0 && maxCount >= 1
    requires WithAmount(invoices, payment) != []
    ensures Fallback(invoices, payment, tolerance, allowPartial, maxCount)
            == ExactResult(WithAmount(invoices, payment)[0])
  {
    var p, s := SortedProblem(invoices, payment, tolerance, maxCount), StableSort(invoices);
    SortIsStable(invoices, payment);
    var j := FirstPosition(s, payment);
    SingleIsOptimum(p, j);
    BruteForceIsOptimum(p);
    OptimumUnique(p, BruteForce(p), Some([j]));
    TotalAppend(p.amounts, [], j);
    assert [] + [j] == [j];
    assert Ids(Picked(s, [j])) == [s[j].id];
  }

  lemma NothingUnderBadBounds(p: Problem)
    requires p.tolerance < 0 || p.maxCount < 1
    ensures BruteForce(p) == None
  {
    BruteForceIsOptimum(p);
  }

  /** The guards and the fast path change nothing, down to the selected id, exactly when no
      invoice equals the payment or the bounds admit a single exact invoice. */
  lemma FastPathRefines(invoices: seq<Invoice>, payment: int, tolerance: int, allowPartial: bool, maxCount: int)
    ensures WithoutOrTools(invoices, payment, tolerance, allowPartial, maxCount)
            == Fallback(invoices, payment, tolerance, allowPartial, maxCount)
            <==> payment !in Amounts(invoices) || (tolerance >= 0 && maxCount >= 1)
  {
    FastPathIffAmountPresent(invoices, payment);
    if payment in Amounts(invoices) {
      if tolerance >= 0 && maxCount >= 1 {
        FallbackOnExactAmount(invoices, payment, tolerance, allowPartial, maxCount);
      } else {
        NothingUnderBadBounds(SortedProblem(invoices, payment, tolerance, maxCount));
      }
    } else if invoices == [] {
      BruteForceIsOptimum(SortedProblem(invoices, payment, tolerance, maxCount));
    }
  }

  /** Within the service's bounds the wrapper without OR-Tools gives the result the request
      calls for. */
  lemma WithoutOrToolsMeetsSpec(invoices: seq<Invoice>, payment: int, tolerance: int, allowPartial: bool, maxCount: int)
    requires tolerance >= 0 && maxCount >= 1
    ensures IsOutcome(invoices, payment, tolerance, allowPartial, maxCount,
                      WithoutOrTools(invoices, payment, tolerance, allowPartial, maxCount))
  {
    hide IsOutcome, Fallback, WithoutOrTools;
    FastPathRefines(invoices, payment, tolerance, allowPartial, maxCount);
    FallbackMeetsSpec(invoices, payment, tolerance, allowPartial, maxCount);
  }
}
