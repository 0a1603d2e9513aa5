/** services/solver/main.py: request bounds, the tenant and currency pre-checks, the
    eligibility filter, and the mapping of the matcher's result. */
module MatchService {
  import opened Prelude
  import opened InvoiceSelection
  import opened BranchAndBound
  import opened InvoiceMatcher
  import opened SolverAgreement

  datatype Request = Request(
    paymentId: string, tenant: string, payment: int, currency: string,
    tolerance: int, allowPartial: bool, maxInvoices: int, timeoutMs: int, invoices: seq<Invoice>)

  /** Declared field bounds of the request model. */
  predicate WithinBounds(r: Request) {
    && r.payment > 0
    && r.tolerance >= 0
    && 1 <= r.maxInvoices <= 20
    && 100 <= r.timeoutMs <= 10000
    && Positive(Amounts(r.invoices))
  }

  datatype Rejection = BoundsViolated | TenantMismatch(id: string) | MixedCurrency(id: string)

  datatype Reply = Rejected(reason: Rejection) | Answered(result: MatchResult, considered: nat)

  /** First pre-check to fail, in request order; `upper` stands for Python's str.upper. */
  function FirstRejection(upper: string -> string, r: Request, from: nat): Option<Rejection>
    requires from <= |r.invoices|
    decreases |r.invoices| - from
  {
    if from == |r.invoices| then None
    else
      var inv := r.invoices[from];
      if inv.tenant != r.tenant then Some(TenantMismatch(inv.id))
      else if upper(inv.currency) != upper(r.currency) then Some(MixedCurrency(inv.id))
      else FirstRejection(upper, r, from + 1)
  }

  function Eligible(s: seq<Invoice>): (e: seq<Invoice>)
    ensures multiset(e) <= multiset(s)
    ensures forall inv :: inv in e <==> inv in s && inv.eligibility == "ELIGIBLE"
    decreases |s|
  {
    if s == [] then []
    else
      assert s == s[..|s| - 1] + [s[|s| - 1]];
      Eligible(s[..|s| - 1]) + if s[|s| - 1].eligibility == "ELIGIBLE" then [s[|s| - 1]] else []
  }

  /** An answer that CP-SAT may give to the model built from the eligible invoices. */
  ghost predicate SolverMayAnswer(r: Request, solver: Option<CpAnswer>) {
    solver.Some? ==>
      CorrectAnswer(InputProblem(Eligible(r.invoices), r.payment, r.tolerance, r.maxInvoices), solver.value)
  }

  /** The endpoint; `solver` is OR-Tools' answer, or None where OR-Tools is not installed. */
  function Answer(upper: string -> string, r: Request, solver: Option<CpAnswer>): Reply
    requires SolverMayAnswer(r, solver)
  {
    if !WithinBounds(r) then Rejected(BoundsViolated)
    else match FirstRejection(upper, r, 0)
      case Some(reason) => Rejected(reason)
      case None =>
        var e := Eligible(r.invoices);
        var result := match solver
          case None => WithoutOrTools(e, r.payment, r.tolerance, r.allowPartial, r.maxInvoices)
          case Some(a) => WithOrTools(e, r.payment, r.tolerance, r.allowPartial, r.maxInvoices, a);
        Answered(result, |e|)
  }

  /** What a match is reported as. */
  function SolvedBy(r: Request, solver: Option<CpAnswer>): SolverStatus {
    if solver.None? then OptimalStatus else SolvedStatus(Eligible(r.invoices), r.payment, solver.value)
  }

  predicate SameBook(upper: string -> string, r: Request, inv: Invoice) {
    inv.tenant == r.tenant && upper(inv.currency) == upper(r.currency)
  }

  lemma {:induction false} PreChecksAreComplete(upper: string -> string, r: Request, from: nat)
    requires from <= |r.invoices|
    ensures FirstRejection(upper, r, from).None?
            <==> forall i :: from <= i < |r.invoices| ==> SameBook(upper, r, r.invoices[i])
    decreases |r.invoices| - from
  {
    if from < |r.invoices| {
      PreChecksAreComplete(upper, r, from + 1);
    }
  }

  /** A request is answered exactly when it is within the declared bounds and every invoice,
      eligible or not, belongs to the request's tenant and currency. */
  lemma AcceptedIff(upper: string -> string, r: Request, solver: Option<CpAnswer>)
    requires SolverMayAnswer(r, solver)
    ensures Answer(upper, r, solver).Answered? <==>
            && InDeclaredBounds(r)
            && forall i :: 0 <= i < |r.invoices| ==> SameBook(upper, r, r.invoices[i])
  {
    PreChecksAreComplete(upper, r, 0);
    BoundsAreDeclared(r);
  }

  // ----- what a reply must be, independent of how it is computed

  ghost predicate InDeclaredBounds(r: Request) {
    && r.payment > 0 && r.tolerance >= 0 && 1 <= r.maxInvoices <= 20 && 100 <= r.timeoutMs <= 10000
    && forall i :: 0 <= i < |r.invoices| ==> r.invoices[i].amount > 0
  }

  /** The first invoice, eligible or not, of another tenant or currency. */
  ghost predicate FirstOffender(upper: string -> string, r: Request, i: nat) {
    && i < |r.invoices|
    && !SameBook(upper, r, r.invoices[i])
    && forall j :: 0 <= j < i ==> SameBook(upper, r, r.invoices[j])
  }

  /** The positions of the eligible invoices, in request order. */
  ghost predicate EligiblePositions(s: seq<Invoice>, q: Selection) {
    Within(q, |s|) && Increasing(q) && forall i :: 0 <= i < |s| ==> (i in q <==> s[i].eligibility == "ELIGIBLE")
  }

  ghost predicate IsResult(r: Request, solver: Option<CpAnswer>, e: seq<Invoice>, result: MatchResult) {
    match solver
    case None => IsOutcome(e, r.payment, r.tolerance, r.allowPartial, r.maxInvoices, result)
    case Some(a) => IsCpOutcome(e, r.payment, r.tolerance, r.allowPartial, r.maxInvoices, a, result)
  }

  /** Out of bounds, refused for the first offender (tenant before currency), or answered with
      the result that the eligible invoices call for under the request's own terms. */
  ghost predicate IsReply(upper: string -> string, r: Request, solver: Option<CpAnswer>, reply: Reply) {
    if !InDeclaredBounds(r) then reply == Rejected(BoundsViolated)
    else if exists i: nat :: FirstOffender(upper, r, i) then
      exists i: nat :: FirstOffender(upper, r, i) &&
        var inv := r.invoices[i];
        reply == Rejected(if inv.tenant != r.tenant then TenantMismatch(inv.id) else MixedCurrency(inv.id))
    else
      && reply.Answered?
      && exists q :: EligiblePositions(r.invoices, q) && reply.considered == |q|
                     && IsResult(r, solver, Picked(r.invoices, q), reply.result)
  }

  function EligibleMask(s: seq<Invoice>): seq<bool> {
    seq(|s|, i requires 0 <= i < |s| => s[i].eligibility == "ELIGIBLE")
  }

  lemma {:induction false} EligibleIsMasked(s: seq<Invoice>)
    ensures Eligible(s) == Masked(s, EligibleMask(s))
    decreases |s|
  {
    if s != [] {
      var n := |s| - 1;
      EligibleIsMasked(s[..n]);
      assert EligibleMask(s)[..n] == EligibleMask(s[..n]);
    }
  }

  lemma EligibleInOrder(s: seq<Invoice>) returns (q: Selection)
    ensures EligiblePositions(s, q) && Picked(s, q) == Eligible(s)
  {
    hide Eligible, Masked;
    var x := EligibleMask(s);
    EligibleIsMasked(s);
    q := MaskPositions(s, x);
    assert forall i :: 0 <= i < |s| ==> (x[i] <==> s[i].eligibility == "ELIGIBLE");
  }

  lemma {:induction false} RejectionIsFirst(upper: string -> string, r: Request, from: nat)
    requires from <= |r.invoices| && FirstRejection(upper, r, from).Some?
    requires forall j :: 0 <= j < from ==> SameBook(upper, r, r.invoices[j])
    ensures exists i: nat :: FirstOffender(upper, r, i) &&
              var inv := r.invoices[i];
              FirstRejection(upper, r, from).value
              == if inv.tenant != r.tenant then TenantMismatch(inv.id) else MixedCurrency(inv.id)
    decreases |r.invoices| - from
  {
    if SameBook(upper, r, r.invoices[from]) {
      RejectionIsFirst(upper, r, from + 1);
    } else {
      assert FirstOffender(upper, r, from);
    }
  }

  lemma ResultMeetsSpec(upper: string -> string, r: Request, solver: Option<CpAnswer>)
    requires SolverMayAnswer(r, solver) && Answer(upper, r, solver).Answered?
    ensures IsResult(r, solver, Eligible(r.invoices), Answer(upper, r, solver).result)
  {
    hide IsOutcome, IsCpOutcome, Eligible, WithOrTools, WithoutOrTools;
    var e := Eligible(r.invoices);
    match solver
    case None => WithoutOrToolsMeetsSpec(e, r.payment, r.tolerance, r.allowPartial, r.maxInvoices);
    case Some(a) => OrToolsMeetsSpec(e, r.payment, r.tolerance, r.allowPartial, r.maxInvoices, a);
  }

  lemma BoundsAreDeclared(r: Request)
    ensures WithinBounds(r) <==> InDeclaredBounds(r)
  {
    assert forall i :: 0 <= i < |r.invoices| ==> Amounts(r.invoices)[i] == r.invoices[i].amount;
  }

  /** The endpoint gives that reply to every request. */
  lemma AnswerMeetsSpec(upper: string -> string, r: Request, solver: Option<CpAnswer>)
    requires SolverMayAnswer(r, solver)
    ensures IsReply(upper, r, solver, Answer(upper, r, solver))
  {
    hide IsResult, WithOrTools, WithoutOrTools, Eligible, CorrectAnswer, InDeclaredBounds, WithinBounds, FirstRejection;
    BoundsAreDeclared(r);
    PreChecksAreComplete(upper, r, 0);
    if !WithinBounds(r) {
    } else if FirstRejection(upper, r, 0).Some? {
      RejectionIsFirst(upper, r, 0);
    } else {
      var q := EligibleInOrder(r.invoices);
      ResultMeetsSpec(upper, r, solver);
      assert |q| == |Picked(r.invoices, q)|;
    }
  }

  lemma EligibleStaysPositive(s: seq<Invoice>)
    requires Positive(Amounts(s))
    ensures Positive(Amounts(Eligible(s)))
  {
    forall i | 0 <= i < |Eligible(s)|
      ensures Amounts(Eligible(s))[i] > 0
    {
      var inv := Eligible(s)[i];
      assert inv in s;
      var j :| 0 <= j < |s| && s[j] == inv;
      assert Amounts(s)[j] == inv.amount;
    }
  }

  /** The endpoint itself, running the pruned search where OR-Tools is missing. */
  method SolveInvoiceMatch(upper: string -> string, r: Request, solver: Option<CpAnswer>) returns (reply: Reply)
    requires SolverMayAnswer(r, solver)
    ensures reply == Answer(upper, r, solver)
    ensures IsReply(upper, r, solver, reply)
  {
    AnswerMeetsSpec(upper, r, solver);
    hide IsReply;
    if !WithinBounds(r) {
      return Rejected(BoundsViolated);
    }
    var rejection := FirstRejection(upper, r, 0);
    if rejection.Some? {
      return Rejected(rejection.value);
    }
    var eligible := Eligible(r.invoices);
    EligibleStaysPositive(r.invoices);
    var result;
    match solver {
      case None =>
        result := SolveWithoutOrTools(eligible, r.payment, r.tolerance, r.allowPartial, r.maxInvoices);
      case Some(a) =>
        result := WithOrTools(eligible, r.payment, r.tolerance, r.allowPartial, r.maxInvoices, a);
    }
    reply := Answered(result, |eligible|);
  }

  /** The result stands for distinct, eligible invoices of the request's tenant and currency. */
  ghost predicate Backed(upper: string -> string, r: Request, result: MatchResult) {
    exists chosen: seq<Invoice> ::
      && multiset(chosen) <= multiset(r.invoices)
      && result.ids == Ids(chosen)
      && result.total == SumOf(Amounts(chosen))
      && forall inv :: inv in chosen ==> inv.eligibility == "ELIGIBLE" && SameBook(upper, r, inv)
  }

  lemma {:induction false} EligibleBacks(upper: string -> string, r: Request, result: MatchResult)
    requires forall i :: 0 <= i < |r.invoices| ==> SameBook(upper, r, r.invoices[i])
    requires NamesInvoices(Eligible(r.invoices), result)
    ensures Backed(upper, r, result)
  {
    hide Eligible, Ids, Amounts, SumOf;
    var e := Eligible(r.invoices);
    var chosen: seq<Invoice> :|
      multiset(chosen) <= multiset(e) && result.ids == Ids(chosen) && result.total == SumOf(Amounts(chosen));
    forall inv | inv in chosen
      ensures inv.eligibility == "ELIGIBLE" && SameBook(upper, r, inv)
    {
      assert multiset(e)[inv] >= multiset(chosen)[inv] > 0;
      assert inv in e;
    }
  }

  lemma AnswerNames(upper: string -> string, r: Request, solver: Option<CpAnswer>)
    requires SolverMayAnswer(r, solver) && Answer(upper, r, solver).Answered?
    ensures var result := Answer(upper, r, solver).result;
            && NamesInvoices(Eligible(r.invoices), result)
            && |result.ids| <= r.maxInvoices
            && Labelled(result, r.payment, r.tolerance, SolvedBy(r, solver))
            && result.difference == Abs(result.total - r.payment)
  {
    hide NamesInvoices, Eligible, WithOrTools, WithoutOrTools;
    var e := Eligible(r.invoices);
    match solver
    case None => GuardsAreSound(e, r.payment, r.tolerance, r.allowPartial, r.maxInvoices);
    case Some(a) => OrToolsIsSound(e, r.payment, r.tolerance, r.allowPartial, r.maxInvoices, a);
  }

  /** With or without OR-Tools, every answered request selects distinct, eligible invoices of
      its own tenant and currency that add up to the reported total, reports that total's
      difference, never exceeds the requested count, and matches only within the tolerance. */
  lemma {:induction false} AnswerIsSound(upper: string -> string, r: Request, solver: Option<CpAnswer>)
    requires SolverMayAnswer(r, solver) && Answer(upper, r, solver).Answered?
    ensures var result := Answer(upper, r, solver).result;
            && Backed(upper, r, result)
            && |result.ids| <= r.maxInvoices
            && Labelled(result, r.payment, r.tolerance, SolvedBy(r, solver))
            && result.difference == Abs(result.total - r.payment)
  {
    hide *;
    AcceptedIff(upper, r, solver);
    AnswerNames(upper, r, solver);
    EligibleBacks(upper, r, Answer(upper, r, solver).result);
  }

  lemma AnswerIsFallback(upper: string -> string, r: Request)
    requires Answer(upper, r, None).Answered?
    ensures Answer(upper, r, None).result
            == Fallback(Eligible(r.invoices), r.payment, r.tolerance, r.allowPartial, r.maxInvoices)
  {
    hide Eligible, Fallback, WithoutOrTools, FirstRejection;
    FastPathRefines(Eligible(r.invoices), r.payment, r.tolerance, r.allowPartial, r.maxInvoices);
  }

  /** Where the search or a proof by the solver decides the request. */
  predicate Decided(r: Request, solver: Option<CpAnswer>) {
    solver.Some? ==> Definite(solver.value) && r.tolerance <= DifferenceDomain(r.payment)
  }

  /** A match is answered exactly when some selection of the eligible invoices settles the
      payment under the request's own tolerance and count, and then with the least objective. */
  ghost predicate DecidesMatch(r: Request, result: MatchResult) {
    var p := Problem(Amounts(Eligible(r.invoices)), r.payment, r.tolerance, r.maxInvoices);
    && (IsMatch(result.status) <==> exists sum, count :: Settles(p, sum, count))
    && (IsMatch(result.status) ==>
          forall sum, count :: Settles(p, sum, count) ==> result.objective <= Abs(sum - r.payment) * 1000 + count)
  }

  /** A partial payment needs the request's leave and has a remainder above its tolerance; no
      match although partial payments are allowed means that no eligible amount exceeds the
      payment. */
  ghost predicate DecidesPartial(r: Request, result: MatchResult) {
    var amounts := Amounts(Eligible(r.invoices));
    && (result.status == PartialPayment ==>
          && r.allowPartial
          && result.total in amounts && result.difference == result.total - r.payment > r.tolerance
          && forall a :: a in amounts && a > r.payment ==> result.total <= a)
    && (result.status == NoFeasibleMatch && r.allowPartial ==> forall a :: a in amounts ==> a <= r.payment)
  }

  lemma FallbackDecides(r: Request)
    requires WithinBounds(r)
    ensures var result := Fallback(Eligible(r.invoices), r.payment, r.tolerance, r.allowPartial, r.maxInvoices);
            DecidesMatch(r, result) && DecidesPartial(r, result)
  {
    hide Eligible, Fallback;
    var e := Eligible(r.invoices);
    var result := Fallback(e, r.payment, r.tolerance, r.allowPartial, r.maxInvoices);
    FallbackIsExact(e, r.payment, r.tolerance, r.allowPartial, r.maxInvoices);
    FallbackRespectsBounds(e, r.payment, r.tolerance, r.allowPartial, r.maxInvoices);
    OutcomeCoherent(e, r.payment, r.tolerance, r.allowPartial, r.maxInvoices);
    assert IsMatch(result.status) <==> result.solverStatus == OptimalStatus;
    assert InputProblem(e, r.payment, r.tolerance, r.maxInvoices)
           == Problem(Amounts(e), r.payment, r.tolerance, r.maxInvoices);
    if result.status == PartialPayment {
      PartialPaymentCoherent(e, r.payment, r.tolerance, r.allowPartial, r.maxInvoices);
    }
  }

  lemma AgreeDecides(r: Request, with: MatchResult, without: MatchResult)
    requires Agree(with, without) && DecidesMatch(r, without) && DecidesPartial(r, without)
    ensures DecidesMatch(r, with) && DecidesPartial(r, with)
  {
    hide Eligible, Settles;
  }

  /** An answered request is decided by its own fields: match, partial payment or neither. */
  lemma AnswerFollowsRequest(upper: string -> string, r: Request, solver: Option<CpAnswer>)
    requires SolverMayAnswer(r, solver) && Answer(upper, r, solver).Answered? && Decided(r, solver)
    ensures var result := Answer(upper, r, solver).result;
            DecidesMatch(r, result) && DecidesPartial(r, result)
  {
    hide DecidesMatch, DecidesPartial, Fallback, WithOrTools, WithoutOrTools;
    hide FirstRejection, Eligible, Agree, CorrectAnswer;
    FallbackDecides(r);
    AnswerIsFallback(upper, r);
    if solver.Some? {
      OrToolsMakesNoDifference(upper, r, solver.value);
      AgreeDecides(r, Answer(upper, r, solver).result, Answer(upper, r, None).result);
    }
  }

  /** The two replies differ in nothing but the choice among equally good selections. */
  predicate SameReply(with: Reply, without: Reply) {
    if without.Answered? then
      with.Answered? && with.considered == without.considered && Agree(with.result, without.result)
    else with == without
  }

  /** Where OR-Tools proves its answer and the tolerance is at most the payment or a million,
      installing it changes neither acceptance nor status, difference, objective or count. */
  lemma OrToolsMakesNoDifference(upper: string -> string, r: Request, a: CpAnswer)
    requires SolverMayAnswer(r, Some(a)) && Definite(a) && r.tolerance <= DifferenceDomain(r.payment)
    ensures SameReply(Answer(upper, r, Some(a)), Answer(upper, r, None))
  {
    hide FirstRejection, Agree, CorrectAnswer, Fallback, WithOrTools, WithoutOrTools;
    if Answer(upper, r, None).Answered? {
      var e := Eligible(r.invoices);
      EligibleStaysPositive(r.invoices);
      FastPathRefines(e, r.payment, r.tolerance, r.allowPartial, r.maxInvoices);
      FormulationsAgree(e, r.payment, r.tolerance, r.allowPartial, r.maxInvoices, a);
    }
  }

  /** Whatever invoices are sent with the request, and whatever OR-Tools proves about them. */
  ghost predicate OrToolsNeverMatters(upper: string -> string, r: Request) {
    forall invoices: seq<Invoice>, a: CpAnswer |
      SolverMayAnswer(r.(invoices := invoices), Some(a)) && Definite(a) ::
      SameReply(Answer(upper, r.(invoices := invoices), Some(a)), Answer(upper, r.(invoices := invoices), None))
  }

  /** Beyond that bound an eligible invoice of the request's own tenant and currency tells the
      two installations apart. */
  lemma OrToolsMayMatter(upper: string -> string, r: Request) returns (invoices: seq<Invoice>)
    requires WithinBounds(r.(invoices := [])) && r.tolerance > DifferenceDomain(r.payment)
    ensures SolverMayAnswer(r.(invoices := invoices), Some(CpNothing(true)))
    ensures !SameReply(Answer(upper, r.(invoices := invoices), Some(CpNothing(true))),
                       Answer(upper, r.(invoices := invoices), None))
  {
    var like := Invoice("", r.tenant, 1, r.currency, "ELIGIBLE");
    invoices := OversizedTolerance(like, r.payment, r.tolerance, r.allowPartial, r.maxInvoices);
    var q := r.(invoices := invoices);
    assert invoices[..0] == [];
    assert Eligible(invoices) == invoices;
    PreChecksAreComplete(upper, q, 0);
    FastPathRefines(invoices, r.payment, r.tolerance, r.allowPartial, r.maxInvoices);
  }

  /** For all requests with the same payment, tolerance and bounds, installing OR-Tools never
      matters if and only if the tolerance is at most the payment or a million. */
  lemma OrToolsNeverMattersIff(upper: string -> string, r: Request)
    requires WithinBounds(r.(invoices := []))
    ensures OrToolsNeverMatters(upper, r) <==> r.tolerance <= Max(r.payment, 1000000)
  {
    hide SameReply, CorrectAnswer, Answer, Eligible;
    if r.tolerance <= DifferenceDomain(r.payment) {
      forall invoices: seq<Invoice>, a: CpAnswer |
        SolverMayAnswer(r.(invoices := invoices), Some(a)) && Definite(a)
        ensures SameReply(Answer(upper, r.(invoices := invoices), Some(a)),
                          Answer(upper, r.(invoices := invoices), None))
      {
        OrToolsMakesNoDifference(upper, r.(invoices := invoices), a);
      }
    } else {
      var invoices := OrToolsMayMatter(upper, r);
    }
  }
}
