/** The availability a web quote shows, and the booking that follows it on the same stock. */
module RentalQuote {
  import opened Options
  import opened RentalAccessories
  import opened RentalAllocation
  import opened RentalSelection

  // --- The quote ---

  predicate LineMatches(line: Line, d: Demand) {
    line.variantId == d.variant.id && line.role == d.role
  }

  /** Demands and lines of one evaluation stand side by side, one pair per variant and role. */
  predicate Aligned(demands: seq<Demand>, items: seq<Line>) {
    && |demands| == |items|
    && (forall i :: 0 <= i < |items| ==> LineMatches(items[i], demands[i]))
    && (forall i, j :: 0 <= i < j < |items| ==> !LineMatches(items[i], demands[j]))
    && (forall i :: 0 <= i < |items| ==>
      (items[i].available ==> demands[i].quantity <= |demands[i].variant.inventory|))
  }

  method FindLine(items: seq<Line>, d: Demand) returns (i: nat)
    ensures i <= |items| && (i < |items| ==> LineMatches(items[i], d))
    ensures forall j :: 0 <= j < i ==> !LineMatches(items[j], d)
  {
    i := 0;
    while i < |items| && !(items[i].variantId == d.variant.id &&
      SelectionKey(items[i].variantId, items[i].role) == SelectionKey(d.variant.id, d.role))
      invariant i <= |items|
      invariant forall j :: 0 <= j < i ==> !LineMatches(items[j], d)
    {
      SelectionKeyInjective(items[i].variantId, items[i].role, d.variant.id, d.role);
      i := i + 1;
    }
    if i < |items| {
      SelectionKeyInjective(items[i].variantId, items[i].role, d.variant.id, d.role);
    }
  }

  predicate AllAvailable(items: seq<Line>) {
    forall i :: 0 <= i < |items| ==> items[i].available
  }

  lemma AvailableStep(items: seq<Line>, k: nat)
    requires k < |items|
    ensures AllAvailable(items[..k + 1]) <==> AllAvailable(items[..k]) && items[k].available
  {
    assert items[..k + 1] == items[..k] + [items[k]];
  }

  lemma OwnLine(demands: seq<Demand>, items: seq<Line>, k: nat, i: nat)
    requires Aligned(demands, items) && k < |items|
    requires i <= |items| && (i < |items| ==> LineMatches(items[i], demands[k]))
    requires forall j :: 0 <= j < i ==> !LineMatches(items[j], demands[k])
    ensures i == k
  {
    assert LineMatches(items[k], demands[k]);
  }

  method QuoteAvailable(e: Evaluation) returns (allAvailable: bool)
    requires e.failure == None ==> Aligned(e.demands, e.items)
    ensures allAvailable <==> e.failure == None && AllAvailable(e.items)
  {
    allAvailable := e.failure == None;
    if e.failure == None {
      for k := 0 to |e.demands|
        invariant allAvailable <==> AllAvailable(e.items[..k])
      {
        var d := e.demands[k];
        if |d.variant.inventory| < d.quantity {
          allAvailable := false;
        }
        var i := FindLine(e.items, d);
        OwnLine(e.demands, e.items, k, i);
        AvailableStep(e.items, k);
        if i < |e.items| {
          if !e.items[i].available {
            allAvailable := false;
          }
        }
      }
      assert e.items[..|e.items|] == e.items;
    }
  }

  // --- Evaluation and stock, group by group ---

  lemma {:induction false} DemandsOfGroups(gs: seq<Group>, catalog: Catalog)
    requires !AnyMissing(gs, catalog)
    ensures |DemandsOf(gs, catalog)| == |gs|
    ensures forall i :: 0 <= i < |gs| ==>
      DemandsOf(gs, catalog)[i] == Demand(catalog[gs[i].first.variantId], gs[i].requested, gs[i].first.role)
  {
    if gs != [] {
      var n := |gs| - 1;
      MissingStep(gs, n, catalog);
      assert gs[..n + 1] == gs;
      DemandsOfGroups(gs[..n], catalog);
    }
  }

  lemma {:induction false} GroupSumStep(gs: seq<Group>, g: Group, f: (string, Role) -> bool)
    ensures GroupSumIf(gs + [g], f) ==
      GroupSumIf(gs, f) + (if f(g.first.variantId, g.first.role) then g.requested else 0)
  {
    if gs == [] {
      assert [] + [g] == [g];
      assert GroupSumIf([g][1..], f) == 0;
    } else {
      GroupSumStep(gs[1..], g, f);
      assert (gs + [g])[1..] == gs[1..] + [g];
    }
  }

  lemma {:induction false} DemandForGroups(gs: seq<Group>, catalog: Catalog, id: string)
    requires !AnyMissing(gs, catalog)
    ensures DemandFor(DemandsOf(gs, catalog), id) == VariantDemand(gs, id)
  {
    if gs != [] {
      var n := |gs| - 1;
      MissingStep(gs, n, catalog);
      assert gs[..n + 1] == gs && gs == gs[..n] + [gs[n]];
      DemandForGroups(gs[..n], catalog, id);
      GroupSumStep(gs[..n], gs[n], ForVariant(id));
      var ds := DemandsOf(gs, catalog);
      assert ds[..|ds| - 1] == DemandsOf(gs[..n], catalog);
    }
  }

  predicate PositiveCandidates(cs: seq<Candidate>) {
    forall k :: 0 <= k < |cs| ==> cs[k].quantity >= 1
  }

  lemma {:induction false} MergePositive(cs: seq<Candidate>)
    requires PositiveCandidates(cs)
    ensures forall a :: 0 <= a < |Merge(cs)| ==> Merge(cs)[a].requested >= 1
  {
    if cs != [] { MergePositive(cs[..|cs| - 1]); }
  }

  /** No item is listed twice or under two variants. */
  predicate StockOnce(catalog: Catalog) {
    && (forall id :: id in catalog ==> NoDuplicates(catalog[id].inventory))
    && (forall id, other :: id in catalog && other in catalog && id != other ==>
      Disjoint(catalog[id].inventory, catalog[other].inventory))
  }

  lemma EvaluationIsSnapshot(cs: seq<Candidate>, catalog: Catalog)
    requires Indexed(cs) && PositiveCandidates(cs) && StockOnce(catalog) && FirstIssue(cs, catalog) == None
    ensures Snapshot(EvaluationOf(cs, catalog).demands)
  {
    MissingVariantIsAnIssue(cs, catalog);
    DemandsOfGroups(Merge(cs), catalog);
    MergePositive(cs);
  }

  lemma EvaluationIsAligned(cs: seq<Candidate>, catalog: Catalog)
    requires Indexed(cs) && PositiveCandidates(cs) && FirstIssue(cs, catalog) == None
    ensures Aligned(EvaluationOf(cs, catalog).demands, EvaluationOf(cs, catalog).items)
  {
    var gs := Merge(cs);
    MissingVariantIsAnIssue(cs, catalog);
    MergeOrder(cs);
    MergePositive(cs);
    GroupsAlign(gs, catalog);
  }

  lemma GroupsAlign(gs: seq<Group>, catalog: Catalog)
    requires !AnyMissing(gs, catalog) && OneGroupPerKey(gs)
    requires forall a :: 0 <= a < |gs| ==> gs[a].requested >= 1
    ensures Aligned(DemandsOf(gs, catalog), LinesOf(gs, catalog))
  {
    DemandsOfGroups(gs, catalog);
    var demands, items := DemandsOf(gs, catalog), LinesOf(gs, catalog);
    forall i | 0 <= i < |gs|
      ensures LineMatches(items[i], demands[i])
      ensures items[i].available ==> demands[i].quantity <= |demands[i].variant.inventory|
    {
      GroupWithinVariant(gs, i);
    }
    forall i, j | 0 <= i < j < |gs| ensures !LineMatches(items[i], demands[j]) {
      assert !SameKey(gs[i].first, gs[j].first);
    }
  }

  lemma {:induction false} GroupWithinVariant(gs: seq<Group>, i: nat)
    requires i < |gs| && forall a :: 0 <= a < |gs| ==> gs[a].requested >= 1
    ensures gs[i].requested <= VariantDemand(gs, gs[i].first.variantId)
  {
    SumNotNegative(gs[1..], ForVariant(gs[i].first.variantId));
    if i > 0 { GroupWithinVariant(gs[1..], i - 1); }
  }

  lemma {:induction false} SumNotNegative(gs: seq<Group>, f: (string, Role) -> bool)
    requires forall a :: 0 <= a < |gs| ==> gs[a].requested >= 1
    ensures GroupSumIf(gs, f) >= 0
  {
    if gs != [] { SumNotNegative(gs[1..], f); }
  }

  lemma AvailableMeansCovered(cs: seq<Candidate>, catalog: Catalog)
    requires Indexed(cs) && FirstIssue(cs, catalog) == None
    ensures AllAvailable(EvaluationOf(cs, catalog).items) <==> Covered(EvaluationOf(cs, catalog).demands)
  {
    var gs := Merge(cs);
    MissingVariantIsAnIssue(cs, catalog);
    DemandsOfGroups(gs, catalog);
    var e := EvaluationOf(cs, catalog);
    forall i | 0 <= i < |gs|
      ensures e.items[i].available
         <==> DemandFor(e.demands, e.demands[i].variant.id) <= |e.demands[i].variant.inventory|
    {
      DemandForGroups(gs, catalog, e.demands[i].variant.id);
    }
  }

  lemma CandidatesAreSound(items: seq<Request>)
    requires Acceptable(items)
    ensures Indexed(CandidatesOf(items)) && PositiveCandidates(CandidatesOf(items))
  {
    forall k | 0 <= k < |items| ensures CandidatesOf(items)[k].quantity >= 1 && CandidatesOf(items)[k].index == k {
      assert ProblemAt(items, k) == None;
    }
  }

  /** Each line gets exactly its quantity of its own variant's items, and no item is given out twice. */
  predicate Fulfils(lines: seq<seq<string>>, items: seq<Line>, catalog: Catalog) {
    && |lines| == |items|
    && GivenOnce(lines, {})
    && forall i :: 0 <= i < |lines| ==> LineFulfilled(lines[i], items[i], catalog)
  }

  predicate LineFulfilled(line: seq<string>, item: Line, catalog: Catalog) {
    && |line| == item.requestedQuantity
    && item.variantId in catalog
    && forall x :: x in line ==> x in catalog[item.variantId].inventory
  }

  lemma BookingFulfils(gs: seq<Group>, catalog: Catalog)
    requires !AnyMissing(gs, catalog) && Snapshot(DemandsOf(gs, catalog))
    requires Greedy(DemandsOf(gs, catalog), {}).Some?
    ensures Fulfils(Greedy(DemandsOf(gs, catalog), {}).value, LinesOf(gs, catalog), catalog)
  {
    var demands, items := DemandsOf(gs, catalog), LinesOf(gs, catalog);
    var lines := Greedy(demands, {}).value;
    DemandsOfGroups(gs, catalog);
    GreedyGivesOnce(demands, {});
    forall i | 0 <= i < |gs| ensures LineFulfilled(lines[i], items[i], catalog) {
      assert demands[i].variant == catalog[gs[i].first.variantId];
      assert items[i].variantId == gs[i].first.variantId;
    }
  }

  /**
   * The quote and the booking agree. On one snapshot of the stock, and for a selection without failure, the quote says
   * that every line is available exactly when the greedy allocation of the booking succeeds, and then the booking
   * fulfils every line of the quote.
   */
  lemma QuoteAgreesWithBooking(items: seq<Request>, catalog: Catalog)
    requires Acceptable(items) && StockOnce(catalog)
    requires FirstIssue(CandidatesOf(items), catalog) == None
    ensures var e := EvaluationOf(CandidatesOf(items), catalog);
      && Orderable(e.demands)
      && (AllAvailable(e.items) <==> Greedy(e.demands, {}).Some?)
      && (AllAvailable(e.items) ==> Fulfils(Greedy(e.demands, {}).value, e.items, catalog))
  {
    var cs := CandidatesOf(items);
    CandidatesAreSound(items);
    EvaluationIsSnapshot(cs, catalog);
    AvailableMeansCovered(cs, catalog);
    GreedySucceedsIffCovered(EvaluationOf(cs, catalog).demands);
    if Greedy(EvaluationOf(cs, catalog).demands, {}).Some? {
      MissingVariantIsAnIssue(cs, catalog);
      BookingFulfils(Merge(cs), catalog);
    }
  }

  // --- Both paths, from the request ---

  datatype Quote = Quoted(evaluation: Evaluation, available: bool) | QuoteRefused(error: SelectionError)
    | QuoteFailed(failure: Failure)

  /** A missing variant is no reason to refuse a quote; it makes the quote unavailable. */
  predicate ThrownForQuote(failure: Failure) {
    failure.InvalidSelectionQuantity? || failure.MissingSelection? || failure.ProductVariantMismatch?
  }

  /** The request passes every check that both paths make before stock is looked at. */
  predicate Admitted(items: seq<Request>, catalog: Catalog) {
    && Acceptable(items)
    && AllowanceOf(items).Granted?
    && !AccessoryForbidden(items, catalog)
  }

  predicate Unblocked(issue: Option<Failure>) {
    issue == None || issue == Some(Unavailable)
  }

  predicate Quotable(items: seq<Request>, catalog: Catalog) {
    Admitted(items, catalog) && Unblocked(FirstIssue(CandidatesOf(items), catalog))
  }

  predicate QuoteSaysAvailable(items: seq<Request>, catalog: Catalog) {
    && Admitted(items, catalog)
    && FirstIssue(CandidatesOf(items), catalog) == None
    && AllAvailable(EvaluationOf(CandidatesOf(items), catalog).items)
  }

  function Refusal(problem: Problem): Quote {
    match problem
    case Fails(failure) => QuoteFailed(failure)
    case Throws(error) => QuoteRefused(error)
  }

  /** Of an acceptable request: the allowance comes first, then forbidden accessories, then the first thrown issue. */
  function SelectionRefusal(items: seq<Request>, catalog: Catalog): Quote
    requires Acceptable(items) && !Quotable(items, catalog)
  {
    if AllowanceOf(items).Refused? then QuoteRefused(Accessories(AllowanceOf(items).error))
    else if AccessoryForbidden(items, catalog) then QuoteRefused(FreeAccessoryNotAllowed)
    else QuoteFailed(FirstIssue(CandidatesOf(items), catalog).value)
  }

  /** What makes a request unacceptable is never a missing variant. */
  lemma UnacceptableIsThrown(items: seq<Request>, outcome: Outcome)
    requires exists problem :: FirstProblem(items, Some(problem)) && outcome == OutcomeOf(problem)
    ensures outcome.Evaluated? ==>
      outcome.evaluation.failure.Some? && ThrownForQuote(outcome.evaluation.failure.value)
  {
  }

  method CalculateQuote(items: seq<Request>, catalog: Catalog) returns (q: Quote)
    ensures q.Quoted? <==> Quotable(items, catalog)
    ensures q.Quoted? ==> q.evaluation == EvaluationOf(CandidatesOf(items), catalog)
    ensures q.Quoted? && q.available <==> QuoteSaysAvailable(items, catalog)
    ensures q.QuoteFailed? ==> ThrownForQuote(q.failure)
    ensures !Acceptable(items) ==> exists problem :: FirstProblem(items, Some(problem)) && q == Refusal(problem)
    ensures Acceptable(items) && !Quotable(items, catalog) ==> q == SelectionRefusal(items, catalog)
  {
    var outcome := EvaluateWebRentalSelection(items, catalog);
    if !Acceptable(items) {
      UnacceptableIsThrown(items, outcome);
    }
    if outcome.Thrown? {
      return QuoteRefused(outcome.error);
    }
    var e := outcome.evaluation;
    if e.failure.Some? && ThrownForQuote(e.failure.value) {
      return QuoteFailed(e.failure.value);
    }
    if e.failure == None {
      CandidatesAreSound(items);
      EvaluationIsAligned(CandidatesOf(items), catalog);
    }
    var available := QuoteAvailable(e);
    q := Quoted(e, available);
  }

  /** The selection part of the booking goes through: no failure at all, and the greedy loop finds enough stock. */
  predicate BookingSucceeds(items: seq<Request>, catalog: Catalog) {
    && Admitted(items, catalog)
    && FirstIssue(CandidatesOf(items), catalog) == None
    && var demands := EvaluationOf(CandidatesOf(items), catalog).demands;
      Orderable(demands) && Greedy(demands, {}).Some?
  }

  /** The selection part of `createOrder`: the chosen items per line, or `None` for any error. */
  method BookLines(items: seq<Request>, catalog: Catalog) returns (r: Option<seq<seq<string>>>)
    ensures r.Some? <==> BookingSucceeds(items, catalog)
    ensures r.Some? && StockOnce(catalog) ==>
      Fulfils(r.value, EvaluationOf(CandidatesOf(items), catalog).items, catalog)
  {
    var outcome := EvaluateWebRentalSelection(items, catalog);
    if outcome.Thrown? {
      return None;
    }
    if outcome.evaluation.failure.Some? {
      return None;
    }
    var cs := CandidatesOf(items);
    CandidatesAreSound(items);
    EvaluationIsOrderable(cs, catalog);
    r := AllocateInventory(outcome.evaluation.demands);
    if r.Some? && StockOnce(catalog) {
      EvaluationIsSnapshot(cs, catalog);
      MissingVariantIsAnIssue(cs, catalog);
      BookingFulfils(Merge(cs), catalog);
    }
  }

  lemma EvaluationIsOrderable(cs: seq<Candidate>, catalog: Catalog)
    requires Indexed(cs) && PositiveCandidates(cs) && FirstIssue(cs, catalog) == None
    ensures Orderable(EvaluationOf(cs, catalog).demands)
  {
    MissingVariantIsAnIssue(cs, catalog);
    DemandsOfGroups(Merge(cs), catalog);
    MergePositive(cs);
  }

  /**
   * For every request whatever, valid or not: on one snapshot of the stock the quote says available if and only if
   * the booking of the same request goes through.
   */
  lemma AvailableQuoteMeansBookable(items: seq<Request>, catalog: Catalog)
    requires StockOnce(catalog)
    ensures QuoteSaysAvailable(items, catalog) <==> BookingSucceeds(items, catalog)
  {
    if Admitted(items, catalog) && FirstIssue(CandidatesOf(items), catalog) == None {
      QuoteAgreesWithBooking(items, catalog);
    }
  }

  // --- Merging does not change what accessories are allowed ---

  function DemandPortions(demands: seq<Demand>): (ps: seq<Portion>)
    requires Countable(demands)
    ensures |ps| == |demands| && AllCounted(ps)
  {
    seq(|demands|, i requires 0 <= i < |demands| => Portion(Safe(demands[i].quantity), Named(demands[i].role)))
  }

  lemma {:induction false} UnitsOfRequests(items: seq<Request>, role: Role)
    requires Acceptable(items)
    ensures AllCounted(PortionsOf(items))
    ensures Units(PortionsOf(items), role) == SumIf(CandidatesOf(items), ForRole(role))
  {
    AcceptableCounts(items);
    if items != [] {
      var n := |items| - 1;
      AcceptablePrefix(items);
      UnitsOfRequests(items[..n], role);
      assert PortionsOf(items)[..n] == PortionsOf(items[..n]);
      CandidatesPrefix(items);
      assert ProblemAt(items, n) == None;
    }
  }

  lemma AcceptablePrefix(items: seq<Request>)
    requires Acceptable(items) && items != []
    ensures Acceptable(items[..|items| - 1])
  {
    var n := |items| - 1;
    forall k | 0 <= k < n ensures ProblemAt(items[..n], k) == None {
      assert items[..n][..k] == items[..k];
      assert ProblemAt(items, k) == None;
    }
  }

  lemma CandidatesPrefix(items: seq<Request>)
    requires Acceptable(items) && items != [] && Acceptable(items[..|items| - 1])
    ensures CandidatesOf(items)[..|items| - 1] == CandidatesOf(items[..|items| - 1])
  {
  }

  predicate Countable(demands: seq<Demand>) {
    forall i :: 0 <= i < |demands| ==> 1 <= demands[i].quantity <= MAX_SAFE
  }

  lemma DemandUnitsStep(demands: seq<Demand>, d: Demand, role: Role)
    requires Countable(demands) && 1 <= d.quantity <= MAX_SAFE
    ensures Countable(demands + [d])
    ensures Units(DemandPortions(demands + [d]), role) ==
      Units(DemandPortions(demands), role) + (if d.role == role then d.quantity else 0)
  {
    var ps := DemandPortions(demands + [d]);
    assert ps[..|demands|] == DemandPortions(demands);
  }

  lemma {:induction false} UnitsOfDemands(gs: seq<Group>, catalog: Catalog, role: Role)
    requires !AnyMissing(gs, catalog)
    requires forall a :: 0 <= a < |gs| ==> 1 <= gs[a].requested <= MAX_SAFE
    ensures Countable(DemandsOf(gs, catalog))
    ensures Units(DemandPortions(DemandsOf(gs, catalog)), role) == GroupSumIf(gs, ForRole(role))
  {
    if gs != [] {
      var n := |gs| - 1;
      MissingStep(gs, n, catalog);
      assert gs[..n + 1] == gs && gs == gs[..n] + [gs[n]];
      GroupSumStep(gs[..n], gs[n], ForRole(role));
      UnitsOfDemands(gs[..n], catalog, role);
      var d := Demand(catalog[gs[n].first.variantId], gs[n].requested, gs[n].first.role);
      DemandUnitsStep(DemandsOf(gs[..n], catalog), d, role);
    }
  }

  function Anyone(): (string, Role) -> bool { (v, r) => true }

  lemma {:induction false} GroupWithinTotal(gs: seq<Group>, i: nat)
    requires i < |gs| && forall a :: 0 <= a < |gs| ==> gs[a].requested >= 1
    ensures gs[i].requested <= GroupSumIf(gs, Anyone())
  {
    SumNotNegative(gs[1..], Anyone());
    if i > 0 { GroupWithinTotal(gs[1..], i - 1); }
  }

  lemma {:induction false} TotalIsBounded(items: seq<Request>)
    requires Acceptable(items)
    ensures SumIf(CandidatesOf(items), Anyone()) == QuantitySum(items) <= MAX_TOTAL_QUANTITY
  {
    if items != [] {
      AcceptablePrefix(items);
      CandidatesPrefix(items);
      TotalIsBounded(items[..|items| - 1]);
      assert ProblemAt(items, |items| - 1) == None;
    }
  }

  lemma GroupQuantities(items: seq<Request>)
    requires Acceptable(items)
    ensures forall a :: 0 <= a < |Merge(CandidatesOf(items))| ==>
      1 <= Merge(CandidatesOf(items))[a].requested <= MAX_TOTAL_QUANTITY
  {
    var cs := CandidatesOf(items);
    CandidatesAreSound(items);
    MergePositive(cs);
    MergeConserves(cs, Anyone());
    TotalIsBounded(items);
    forall a | 0 <= a < |Merge(cs)| ensures Merge(cs)[a].requested <= MAX_TOTAL_QUANTITY {
      GroupWithinTotal(Merge(cs), a);
    }
  }

  /** The merged demands are granted the same accessories as the lines the customer sent. */
  lemma MergedAllowanceIsTheSame(items: seq<Request>, catalog: Catalog)
    requires Acceptable(items) && FirstIssue(CandidatesOf(items), catalog) == None
    ensures var demands := DemandsOf(Merge(CandidatesOf(items)), catalog);
      && Countable(demands)
      && Verdict(Units(DemandPortions(demands), Paid), Units(DemandPortions(demands), FreeAccessory))
        == AllowanceOf(items)
  {
    var cs := CandidatesOf(items);
    CandidatesAreSound(items);
    MissingVariantIsAnIssue(cs, catalog);
    GroupQuantities(items);
    MergeConserves(cs, ForRole(Paid));
    MergeConserves(cs, ForRole(FreeAccessory));
    UnitsOfRequests(items, Paid);
    UnitsOfRequests(items, FreeAccessory);
    UnitsOfDemands(Merge(cs), catalog, Paid);
    UnitsOfDemands(Merge(cs), catalog, FreeAccessory);
  }
}
