/** Which web requests can be booked, and which are given a quote, on the columns of the request and of the catalog. */
module BookableOrders {
  import opened Options
  import opened RentalAccessories
  import opened RentalAllocation
  import opened RentalSelection
  import opened RentalQuote

  /** The units asked for by the lines that are to be counted. */
  function Asked(items: seq<Request>, counted: Request -> bool): int {
    if items == [] then 0
    else
      var last := items[|items| - 1];
      Asked(items[..|items| - 1], counted) + (if counted(last) && last.quantity.Safe? then last.quantity.n else 0)
  }

  function EveryLine(): Request -> bool { (line: Request) => true }

  function PaidLines(): Request -> bool { (line: Request) => line.role == Unspecified || line.role == Named(Paid) }

  function FreeLines(): Request -> bool { (line: Request) => line.role == Named(FreeAccessory) }

  function LinesFor(variantId: string): Request -> bool { (line: Request) => line.variantId == Some(variantId) }

  predicate NamesVariant(line: Request) {
    line.variantId.Some? && line.variantId.value != ""
  }

  predicate Offered(line: Request, catalog: Catalog) {
    NamesVariant(line) && line.variantId.value in catalog
  }

  /** The line names another product than its variant's. */
  predicate WrongProduct(line: Request, catalog: Catalog)
    requires Offered(line, catalog)
  {
    line.productId.Some? && line.productId.value != "" && line.productId.value != catalog[line.variantId.value].productId
  }

  // --- Acceptable lines ---

  predicate Complete(line: Request) {
    line.quantity.Safe? && line.quantity.n >= 1 && NamesVariant(line) && line.role != Unknown
  }

  lemma {:induction false} AskedIsQuantitySum(items: seq<Request>)
    ensures Asked(items, EveryLine()) == QuantitySum(items)
  {
    if items != [] { AskedIsQuantitySum(items[..|items| - 1]); }
  }

  /** No part of a list of positive quantities exceeds the whole. */
  lemma {:induction false} PartialSums(items: seq<Request>, k: nat)
    requires k < |items| && forall j :: 0 <= j < |items| ==> items[j].quantity.Safe? && items[j].quantity.n >= 1
    ensures QuantitySum(items[..k]) + items[k].quantity.n <= QuantitySum(items)
  {
    var n := |items| - 1;
    if k < n {
      assert items[..n][..k] == items[..k];
      PartialSums(items[..n], k);
    }
  }

  lemma AcceptableExactlyWhen(items: seq<Request>)
    ensures Acceptable(items) <==>
      (forall k :: 0 <= k < |items| ==> Complete(items[k])) && Asked(items, EveryLine()) <= 50
  {
    AskedIsQuantitySum(items);
    if Acceptable(items) {
      forall k | 0 <= k < |items| ensures Complete(items[k]) {
        assert ProblemAt(items, k) == None;
      }
      TotalIsBounded(items);
    } else {
      var k :| 0 <= k < |items| && ProblemAt(items, k) != None;
      if forall j :: 0 <= j < |items| ==> Complete(items[j]) {
        PartialSums(items, k);
      }
    }
  }

  // --- Sums over candidates are sums over lines ---

  lemma {:induction false} AskedIsSum(items: seq<Request>, counted: Request -> bool, f: (string, Role) -> bool)
    requires Acceptable(items)
    requires forall k :: 0 <= k < |items| ==>
      (counted(items[k]) <==> f(CandidatesOf(items)[k].variantId, CandidatesOf(items)[k].role))
    ensures SumIf(CandidatesOf(items), f) == Asked(items, counted)
  {
    if items != [] {
      var n := |items| - 1;
      AcceptablePrefix(items);
      CandidatesPrefix(items);
      assert forall k :: 0 <= k < n ==> CandidatesOf(items[..n])[k] == CandidatesOf(items)[k];
      AskedIsSum(items[..n], counted, f);
      assert ProblemAt(items, n) == None;
    }
  }

  lemma EitherRole(line: Request)
    requires line.role != Unknown
    ensures PaidLines()(line) <==> BillingRole(line.role) == Paid
    ensures FreeLines()(line) <==> BillingRole(line.role) == FreeAccessory
  {
    match line.role
    case Unspecified =>
    case Named(role) =>
      match role
      case Paid =>
      case FreeAccessory =>
  }

  lemma RolesCount(items: seq<Request>)
    requires Acceptable(items)
    ensures SumIf(CandidatesOf(items), ForRole(Paid)) == Asked(items, PaidLines())
    ensures SumIf(CandidatesOf(items), ForRole(FreeAccessory)) == Asked(items, FreeLines())
  {
    forall k | 0 <= k < |items|
      ensures PaidLines()(items[k]) <==> CandidatesOf(items)[k].role == Paid
      ensures FreeLines()(items[k]) <==> CandidatesOf(items)[k].role == FreeAccessory
    {
      assert ProblemAt(items, k) == None;
      EitherRole(items[k]);
    }
    AskedIsSum(items, PaidLines(), ForRole(Paid));
    AskedIsSum(items, FreeLines(), ForRole(FreeAccessory));
  }

  lemma {:induction false} RolesSplit(items: seq<Request>)
    requires forall k :: 0 <= k < |items| ==> Complete(items[k])
    ensures Asked(items, PaidLines()) + Asked(items, FreeLines()) == Asked(items, EveryLine())
  {
    if items != [] {
      var n := |items| - 1;
      assert forall k :: 0 <= k < n ==> items[..n][k] == items[k];
      RolesSplit(items[..n]);
      assert Complete(items[n]);
      EitherRole(items[n]);
    }
  }

  lemma GrantedExactlyWhen(items: seq<Request>)
    requires Acceptable(items)
    ensures AllowanceOf(items).Granted? <==>
      Asked(items, PaidLines()) >= 1 && Asked(items, FreeLines()) <= Asked(items, PaidLines())
  {
    UnitsOfRequests(items, Paid);
    UnitsOfRequests(items, FreeAccessory);
    RolesCount(items);
    AcceptableExactlyWhen(items);
    RolesSplit(items);
  }

  // --- Checks against the catalog ---

  /** The part of the checks that quote and booking share: complete lines, the limit of units, and free accessories. */
  predicate WellFormed(items: seq<Request>, catalog: Catalog) {
    && (forall k :: 0 <= k < |items| ==> Complete(items[k]))
    && Asked(items, EveryLine()) <= 50
    && Asked(items, PaidLines()) >= 1
    && Asked(items, FreeLines()) <= Asked(items, PaidLines())
    && forall k :: 0 <= k < |items| && items[k].role == Named(FreeAccessory) && Offered(items[k], catalog) ==>
      catalog[items[k].variantId.value].allowFreeAccessory
  }

  lemma AdmittedExactlyWhen(items: seq<Request>, catalog: Catalog)
    ensures Admitted(items, catalog) <==> WellFormed(items, catalog)
  {
    AcceptableExactlyWhen(items);
    if Acceptable(items) {
      GrantedExactlyWhen(items);
      forall k | 0 <= k < |items|
        ensures Forbidden(CandidatesOf(items)[k], catalog) <==>
          && items[k].role == Named(FreeAccessory) && Offered(items[k], catalog)
          && !catalog[items[k].variantId.value].allowFreeAccessory
      {
        assert ProblemAt(items, k) == None;
        EitherRole(items[k]);
      }
    }
  }

  lemma LineIssue(items: seq<Request>, catalog: Catalog, k: nat)
    requires Acceptable(items) && k < |items|
    ensures Complete(items[k])
    ensures IssueOf(CandidatesOf(items)[k], catalog) ==
      if !Offered(items[k], catalog) then Some(Unavailable)
      else if WrongProduct(items[k], catalog) then Some(ProductVariantMismatch) else None
  {
    assert ProblemAt(items, k) == None;
  }

  /** Every line is of a variant that can be booked and of that variant's product. */
  predicate Resolved(items: seq<Request>, catalog: Catalog) {
    forall k :: 0 <= k < |items| ==> Offered(items[k], catalog) && !WrongProduct(items[k], catalog)
  }

  lemma NoIssueExactlyWhen(items: seq<Request>, catalog: Catalog)
    requires Acceptable(items)
    ensures FirstIssue(CandidatesOf(items), catalog) == None <==> Resolved(items, catalog)
  {
    NoIssue(CandidatesOf(items), catalog);
    forall k | 0 <= k < |items|
      ensures IssueOf(CandidatesOf(items)[k], catalog) == None <==>
        Offered(items[k], catalog) && !WrongProduct(items[k], catalog)
    {
      LineIssue(items, catalog, k);
    }
  }

  // --- Stock ---

  lemma VariantsCount(items: seq<Request>, variantId: string)
    requires Acceptable(items)
    ensures VariantDemand(Merge(CandidatesOf(items)), variantId) == Asked(items, LinesFor(variantId))
  {
    forall k | 0 <= k < |items|
      ensures LinesFor(variantId)(items[k]) <==> CandidatesOf(items)[k].variantId == variantId
    {
      assert ProblemAt(items, k) == None;
    }
    AskedIsSum(items, LinesFor(variantId), ForVariant(variantId));
    MergeConserves(CandidatesOf(items), ForVariant(variantId));
  }

  /** No variant is asked for more units than it has items. */
  predicate Stocked(items: seq<Request>, catalog: Catalog) {
    forall v :: v in catalog ==> Asked(items, LinesFor(v)) <= |catalog[v].inventory|
  }

  lemma {:induction false} NotAsked(items: seq<Request>, v: string)
    requires forall k :: 0 <= k < |items| ==> items[k].variantId != Some(v)
    ensures Asked(items, LinesFor(v)) == 0
  {
    if items != [] { NotAsked(items[..|items| - 1], v); }
  }

  /** A variant that is asked for has a demand of its own, and a demand is for a variant of the catalog. */
  lemma DemandsByVariant(items: seq<Request>, catalog: Catalog)
    requires Acceptable(items) && FirstIssue(CandidatesOf(items), catalog) == None
    ensures forall d :: d in DemandsOf(Merge(CandidatesOf(items)), catalog) ==>
      d.variant.id in catalog && catalog[d.variant.id] == d.variant
    ensures forall k :: 0 <= k < |items| ==>
      Offered(items[k], catalog) && Demanded(DemandsOf(Merge(CandidatesOf(items)), catalog), items[k].variantId.value)
  {
    var cs := CandidatesOf(items);
    var gs, demands := Merge(cs), DemandsOf(Merge(cs), catalog);
    CandidatesAreSound(items);
    MissingVariantIsAnIssue(cs, catalog);
    DemandsOfGroups(gs, catalog);
    MergeOrder(cs);
    forall k | 0 <= k < |items| ensures Offered(items[k], catalog) && Demanded(demands, items[k].variantId.value) {
      assert ProblemAt(items, k) == None;
      var a := Find(gs, cs[k]);
      assert a < |gs| && SameKey(gs[a].first, cs[k]);
      assert demands[a] in demands;
    }
  }

  predicate Demanded(demands: seq<Demand>, v: string) {
    exists d :: d in demands && d.variant.id == v
  }

  lemma DemandsAreAsked(items: seq<Request>, catalog: Catalog, v: string)
    requires Acceptable(items) && FirstIssue(CandidatesOf(items), catalog) == None
    ensures DemandFor(DemandsOf(Merge(CandidatesOf(items)), catalog), v) == Asked(items, LinesFor(v))
  {
    CandidatesAreSound(items);
    MissingVariantIsAnIssue(CandidatesOf(items), catalog);
    DemandForGroups(Merge(CandidatesOf(items)), catalog, v);
    VariantsCount(items, v);
  }

  lemma CoveredExactlyWhen(items: seq<Request>, catalog: Catalog)
    requires Acceptable(items) && FirstIssue(CandidatesOf(items), catalog) == None
    ensures Covered(EvaluationOf(CandidatesOf(items), catalog).demands) <==> Stocked(items, catalog)
  {
    var demands := DemandsOf(Merge(CandidatesOf(items)), catalog);
    forall v ensures DemandFor(demands, v) == Asked(items, LinesFor(v)) {
      DemandsAreAsked(items, catalog, v);
    }
    DemandsByVariant(items, catalog);
    if Covered(demands) {
      forall v | v in catalog ensures Asked(items, LinesFor(v)) <= |catalog[v].inventory| {
        if k :| 0 <= k < |items| && items[k].variantId == Some(v) {
          assert Demanded(demands, v);
        } else {
          NotAsked(items, v);
        }
      }
    } else {
      assert forall a :: 0 <= a < |demands| ==> demands[a] in demands;
    }
  }

  // --- What the lines show ---

  function SameLines(variantId: string, role: Role): Request -> bool {
    (line: Request) => line.variantId == Some(variantId)
      && (if role == Paid then PaidLines()(line) else FreeLines()(line))
  }

  /** Each line shown: the merged quantity, the product and the stock of its variant, and whether that is enough. */
  lemma LinesShowStock(items: seq<Request>, catalog: Catalog, a: nat)
    requires Acceptable(items) && a < |EvaluationOf(CandidatesOf(items), catalog).items|
    ensures var line := EvaluationOf(CandidatesOf(items), catalog).items[a];
      && line.requestedQuantity == Asked(items, SameLines(line.variantId, line.role))
      && (line.variantId !in catalog ==>
        line.availableQuantity == 0 && !line.available && line.issue == Some(NotRentable))
      && (line.variantId in catalog ==>
        && line.productId == Some(catalog[line.variantId].productId)
        && line.availableQuantity == |catalog[line.variantId].inventory|
        && (line.available <==> Asked(items, LinesFor(line.variantId)) <= line.availableQuantity)
        && line.issue == if line.available then None else Some(InsufficientQuantity))
  {
    var cs := CandidatesOf(items);
    var g := Merge(cs)[a];
    CandidatesAreSound(items);
    VariantsCount(items, g.first.variantId);
    forall k | 0 <= k < |items|
      ensures SameLines(g.first.variantId, g.first.role)(items[k]) <==>
        ForKey(g.first.variantId, g.first.role)(cs[k].variantId, cs[k].role)
    {
      assert ProblemAt(items, k) == None;
      EitherRole(items[k]);
    }
    AskedIsSum(items, SameLines(g.first.variantId, g.first.role), ForKey(g.first.variantId, g.first.role));
    GroupQuantity(cs, a);
  }

  // --- The whole request ---

  /**
   * On one snapshot of the stock, a request can be booked if and only if: every line has a positive quantity, a variant
   * and a known role; at most 50 units are asked for, at least one of them paid and no more free ones than paid ones;
   * every variant is in the catalog, of the product the line names, and may be free where it is asked to be; and no
   * variant is asked for more units than it has items.
   */
  lemma BookableExactlyWhen(items: seq<Request>, catalog: Catalog)
    requires StockOnce(catalog)
    ensures BookingSucceeds(items, catalog) <==>
      WellFormed(items, catalog) && Resolved(items, catalog) && Stocked(items, catalog)
  {
    AdmittedExactlyWhen(items, catalog);
    if Admitted(items, catalog) {
      NoIssueExactlyWhen(items, catalog);
      if FirstIssue(CandidatesOf(items), catalog) == None {
        CoveredExactlyWhen(items, catalog);
        CandidatesAreSound(items);
        EvaluationIsSnapshot(CandidatesOf(items), catalog);
        GreedySucceedsIffCovered(EvaluationOf(CandidatesOf(items), catalog).demands);
      }
    }
  }

  /** A wrong product is thrown unless a missing variant came before it. */
  lemma {:induction false} UnblockedExactlyWhen(cs: seq<Candidate>, catalog: Catalog)
    ensures Unblocked(FirstIssue(cs, catalog)) <==>
      forall k :: 0 <= k < |cs| && IssueOf(cs[k], catalog) == Some(ProductVariantMismatch) ==>
        exists j :: 0 <= j < k && IssueOf(cs[j], catalog) == Some(Unavailable)
  {
    if cs != [] {
      var n := |cs| - 1;
      UnblockedExactlyWhen(cs[..n], catalog);
      NoIssue(cs[..n], catalog);
      FirstIssueOccurs(cs[..n], catalog);
      assert forall k :: 0 <= k < n ==> cs[..n][k] == cs[k];
    }
  }

  lemma {:induction false} FirstIssueOccurs(cs: seq<Candidate>, catalog: Catalog)
    ensures FirstIssue(cs, catalog) != None ==>
      exists j :: 0 <= j < |cs| && IssueOf(cs[j], catalog) == FirstIssue(cs, catalog)
  {
    if cs != [] {
      var n := |cs| - 1;
      FirstIssueOccurs(cs[..n], catalog);
      assert forall k :: 0 <= k < n ==> cs[..n][k] == cs[k];
    }
  }

  /** Every line of a wrong product comes after a line whose variant is missing. */
  predicate MissingBeforeWrong(items: seq<Request>, catalog: Catalog) {
    forall k :: 0 <= k < |items| && Offered(items[k], catalog) && WrongProduct(items[k], catalog) ==>
      exists j :: 0 <= j < k && !Offered(items[j], catalog)
  }

  /** A quote is given if and only if the request is well formed and no line of a wrong product is the first obstacle. */
  lemma QuotableExactlyWhen(items: seq<Request>, catalog: Catalog)
    ensures Quotable(items, catalog) <==> WellFormed(items, catalog) && MissingBeforeWrong(items, catalog)
  {
    AdmittedExactlyWhen(items, catalog);
    if Admitted(items, catalog) {
      UnblockedExactlyWhen(CandidatesOf(items), catalog);
      forall k | 0 <= k < |items|
        ensures IssueOf(CandidatesOf(items)[k], catalog) ==
          if !Offered(items[k], catalog) then Some(Unavailable)
          else if WrongProduct(items[k], catalog) then Some(ProductVariantMismatch) else None
      {
        LineIssue(items, catalog, k);
      }
    }
  }
}
