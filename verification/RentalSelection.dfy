/** Exact variant selections of a web request, merged before stock is checked. */
module RentalSelection {
  import opened Options
  import opened RentalAccessories

  const MAX_TOTAL_QUANTITY := 50

  datatype Request = Request(
    productId: Option<string>, variantId: Option<string>, quantity: Quantity, role: RawRole)

  datatype Variant = Variant(id: string, productId: string, allowFreeAccessory: bool, inventory: seq<string>)

  /** Answer of the availability reader, keyed by variant id. */
  type Catalog = c: map<string, Variant> | forall id :: id in c ==> c[id].id == id

  datatype Candidate = Candidate(
    index: nat, productId: Option<string>, variantId: string, quantity: int, role: Role)

  datatype Group = Group(first: Candidate, requested: int)

  datatype Failure = InvalidSelectionQuantity | MissingSelection | ProductVariantMismatch | Unavailable

  datatype SelectionError = UnknownRole | Accessories(error: AllowanceError) | FreeAccessoryNotAllowed

  datatype Issue = NotRentable | InsufficientQuantity

  datatype Line = Line(
    productId: Option<string>, variantId: string, requestedQuantity: int, role: Role,
    availableQuantity: nat, available: bool, issue: Option<Issue>)

  datatype Demand = Demand(variant: Variant, quantity: int, role: Role)

  datatype Evaluation = Evaluation(demands: seq<Demand>, items: seq<Line>, failure: Option<Failure>)

  datatype Outcome = Evaluated(evaluation: Evaluation) | Thrown(error: SelectionError)

  // --- Reading the request ---

  datatype Problem = Fails(failure: Failure) | Throws(error: SelectionError)

  function QuantitySum(items: seq<Request>): int {
    if items == [] then 0
    else
      var last := items[|items| - 1].quantity;
      QuantitySum(items[..|items| - 1]) + (if last.Safe? then last.n else 0)
  }

  predicate Truthy(id: Option<string>) {
    id.Some? && id.value != ""
  }

  /** What is wrong with the request at line `k`, all earlier lines being fine. */
  function ProblemAt(items: seq<Request>, k: nat): Option<Problem>
    requires k < |items|
  {
    var item := items[k];
    if item.quantity.NotSafe? || item.quantity.n <= 0 then Some(Fails(InvalidSelectionQuantity))
    else if QuantitySum(items[..k]) + item.quantity.n > MAX_TOTAL_QUANTITY then Some(Fails(InvalidSelectionQuantity))
    else if !Truthy(item.variantId) then Some(Fails(MissingSelection))
    else if item.role == Unknown then Some(Throws(UnknownRole))
    else None
  }

  predicate Acceptable(items: seq<Request>) {
    forall k :: 0 <= k < |items| ==> ProblemAt(items, k) == None
  }

  function CandidateAt(items: seq<Request>, k: nat): Candidate
    requires k < |items| && ProblemAt(items, k) == None
  {
    Candidate(k, items[k].productId, items[k].variantId.value, items[k].quantity.n, BillingRole(items[k].role))
  }

  function CandidatesOf(items: seq<Request>): (cs: seq<Candidate>)
    requires Acceptable(items)
    ensures |cs| == |items|
  {
    seq(|items|, k requires 0 <= k < |items| => CandidateAt(items, k))
  }

  /** The problem of the first line that has one. */
  predicate FirstProblem(items: seq<Request>, problem: Option<Problem>) {
    exists k :: 0 <= k < |items| && problem == ProblemAt(items, k) && problem != None && NoProblemBefore(items, k)
  }

  predicate NoProblemBefore(items: seq<Request>, k: nat)
    requires k <= |items|
  {
    forall j :: 0 <= j < k ==> ProblemAt(items, j) == None
  }

  method ReadCandidates(items: seq<Request>) returns (candidates: seq<Candidate>, problem: Option<Problem>)
    ensures problem == None <==> Acceptable(items)
    ensures problem == None ==> candidates == CandidatesOf(items)
    ensures problem != None ==> FirstProblem(items, problem)
  {
    candidates := [];
    var total := 0;
    for i := 0 to |items|
      invariant total == QuantitySum(items[..i])
      invariant NoProblemBefore(items, i)
      invariant |candidates| == i && forall j :: 0 <= j < i ==> candidates[j] == CandidateAt(items, j)
    {
      var item := items[i];
      if item.quantity.NotSafe? || item.quantity.n <= 0 {
        assert ProblemAt(items, i) == Some(Fails(InvalidSelectionQuantity));
        return [], Some(Fails(InvalidSelectionQuantity));
      }
      total := total + item.quantity.n;
      if total > MAX_SAFE || total > MAX_TOTAL_QUANTITY {
        assert ProblemAt(items, i) == Some(Fails(InvalidSelectionQuantity));
        return [], Some(Fails(InvalidSelectionQuantity));
      }
      if !Truthy(item.variantId) {
        assert ProblemAt(items, i) == Some(Fails(MissingSelection));
        return [], Some(Fails(MissingSelection));
      }
      if item.role == Unknown {
        assert ProblemAt(items, i) == Some(Throws(UnknownRole));
        return [], Some(Throws(UnknownRole));
      }
      candidates := candidates + [Candidate(i, item.productId, item.variantId.value, item.quantity.n, BillingRole(item.role))];
      assert items[..i + 1][..i] == items[..i];
    }
    problem := None;
  }

  // --- Checking candidates against the catalog ---

  function IssueOf(c: Candidate, catalog: Catalog): Option<Failure> {
    if c.variantId !in catalog then Some(Unavailable)
    else if Truthy(c.productId) && c.productId.value != catalog[c.variantId].productId then Some(ProductVariantMismatch)
    else None
  }

  predicate Forbidden(c: Candidate, catalog: Catalog) {
    c.variantId in catalog && c.role == FreeAccessory && !catalog[c.variantId].allowFreeAccessory
  }

  /** The first issue in request order. */
  function FirstIssue(cs: seq<Candidate>, catalog: Catalog): Option<Failure> {
    if cs == [] then None
    else
      var earlier := FirstIssue(cs[..|cs| - 1], catalog);
      if earlier.Some? then earlier else IssueOf(cs[|cs| - 1], catalog)
  }

  lemma {:induction false} NoIssue(cs: seq<Candidate>, catalog: Catalog)
    ensures FirstIssue(cs, catalog) == None <==> forall k :: 0 <= k < |cs| ==> IssueOf(cs[k], catalog) == None
  {
    if cs != [] {
      NoIssue(cs[..|cs| - 1], catalog);
      assert forall k :: 0 <= k < |cs| - 1 ==> cs[..|cs| - 1][k] == cs[k];
    }
  }

  method CheckCandidates(cs: seq<Candidate>, catalog: Catalog) returns (failure: Option<Failure>, forbidden: bool)
    ensures forbidden <==> exists k :: 0 <= k < |cs| && Forbidden(cs[k], catalog)
    ensures !forbidden ==> failure == FirstIssue(cs, catalog)
  {
    failure := None;
    for i := 0 to |cs|
      invariant failure == FirstIssue(cs[..i], catalog)
      invariant forall k :: 0 <= k < i ==> !Forbidden(cs[k], catalog)
    {
      var c := cs[i];
      if c.variantId !in catalog {
        failure := if failure.Some? then failure else Some(Unavailable);
      } else if Truthy(c.productId) && c.productId.value != catalog[c.variantId].productId {
        failure := if failure.Some? then failure else Some(ProductVariantMismatch);
      }
      if c.variantId in catalog && c.role == FreeAccessory && !catalog[c.variantId].allowFreeAccessory {
        return failure, true;
      }
      assert cs[..i + 1][..i] == cs[..i];
    }
    assert cs[..|cs|] == cs;
    forbidden := false;
  }

  // --- Merging ---

  predicate SameKey(a: Candidate, b: Candidate) {
    a.variantId == b.variantId && a.role == b.role
  }

  /** Position of the group with the candidate's key, or the number of groups. */
  function Find(gs: seq<Group>, c: Candidate): (i: nat)
    ensures i <= |gs| && (i < |gs| ==> SameKey(gs[i].first, c))
    ensures forall j :: 0 <= j < i ==> !SameKey(gs[j].first, c)
  {
    if gs == [] || SameKey(gs[0].first, c) then 0 else 1 + Find(gs[1..], c)
  }

  function Add(gs: seq<Group>, c: Candidate): seq<Group> {
    var i := Find(gs, c);
    if i < |gs| then gs[i := gs[i].(requested := gs[i].requested + c.quantity)] else gs + [Group(c, c.quantity)]
  }

  function Merge(cs: seq<Candidate>): seq<Group> {
    if cs == [] then [] else Add(Merge(cs[..|cs| - 1]), cs[|cs| - 1])
  }

  method MergeCandidates(cs: seq<Candidate>) returns (groups: seq<Group>)
    ensures groups == Merge(cs)
  {
    groups := [];
    for i := 0 to |cs|
      invariant groups == Merge(cs[..i])
    {
      var current := FindGroup(groups, cs[i]);
      if current < |groups| {
        groups := groups[current := groups[current].(requested := groups[current].requested + cs[i].quantity)];
      } else {
        groups := groups + [Group(cs[i], cs[i].quantity)];
      }
      assert cs[..i + 1][..i] == cs[..i];
    }
    assert cs[..|cs|] == cs;
  }

  /** Lookup by the text key of variant and role. */
  method FindGroup(gs: seq<Group>, c: Candidate) returns (i: nat)
    ensures i == Find(gs, c)
  {
    i := 0;
    while i < |gs| && SelectionKey(gs[i].first.variantId, gs[i].first.role) != SelectionKey(c.variantId, c.role)
      invariant i <= |gs|
      invariant forall j :: 0 <= j < i ==> !SameKey(gs[j].first, c)
    {
      SelectionKeyInjective(gs[i].first.variantId, gs[i].first.role, c.variantId, c.role);
      i := i + 1;
    }
    if i < |gs| {
      SelectionKeyInjective(gs[i].first.variantId, gs[i].first.role, c.variantId, c.role);
    }
  }

  function SumIf(cs: seq<Candidate>, f: (string, Role) -> bool): int {
    if cs == [] then 0
    else
      var c := cs[|cs| - 1];
      SumIf(cs[..|cs| - 1], f) + (if f(c.variantId, c.role) then c.quantity else 0)
  }

  function GroupSumIf(gs: seq<Group>, f: (string, Role) -> bool): int {
    if gs == [] then 0
    else
      var g := gs[0];
      (if f(g.first.variantId, g.first.role) then g.requested else 0) + GroupSumIf(gs[1..], f)
  }

  function ForKey(variantId: string, role: Role): (string, Role) -> bool {
    (v, r) => v == variantId && r == role
  }

  function ForVariant(variantId: string): (string, Role) -> bool {
    (v, r) => v == variantId
  }

  function ForRole(role: Role): (string, Role) -> bool {
    (v, r) => r == role
  }

  lemma {:induction false} AddSum(gs: seq<Group>, c: Candidate, f: (string, Role) -> bool)
    ensures GroupSumIf(Add(gs, c), f) == GroupSumIf(gs, f) + (if f(c.variantId, c.role) then c.quantity else 0)
  {
    if gs == [] {
      assert Add(gs, c)[1..] == [];
    } else if SameKey(gs[0].first, c) {
      assert Add(gs, c)[1..] == gs[1..];
    } else {
      AddSum(gs[1..], c, f);
      assert Add(gs, c)[1..] == Add(gs[1..], c);
    }
  }

  /** Merging conserves the demand of every set of keys: of one key, of one variant, of one role, of all of them. */
  lemma {:induction false} MergeConserves(cs: seq<Candidate>, f: (string, Role) -> bool)
    ensures GroupSumIf(Merge(cs), f) == SumIf(cs, f)
  {
    if cs != [] {
      MergeConserves(cs[..|cs| - 1], f);
      AddSum(Merge(cs[..|cs| - 1]), cs[|cs| - 1], f);
    }
  }

  predicate Indexed(cs: seq<Candidate>) {
    forall k :: 0 <= k < |cs| ==> cs[k].index == k
  }

  /** One group per key, in ascending order of the requests that opened the groups. */
  predicate OneGroupPerKey(gs: seq<Group>) {
    forall a, b :: 0 <= a < b < |gs| ==>
      !SameKey(gs[a].first, gs[b].first) && gs[a].first.index < gs[b].first.index
  }

  /** Each group was opened by the first request for its key. */
  predicate OpenedByFirst(cs: seq<Candidate>, gs: seq<Group>) {
    && (forall a :: 0 <= a < |gs| ==> gs[a].first.index < |cs| && cs[gs[a].first.index] == gs[a].first)
    && (forall a, k :: 0 <= a < |gs| && 0 <= k < |cs| && SameKey(cs[k], gs[a].first) ==> gs[a].first.index <= k)
  }

  predicate EveryKeyGrouped(cs: seq<Candidate>, gs: seq<Group>) {
    forall k :: 0 <= k < |cs| ==> Find(gs, cs[k]) < |gs|
  }

  lemma {:induction false} MergeOrder(cs: seq<Candidate>)
    requires Indexed(cs)
    ensures OneGroupPerKey(Merge(cs)) && OpenedByFirst(cs, Merge(cs)) && EveryKeyGrouped(cs, Merge(cs))
  {
    if cs != [] {
      var n := |cs| - 1;
      MergeOrder(cs[..n]);
      var gs := Merge(cs[..n]);
      AddKeepsGroups(cs[..n], gs, cs[n]);
      AddKeepsFirsts(cs, gs, n);
      AddCovers(cs, gs, n);
    }
  }

  lemma AddKeepsGroups(cs: seq<Candidate>, gs: seq<Group>, c: Candidate)
    requires OneGroupPerKey(gs) && OpenedByFirst(cs, gs) && c.index == |cs|
    ensures OneGroupPerKey(Add(gs, c))
  {
    var hs := Add(gs, c);
    assert forall a :: 0 <= a < |gs| ==> hs[a].first == gs[a].first;
  }

  lemma AddKeepsFirsts(cs: seq<Candidate>, gs: seq<Group>, n: nat)
    requires Indexed(cs) && n == |cs| - 1 && OpenedByFirst(cs[..n], gs) && EveryKeyGrouped(cs[..n], gs)
    ensures OpenedByFirst(cs, Add(gs, cs[n]))
  {
    var hs := Add(gs, cs[n]);
    forall a | 0 <= a < |hs|
      ensures hs[a].first.index < |cs| && cs[hs[a].first.index] == hs[a].first
      ensures forall k :: 0 <= k < |cs| && SameKey(cs[k], hs[a].first) ==> hs[a].first.index <= k
    {
      if a < |gs| {
        assert hs[a].first == gs[a].first;
        forall k | 0 <= k < n && SameKey(cs[k], hs[a].first) ensures hs[a].first.index <= k {
          assert cs[..n][k] == cs[k];
        }
      } else {
        forall k | 0 <= k < n ensures !SameKey(cs[k], cs[n]) {
          assert Find(gs, cs[..n][k]) < |gs|;
        }
      }
    }
  }

  lemma AddCovers(cs: seq<Candidate>, gs: seq<Group>, n: nat)
    requires n == |cs| - 1 && EveryKeyGrouped(cs[..n], gs)
    ensures EveryKeyGrouped(cs, Add(gs, cs[n]))
  {
    var hs := Add(gs, cs[n]);
    assert forall a :: 0 <= a < |gs| ==> hs[a].first == gs[a].first;
    forall k | 0 <= k < n ensures Find(hs, cs[k]) < |hs| {
      assert cs[..n][k] == cs[k];
      assert SameKey(hs[Find(gs, cs[k])].first, cs[k]);
    }
    assert SameKey(hs[Find(gs, cs[n])].first, cs[n]);
  }

  /** With one group per key, the quantity of a group is all that was asked for under its key. */
  lemma GroupQuantity(cs: seq<Candidate>, a: nat)
    requires Indexed(cs) && a < |Merge(cs)|
    ensures var g := Merge(cs)[a];
      g.requested == SumIf(cs, ForKey(g.first.variantId, g.first.role))
  {
    var gs := Merge(cs);
    var f := ForKey(gs[a].first.variantId, gs[a].first.role);
    MergeOrder(cs);
    MergeConserves(cs, f);
    OnlyGroup(gs, a, f);
  }

  lemma {:induction false} OnlyGroup(gs: seq<Group>, a: nat, f: (string, Role) -> bool)
    requires a < |gs|
    requires forall b :: 0 <= b < |gs| ==> (f(gs[b].first.variantId, gs[b].first.role) <==> b == a)
    ensures GroupSumIf(gs, f) == gs[a].requested
  {
    if a == 0 {
      NoGroup(gs[1..], f);
    } else {
      OnlyGroup(gs[1..], a - 1, f);
    }
  }

  lemma {:induction false} NoGroup(gs: seq<Group>, f: (string, Role) -> bool)
    requires forall b :: 0 <= b < |gs| ==> !f(gs[b].first.variantId, gs[b].first.role)
    ensures GroupSumIf(gs, f) == 0
  {
    if gs != [] { NoGroup(gs[1..], f); }
  }

  // --- Stock ---

  function VariantDemand(gs: seq<Group>, variantId: string): int {
    GroupSumIf(gs, ForVariant(variantId))
  }

  function Total(totals: map<string, int>, variantId: string): int {
    if variantId in totals then totals[variantId] else 0
  }

  method TotalDemandByVariant(gs: seq<Group>) returns (totals: map<string, int>)
    ensures forall v :: Total(totals, v) == VariantDemand(gs, v)
    ensures forall a :: 0 <= a < |gs| ==> gs[a].first.variantId in totals
  {
    totals := map[];
    assert gs[0..] == gs;
    for i := 0 to |gs|
      invariant forall v :: Total(totals, v) + VariantDemand(gs[i..], v) == VariantDemand(gs, v)
      invariant forall a :: 0 <= a < i ==> gs[a].first.variantId in totals
    {
      var v := gs[i].first.variantId;
      assert gs[i..][1..] == gs[i + 1..];
      totals := totals[v := (if v in totals then totals[v] else 0) + gs[i].requested];
    }
  }

  function LineOf(gs: seq<Group>, g: Group, catalog: Catalog): Line {
    if g.first.variantId !in catalog then
      Line(if Truthy(g.first.productId) then g.first.productId else None,
        g.first.variantId, g.requested, g.first.role, 0, false, Some(NotRentable))
    else
      var variant := catalog[g.first.variantId];
      var enough := |variant.inventory| >= VariantDemand(gs, variant.id);
      Line(Some(variant.productId), variant.id, g.requested, g.first.role, |variant.inventory|, enough,
        if enough then None else Some(InsufficientQuantity))
  }

  function LinesOf(gs: seq<Group>, catalog: Catalog): (r: seq<Line>)
    ensures |r| == |gs|
  {
    seq(|gs|, a requires 0 <= a < |gs| => LineOf(gs, gs[a], catalog))
  }

  function DemandsOf(gs: seq<Group>, catalog: Catalog): seq<Demand> {
    if gs == [] then []
    else
      var g := gs[|gs| - 1];
      DemandsOf(gs[..|gs| - 1], catalog) +
      (if g.first.variantId in catalog then [Demand(catalog[g.first.variantId], g.requested, g.first.role)] else [])
  }

  datatype OrderedLine = OrderedLine(index: nat, line: Line)

  function InsertByIndex(x: OrderedLine, xs: seq<OrderedLine>): seq<OrderedLine> {
    if xs == [] || x.index <= xs[0].index then [x] + xs else [xs[0]] + InsertByIndex(x, xs[1..])
  }

  function SortByIndex(xs: seq<OrderedLine>): seq<OrderedLine> {
    if xs == [] then [] else InsertByIndex(xs[0], SortByIndex(xs[1..]))
  }

  /** Groups already stand in ascending order, so sorting by index leaves them alone. */
  lemma {:induction false} SortOfAscending(xs: seq<OrderedLine>)
    requires forall a, b :: 0 <= a < b < |xs| ==> xs[a].index < xs[b].index
    ensures SortByIndex(xs) == xs
  {
    if xs != [] { SortOfAscending(xs[1..]); }
  }

  predicate AnyMissing(gs: seq<Group>, catalog: Catalog) {
    exists a :: 0 <= a < |gs| && gs[a].first.variantId !in catalog
  }

  method BuildLine(g: Group, catalog: Catalog, totals: map<string, int>, ghost gs: seq<Group>) returns (line: Line)
    requires g.first.variantId in totals && Total(totals, g.first.variantId) == VariantDemand(gs, g.first.variantId)
    ensures line == LineOf(gs, g, catalog)
  {
    if g.first.variantId !in catalog {
      return Line(if Truthy(g.first.productId) then g.first.productId else None,
        g.first.variantId, g.requested, g.first.role, 0, false, Some(NotRentable));
    }
    var variant := catalog[g.first.variantId];
    var needed := if variant.id in totals then totals[variant.id] else g.requested;
    var issue := if |variant.inventory| < needed then Some(InsufficientQuantity) else None;
    line := Line(Some(variant.productId), variant.id, g.requested, g.first.role,
      |variant.inventory|, issue == None, issue);
  }

  method BuildLines(gs: seq<Group>, catalog: Catalog, issue: Option<Failure>)
    returns (demands: seq<Demand>, items: seq<Line>, failure: Option<Failure>)
    requires OneGroupPerKey(gs)
    ensures demands == DemandsOf(gs, catalog) && items == LinesOf(gs, catalog)
    ensures failure == if issue == None && AnyMissing(gs, catalog) then Some(Unavailable) else issue
  {
    var totals := TotalDemandByVariant(gs);
    var ordered: seq<OrderedLine> := [];
    demands, failure := [], issue;
    for i := 0 to |gs|
      invariant demands == DemandsOf(gs[..i], catalog)
      invariant |ordered| == i && LinesBuilt(gs, catalog, ordered)
      invariant failure == if issue == None && AnyMissing(gs[..i], catalog) then Some(Unavailable) else issue
    {
      var g := gs[i];
      var line := BuildLine(g, catalog, totals, gs);
      LineAdded(gs, catalog, ordered);
      ordered := ordered + [OrderedLine(g.first.index, line)];
      MissingStep(gs, i, catalog);
      if g.first.variantId !in catalog {
        failure := if failure.Some? then failure else Some(Unavailable);
      } else {
        demands := demands + [Demand(catalog[g.first.variantId], g.requested, g.first.role)];
      }
      DemandStep(gs, i, catalog);
    }
    assert gs[..|gs|] == gs;
    SortedLines(gs, catalog, ordered);
    items := Lines(SortByIndex(ordered));
  }

  function Lines(xs: seq<OrderedLine>): seq<Line> {
    seq(|xs|, a requires 0 <= a < |xs| => xs[a].line)
  }

  /** Every group so far has its line, under the index of the request that opened it. */
  predicate LinesBuilt(gs: seq<Group>, catalog: Catalog, ordered: seq<OrderedLine>) {
    && |ordered| <= |gs|
    && forall a :: 0 <= a < |ordered| ==> ordered[a] == OrderedLine(gs[a].first.index, LineOf(gs, gs[a], catalog))
  }

  lemma SortedLines(gs: seq<Group>, catalog: Catalog, ordered: seq<OrderedLine>)
    requires OneGroupPerKey(gs) && LinesBuilt(gs, catalog, ordered) && |ordered| == |gs|
    ensures Lines(SortByIndex(ordered)) == LinesOf(gs, catalog)
  {
    SortOfAscending(ordered);
  }

  lemma LineAdded(gs: seq<Group>, catalog: Catalog, ordered: seq<OrderedLine>)
    requires LinesBuilt(gs, catalog, ordered) && |ordered| < |gs|
    ensures var g := gs[|ordered|];
      LinesBuilt(gs, catalog, ordered + [OrderedLine(g.first.index, LineOf(gs, g, catalog))])
  {
  }

  lemma DemandStep(gs: seq<Group>, i: nat, catalog: Catalog)
    requires i < |gs|
    ensures var g := gs[i];
      DemandsOf(gs[..i + 1], catalog) == DemandsOf(gs[..i], catalog) +
      (if g.first.variantId in catalog then [Demand(catalog[g.first.variantId], g.requested, g.first.role)] else [])
  {
    assert gs[..i + 1][..i] == gs[..i];
  }

  lemma MissingStep(gs: seq<Group>, i: nat, catalog: Catalog)
    requires i < |gs|
    ensures AnyMissing(gs[..i + 1], catalog) <==> AnyMissing(gs[..i], catalog) || gs[i].first.variantId !in catalog
  {
    assert gs[..i + 1] == gs[..i] + [gs[i]];
    if gs[i].first.variantId !in catalog {
      assert gs[..i + 1][i] == gs[i];
    }
    if a :| 0 <= a < i && gs[..i][a].first.variantId !in catalog {
      assert gs[..i + 1][a] == gs[..i][a];
    }
  }

  // --- The whole evaluation ---

  function PortionsOf(items: seq<Request>): (ps: seq<Portion>)
    ensures |ps| == |items|
  {
    seq(|items|, k requires 0 <= k < |items| => Portion(items[k].quantity, items[k].role))
  }

  lemma AcceptableCounts(items: seq<Request>)
    requires Acceptable(items)
    ensures AllCounted(PortionsOf(items))
  {
    forall k | 0 <= k < |items| ensures Counted(PortionsOf(items)[k]) {
      assert ProblemAt(items, k) == None;
    }
  }

  function EvaluationOf(cs: seq<Candidate>, catalog: Catalog): Evaluation {
    Evaluation(DemandsOf(Merge(cs), catalog), LinesOf(Merge(cs), catalog), FirstIssue(cs, catalog))
  }

  function OutcomeOf(problem: Problem): Outcome {
    match problem
    case Fails(failure) => Evaluated(Evaluation([], [], Some(failure)))
    case Throws(error) => Thrown(error)
  }

  function AllowanceOf(items: seq<Request>): AllowanceResult
    requires Acceptable(items)
  {
    AcceptableCounts(items);
    Verdict(Units(PortionsOf(items), Paid), Units(PortionsOf(items), FreeAccessory))
  }

  predicate AccessoryForbidden(items: seq<Request>, catalog: Catalog)
    requires Acceptable(items)
  {
    exists k :: 0 <= k < |items| && Forbidden(CandidatesOf(items)[k], catalog)
  }

  function AcceptedOutcome(items: seq<Request>, catalog: Catalog): Outcome
    requires Acceptable(items)
  {
    if AllowanceOf(items).Refused? then Thrown(Accessories(AllowanceOf(items).error))
    else if AccessoryForbidden(items, catalog) then Thrown(FreeAccessoryNotAllowed)
    else Evaluated(EvaluationOf(CandidatesOf(items), catalog))
  }

  method EvaluateWebRentalSelection(items: seq<Request>, catalog: Catalog) returns (r: Outcome)
    ensures !Acceptable(items) ==>
      exists problem :: FirstProblem(items, Some(problem)) && r == OutcomeOf(problem)
    ensures Acceptable(items) ==> r == AcceptedOutcome(items, catalog)
  {
    var candidates, problem := ReadCandidates(items);
    if problem.Some? {
      return OutcomeOf(problem.value);
    }
    AcceptableCounts(items);
    var allowance := RentalAccessoryAllowance(PortionsOf(items));
    if allowance.Refused? {
      return Thrown(Accessories(allowance.error));
    }
    var issue, forbidden := CheckCandidates(candidates, catalog);
    if forbidden {
      return Thrown(FreeAccessoryNotAllowed);
    }
    var groups := MergeCandidates(candidates);
    MergeOrder(candidates);
    var demands, lines, failure := BuildLines(groups, catalog, issue);
    MissingVariantIsAnIssue(candidates, catalog);
    r := Evaluated(Evaluation(demands, lines, failure));
  }

  /** The failure set while building lines was already set while checking candidates. */
  lemma MissingVariantIsAnIssue(cs: seq<Candidate>, catalog: Catalog)
    requires Indexed(cs)
    ensures FirstIssue(cs, catalog) == None ==> !AnyMissing(Merge(cs), catalog)
  {
    MergeOrder(cs);
    NoIssue(cs, catalog);
    if FirstIssue(cs, catalog) == None {
      forall a | 0 <= a < |Merge(cs)| ensures Merge(cs)[a].first.variantId in catalog {
        assert IssueOf(cs[Merge(cs)[a].first.index], catalog) == None;
      }
    }
  }
}
