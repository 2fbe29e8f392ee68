/** Cycle pricing of one rented unit, in whole cents. */
module RentalPricing {
  import opened Options
  import opened RentalAccessories

  const MAX_AMOUNT := 100_000_000
  const MAX_DAYS := 365
  const MAX_THRESHOLD := 1000

  datatype Policy = Policy(
    defaultRentalPrice: int, additionalDayFee: int, bulkQuantityThreshold: int,
    standardRenewalDay: int, bulkRenewalDay: int, maxOnlineRentalDays: int)

  predicate ValidPolicy(p: Policy) {
    && 0 <= p.defaultRentalPrice <= MAX_AMOUNT
    && 0 <= p.additionalDayFee <= MAX_AMOUNT
    && 1 <= p.bulkQuantityThreshold <= MAX_THRESHOLD
    && 2 <= p.standardRenewalDay <= MAX_DAYS
    && 2 <= p.bulkRenewalDay <= MAX_DAYS
    && p.standardRenewalDay <= p.bulkRenewalDay
    && 1 <= p.maxOnlineRentalDays <= MAX_DAYS
  }

  /** A price as a JavaScript number: non-negative with at most two decimals, or anything else. */
  datatype Price = Cents(cents: nat) | Malformed

  datatype Error = InvalidDuration | PricingQuantity | InvalidPolicy | InvalidCyclePrice | AmountExceeded

  datatype Result<T> = Ok(value: T) | Err(error: Error)

  datatype PriceSource = Shop | Order | ItemLine

  datatype Pricing = Pricing(
    durationDays: int, billableQuantity: int, renewalDay: int, cycleLengthDays: int, cycleCount: int,
    additionalDayCount: int, cyclePrice: Price, additionalDayFee: int, priceSource: PriceSource, unitRentalPrice: int)

  function CyclePriceCents(p: Price): Result<int> {
    if p.Malformed? || p.cents > MAX_SAFE then Err(InvalidCyclePrice) else Ok(p.cents)
  }

  function Checked(totalCents: int): Result<int> {
    if totalCents > MAX_SAFE then Err(AmountExceeded) else Ok(totalCents)
  }

  function CycleCount(days: int, length: int): int
    requires length >= 1
  {
    1 + (days - 1) / length
  }

  /** The closed form of the price of `days` days. */
  function Total(days: int, length: int, price: int, fee: int): int
    requires length >= 1
  {
    CycleCount(days, length) * price + (days - CycleCount(days, length)) * fee
  }

  predicate BadOverride(p: Option<Price>) {
    p.Some? && CyclePriceCents(p.value).Err?
  }

  function RenewalDay(billableQuantity: int, policy: Policy): int {
    if billableQuantity >= policy.bulkQuantityThreshold then policy.bulkRenewalDay else policy.standardRenewalDay
  }

  function Resolve(days: Quantity, billable: Quantity, policy: Policy, order: Option<Price>, item: Option<Price>)
    : (r: Result<Pricing>)
  {
    if days.NotSafe? || days.n < 1 then Err(InvalidDuration)
    else if billable.NotSafe? || billable.n < 1 then Err(PricingQuantity)
    else if !ValidPolicy(policy) then Err(InvalidPolicy)
    else if BadOverride(order) || BadOverride(item) then Err(InvalidCyclePrice)
    else
      var cyclePrice :=
        if item.Some? then item.value else if order.Some? then order.value else Cents(policy.defaultRentalPrice * 100);
      var source := if item.Some? then ItemLine else if order.Some? then Order else Shop;
      var length := RenewalDay(billable.n, policy) - 1;
      match CyclePriceCents(cyclePrice)
      case Err(e) => Err(e)
      case Ok(cents) =>
        match Checked(Total(days.n, length, cents, policy.additionalDayFee * 100))
        case Err(e) => Err(e)
        case Ok(total) =>
          Ok(Pricing(days.n, billable.n, length + 1, length, CycleCount(days.n, length),
            days.n - CycleCount(days.n, length), cyclePrice, policy.additionalDayFee, source, total))
  }

  // --- The tariff, day by day ---

  /** A cycle starts on day 1 and on every renewal day; every other day costs the additional-day fee. */
  function DayPrice(day: int, length: int, price: int, fee: int): int
    requires length >= 1
  {
    if (day - 1) % length == 0 then price else fee
  }

  function Tariff(days: nat, length: int, price: int, fee: int): int
    requires length >= 1
  {
    if days == 0 then 0 else Tariff(days - 1, length, price, fee) + DayPrice(days, length, price, fee)
  }

  lemma DivStep(n: nat, length: int)
    requires length >= 1
    ensures (n + 1) / length == n / length + (if (n + 1) % length == 0 then 1 else 0)
  {
    var q, r := n / length, n % length;
    assert n == q * length + r;
    if r + 1 < length {
      DivUnique(n + 1, length, q, r + 1);
    } else {
      assert n + 1 == (q + 1) * length;
      DivUnique(n + 1, length, q + 1, 0);
    }
  }

  lemma DivUnique(n: nat, length: int, q: int, r: int)
    requires length >= 1 && 0 <= r < length && n == q * length + r
    ensures n / length == q && n % length == r
  {
    var q', r' := n / length, n % length;
    assert (q - q') * length == r' - r;
    Magnitude(q - q', length);
  }

  lemma Magnitude(k: int, length: int)
    requires length >= 1
    ensures k >= 1 ==> k * length >= length
    ensures k <= -1 ==> k * length <= -length
  {
  }

  lemma CycleCountStep(days: int, length: int)
    requires days >= 1 && length >= 1
    ensures CycleCount(days + 1, length) == CycleCount(days, length) + (if days % length == 0 then 1 else 0)
  {
    DivStep(days - 1, length);
  }

  /** The closed form charges exactly the tariff, and splits the days into cycles and additional days. */
  lemma {:induction false} ClosedFormIsTariff(days: nat, length: int, price: int, fee: int)
    requires days >= 1 && length >= 1
    ensures Total(days, length, price, fee) == Tariff(days, length, price, fee)
    ensures 1 <= CycleCount(days, length) <= days
  {
    if days == 1 {
      assert 0 / length == 0;
      assert Tariff(1, length, price, fee) == Tariff(0, length, price, fee) + price;
    } else {
      ClosedFormIsTariff(days - 1, length, price, fee);
      CycleCountStep(days - 1, length);
      var c := CycleCount(days - 1, length);
      TotalStep(c, days - 1, price, fee);
    }
  }

  lemma TotalStep(c: int, days: int, price: int, fee: int)
    ensures (c + 1) * price + (days + 1 - (c + 1)) * fee == c * price + (days - c) * fee + price
    ensures c * price + (days + 1 - c) * fee == c * price + (days - c) * fee + fee
  {
  }

  /** The tariff of the tier that the quantity reaches: bulk from the threshold on, standard below it. */
  function TierTariff(days: nat, billable: int, policy: Policy, price: int): int
    requires policy.standardRenewalDay >= 2 && policy.bulkRenewalDay >= 2
  {
    if billable >= policy.bulkQuantityThreshold
    then Tariff(days, policy.bulkRenewalDay - 1, price, policy.additionalDayFee * 100)
    else Tariff(days, policy.standardRenewalDay - 1, price, policy.additionalDayFee * 100)
  }

  /** A resolved price is the tariff of its tier and price, with consistent day counts. */
  lemma ResolvedPriceIsTariff(
      days: Quantity, billable: Quantity, policy: Policy, order: Option<Price>, item: Option<Price>)
    ensures Resolve(days, billable, policy, order, item).Ok? ==>
      var p := Resolve(days, billable, policy, order, item).value;
      && p.cyclePrice.Cents?
      && p.durationDays == days.n >= 1 && p.billableQuantity == billable.n
      && (billable.n >= policy.bulkQuantityThreshold ==>
            p.renewalDay == policy.bulkRenewalDay
            && p.unitRentalPrice ==
              Tariff(days.n, policy.bulkRenewalDay - 1, p.cyclePrice.cents, policy.additionalDayFee * 100))
      && (billable.n < policy.bulkQuantityThreshold ==>
            p.renewalDay == policy.standardRenewalDay
            && p.unitRentalPrice ==
              Tariff(days.n, policy.standardRenewalDay - 1, p.cyclePrice.cents, policy.additionalDayFee * 100))
      && p.cycleLengthDays == p.renewalDay - 1 >= 1
      && p.cycleCount + p.additionalDayCount == p.durationDays
      && p.cycleCount >= 1 && p.additionalDayCount >= 0 && p.additionalDayFee == policy.additionalDayFee
      && 0 <= p.unitRentalPrice <= MAX_SAFE
      // The item's own price counts, else the order's, else the shop's.
      && (item.Some? ==> p.cyclePrice == item.value && p.priceSource == ItemLine)
      && (item.None? && order.Some? ==> p.cyclePrice == order.value && p.priceSource == Order)
      && (item.None? && order.None? ==> p.cyclePrice == Cents(policy.defaultRentalPrice * 100) && p.priceSource == Shop)
  {
    if Resolve(days, billable, policy, order, item).Ok? {
      var p := Resolve(days, billable, policy, order, item).value;
      ClosedFormIsTariff(days.n, p.cycleLengthDays, p.cyclePrice.cents, p.additionalDayFee * 100);
      TariffNotNegative(days.n, p.cycleLengthDays, p.cyclePrice.cents, p.additionalDayFee * 100);
    }
  }

  lemma {:induction false} TariffNotNegative(days: nat, length: int, price: int, fee: int)
    requires length >= 1 && price >= 0 && fee >= 0
    ensures Tariff(days, length, price, fee) >= 0
  {
    if days > 0 { TariffNotNegative(days - 1, length, price, fee); }
  }

  /** The price in force: the item's own override, else the order's, else the shop's. */
  function EffectivePrice(policy: Policy, order: Option<Price>, item: Option<Price>): Price {
    item.GetOr(order.GetOr(Cents(if policy.defaultRentalPrice >= 0 then policy.defaultRentalPrice * 100 else 0)))
  }

  /**
   * A price is resolved exactly when duration, quantity, policy and every supplied override are valid, also an
   * override that a more specific one supersedes, and the tariff of the tier stays below the calculation limit.
   */
  lemma ResolvesExactlyWhen(
      days: Quantity, billable: Quantity, policy: Policy, order: Option<Price>, item: Option<Price>)
    ensures Resolve(days, billable, policy, order, item).Ok? <==>
      && days.Safe? && days.n >= 1
      && billable.Safe? && billable.n >= 1
      && 0 <= policy.defaultRentalPrice <= 100_000_000 && 0 <= policy.additionalDayFee <= 100_000_000
      && 1 <= policy.bulkQuantityThreshold <= 1000 && 1 <= policy.maxOnlineRentalDays <= 365
      && 2 <= policy.standardRenewalDay <= policy.bulkRenewalDay <= 365
      && (order.Some? ==> order.value.Cents? && order.value.cents <= MAX_SAFE)
      && (item.Some? ==> item.value.Cents? && item.value.cents <= MAX_SAFE)
      && TierTariff(days.n, billable.n, policy, EffectivePrice(policy, order, item).cents) <= MAX_SAFE
    ensures Resolve(days, billable, policy, order, item).Ok? ==>
      Resolve(days, billable, policy, order, item).value.cyclePrice == EffectivePrice(policy, order, item)
  {
    if days.Safe? && days.n >= 1 && billable.Safe? && billable.n >= 1 && ValidPolicy(policy)
      && !BadOverride(order) && !BadOverride(item)
    {
      ClosedFormIsTariff(days.n, RenewalDay(billable.n, policy) - 1, EffectivePrice(policy, order, item).cents,
        policy.additionalDayFee * 100);
    }
  }

  /** The error is that of the first check that fails: duration, quantity, policy, overrides, then the total. */
  lemma FirstFailureDecides(
      days: Quantity, billable: Quantity, policy: Policy, order: Option<Price>, item: Option<Price>)
    ensures var r := Resolve(days, billable, policy, order, item);
      var good, counted := days.Safe? && days.n >= 1, billable.Safe? && billable.n >= 1;
      && (r == Err(InvalidDuration) <==> !good)
      && (r == Err(PricingQuantity) <==> good && !counted)
      && (r == Err(InvalidPolicy) <==> good && counted && !ValidPolicy(policy))
      && (r == Err(InvalidCyclePrice) <==> (
            && good && counted && ValidPolicy(policy)
            && ((order.Some? && (order.value.Malformed? || order.value.cents > MAX_SAFE))
                || (item.Some? && (item.value.Malformed? || item.value.cents > MAX_SAFE)))))
  {
  }

  /** With a cycle price of at least the additional-day fee, renting more units never raises the price of one. */
  lemma MoreUnitsNeverCostMore(
      days: Quantity, fewer: Quantity, more: Quantity, policy: Policy, order: Option<Price>, item: Option<Price>)
    requires Resolve(days, fewer, policy, order, item).Ok? && Resolve(days, more, policy, order, item).Ok?
    requires fewer.n <= more.n
    requires EffectivePrice(policy, order, item).cents >= policy.additionalDayFee * 100
    ensures Resolve(days, more, policy, order, item).value.unitRentalPrice
      <= Resolve(days, fewer, policy, order, item).value.unitRentalPrice
  {
    BulkNeverCostsMore(days.n, policy, EffectivePrice(policy, order, item).cents);
  }

  // --- Shape of the price ---

  /** At one tier a longer rental never costs less. */
  lemma {:induction false} LongerNeverCostsLess(shorter: nat, longer: nat, length: int, price: int, fee: int)
    requires 1 <= shorter <= longer && length >= 1 && price >= 0 && fee >= 0
    ensures Total(shorter, length, price, fee) <= Total(longer, length, price, fee)
    decreases longer - shorter
  {
    if shorter < longer {
      LongerNeverCostsLess(shorter, longer - 1, length, price, fee);
      ClosedFormIsTariff(longer - 1, length, price, fee);
      ClosedFormIsTariff(longer, length, price, fee);
    }
  }

  lemma CycleCountSplit(d1: nat, d2: nat, length: int)
    requires d1 >= 1 && d2 >= 1 && length >= 1
    ensures 0 <= CycleCount(d1, length) + CycleCount(d2, length) - CycleCount(d1 + d2, length) <= 1
  {
    var a, b := d1 - 1, d2 - 1;
    var q1, r1, q2, r2 := a / length, a % length, b / length, b % length;
    assert a == q1 * length + r1 && b == q2 * length + r2;
    assert d1 + d2 - 1 == (q1 + q2) * length + (r1 + r2 + 1);
    if r1 + r2 + 1 < length {
      DivUnique(d1 + d2 - 1, length, q1 + q2, r1 + r2 + 1);
    } else {
      assert d1 + d2 - 1 == (q1 + q2 + 1) * length + (r1 + r2 + 1 - length);
      DivUnique(d1 + d2 - 1, length, q1 + q2 + 1, r1 + r2 + 1 - length);
    }
  }

  /** What two rentals cost more than one: at most once the difference between a cycle and an additional day. */
  function SplitCycles(d1: nat, d2: nat, length: int): int
    requires length >= 1
  {
    CycleCount(d1, length) + CycleCount(d2, length) - CycleCount(d1 + d2, length)
  }

  lemma SplitCost(d1: nat, d2: nat, length: int, price: int, fee: int)
    requires d1 >= 1 && d2 >= 1 && length >= 1
    ensures SplitCycles(d1, d2, length) in {0, 1}
    ensures Total(d1, length, price, fee) + Total(d2, length, price, fee) - Total(d1 + d2, length, price, fee)
      == SplitCycles(d1, d2, length) * (price - fee)
  {
    CycleCountSplit(d1, d2, length);
    Regroup(d1, CycleCount(d1, length), price, fee);
    Regroup(d2, CycleCount(d2, length), price, fee);
    Regroup(d1 + d2, CycleCount(d1 + d2, length), price, fee);
    var x, y, z, w := CycleCount(d1, length), CycleCount(d2, length), CycleCount(d1 + d2, length), price - fee;
    assert x * w + y * w - z * w == (x + y - z) * w;
    assert d1 * fee + d2 * fee == (d1 + d2) * fee;
  }

  lemma Regroup(days: int, c: int, price: int, fee: int)
    ensures c * price + (days - c) * fee == days * fee + c * (price - fee)
  {
  }

  /**
   * One long rental costs no more than the two halves exactly when a cycle costs at least an additional day, or the
   * split does not start an extra cycle.
   */
  lemma OneRentalNeverCostsMore(d1: nat, d2: nat, length: int, price: int, fee: int)
    requires d1 >= 1 && d2 >= 1 && length >= 1
    ensures Total(d1 + d2, length, price, fee) <= Total(d1, length, price, fee) + Total(d2, length, price, fee)
       <==> price >= fee || SplitCycles(d1, d2, length) == 0
  {
    SplitCost(d1, d2, length, price, fee);
  }

  lemma LongerCycleFewerCycles(days: nat, shorter: int, longer: int)
    requires days >= 1 && 1 <= shorter <= longer
    ensures CycleCount(days, longer) <= CycleCount(days, shorter)
  {
    var n := days - 1;
    var q, p := n / longer, n / shorter;
    assert q * longer <= n;
    assert q * shorter <= q * longer by { MulGrows(q, shorter, longer); }
    assert n == p * shorter + n % shorter;
    assert (q - p) * shorter == q * shorter - p * shorter;
    Magnitude(q - p, shorter);
  }

  lemma MulGrows(a: int, x: int, y: int)
    requires a >= 0 && x <= y
    ensures a * x <= a * y
  {
    assert a * (y - x) >= 0;
  }

  /** With a cycle price of at least the fee, a customer in the bulk tier never pays more per unit. */
  lemma BulkNeverCostsMore(days: nat, policy: Policy, price: int)
    requires days >= 1 && ValidPolicy(policy) && price >= policy.additionalDayFee * 100
    ensures Total(days, policy.bulkRenewalDay - 1, price, policy.additionalDayFee * 100)
      <= Total(days, policy.standardRenewalDay - 1, price, policy.additionalDayFee * 100)
  {
    var fee := policy.additionalDayFee * 100;
    var x, y := CycleCount(days, policy.bulkRenewalDay - 1), CycleCount(days, policy.standardRenewalDay - 1);
    LongerCycleFewerCycles(days, policy.standardRenewalDay - 1, policy.bulkRenewalDay - 1);
    Regroup(days, x, price, fee);
    Regroup(days, y, price, fee);
    MulGrows(price - fee, x, y);
  }

  // --- Sums ---

  predicate Countable(p: Price) { CyclePriceCents(p).Ok? }

  predicate AllCountable(amounts: seq<Price>) {
    forall i :: 0 <= i < |amounts| ==> Countable(amounts[i])
  }

  function CentSum(amounts: seq<Price>): int {
    if amounts == [] then 0
    else CentSum(amounts[..|amounts| - 1]) + (if amounts[|amounts| - 1].Cents? then amounts[|amounts| - 1].cents else 0)
  }

  /** The reducer stops at the first malformed amount. */
  function Reduce(amounts: seq<Price>): Result<int> {
    if amounts == [] then Ok(0)
    else
      match Reduce(amounts[..|amounts| - 1])
      case Err(e) => Err(e)
      case Ok(sum) =>
        match CyclePriceCents(amounts[|amounts| - 1])
        case Err(e) => Err(e)
        case Ok(cents) => Ok(sum + cents)
  }

  function SumAmounts(amounts: seq<Price>): Result<int> {
    match Reduce(amounts)
    case Err(e) => Err(e)
    case Ok(sum) => Checked(sum)
  }

  lemma {:induction false} ReduceIsSum(amounts: seq<Price>)
    ensures Reduce(amounts) == if AllCountable(amounts) then Ok(CentSum(amounts)) else Err(InvalidCyclePrice)
  {
    if amounts != [] {
      var n := |amounts| - 1;
      ReduceIsSum(amounts[..n]);
      assert forall i :: 0 <= i < n ==> amounts[..n][i] == amounts[i];
    }
  }

  lemma {:induction false} CentSumRemove(amounts: seq<Price>, i: nat)
    requires i < |amounts|
    ensures CentSum(amounts) ==
      CentSum(amounts[..i] + amounts[i + 1..]) + (if amounts[i].Cents? then amounts[i].cents else 0)
  {
    var n := |amounts| - 1;
    var rest := amounts[..i] + amounts[i + 1..];
    if i == n {
      assert rest == amounts[..n];
    } else {
      CentSumRemove(amounts[..n], i);
      assert amounts[..n][..i] + amounts[..n][i + 1..] == rest[..n - 1];
      assert rest[n - 1] == amounts[n];
    }
  }

  lemma {:induction false} CentSumOfPermutation(a: seq<Price>, b: seq<Price>)
    requires multiset(a) == multiset(b)
    ensures CentSum(a) == CentSum(b)
  {
    SameLength(a, b);
    if a != [] {
      var n := |a| - 1;
      assert a[n] in multiset(b);
      var i :| 0 <= i < |b| && b[i] == a[n];
      CentSumRemove(b, i);
      MultisetRemove(a, n);
      MultisetRemove(b, i);
      assert a[..n] + a[n + 1..] == a[..n];
      CentSumOfPermutation(a[..n], b[..i] + b[i + 1..]);
    }
  }

  lemma MultisetRemove(a: seq<Price>, i: nat)
    requires i < |a|
    ensures multiset(a[..i] + a[i + 1..]) == multiset(a) - multiset{a[i]}
  {
    assert a == a[..i] + [a[i]] + a[i + 1..];
  }

  lemma SameLength(a: seq<Price>, b: seq<Price>)
    requires multiset(a) == multiset(b)
    ensures |a| == |b|
  {
    assert |multiset(a)| == |a| && |multiset(b)| == |b|;
  }

  /** The sum of a quote is exact below the overflow check and does not depend on the order of its lines. */
  lemma SumIsExactInAnyOrder(a: seq<Price>, b: seq<Price>)
    requires multiset(a) == multiset(b)
    ensures SumAmounts(a) == SumAmounts(b)
    ensures SumAmounts(a).Ok? <==>
      && (forall i :: 0 <= i < |a| ==> a[i].Cents? && a[i].cents <= MAX_SAFE)
      && CentSum(a) <= MAX_SAFE
    ensures SumAmounts(a).Ok? ==> SumAmounts(a).value == CentSum(a)
  {
    ReduceIsSum(a);
    ReduceIsSum(b);
    CentSumOfPermutation(a, b);
    assert forall i :: 0 <= i < |a| ==> a[i] in multiset(a);
    assert forall i :: 0 <= i < |b| ==> b[i] in multiset(b);
  }

  function Multiply(amount: Price, quantity: Quantity): Result<int> {
    if quantity.NotSafe? || quantity.n < 1 then Err(PricingQuantity)
    else
      match CyclePriceCents(amount)
      case Err(e) => Err(e)
      case Ok(cents) => Checked(cents * quantity.n)
  }

  function Copies(amount: Price, n: nat): seq<Price> { seq(n, _ => amount) }

  lemma {:induction false} CentSumOfCopies(amount: Price, n: nat)
    requires amount.Cents?
    ensures CentSum(Copies(amount, n)) == amount.cents * n
  {
    if n > 0 {
      assert Copies(amount, n)[..n - 1] == Copies(amount, n - 1);
      CentSumOfCopies(amount, n - 1);
    }
  }

  /** A line total is what its units would sum to one by one, with the same errors. */
  lemma MultiplyIsRepeatedSum(amount: Price, quantity: Quantity)
    requires quantity.Safe? && quantity.n >= 1
    ensures Multiply(amount, quantity) == SumAmounts(Copies(amount, quantity.n))
  {
    var copies := Copies(amount, quantity.n);
    ReduceIsSum(copies);
    if Countable(amount) {
      CentSumOfCopies(amount, quantity.n);
    } else {
      assert !Countable(copies[0]);
    }
  }
}
