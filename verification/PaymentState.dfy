/** The cached payment and deposit status of an order, from the live entries of its ledger (amounts in cents). */
module PaymentState {
  datatype Direction = In | Out

  datatype Purpose =
    | RentalPayment | Deposit | LateFee | DamageFee | Shipping | DepositRefund | OrderRefund | Other

  datatype Entry = Entry(amount: int, direction: Direction, purpose: Purpose)

  datatype PaymentStatus = Unpaid | PartiallyPaid | Paid | Refunded

  datatype DepositStatus = NotRequired | Pending | PartiallyHeld | Held | DepositPartiallyRefunded | DepositRefunded

  datatype State = State(payment: PaymentStatus, deposit: DepositStatus)

  predicate IsDeposit(p: Purpose) { p == Deposit || p == DepositRefund }

  /** Sum of one of the four buckets. */
  function Bucket(entries: seq<Entry>, deposit: bool, direction: Direction): int {
    if entries == [] then 0
    else
      var e := entries[|entries| - 1];
      Bucket(entries[..|entries| - 1], deposit, direction)
        + (if IsDeposit(e.purpose) == deposit && e.direction == direction then e.amount else 0)
  }

  function Balance(entries: seq<Entry>, deposit: bool): int {
    Bucket(entries, deposit, In) - Bucket(entries, deposit, Out)
  }

  function PaymentStatusOf(total: int, entries: seq<Entry>): PaymentStatus {
    var net := Balance(entries, false);
    if Bucket(entries, false, In) > 0 && Bucket(entries, false, Out) > 0 && net <= 0 then Refunded
    else if total <= 0 || net >= total then Paid
    else if net > 0 then PartiallyPaid
    else Unpaid
  }

  function DepositStatusOf(required: int, entries: seq<Entry>): DepositStatus {
    var held := Balance(entries, true);
    if required <= 0 then NotRequired
    else if Bucket(entries, true, In) > 0 && Bucket(entries, true, Out) > 0 && held <= 0 then DepositRefunded
    else if Bucket(entries, true, Out) > 0 then DepositPartiallyRefunded
    else if held >= required then Held
    else if held > 0 then PartiallyHeld
    else Pending
  }

  function StateOf(total: int, required: int, entries: seq<Entry>): State {
    State(PaymentStatusOf(total, entries), DepositStatusOf(required, entries))
  }

  method CalculateOrderPaymentState(total: int, required: int, entries: seq<Entry>) returns (s: State)
    ensures s == StateOf(total, required, entries)
  {
    var orderIn, orderOut, depositIn, depositOut := 0, 0, 0, 0;
    for i := 0 to |entries|
      invariant orderIn == Bucket(entries[..i], false, In) && orderOut == Bucket(entries[..i], false, Out)
      invariant depositIn == Bucket(entries[..i], true, In) && depositOut == Bucket(entries[..i], true, Out)
    {
      var e := entries[i];
      if e.purpose == Deposit || e.purpose == DepositRefund {
        if e.direction == In {
          depositIn := depositIn + e.amount;
        } else {
          depositOut := depositOut + e.amount;
        }
      } else if e.direction == In {
        orderIn := orderIn + e.amount;
      } else {
        orderOut := orderOut + e.amount;
      }
      assert entries[..i + 1][..i] == entries[..i];
    }
    assert entries[..|entries|] == entries;
    var net := orderIn - orderOut;
    var payment := Unpaid;
    if orderIn > 0 && orderOut > 0 && net <= 0 {
      payment := Refunded;
    } else if total <= 0 || net >= total {
      payment := Paid;
    } else if net > 0 {
      payment := PartiallyPaid;
    }
    var held := depositIn - depositOut;
    var deposit := if required <= 0 then NotRequired else Pending;
    if required > 0 && depositIn > 0 && depositOut > 0 && held <= 0 {
      deposit := DepositRefunded;
    } else if required > 0 && depositOut > 0 {
      deposit := DepositPartiallyRefunded;
    } else if required > 0 && held >= required {
      deposit := Held;
    } else if required > 0 && held > 0 {
      deposit := PartiallyHeld;
    }
    s := State(payment, deposit);
  }

  lemma {:induction false} BucketNotNegative(entries: seq<Entry>, deposit: bool, direction: Direction)
    requires forall i :: 0 <= i < |entries| ==> entries[i].amount > 0
    ensures Bucket(entries, deposit, direction) >= 0
    ensures Bucket(entries, deposit, direction) > 0 <==>
      exists i :: 0 <= i < |entries| && IsDeposit(entries[i].purpose) == deposit && entries[i].direction == direction
  {
    if entries != [] {
      var n := |entries| - 1;
      BucketNotNegative(entries[..n], deposit, direction);
      assert forall i :: 0 <= i < n ==> entries[..n][i] == entries[i];
    }
  }

  predicate Moved(entries: seq<Entry>, deposit: bool, direction: Direction) {
    exists i :: 0 <= i < |entries| && IsDeposit(entries[i].purpose) == deposit && entries[i].direction == direction
  }

  /** What each deposit status says about a ledger of positive amounts whose deposit is covered. */
  lemma DepositStatusMeaning(required: int, entries: seq<Entry>)
    requires forall i :: 0 <= i < |entries| ==> entries[i].amount > 0
    requires required > 0 && Balance(entries, true) >= 0
    ensures var status := DepositStatusOf(required, entries);
      var held := Balance(entries, true);
      && (status == Pending <==> !Moved(entries, true, In))
      && (status == DepositRefunded <==> Moved(entries, true, Out) && held == 0)
      && (status == DepositPartiallyRefunded <==> Moved(entries, true, Out) && held > 0)
      && (status == Held <==> !Moved(entries, true, Out) && held >= required)
      && (status == PartiallyHeld <==> !Moved(entries, true, Out) && 0 < held < required)
  {
    BucketNotNegative(entries, true, In);
    BucketNotNegative(entries, true, Out);
  }

  /** What each payment status says about a ledger of positive amounts whose rental balance is covered. */
  lemma PaymentStatusMeaning(total: int, entries: seq<Entry>)
    requires forall i :: 0 <= i < |entries| ==> entries[i].amount > 0
    requires total > 0 && Balance(entries, false) >= 0
    ensures var status := PaymentStatusOf(total, entries);
      var net := Balance(entries, false);
      && (status == Unpaid <==> !Moved(entries, false, In))
      && (status == Refunded <==> Moved(entries, false, In) && net == 0)
      && (status == PartiallyPaid <==> 0 < net < total)
      && (status == Paid <==> net >= total)
  {
    BucketNotNegative(entries, false, In);
    BucketNotNegative(entries, false, Out);
  }

  /** Every status of any ledger of positive amounts, also one whose balances are not covered. */
  lemma StatusesInGeneral(total: int, required: int, entries: seq<Entry>)
    requires forall i :: 0 <= i < |entries| ==> entries[i].amount > 0
    ensures var s := StateOf(total, required, entries);
      var net, held := Balance(entries, false), Balance(entries, true);
      var returned := Moved(entries, false, In) && Moved(entries, false, Out) && net <= 0;
      && (s.payment == Refunded <==> returned)
      && (s.payment == Paid <==> !returned && (total <= 0 || net >= total))
      && (s.payment == PartiallyPaid <==> 0 < net < total)
      && (s.payment == Unpaid <==> !returned && total > 0 && net <= 0 && net < total)
      && (s.deposit == NotRequired <==> required <= 0)
      && (required > 0 ==>
        && (s.deposit == DepositRefunded <==> Moved(entries, true, In) && Moved(entries, true, Out) && held <= 0)
        && (s.deposit == Held <==> !Moved(entries, true, Out) && held >= required)
        && (s.deposit == PartiallyHeld <==> !Moved(entries, true, Out) && 0 < held < required)
        && (s.deposit == Pending <==> !Moved(entries, true, Out) && held <= 0))
  {
    BucketNotNegative(entries, true, In);
    BucketNotNegative(entries, true, Out);
    BucketNotNegative(entries, false, In);
    BucketNotNegative(entries, false, Out);
  }

  // --- The order in which the ledger is listed does not matter ---

  lemma {:induction false} BucketRemove(entries: seq<Entry>, i: nat, deposit: bool, direction: Direction)
    requires i < |entries|
    ensures var e := entries[i];
      Bucket(entries, deposit, direction) == Bucket(entries[..i] + entries[i + 1..], deposit, direction)
        + (if IsDeposit(e.purpose) == deposit && e.direction == direction then e.amount else 0)
  {
    var n := |entries| - 1;
    var rest := entries[..i] + entries[i + 1..];
    if i == n {
      assert rest == entries[..n];
    } else {
      BucketRemove(entries[..n], i, deposit, direction);
      assert entries[..n][..i] + entries[..n][i + 1..] == rest[..n - 1];
      assert rest[n - 1] == entries[n];
    }
  }

  lemma MultisetRemove(a: seq<Entry>, i: nat)
    requires i < |a|
    ensures multiset(a[..i] + a[i + 1..]) == multiset(a) - multiset{a[i]}
  {
    assert a == a[..i] + [a[i]] + a[i + 1..];
  }

  lemma {:induction false} BucketOfPermutation(a: seq<Entry>, b: seq<Entry>, deposit: bool, direction: Direction)
    requires multiset(a) == multiset(b)
    ensures Bucket(a, deposit, direction) == Bucket(b, deposit, direction)
  {
    assert |multiset(a)| == |a| && |multiset(b)| == |b|;
    if a != [] {
      var n := |a| - 1;
      assert a[n] in multiset(b);
      var i :| 0 <= i < |b| && b[i] == a[n];
      BucketRemove(b, i, deposit, direction);
      MultisetRemove(a, n);
      MultisetRemove(b, i);
      assert a[..n] + a[n + 1..] == a[..n];
      BucketOfPermutation(a[..n], b[..i] + b[i + 1..], deposit, direction);
    }
  }

  lemma StateIgnoresOrder(total: int, required: int, a: seq<Entry>, b: seq<Entry>)
    requires multiset(a) == multiset(b)
    ensures StateOf(total, required, a) == StateOf(total, required, b)
  {
    BucketOfPermutation(a, b, false, In);
    BucketOfPermutation(a, b, false, Out);
    BucketOfPermutation(a, b, true, In);
    BucketOfPermutation(a, b, true, Out);
  }
}
