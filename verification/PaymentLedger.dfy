/** The payments of one order: recorded, voided or written by its lifecycle, and the statuses that follow. */
module PaymentLedger {
  import opened Options
  import opened PaymentState

  datatype Payment = Payment(
    id: nat, amount: int, direction: Direction, purpose: Purpose,
    internalTransfer: bool, lifecycleReceipt: bool, voided: bool)

  datatype OrderStatus = Draft | Reserved | Confirmed | Active | Returned | Completed | Cancelled

  /** The collateral amount stored at confirmation; a document collateral has none. */
  datatype Confirmation = Confirmation(collateralAmount: Option<int>)

  /** The order's columns that money depends on, its payments, and the cached statuses. */
  datatype Ledger = Ledger(
    status: OrderStatus, hasSettlement: bool, confirmation: Option<Confirmation>, grandTotal: int,
    depositRequired: int, payments: seq<Payment>, state: State)

  /** Once the order is confirmed, what was agreed then replaces the required deposit. */
  function Required(l: Ledger): int {
    match l.confirmation
    case Some(c) => c.collateralAmount.GetOr(0)
    case None => l.depositRequired
  }

  datatype Input = Input(amount: int, direction: Direction, purpose: Purpose)

  datatype Refusal = RefundMustBeOut | OutNeedsRefundPurpose | RecordLocked | RefundExceedsBalance | NotFound
    | VoidProtected | RefundsUncovered | TransitionNotAllowed | DepositAlreadyReceived | InvalidFeeAdjustment

  datatype Outcome = Done | Refused(reason: Refusal)

  function EntryOf(p: Payment): Entry { Entry(p.amount, p.direction, p.purpose) }

  /** The completed payments that were not voided. */
  function Live(ps: seq<Payment>): seq<Entry> {
    if ps == [] then []
    else
      var p := ps[|ps| - 1];
      Live(ps[..|ps| - 1]) + (if p.voided then [] else [EntryOf(p)])
  }

  predicate DistinctIds(ps: seq<Payment>) {
    forall i, j :: 0 <= i < j < |ps| ==> ps[i].id != ps[j].id
  }

  predicate Positive(ps: seq<Payment>) {
    forall i :: 0 <= i < |ps| ==> ps[i].amount > 0
  }

  /** The live ledger without one payment. */
  function LiveWithout(ps: seq<Payment>, id: nat): seq<Entry> {
    if ps == [] then []
    else
      var p := ps[|ps| - 1];
      LiveWithout(ps[..|ps| - 1], id) + (if p.voided || p.id == id then [] else [EntryOf(p)])
  }

  function VoidIn(ps: seq<Payment>, id: nat): (r: seq<Payment>)
    ensures |r| == |ps|
    ensures forall i :: 0 <= i < |ps| ==> r[i] == if ps[i].id == id then ps[i].(voided := true) else ps[i]
  {
    seq(|ps|, i requires 0 <= i < |ps| => if ps[i].id == id then ps[i].(voided := true) else ps[i])
  }

  lemma {:induction false} LiveAfterVoid(ps: seq<Payment>, id: nat)
    ensures Live(VoidIn(ps, id)) == LiveWithout(ps, id)
  {
    if ps != [] {
      var n := |ps| - 1;
      LiveAfterVoid(ps[..n], id);
      assert VoidIn(ps, id)[..n] == VoidIn(ps[..n], id);
    }
  }

  lemma SamePayments(l: Ledger, ps: seq<Payment>)
    ensures WithPayments(l.(payments := ps), ps) == WithPayments(l, ps)
  {
  }

  // --- Guards ---

  function InputRefusal(input: Input): Option<Refusal> {
    var refund := input.purpose == DepositRefund || input.purpose == OrderRefund;
    if refund && input.direction != Out then Some(RefundMustBeOut)
    else if !refund && input.direction == Out && input.purpose != Other then Some(OutNeedsRefundPurpose)
    else None
  }

  predicate CreationLocked(l: Ledger, input: Input) {
    || l.status == Cancelled
    || ((l.status == Completed || l.hasSettlement) && !(input.direction == Out && input.purpose == OrderRefund))
  }

  predicate ExceedsBalance(l: Ledger, input: Input) {
    && input.direction == Out
    && (input.purpose == DepositRefund || input.purpose == OrderRefund)
    && input.amount > Balance(Live(l.payments), input.purpose == DepositRefund)
  }

  function CreateRefusal(l: Ledger, input: Input): Option<Refusal> {
    if InputRefusal(input).Some? then InputRefusal(input)
    else if CreationLocked(l, input) then Some(RecordLocked)
    else if ExceedsBalance(l, input) then Some(RefundExceedsBalance)
    else None
  }

  function PaymentOf(id: nat, input: Input): Payment {
    Payment(id, input.amount, input.direction, input.purpose, false, false, false)
  }

  function WithPayments(l: Ledger, ps: seq<Payment>): Ledger {
    l.(payments := ps, state := StateOf(l.grandTotal, Required(l), Live(ps)))
  }

  function Recorded(l: Ledger, id: nat, input: Input): (Ledger, Outcome) {
    if CreateRefusal(l, input).Some? then (l, Refused(CreateRefusal(l, input).value))
    else (WithPayments(l, l.payments + [PaymentOf(id, input)]), Done)
  }

  predicate LiveAt(ps: seq<Payment>, i: nat, id: nat) {
    i < |ps| && ps[i].id == id && !ps[i].voided
  }

  predicate VoidLocked(l: Ledger, p: Payment) {
    || p.internalTransfer || p.lifecycleReceipt
    || l.confirmation.Some? || l.hasSettlement || l.status == Completed || l.status == Cancelled
  }

  function FindLive(ps: seq<Payment>, id: nat): (i: nat)
    ensures i <= |ps| && (i < |ps| ==> LiveAt(ps, i, id))
    ensures forall j :: 0 <= j < i ==> !LiveAt(ps, j, id)
  {
    if ps == [] || LiveAt(ps, 0, id) then 0
    else
      var i := FindLive(ps[1..], id);
      assert forall j :: 0 <= j < |ps| - 1 ==> LiveAt(ps[1..], j, id) == LiveAt(ps, j + 1, id);
      assert forall j :: 1 <= j < i + 1 ==> LiveAt(ps, j, id) == LiveAt(ps[1..], j - 1, id);
      1 + i
  }

  function VoidRefusal(l: Ledger, id: nat): Option<Refusal> {
    var i := FindLive(l.payments, id);
    if i == |l.payments| then Some(NotFound)
    else if VoidLocked(l, l.payments[i]) then Some(VoidProtected)
    else if Balance(LiveWithout(l.payments, id), true) < 0 || Balance(LiveWithout(l.payments, id), false) < 0 then
      Some(RefundsUncovered)
    else None
  }

  function Voided(l: Ledger, id: nat): (Ledger, Outcome) {
    if VoidRefusal(l, id).Some? then (l, Refused(VoidRefusal(l, id).value))
    else (WithPayments(l, VoidIn(l.payments, id)), Done)
  }

  // --- Receipts of confirmation and settlement ---

  datatype Receipt = Receipt(purpose: Purpose, direction: Direction, amount: int, internal: bool)

  /** `recordRentalReceipt`: an amount that is not positive leaves no row. */
  function WithReceipt(ps: seq<Payment>, id: nat, r: Receipt): seq<Payment> {
    if r.amount <= 0 then ps else ps + [Payment(id, r.amount, r.direction, r.purpose, r.internal, true, false)]
  }

  /** Receipts written one after the other, under consecutive ids. */
  function WithReceipts(ps: seq<Payment>, id: nat, rs: seq<Receipt>): seq<Payment> {
    if rs == [] then ps
    else
      var n := |rs| - 1;
      WithReceipt(WithReceipts(ps, id, rs[..n]), id + n, rs[n])
  }

  lemma WithReceiptsSnoc(ps: seq<Payment>, id: nat, rs: seq<Receipt>, r: Receipt)
    ensures WithReceipts(ps, id, rs + [r]) == WithReceipt(WithReceipts(ps, id, rs), id + |rs|, r)
  {
    assert (rs + [r])[..|rs|] == rs;
  }

  function Max(a: int, b: int): int { if a >= b then a else b }

  function Min(a: int, b: int): int { if a <= b then a else b }

  function DepositHeld(ps: seq<Payment>): int { Max(0, Balance(Live(ps), true)) }

  function PaidRental(ps: seq<Payment>): int { Balance(Live(ps), false) }

  function ConfirmationReceipts(held: int, paid: int, total: int, deposit: int): seq<Receipt> {
    [Receipt(RentalPayment, In, Max(0, total - paid), false), Receipt(Deposit, In, deposit - held, false)]
  }

  /** The receipts are those of the ledger before the confirmation. */
  function AfterConfirmation(l: Ledger, id: nat, collateral: Option<int>): Ledger {
    WithPayments(
      l.(status := Confirmed, confirmation := Some(Confirmation(collateral))),
      WithReceipts(l.payments, id,
        ConfirmationReceipts(DepositHeld(l.payments), PaidRental(l.payments), l.grandTotal, collateral.GetOr(0))))
  }

  /** `collateral` is the cash collateral, absent for a document. */
  function ConfirmedOrder(l: Ledger, id: nat, collateral: Option<int>): (Ledger, Outcome) {
    if l.status != Reserved then (l, Refused(TransitionNotAllowed))
    else if DepositHeld(l.payments) > collateral.GetOr(0) then (l, Refused(DepositAlreadyReceived))
    else (AfterConfirmation(l, id, collateral), Done)
  }

  /** The deposit is refunded or moved to the rental, an overpaid rental refunded, what is missing collected. */
  function SettlementReceipts(held: int, paid: int, total: int): seq<Receipt> {
    var remaining := Max(0, total - paid);
    var applied := Min(held, remaining);
    [Receipt(DepositRefund, Out, Max(0, held - remaining), false),
     Receipt(OrderRefund, Out, Max(0, paid - total), false),
     Receipt(Deposit, Out, applied, true),
     Receipt(RentalPayment, In, applied, true),
     Receipt(RentalPayment, In, Max(0, remaining - held), false)]
  }

  function AfterSettlement(l: Ledger, id: nat, total: int): Ledger {
    WithPayments(
      l.(grandTotal := total),
      WithReceipts(l.payments, id, SettlementReceipts(DepositHeld(l.payments), PaidRental(l.payments), total)))
      .(status := Completed, hasSettlement := true)
  }

  /** `total` is the grand total after the agreed fees. */
  function SettledOrder(l: Ledger, id: nat, total: int): (Ledger, Outcome) {
    if l.status != Returned || l.hasSettlement then (l, Refused(TransitionNotAllowed))
    else if total < 0 then (l, Refused(InvalidFeeAdjustment))
    else (AfterSettlement(l, id, total), Done)
  }

  // --- The same, on the stored rows ---

  class OrderLedger {
    var status: OrderStatus
    var hasSettlement: bool
    var confirmation: Option<Confirmation>
    var grandTotal: int
    var depositRequired: int
    var payments: seq<Payment>
    var state: State

    ghost function Value(): Ledger
      reads this
    {
      Ledger(status, hasSettlement, confirmation, grandTotal, depositRequired, payments, state)
    }

    /** Completed payments that were not voided, in the order of the rows. */
    method ListLive() returns (entries: seq<Entry>)
      ensures entries == Live(payments)
    {
      entries := [];
      for i := 0 to |payments|
        invariant entries == Live(payments[..i])
      {
        var p := payments[i];
        if !p.voided {
          entries := entries + [Entry(p.amount, p.direction, p.purpose)];
        }
        assert payments[..i + 1][..i] == payments[..i];
      }
      assert payments[..|payments|] == payments;
    }

    /** The database may list the live payments in any order. */
    method RecomputeOrderPaymentState(listing: seq<Entry>)
      requires multiset(listing) == multiset(Live(payments))
      modifies this`state
      ensures state == StateOf(grandTotal, Required(Value()), Live(payments))
    {
      var required := if confirmation.Some? then confirmation.value.collateralAmount.GetOr(0) else depositRequired;
      StateIgnoresOrder(grandTotal, required, listing, Live(payments));
      state := CalculateOrderPaymentState(grandTotal, required, listing);
    }

    /** The balance a refund is checked against. */
    method NetFor(purpose: Purpose, existing: seq<Entry>) returns (net: int)
      ensures net == Balance(existing, purpose == DepositRefund)
    {
      net := 0;
      for i := 0 to |existing|
        invariant net == Balance(existing[..i], purpose == DepositRefund)
      {
        var e := existing[i];
        var isDeposit := e.purpose == Deposit || e.purpose == DepositRefund;
        var applies := if purpose == DepositRefund then isDeposit else !isDeposit;
        if applies {
          net := net + (if e.direction == In then e.amount else -e.amount);
        }
        assert existing[..i + 1][..i] == existing[..i];
      }
      assert existing[..|existing|] == existing;
    }

    method CheckCreation(input: Input) returns (refusal: Option<Refusal>)
      ensures refusal == CreateRefusal(Value(), input)
    {
      var refund := input.purpose == DepositRefund || input.purpose == OrderRefund;
      if refund && input.direction != Out {
        return Some(RefundMustBeOut);
      }
      if !refund && input.direction == Out && input.purpose != Other {
        return Some(OutNeedsRefundPurpose);
      }
      if status == Cancelled {
        return Some(RecordLocked);
      }
      if (status == Completed || hasSettlement) && !(input.direction == Out && input.purpose == OrderRefund) {
        return Some(RecordLocked);
      }
      if input.direction == Out && refund {
        var existing := ListLive();
        var net := NetFor(input.purpose, existing);
        if input.amount > net {
          return Some(RefundExceedsBalance);
        }
      }
      refusal := None;
    }

    method CreatePayment(id: nat, input: Input) returns (r: Outcome)
      modifies this`payments, this`state
      ensures (Value(), r) == Recorded(old(Value()), id, input)
    {
      var refusal := CheckCreation(input);
      if refusal.Some? {
        return Refused(refusal.value);
      }
      payments := payments + [Payment(id, input.amount, input.direction, input.purpose, false, false, false)];
      var listing := ListLive();
      RecomputeOrderPaymentState(listing);
      r := Done;
    }

    method FindPayment(id: nat) returns (i: nat)
      ensures i == FindLive(payments, id)
    {
      i := 0;
      while i < |payments| && !(payments[i].id == id && !payments[i].voided)
        invariant i <= |payments|
        invariant forall j :: 0 <= j < i ==> !LiveAt(payments, j, id)
      {
        i := i + 1;
      }
      assert i < |payments| ==> LiveAt(payments, i, id);
      assert FindLive(payments, id) < i ==> LiveAt(payments, FindLive(payments, id), id);
    }

    /** Both balances of the live payments other than one. */
    method NetWithout(id: nat) returns (deposit: int, rental: int)
      ensures deposit == Balance(LiveWithout(payments, id), true)
      ensures rental == Balance(LiveWithout(payments, id), false)
    {
      deposit, rental := 0, 0;
      for i := 0 to |payments|
        invariant deposit == Balance(LiveWithout(payments[..i], id), true)
        invariant rental == Balance(LiveWithout(payments[..i], id), false)
      {
        var p := payments[i];
        LiveWithoutStep(payments, i, id);
        if p.id != id && !p.voided {
          var amount := if p.direction == In then p.amount else -p.amount;
          BalanceStep(LiveWithout(payments[..i], id), EntryOf(p), true);
          BalanceStep(LiveWithout(payments[..i], id), EntryOf(p), false);
          if p.purpose == Deposit || p.purpose == DepositRefund {
            deposit := deposit + amount;
          } else {
            rental := rental + amount;
          }
        }
      }
      assert payments[..|payments|] == payments;
    }

    method CheckVoid(id: nat) returns (refusal: Option<Refusal>)
      ensures refusal == VoidRefusal(Value(), id)
    {
      var i := FindPayment(id);
      if i == |payments| {
        return Some(NotFound);
      }
      var p := payments[i];
      if p.internalTransfer || p.lifecycleReceipt || confirmation.Some?
        || hasSettlement || status == Completed || status == Cancelled {
        return Some(VoidProtected);
      }
      var deposit, rental := NetWithout(id);
      refusal := if deposit < 0 || rental < 0 then Some(RefundsUncovered) else None;
    }

    method VoidPayment(id: nat) returns (r: Outcome)
      requires DistinctIds(payments)
      modifies this`payments, this`state
      ensures (Value(), r) == Voided(old(Value()), id)
    {
      var refusal := CheckVoid(id);
      if refusal.Some? {
        return Refused(refusal.value);
      }
      var i := FindPayment(id);
      assert payments[i := payments[i].(voided := true)] == VoidIn(payments, id);
      payments := payments[i := payments[i].(voided := true)];
      var listing := ListLive();
      RecomputeOrderPaymentState(listing);
      r := Done;
    }

    /** `rentalLedger`: the deposit held and the rental paid, over the live payments. */
    method RentalLedger() returns (held: int, paid: int)
      ensures held == DepositHeld(payments) && paid == PaidRental(payments)
    {
      var depositIn, depositOut := 0, 0;
      paid := 0;
      var lines := ListLive();
      for i := 0 to |lines|
        invariant depositIn == Bucket(lines[..i], true, In) && depositOut == Bucket(lines[..i], true, Out)
        invariant paid == Balance(lines[..i], false)
      {
        assert lines[..i + 1][..i] == lines[..i];
        var line := lines[i];
        if line.purpose == Deposit || line.purpose == DepositRefund {
          if line.direction == In {
            depositIn := depositIn + line.amount;
          } else {
            depositOut := depositOut + line.amount;
          }
        } else {
          paid := if line.direction == In then paid + line.amount else paid - line.amount;
        }
      }
      assert lines[..|lines|] == lines;
      held := Max(0, depositIn - depositOut);
    }

    method RecordRentalReceipt(id: nat, r: Receipt)
      modifies this`payments
      ensures payments == WithReceipt(old(payments), id, r)
    {
      if r.amount <= 0 {
        return;
      }
      payments := payments + [Payment(id, r.amount, r.direction, r.purpose, r.internal, true, false)];
    }

    /** One more receipt of a series that began with the payments `start`. */
    method RecordNext(id: nat, r: Receipt, ghost start: seq<Payment>, ghost rs: seq<Receipt>)
      requires id >= |rs| && payments == WithReceipts(start, id - |rs|, rs)
      modifies this`payments
      ensures payments == WithReceipts(start, id - |rs|, rs + [r])
    {
      WithReceiptsSnoc(start, id - |rs|, rs, r);
      RecordRentalReceipt(id, r);
    }

    method WriteConfirmationReceipts(id: nat, actualDeposit: int, held: int, paid: int)
      modifies this`payments
      ensures payments ==
        WithReceipts(old(payments), id, ConfirmationReceipts(held, paid, grandTotal, actualDeposit))
    {
      ghost var start := payments;
      var rental := Receipt(RentalPayment, In, Max(0, grandTotal - paid), false);
      var deposit := Receipt(Deposit, In, actualDeposit - held, false);
      RecordNext(id, rental, start, []);
      RecordNext(id + 1, deposit, start, [rental]);
      assert [] + [rental] == [rental] && [rental] + [deposit] == [rental, deposit];
    }

    method WriteSettlementReceipts(id: nat, total: int, held: int, paid: int)
      modifies this`payments
      ensures payments == WithReceipts(old(payments), id, SettlementReceipts(held, paid, total))
    {
      ghost var start := payments;
      var remaining := Max(0, total - paid);
      var depositRefund, rentalRefund := Max(0, held - remaining), Max(0, paid - total);
      var amountDue := Max(0, remaining - held);
      var appliedDeposit := Min(held, remaining);
      var a := Receipt(DepositRefund, Out, depositRefund, false);
      var b := Receipt(OrderRefund, Out, rentalRefund, false);
      var c := Receipt(Deposit, Out, appliedDeposit, true);
      var d := Receipt(RentalPayment, In, appliedDeposit, true);
      var e := Receipt(RentalPayment, In, amountDue, false);
      RecordNext(id, a, start, []);
      assert [] + [a] == [a];
      RecordNext(id + 1, b, start, [a]);
      assert [a] + [b] == [a, b];
      RecordNext(id + 2, c, start, [a, b]);
      assert [a, b] + [c] == [a, b, c];
      RecordNext(id + 3, d, start, [a, b, c]);
      assert [a, b, c] + [d] == [a, b, c, d];
      RecordNext(id + 4, e, start, [a, b, c, d]);
      assert [a, b, c, d] + [e] == [a, b, c, d, e];
    }

    method RefreshState()
      modifies this`state
      ensures Value() == WithPayments(old(Value()), payments)
    {
      var listing := ListLive();
      RecomputeOrderPaymentState(listing);
    }

    method WriteConfirmation(id: nat, collateral: Option<int>, held: int, paid: int)
      requires held == DepositHeld(payments) && paid == PaidRental(payments)
      modifies this`status, this`confirmation, this`payments, this`state
      ensures Value() == AfterConfirmation(old(Value()), id, collateral)
    {
      ghost var before := Value();
      status, confirmation := Confirmed, Some(Confirmation(collateral));
      WriteConfirmationReceipts(id, collateral.GetOr(0), held, paid);
      ghost var receipts := payments;
      RefreshState();
      SamePayments(before.(status := status, confirmation := confirmation), receipts);
    }

    method WriteSettlement(id: nat, total: int, held: int, paid: int)
      requires held == DepositHeld(payments) && paid == PaidRental(payments)
      modifies this`status, this`hasSettlement, this`grandTotal, this`payments, this`state
      ensures Value() == AfterSettlement(old(Value()), id, total)
    {
      ghost var before := Value();
      grandTotal := total;
      WriteSettlementReceipts(id, total, held, paid);
      ghost var receipts := payments;
      RefreshState();
      SamePayments(before.(grandTotal := total), receipts);
      status, hasSettlement := Completed, true;
    }

    /** The money part of a confirmation; `id` and the next id are new. */
    method ConfirmOrder(id: nat, collateral: Option<int>) returns (r: Outcome)
      modifies this`status, this`confirmation, this`payments, this`state
      ensures (Value(), r) == ConfirmedOrder(old(Value()), id, collateral)
      ensures r == Refused(TransitionNotAllowed) <==> old(status) != Reserved
      ensures r == Refused(DepositAlreadyReceived) <==>
        old(status) == Reserved
        && Max(0, Balance(Live(old(payments)), true)) > (if collateral.Some? then collateral.value else 0)
      ensures r == Done || Value() == old(Value())
    {
      if status != Reserved {
        return Refused(TransitionNotAllowed);
      }
      var held, paid := RentalLedger();
      var actualDeposit := collateral.GetOr(0);
      if held > actualDeposit {
        return Refused(DepositAlreadyReceived);
      }
      WriteConfirmation(id, collateral, held, paid);
      r := Done;
    }

    /** The money part of a settlement; `id` and the next four ids are new. */
    method SettleOrder(id: nat, total: int) returns (r: Outcome)
      modifies this`status, this`hasSettlement, this`grandTotal, this`payments, this`state
      ensures (Value(), r) == SettledOrder(old(Value()), id, total)
      ensures r == Refused(TransitionNotAllowed) <==> old(status) != Returned || old(hasSettlement)
      ensures r == Done <==> old(status) == Returned && !old(hasSettlement) && total >= 0
      ensures r == Done || Value() == old(Value())
    {
      if status != Returned || hasSettlement {
        return Refused(TransitionNotAllowed);
      }
      if total < 0 {
        return Refused(InvalidFeeAdjustment);
      }
      var held, paid := RentalLedger();
      WriteSettlement(id, total, held, paid);
      r := Done;
    }
  }

  lemma LiveWithoutStep(ps: seq<Payment>, i: nat, id: nat)
    requires i < |ps|
    ensures ps[i].voided || ps[i].id == id ==> LiveWithout(ps[..i + 1], id) == LiveWithout(ps[..i], id)
    ensures !ps[i].voided && ps[i].id != id ==>
      LiveWithout(ps[..i + 1], id) == LiveWithout(ps[..i], id) + [EntryOf(ps[i])]
  {
    assert ps[..i + 1][..i] == ps[..i];
  }

  /** What an entry adds to one of the two balances. */
  function Signed(e: Entry, deposit: bool): int {
    if IsDeposit(e.purpose) != deposit then 0 else if e.direction == In then e.amount else -e.amount
  }

  lemma BalanceStep(entries: seq<Entry>, e: Entry, deposit: bool)
    ensures Balance(entries + [e], deposit) == Balance(entries, deposit) + Signed(e, deposit)
  {
    assert (entries + [e])[..|entries|] == entries;
  }
}
