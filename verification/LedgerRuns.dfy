/** Whole runs of an order's money: payments, voids, confirmation, settlement and what other modules change. */
module LedgerRuns {
  import opened Options
  import opened PaymentState
  import opened PaymentLedger

  datatype Op =
    | Create(id: nat, input: Input)
    | Void(id: nat)
    | Confirm(id: nat, collateral: Option<int>)
    | Settle(id: nat, total: int)
    | Lifecycle(status: OrderStatus)
    | Reprice(grandTotal: int, depositRequired: int)

  /**
   * Amounts are validated as positive and ids are new; an operation that writes several rows uses the ids that follow.
   * Until an order is settled, other modules may move it along, short of confirming or completing it, and may change
   * its totals, whereupon they recompute the statuses.
   */
  predicate Allowed(l: Ledger, op: Op) {
    match op
    case Create(id, input) => input.amount > 0 && IdsBelow(l.payments, id)
    case Void(_) => true
    case Confirm(id, _) => IdsBelow(l.payments, id)
    case Settle(id, _) => IdsBelow(l.payments, id)
    case Lifecycle(status) => !l.hasSettlement && status != Confirmed && status != Completed
    case Reprice(_, _) => !l.hasSettlement
  }

  predicate IdsBelow(ps: seq<Payment>, id: nat) {
    forall i :: 0 <= i < |ps| ==> ps[i].id < id
  }

  function Apply(l: Ledger, op: Op): Ledger {
    match op
    case Create(id, input) => Recorded(l, id, input).0
    case Void(id) => Voided(l, id).0
    case Confirm(id, collateral) => ConfirmedOrder(l, id, collateral).0
    case Settle(id, total) => SettledOrder(l, id, total).0
    case Lifecycle(status) => l.(status := status)
    case Reprice(total, required) => WithPayments(l.(grandTotal := total, depositRequired := required), l.payments)
  }

  /** The ledger of an order as booking creates it. */
  function Booked(total: int, required: int): Ledger {
    Ledger(Reserved, false, None, total, required, [],
      State(if total == 0 then Paid else Unpaid, if required == 0 then NotRequired else Pending))
  }

  predicate Run(states: seq<Ledger>, ops: seq<Op>) {
    && |states| == |ops| + 1
    && forall i :: 0 <= i < |ops| ==> Allowed(states[i], ops[i]) && states[i + 1] == Apply(states[i], ops[i])
  }

  /** The cached statuses are those of the live ledger, and no more deposit was returned than taken. */
  predicate Sound(l: Ledger) {
    && DistinctIds(l.payments)
    && Positive(l.payments)
    && l.state == StateOf(l.grandTotal, Required(l), Live(l.payments))
    && Balance(Live(l.payments), true) >= 0
  }

  /** The statuses that booking writes are those of the empty ledger. */
  lemma BookedIsSound(total: int, required: int)
    requires total >= 0 && required >= 0
    ensures Sound(Booked(total, required)) && Balance(Live(Booked(total, required).payments), false) == 0
  {
    assert Live([]) == [];
  }

  lemma CreateBalances(l: Ledger, id: nat, input: Input, deposit: bool)
    requires CreateRefusal(l, input) == None
    ensures Balance(Live(Recorded(l, id, input).0.payments), deposit)
      == Balance(Live(l.payments), deposit) + Signed(EntryOf(PaymentOf(id, input)), deposit)
  {
    var p := PaymentOf(id, input);
    assert (l.payments + [p])[..|l.payments|] == l.payments;
    BalanceStep(Live(l.payments), EntryOf(p), deposit);
  }

  // --- Receipts ---

  function ReceiptSigned(r: Receipt, deposit: bool): int {
    if r.amount <= 0 then 0 else Signed(Entry(r.amount, r.direction, r.purpose), deposit)
  }

  function ReceiptsSigned(rs: seq<Receipt>, deposit: bool): int {
    if rs == [] then 0 else ReceiptsSigned(rs[..|rs| - 1], deposit) + ReceiptSigned(rs[|rs| - 1], deposit)
  }

  lemma ReceiptEntry(ps: seq<Payment>, id: nat, r: Receipt)
    ensures Live(WithReceipt(ps, id, r)) == Live(ps) + (if r.amount <= 0 then [] else [Entry(r.amount, r.direction, r.purpose)])
  {
    if r.amount > 0 {
      assert WithReceipt(ps, id, r)[..|ps|] == ps;
    }
  }

  lemma {:induction false} ReceiptsBalance(ps: seq<Payment>, id: nat, rs: seq<Receipt>, deposit: bool)
    ensures Balance(Live(WithReceipts(ps, id, rs)), deposit) == Balance(Live(ps), deposit) + ReceiptsSigned(rs, deposit)
  {
    if rs != [] {
      var n, r := |rs| - 1, rs[|rs| - 1];
      var earlier := WithReceipts(ps, id, rs[..n]);
      ReceiptsBalance(ps, id, rs[..n], deposit);
      ReceiptEntry(earlier, id + n, r);
      BalanceStep(Live(earlier), Entry(r.amount, r.direction, r.purpose), deposit);
      assert Live(earlier) + [] == Live(earlier);
    }
  }

  lemma {:induction false} ReceiptsKeepRows(ps: seq<Payment>, id: nat, rs: seq<Receipt>)
    requires DistinctIds(ps) && Positive(ps) && IdsBelow(ps, id)
    ensures DistinctIds(WithReceipts(ps, id, rs)) && Positive(WithReceipts(ps, id, rs))
    ensures IdsBelow(WithReceipts(ps, id, rs), id + |rs|)
  {
    if rs != [] {
      ReceiptsKeepRows(ps, id, rs[..|rs| - 1]);
    }
  }

  lemma SignedSnoc(rs: seq<Receipt>, r: Receipt, deposit: bool)
    ensures ReceiptsSigned(rs + [r], deposit) == ReceiptsSigned(rs, deposit) + ReceiptSigned(r, deposit)
  {
    assert (rs + [r])[..|rs|] == rs;
  }

  lemma SumOfTwo(a: Receipt, b: Receipt, deposit: bool)
    ensures ReceiptsSigned([a, b], deposit) == ReceiptSigned(a, deposit) + ReceiptSigned(b, deposit)
  {
    SignedSnoc([], a, deposit);
    SignedSnoc([a], b, deposit);
    assert [] + [a] == [a] && [a] + [b] == [a, b];
  }

  lemma SumOfFive(a: Receipt, b: Receipt, c: Receipt, d: Receipt, e: Receipt, deposit: bool)
    ensures ReceiptsSigned([a, b, c, d, e], deposit) ==
      ReceiptSigned(a, deposit) + ReceiptSigned(b, deposit) + ReceiptSigned(c, deposit)
      + ReceiptSigned(d, deposit) + ReceiptSigned(e, deposit)
  {
    SumOfTwo(a, b, deposit);
    SignedSnoc([a, b], c, deposit);
    SignedSnoc([a, b, c], d, deposit);
    SignedSnoc([a, b, c, d], e, deposit);
    assert [a, b] + [c] == [a, b, c] && [a, b, c] + [d] == [a, b, c, d] && [a, b, c, d] + [e] == [a, b, c, d, e];
  }

  lemma ConfirmationSigned(held: int, paid: int, total: int, deposit: int)
    requires 0 <= held <= deposit
    ensures ReceiptsSigned(ConfirmationReceipts(held, paid, total, deposit), true) == deposit - held
    ensures ReceiptsSigned(ConfirmationReceipts(held, paid, total, deposit), false) == Max(0, total - paid)
  {
    var rs := ConfirmationReceipts(held, paid, total, deposit);
    SumOfTwo(rs[0], rs[1], true);
    SumOfTwo(rs[0], rs[1], false);
    assert rs == [rs[0], rs[1]];
  }

  lemma SettlementSigned(held: int, paid: int, total: int)
    requires held >= 0
    ensures ReceiptsSigned(SettlementReceipts(held, paid, total), true) == -held
    ensures ReceiptsSigned(SettlementReceipts(held, paid, total), false) == total - paid
  {
    var rs := SettlementReceipts(held, paid, total);
    SumOfFive(rs[0], rs[1], rs[2], rs[3], rs[4], true);
    SumOfFive(rs[0], rs[1], rs[2], rs[3], rs[4], false);
    assert rs == [rs[0], rs[1], rs[2], rs[3], rs[4]];
  }

  /**
   * A confirmation takes what is missing: afterwards exactly the agreed collateral is held, and the rental is paid in
   * full unless it was overpaid already.
   */
  lemma ConfirmationCollects(l: Ledger, id: nat, collateral: Option<int>)
    requires Sound(l) && ConfirmedOrder(l, id, collateral).1 == Done
    ensures var after := ConfirmedOrder(l, id, collateral).0;
      && after.status == Confirmed && after.confirmation == Some(Confirmation(collateral))
      && Balance(Live(after.payments), true) == (if collateral.Some? then collateral.value else 0)
      && Balance(Live(after.payments), false) == Max(PaidRental(l.payments), l.grandTotal)
  {
    var held, paid, deposit := DepositHeld(l.payments), PaidRental(l.payments), collateral.GetOr(0);
    var rs := ConfirmationReceipts(held, paid, l.grandTotal, deposit);
    ConfirmationSigned(held, paid, l.grandTotal, deposit);
    ReceiptsBalance(l.payments, id, rs, true);
    ReceiptsBalance(l.payments, id, rs, false);
  }

  /** A settlement balances the order: no deposit is left and the rental is paid to the cent, whatever came before. */
  lemma SettlementBalances(l: Ledger, id: nat, total: int)
    requires Sound(l) && SettledOrder(l, id, total).1 == Done
    ensures var after := SettledOrder(l, id, total).0;
      && Balance(Live(after.payments), true) == 0
      && Balance(Live(after.payments), false) == total == after.grandTotal
      && after.hasSettlement && after.status == Completed
  {
    var held, paid := DepositHeld(l.payments), PaidRental(l.payments);
    var rs := SettlementReceipts(held, paid, total);
    SettlementSigned(held, paid, total);
    ReceiptsBalance(l.payments, id, rs, true);
    ReceiptsBalance(l.payments, id, rs, false);
  }

  // --- Every run ---

  /** A void goes through only if both balances stay covered without the payment. */
  lemma VoidCoversBoth(l: Ledger, id: nat)
    requires Voided(l, id).1 == Done
    ensures Balance(Live(Voided(l, id).0.payments), true) >= 0
    ensures Balance(Live(Voided(l, id).0.payments), false) >= 0
  {
    LiveAfterVoid(l.payments, id);
  }

  lemma CreateKeepsRows(l: Ledger, id: nat, input: Input)
    requires DistinctIds(l.payments) && Positive(l.payments) && input.amount > 0 && IdsBelow(l.payments, id)
    ensures var ps := l.payments + [PaymentOf(id, input)]; DistinctIds(ps) && Positive(ps)
  {
  }

  lemma CreateKeepsDeposit(l: Ledger, id: nat, input: Input)
    requires Balance(Live(l.payments), true) >= 0 && input.amount > 0 && CreateRefusal(l, input) == None
    ensures Balance(Live(Recorded(l, id, input).0.payments), true) >= 0
  {
    CreateBalances(l, id, input, true);
  }

  lemma CreateKeepsSound(l: Ledger, id: nat, input: Input)
    requires Sound(l) && Allowed(l, Create(id, input))
    ensures Sound(Recorded(l, id, input).0)
  {
    if CreateRefusal(l, input) == None {
      CreateKeepsRows(l, id, input);
      CreateKeepsDeposit(l, id, input);
    }
  }

  lemma ConfirmKeepsSound(l: Ledger, id: nat, collateral: Option<int>)
    requires Sound(l) && IdsBelow(l.payments, id)
    ensures Sound(ConfirmedOrder(l, id, collateral).0)
  {
    if ConfirmedOrder(l, id, collateral).1 == Done {
      ConfirmationCollects(l, id, collateral);
      ReceiptsKeepRows(l.payments, id,
        ConfirmationReceipts(DepositHeld(l.payments), PaidRental(l.payments), l.grandTotal, collateral.GetOr(0)));
    }
  }

  lemma SettleKeepsSound(l: Ledger, id: nat, total: int)
    requires Sound(l) && IdsBelow(l.payments, id)
    ensures Sound(SettledOrder(l, id, total).0)
  {
    if SettledOrder(l, id, total).1 == Done {
      SettlementBalances(l, id, total);
      ReceiptsKeepRows(l.payments, id,
        SettlementReceipts(DepositHeld(l.payments), PaidRental(l.payments), total));
    }
  }

  lemma VoidKeepsSound(l: Ledger, id: nat)
    requires Sound(l)
    ensures Sound(Voided(l, id).0)
  {
    if Voided(l, id).1 == Done { VoidCoversBoth(l, id); }
  }

  lemma StepKeepsSound(l: Ledger, op: Op)
    requires Sound(l) && Allowed(l, op)
    ensures Sound(Apply(l, op))
  {
    match op
    case Create(id, input) => CreateKeepsSound(l, id, input);
    case Void(id) => VoidKeepsSound(l, id);
    case Confirm(id, collateral) => ConfirmKeepsSound(l, id, collateral);
    case Settle(id, total) => SettleKeepsSound(l, id, total);
    case Lifecycle(_) =>
    case Reprice(_, _) =>
  }

  /** In every state of every run the deposit is covered and the cached statuses are right. */
  lemma {:induction false} DepositIsAlwaysCovered(states: seq<Ledger>, ops: seq<Op>, i: nat)
    requires Run(states, ops) && Sound(states[0]) && i < |states|
    ensures Sound(states[i])
  {
    if i > 0 {
      DepositIsAlwaysCovered(states, ops, i - 1);
      StepKeepsSound(states[i - 1], ops[i - 1]);
      assert states[i - 1 + 1] == Apply(states[i - 1], ops[i - 1]);
    }
  }

  /** What settling an order leaves: nothing held, and never more than the total or less than nothing paid. */
  predicate Closed(l: Ledger) {
    l.hasSettlement ==>
      l.status == Completed
      && Balance(Live(l.payments), true) == 0 && 0 <= Balance(Live(l.payments), false) <= l.grandTotal
  }

  lemma OnlyRefundsAfterSettlement(l: Ledger, input: Input)
    requires l.hasSettlement && CreateRefusal(l, input) == None
    ensures input.direction == Out && input.purpose == OrderRefund
    ensures input.amount <= Balance(Live(l.payments), false)
  {
  }

  lemma RefundKeepsClosed(l: Ledger, id: nat, input: Input)
    requires Closed(l) && input.amount > 0
    ensures Closed(Recorded(l, id, input).0)
  {
    if l.hasSettlement && CreateRefusal(l, input) == None {
      OnlyRefundsAfterSettlement(l, input);
      var after := Recorded(l, id, input).0;
      CreateBalances(l, id, input, true);
      assert Balance(Live(after.payments), true) == 0;
      CreateBalances(l, id, input, false);
      assert Balance(Live(after.payments), false) == Balance(Live(l.payments), false) - input.amount;
    }
  }

  lemma StepKeepsClosed(l: Ledger, op: Op)
    requires Sound(l) && Closed(l) && Allowed(l, op)
    ensures Closed(Apply(l, op))
  {
    if op.Create? {
      RefundKeepsClosed(l, op.id, op.input);
    } else if op.Settle? && SettledOrder(l, op.id, op.total).1 == Done {
      SettlementBalances(l, op.id, op.total);
    }
  }

  /** In every run, from the settlement of the order on, the deposit stays zero and the rental within its total. */
  lemma {:induction false} SettledOrderStaysClosed(states: seq<Ledger>, ops: seq<Op>, i: nat)
    requires Run(states, ops) && Sound(states[0]) && !states[0].hasSettlement && i < |states|
    ensures Closed(states[i])
  {
    if i > 0 {
      SettledOrderStaysClosed(states, ops, i - 1);
      DepositIsAlwaysCovered(states, ops, i - 1);
      StepKeepsClosed(states[i - 1], ops[i - 1]);
      assert states[i - 1 + 1] == Apply(states[i - 1], ops[i - 1]);
    }
  }

  predicate OutOther(op: Op) {
    op.Create? && op.input.direction == Out && op.input.purpose == Other
  }

  /** An accepted payment takes the rental balance below zero only as a payout for other purposes above it. */
  lemma CreationUncovers(l: Ledger, input: Input)
    requires input.amount > 0 && Balance(Live(l.payments), false) >= 0
    ensures (
        && CreateRefusal(l, input) == None
        && Balance(Live(l.payments), false) + Signed(Entry(input.amount, input.direction, input.purpose), false) < 0)
      <==>
        && input.direction == Out && input.purpose == Other
        && l.status != Cancelled && l.status != Completed && !l.hasSettlement
        && input.amount > Balance(Live(l.payments), false)
  {
  }

  lemma OtherStepsKeepRental(l: Ledger, op: Op)
    requires Sound(l) && !op.Create? && Balance(Live(l.payments), false) >= 0
    ensures Balance(Live(Apply(l, op).payments), false) >= 0
  {
    if op.Void? && Voided(l, op.id).1 == Done {
      VoidCoversBoth(l, op.id);
    } else if op.Confirm? && ConfirmedOrder(l, op.id, op.collateral).1 == Done {
      ConfirmationCollects(l, op.id, op.collateral);
    } else if op.Settle? && SettledOrder(l, op.id, op.total).1 == Done {
      SettlementBalances(l, op.id, op.total);
    }
  }

  /** The one step that can take the rental balance below zero, and exactly when it does. */
  lemma RentalBalanceAfterStep(l: Ledger, op: Op)
    requires Sound(l) && Allowed(l, op) && Balance(Live(l.payments), false) >= 0
    ensures Balance(Live(Apply(l, op).payments), false) < 0 <==>
      && op.Create? && op.input.direction == Out && op.input.purpose == Other
      && l.status != Cancelled && l.status != Completed && !l.hasSettlement
      && op.input.amount > Balance(Live(l.payments), false)
  {
    if op.Create? {
      CreationUncovers(l, op.input);
      if CreateRefusal(l, op.input) == None {
        CreateBalances(l, op.id, op.input, false);
      } else {
        assert Apply(l, op) == l;
      }
    } else {
      OtherStepsKeepRental(l, op);
    }
  }

  /** Without a payout for other purposes the rental balance is covered in every state of every run. */
  lemma {:induction false} RentalIsCoveredWithoutPayouts(states: seq<Ledger>, ops: seq<Op>, i: nat)
    requires Run(states, ops) && i < |states| && Sound(states[0]) && Balance(Live(states[0].payments), false) >= 0
    requires forall k :: 0 <= k < |ops| ==> !OutOther(ops[k])
    ensures Balance(Live(states[i].payments), false) >= 0
  {
    if i > 0 {
      RentalIsCoveredWithoutPayouts(states, ops, i - 1);
      DepositIsAlwaysCovered(states, ops, i - 1);
      RentalBalanceAfterStep(states[i - 1], ops[i - 1]);
      assert states[i - 1 + 1] == Apply(states[i - 1], ops[i - 1]);
    }
  }

  // --- What commits ---

  /** The fate of a payment, on the order's columns and its balances. */
  lemma PaymentCommitsExactlyWhen(l: Ledger, id: nat, input: Input)
    ensures var outcome := Recorded(l, id, input).1;
      var refund := input.purpose == DepositRefund || input.purpose == OrderRefund;
      var closed := l.status == Completed || l.hasSettlement;
      && (outcome == Refused(RefundMustBeOut) <==> refund && input.direction == In)
      && (outcome == Refused(OutNeedsRefundPurpose) <==> !refund && input.direction == Out && input.purpose != Other)
      && (input.direction == In ==>
        && (outcome == Done <==> !refund && !closed && l.status != Cancelled)
        && (outcome == Refused(RecordLocked) <==> !refund && (closed || l.status == Cancelled)))
      && (input.direction == Out && input.purpose == Other ==>
        && (outcome == Done <==> !closed && l.status != Cancelled)
        && (outcome == Refused(RecordLocked) <==> closed || l.status == Cancelled))
      && (input.direction == Out && input.purpose == OrderRefund ==>
        && (outcome == Done <==> l.status != Cancelled && input.amount <= Balance(Live(l.payments), false))
        && (outcome == Refused(RecordLocked) <==> l.status == Cancelled)
        && (outcome == Refused(RefundExceedsBalance) <==>
              l.status != Cancelled && input.amount > Balance(Live(l.payments), false)))
      && (input.direction == Out && input.purpose == DepositRefund ==>
        && (outcome == Done <==>
              !closed && l.status != Cancelled && input.amount <= Balance(Live(l.payments), true))
        && (outcome == Refused(RecordLocked) <==> closed || l.status == Cancelled)
        && (outcome == Refused(RefundExceedsBalance) <==>
              !closed && l.status != Cancelled && input.amount > Balance(Live(l.payments), true)))
  {
  }

  /** What a payment adds to the deposit or to the rental balance. */
  function Contribution(p: Payment, deposit: bool): int {
    if (p.purpose == Deposit || p.purpose == DepositRefund) != deposit then 0
    else if p.direction == In then p.amount else -p.amount
  }

  /**
   * A void commits exactly for a live payment that is neither an internal transfer nor a receipt of the order's
   * lifecycle, while the order is unconfirmed, unsettled and open, if both balances stay covered without the payment.
   */
  lemma VoidCommitsExactlyWhen(l: Ledger, i: nat)
    requires DistinctIds(l.payments) && i < |l.payments| && !l.payments[i].voided
    ensures var p := l.payments[i];
      var outcome := Voided(l, p.id).1;
      var protected :=
        || p.internalTransfer || p.lifecycleReceipt || l.confirmation.Some? || l.hasSettlement
        || l.status == Completed || l.status == Cancelled;
      var covered :=
        && Contribution(p, true) <= Balance(Live(l.payments), true)
        && Contribution(p, false) <= Balance(Live(l.payments), false);
      && (outcome == Done <==> !protected && covered)
      && (outcome == Refused(VoidProtected) <==> protected)
      && (outcome == Refused(RefundsUncovered) <==> !protected && !covered)
  {
    assert LiveAt(l.payments, FindLive(l.payments, l.payments[i].id), l.payments[i].id) by {
      assert LiveAt(l.payments, i, l.payments[i].id);
    }
    VoidedBalance(l.payments, i, true);
    VoidedBalance(l.payments, i, false);
  }

  /** A payment that is absent or already void cannot be voided. */
  lemma NothingToVoid(l: Ledger, id: nat)
    requires forall i :: 0 <= i < |l.payments| && l.payments[i].id == id ==> l.payments[i].voided
    ensures Voided(l, id) == (l, Refused(NotFound))
  {
  }

  /** Once an order is confirmed, no step takes back or changes a payment. */
  lemma ConfirmedStep(l: Ledger, op: Op)
    requires l.confirmation.Some?
    ensures Apply(l, op).confirmation.Some? && l.payments <= Apply(l, op).payments
  {
    if op.Confirm? && ConfirmedOrder(l, op.id, op.collateral).1 == Done {
      var rs := ConfirmationReceipts(DepositHeld(l.payments), PaidRental(l.payments), l.grandTotal, op.collateral.GetOr(0));
      ReceiptsExtend(l.payments, op.id, rs);
    } else if op.Settle? && SettledOrder(l, op.id, op.total).1 == Done {
      ReceiptsExtend(l.payments, op.id, SettlementReceipts(DepositHeld(l.payments), PaidRental(l.payments), op.total));
    }
  }

  lemma {:induction false} ReceiptsExtend(ps: seq<Payment>, id: nat, rs: seq<Receipt>)
    ensures ps <= WithReceipts(ps, id, rs)
  {
    if rs != [] { ReceiptsExtend(ps, id, rs[..|rs| - 1]); }
  }

  /** In every run, from the confirmation of the order on, its payments are permanent. */
  lemma {:induction false} ConfirmedPaymentsArePermanent(states: seq<Ledger>, ops: seq<Op>, i: nat, j: nat)
    requires Run(states, ops) && i <= j < |states| && states[i].confirmation.Some?
    ensures states[j].confirmation.Some? && states[i].payments <= states[j].payments
  {
    if i < j {
      ConfirmedPaymentsArePermanent(states, ops, i, j - 1);
      ConfirmedStep(states[j - 1], ops[j - 1]);
      assert states[j - 1 + 1] == Apply(states[j - 1], ops[j - 1]);
    }
  }

  // --- Cash at settlement and statuses afterwards ---

  /** Money that changes hands: a receipt that is no transfer of the deposit within the shop. */
  function CashOf(r: Receipt, direction: Direction): int {
    if !r.internal && r.direction == direction && r.amount > 0 then r.amount else 0
  }

  function Cash(rs: seq<Receipt>, direction: Direction): int {
    if rs == [] then 0 else Cash(rs[..|rs| - 1], direction) + CashOf(rs[|rs| - 1], direction)
  }

  lemma CashSnoc(rs: seq<Receipt>, r: Receipt, direction: Direction)
    ensures Cash(rs + [r], direction) == Cash(rs, direction) + CashOf(r, direction)
  {
    assert (rs + [r])[..|rs|] == rs;
  }

  lemma CashOfFive(a: Receipt, b: Receipt, c: Receipt, d: Receipt, e: Receipt, direction: Direction)
    ensures Cash([a, b, c, d, e], direction) ==
      CashOf(a, direction) + CashOf(b, direction) + CashOf(c, direction) + CashOf(d, direction) + CashOf(e, direction)
  {
    CashSnoc([], a, direction);
    assert [] + [a] == [a];
    CashSnoc([a], b, direction);
    assert [a] + [b] == [a, b];
    CashSnoc([a, b], c, direction);
    assert [a, b] + [c] == [a, b, c];
    CashSnoc([a, b, c], d, direction);
    assert [a, b, c] + [d] == [a, b, c, d];
    CashSnoc([a, b, c, d], e, direction);
    assert [a, b, c, d] + [e] == [a, b, c, d, e];
  }

  /** A settlement pays out exactly what was paid and held above the total, or collects exactly what is missing. */
  lemma SettlementCash(held: int, paid: int, total: int)
    requires held >= 0
    ensures Cash(SettlementReceipts(held, paid, total), Out) == Max(0, held + paid - total)
    ensures Cash(SettlementReceipts(held, paid, total), In) == Max(0, total - paid - held)
  {
    var rs := SettlementReceipts(held, paid, total);
    assert rs == [rs[0], rs[1], rs[2], rs[3], rs[4]];
    CashOfFive(rs[0], rs[1], rs[2], rs[3], rs[4], Out);
    CashOfFive(rs[0], rs[1], rs[2], rs[3], rs[4], In);
  }

  /** A confirmed order is paid; its deposit is held in full, unless none was agreed or some was returned before. */
  lemma ConfirmedStatuses(l: Ledger, id: nat, collateral: Option<int>)
    requires Sound(l) && IdsBelow(l.payments, id) && ConfirmedOrder(l, id, collateral).1 == Done && l.grandTotal > 0
    ensures var after := ConfirmedOrder(l, id, collateral).0;
      var required := if collateral.Some? then collateral.value else 0;
      && after.state.payment == Paid
      && (after.state.deposit == NotRequired <==> required <= 0)
      && (required > 0 && Moved(Live(after.payments), true, Out) ==> after.state.deposit == DepositPartiallyRefunded)
      && (required > 0 && !Moved(Live(after.payments), true, Out) ==> after.state.deposit == Held)
  {
    var after := ConfirmedOrder(l, id, collateral).0;
    ConfirmationCollects(l, id, collateral);
    ConfirmKeepsSound(l, id, collateral);
    LivePositive(after.payments);
    BucketNotNegative(Live(after.payments), true, In);
    BucketNotNegative(Live(after.payments), true, Out);
    BucketNotNegative(Live(after.payments), false, In);
    BucketNotNegative(Live(after.payments), false, Out);
  }

  lemma {:induction false} LivePositive(ps: seq<Payment>)
    requires Positive(ps)
    ensures forall i :: 0 <= i < |Live(ps)| ==> Live(ps)[i].amount > 0
  {
    if ps != [] {
      var n := |ps| - 1;
      assert forall i :: 0 <= i < n ==> ps[..n][i] == ps[i];
      LivePositive(ps[..n]);
    }
  }

  /** The restriction is needed: until the order is closed, a payout is accepted whatever the balance. */
  lemma PayoutUncoversRental(l: Ledger, id: nat, input: Input, after: Ledger, outcome: Outcome)
    requires l.status != Cancelled && l.status != Completed && !l.hasSettlement
    requires input.direction == Out && input.purpose == Other && input.amount > Balance(Live(l.payments), false) >= 0
    requires (after, outcome) == Recorded(l, id, input)
    ensures outcome == Done && Balance(Live(after.payments), false) < 0
  {
    CreationUncovers(l, input);
    CreateBalances(l, id, input, false);
  }

  /** Once the rental balance is below zero, the only payments that can still be voided are ones that restore it. */
  lemma UncoveredLedgerVoids(l: Ledger, id: nat)
    requires Sound(l) && Balance(Live(l.payments), false) < 0 && Voided(l, id).1 == Done
    ensures var p := l.payments[FindLive(l.payments, id)];
      p.direction == Out && !IsDeposit(p.purpose) && p.amount >= -Balance(Live(l.payments), false)
  {
    var i := FindLive(l.payments, id);
    assert LiveAt(l.payments, i, id);
    VoidedBalance(l.payments, i, false);
    assert Balance(LiveWithout(l.payments, id), false) >= 0;
    assert l.payments[i].amount > 0;
  }

  lemma {:induction false} VoidedBalance(ps: seq<Payment>, i: nat, deposit: bool)
    requires DistinctIds(ps) && i < |ps| && !ps[i].voided
    ensures Balance(LiveWithout(ps, ps[i].id), deposit) == Balance(Live(ps), deposit) - Signed(EntryOf(ps[i]), deposit)
  {
    var n := |ps| - 1;
    if i == n {
      WithoutAbsent(ps[..n], ps[n].id);
      BalanceStep(Live(ps[..n]), EntryOf(ps[n]), deposit);
      assert LiveWithout(ps, ps[n].id) == Live(ps[..n]);
    } else {
      VoidedBalance(ps[..n], i, deposit);
      if ps[n].voided {
        assert Live(ps) == Live(ps[..n]) && LiveWithout(ps, ps[i].id) == LiveWithout(ps[..n], ps[i].id);
      } else {
        BalanceStep(Live(ps[..n]), EntryOf(ps[n]), deposit);
        BalanceStep(LiveWithout(ps[..n], ps[i].id), EntryOf(ps[n]), deposit);
      }
    }
  }

  lemma {:induction false} WithoutAbsent(ps: seq<Payment>, id: nat)
    requires forall i :: 0 <= i < |ps| ==> ps[i].id != id
    ensures LiveWithout(ps, id) == Live(ps)
  {
    if ps != [] { WithoutAbsent(ps[..|ps| - 1], id); }
  }

  /** The row just added is the live one with its id, and without it the ledger is what it was. */
  lemma JustAdded(ps: seq<Payment>, id: nat, input: Input)
    requires IdsBelow(ps, id)
    ensures var more := ps + [PaymentOf(id, input)];
      && FindLive(more, id) == |ps|
      && LiveWithout(more, id) == Live(ps)
      && Live(VoidIn(more, id)) == Live(ps)
  {
    var more := ps + [PaymentOf(id, input)];
    assert more[..|ps|] == ps && more[|ps|] == PaymentOf(id, input);
    WithoutAbsent(ps, id);
    LiveAfterVoid(more, id);
    assert LiveAt(more, |ps|, id);
  }

  /** Voiding the payment just recorded restores the live ledger, both balances and both statuses. */
  lemma VoidUndoesCreate(l: Ledger, id: nat, input: Input)
    requires Sound(l) && Allowed(l, Create(id, input)) && Balance(Live(l.payments), false) >= 0
    requires Recorded(l, id, input).1 == Done
    requires l.confirmation == None && !l.hasSettlement && l.status != Completed && l.status != Cancelled
    ensures var after := Voided(Recorded(l, id, input).0, id);
      && after.1 == Done
      && Live(after.0.payments) == Live(l.payments)
      && after.0.state == l.state
  {
    JustAdded(l.payments, id, input);
  }
}
