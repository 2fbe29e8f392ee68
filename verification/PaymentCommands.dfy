/** Manual payments by command: what a successful answer says about the caller's own order, amount and purpose. */
module PaymentCommands {
  import opened Json
  import opened Options
  import opened JsNumbers
  import opened StableJson
  import opened IdempotencyTable
  import opened StoredPayments
  import opened ManualPayments
  import opened CommandFingerprints

  /** A command with a finite, non-zero amount, as input validation demands. */
  type Command = c: PaymentCommand | c.amount.Finite? && ValidNumber(c.amount)
    witness PaymentCommand([], [], [], [], Finite(false, [1], 1), None, None, None, None)

  /** Any fixed arrangement of the keys of a command. */
  ghost predicate IsOrder(order: seq<Text>) {
    forall k :: k in order <==> k in PaymentKeys()
  }

  /** The hashed text; equal texts stand for equal hashes. */
  ghost function Fingerprint(order: seq<Text>, c: Command): Text
    requires IsOrder(order)
  {
    PaymentIsPlain(c);
    [OPEN_OBJECT] + Join(PrintMembers(PaymentFields(c), order)) + [CLOSE_OBJECT]
  }

  lemma FingerprintsTellApart(order: seq<Text>, a: Command, b: Command)
    requires IsOrder(order)
    ensures Fingerprint(order, a) == Fingerprint(order, b) <==> a == b
  {
    PaymentFingerprintIsFaithful(order, a, b);
    var x, y := Join(PrintMembers(PaymentFields(a), order)), Join(PrintMembers(PaymentFields(b), order));
    assert ([OPEN_OBJECT] + x + [CLOSE_OBJECT])[1..|x| + 1] == x;
    assert ([OPEN_OBJECT] + y + [CLOSE_OBJECT])[1..|y| + 1] == y;
  }

  /** The payment is the one the command asks for; without an instant of its own it may have any. */
  predicate Realises(p: Payment, c: Command) {
    && p.orderId == c.orderId
    && p.direction == c.direction
    && p.purpose == c.purpose
    && p.paymentMethod == c.paymentMethod
    && p.amount == PrintNumber(c.amount)
    && (c.paidAt.Some? ==> p.paidAt == c.paidAt.value)
  }

  type Commands = map<nat, Command>

  /** Every call submits the fingerprint of its command, and what it commits is the payment its command asks for. */
  ghost predicate Carries(es: seq<Event>, commands: Commands, order: seq<Text>)
    requires IsOrder(order)
  {
    forall e | e in es :: CarriesOne(e, commands, order)
  }

  ghost predicate CarriesOne(e: Event, commands: Commands, order: seq<Text>)
    requires IsOrder(order)
  {
    && (e.Submit? ==> e.call in commands && e.input.requestHash == Fingerprint(order, commands[e.call]))
    && (e.Transact? && e.outcome.Commits? ==> e.call in commands && Realises(e.payment, commands[e.call]))
  }

  ghost predicate CallsCarry(calls: map<nat, ClaimInput>, commands: Commands, order: seq<Text>)
    requires IsOrder(order)
  {
    forall c | c in calls :: c in commands && calls[c].requestHash == Fingerprint(order, commands[c])
  }

  ghost predicate EntryFor(e: Entry, c: Command, order: seq<Text>)
    requires IsOrder(order)
  {
    e.hash == Fingerprint(order, c) && Realises(e.payment, c)
  }

  ghost predicate LedgerCarries(ledger: seq<Entry>, order: seq<Text>)
    requires IsOrder(order)
  {
    forall i | 0 <= i < |ledger| :: Asked(ledger[i], order)
  }

  ghost predicate Asked(e: Entry, order: seq<Text>)
    requires IsOrder(order)
  {
    exists c: Command :: EntryFor(e, c, order)
  }

  ghost predicate AddsEntry(s: State, e: Event)
    requires Enabled(s, e) && e.Transact?
  {
    && e.outcome.Commits?
    && |Apply(s, e).ledger| == |s.ledger| + 1
    && s.ledger <= Apply(s, e).ledger
    && Apply(s, e).ledger[|s.ledger|].hash == s.calls[e.call].requestHash
    && Apply(s, e).ledger[|s.ledger|].payment == e.payment
  }

  lemma TransactAdds(s: State, e: Event)
    requires Inv(s) && Enabled(s, e) && e.Transact?
    ensures Apply(s, e).calls == s.calls
    ensures Apply(s, e).ledger != s.ledger ==> AddsEntry(s, e)
  {
    var slot, g := s.calls[e.call].slot, s.phases[e.call].grant;
    assert PhaseOk(s, s.calls[e.call], s.phases[e.call]);
    if Owns(s.table, slot, s.grants[g].id) {
      OwnerIsLastGrant(s, slot, g);
    }
  }

  /** A step adds at most the call it submits, and at most the payment it commits, under the committing call's hash. */
  lemma StepAdds(s: State, e: Event)
    requires Inv(s) && Enabled(s, e)
    ensures Apply(s, e).calls == if e.Submit? then s.calls[e.call := e.input] else s.calls
    ensures Apply(s, e).ledger != s.ledger ==> e.Transact? && AddsEntry(s, e)
  {
    if e.Transact? {
      TransactAdds(s, e);
    }
  }

  lemma LedgerGrows(before: seq<Entry>, after: seq<Entry>, c: Command, order: seq<Text>)
    requires IsOrder(order) && LedgerCarries(before, order)
    requires |after| == |before| + 1 && before <= after && EntryFor(after[|before|], c, order)
    ensures LedgerCarries(after, order)
  {
    forall i | 0 <= i < |after| ensures Asked(after[i], order) {
      if i < |before| {
        assert after[i] == before[i];
      }
    }
  }

  lemma StepCarries(s: State, e: Event, t: State, commands: Commands, order: seq<Text>)
    requires IsOrder(order) && Inv(s) && Enabled(s, e) && t == Apply(s, e) && CarriesOne(e, commands, order)
    requires CallsCarry(s.calls, commands, order) && LedgerCarries(s.ledger, order)
    ensures CallsCarry(t.calls, commands, order) && LedgerCarries(t.ledger, order)
  {
    StepAdds(s, e);
    if t.ledger != s.ledger {
      LedgerGrows(s.ledger, t.ledger, commands[e.call], order);
    }
  }

  lemma {:induction false} RunCarries(clock: int, es: seq<Event>, commands: Commands, order: seq<Text>)
    requires IsOrder(order) && Valid(Initial(clock), es) && Carries(es, commands, order)
    ensures var s := Run(Initial(clock), es);
      Inv(s) && CallsCarry(s.calls, commands, order) && LedgerCarries(s.ledger, order)
    decreases |es|
  {
    RunKeepsInv(Initial(clock), es);
    if es != [] {
      var n := |es| - 1;
      RunCarries(clock, es[..n], commands, order);
      var s := Run(Initial(clock), es[..n]);
      assert es[n] in es;
      StepCarries(s, es[n], Run(Initial(clock), es), commands, order);
    }
  }

  /** A ledger entry whose hash is the caller's realises the caller's command. */
  lemma OwnEntry(e: Entry, input: ClaimInput, result: Value, c: Command, order: seq<Text>)
    requires IsOrder(order) && Backs(e, input, result) && input.requestHash == Fingerprint(order, c)
    requires Asked(e, order)
    ensures Realises(e.payment, c)
  {
    var d: Command :| EntryFor(e, d, order);
    FingerprintsTellApart(order, d, c);
  }

  /** Some committed payment under the call's own key has this result and is the one the command asks for. */
  ghost predicate PaidFor(s: State, call: nat, result: Value, c: Command)
    requires call in s.calls
  {
    exists i | 0 <= i < |s.ledger| ::
      && s.ledger[i].slot == s.calls[call].slot
      && ToResult(s.ledger[i].payment) == result
      && Realises(s.ledger[i].payment, c)
  }

  lemma AnswerPaidFor(s: State, call: nat, commands: Commands, order: seq<Text>)
    requires IsOrder(order) && Inv(s) && CallsCarry(s.calls, commands, order) && LedgerCarries(s.ledger, order)
    requires call in s.phases && s.phases[call].Finished? && s.phases[call].answer.Succeeded()
    ensures call in s.calls && call in commands
    ensures PaidFor(s, call, s.phases[call].answer.result, commands[call])
  {
    assert PhaseOk(s, s.calls[call], s.phases[call]);
    var result := s.phases[call].answer.result;
    var i :| 0 <= i < |s.ledger| && Backs(s.ledger[i], s.calls[call], result);
    OwnEntry(s.ledger[i], s.calls[call], result, commands[call], order);
  }

  /**
   * In every run: a successful answer, first or replayed, is the result of a committed payment under the caller's key
   * that realises the caller's own command, with its order, direction, purpose, method and amount.
   */
  lemma AnswerIsAboutOwnCommand(clock: int, es: seq<Event>, commands: Commands, order: seq<Text>, call: nat)
    requires IsOrder(order) && Valid(Initial(clock), es) && Carries(es, commands, order)
    requires var s := Run(Initial(clock), es);
      call in s.phases && s.phases[call].Finished? && s.phases[call].answer.Succeeded()
    ensures var s := Run(Initial(clock), es);
      && call in s.calls && call in commands
      && PaidFor(s, call, s.phases[call].answer.result, commands[call])
  {
    RunCarries(clock, es, commands, order);
    AnswerPaidFor(Run(Initial(clock), es), call, commands, order);
  }
}
