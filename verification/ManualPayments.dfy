/**
 Recording a manual payment exactly once: any number of concurrent calls run the claim loop, the
 serializable payment transaction and the best-effort release against one shared database.

 A run is a sequence of events. Each SQL statement of the claim loop is an event of its own, so runs
 cover every interleaving. The payment transaction is one event, and like every statement it may take
 effect although its caller sees an error. Ids issued by `randomUUID` are fresh.
 */
module ManualPayments {
  import opened Options
  import opened Json
  import opened IdempotencyTable
  import opened StoredPayments

  const RETENTION_MS: int := 30 * 24 * 60 * 60 * 1000
  const TRANSACTION_ATTEMPTS: nat := 3

  datatype Answer =
    | Created(result: Value)
    | Replayed(result: Value)
    | ReplayUnavailable
    | KeyReused
    | Busy
    | ClaimLost
    | NotFound
    | Refused
    | Failed
  {
    predicate Succeeded() { Created? || Replayed? }
  }

  /** Where a call is: in attempt `n` of the claim loop, in its transaction, in its cleanup, or done. */
  datatype Phase =
    | Attempting(n: nat)
    | Deleting(n: nat, now: int)
    | Creating(n: nat, now: int)
    | Reading(n: nat, now: int)
    | Recovering(n: nat, now: int, existing: Id)
    | Executing(grant: nat, tries: nat)
    | Releasing(grant: nat, outcome: Answer)
    | Finished(answer: Answer)

  /** History of ownership: the row of `slot` was given the id `id` when the clock showed `at`. */
  datatype Grant = Grant(slot: Slot, id: Id, hash: Hash, at: int)

  /** A committed payment, with the claim it was committed under and the row's retention deadline. */
  datatype Entry = Entry(slot: Slot, hash: Hash, grant: nat, payment: Payment, expiresAt: int)

  datatype State = State(
    clock: int,
    table: Table,
    issued: set<Id>,
    grants: seq<Grant>,
    ledger: seq<Entry>,
    calls: map<nat, ClaimInput>,
    phases: map<nat, Phase>)

  datatype TransactionOutcome =
    | Commits(seen: bool)
    | Aborts
    | OrderMissing
    | InvariantViolated

  datatype Event =
    | Tick(ms: nat)
    | Submit(call: nat, input: ClaimInput)
    | ReadClock(call: nat)
    | DeleteExpiredRow(call: nat)
    | CreateRow(call: nat, id: Id, seen: bool)
    | ReadRow(call: nat)
    | RecoverRow(call: nat, id: Id, seen: bool)
    | Transact(call: nat, outcome: TransactionOutcome, payment: Payment, retryable: bool)
    | ReleaseClaim(call: nat, delivered: bool)

  function Initial(clock: int): State {
    State(clock, map[], {}, [], [], map[], map[])
  }

  predicate At(s: State, call: nat) {
    call in s.phases && call in s.calls
  }

  predicate Enabled(s: State, e: Event) {
    match e
    case Tick(_) => true
    case Submit(call, input) => call !in s.phases && input.expiresAt == s.clock + RETENTION_MS
    case ReadClock(call) => At(s, call) && s.phases[call].Attempting?
    case DeleteExpiredRow(call) => At(s, call) && s.phases[call].Deleting?
    case CreateRow(call, id, _) => At(s, call) && s.phases[call].Creating? && id !in s.issued
    case ReadRow(call) => At(s, call) && s.phases[call].Reading?
    case RecoverRow(call, id, _) => At(s, call) && s.phases[call].Recovering? && id !in s.issued
    case Transact(call, _, _, _) =>
      At(s, call) && s.phases[call].Executing? && s.phases[call].grant < |s.grants|
    case ReleaseClaim(call, _) =>
      At(s, call) && s.phases[call].Releasing? && s.phases[call].grant < |s.grants|
  }

  function NextAttempt(n: nat): Phase {
    if n + 1 < CLAIM_ATTEMPTS then Attempting(n + 1) else Finished(Busy)
  }

  /** The claim statement took effect; a caller that does not see it fails and leaves the row behind. */
  function GrantClaim(s: State, call: nat, id: Id, table: Table, seen: bool): State
    requires At(s, call)
  {
    s.(table := table,
       issued := s.issued + {id},
       grants := s.grants + [Grant(s.calls[call].slot, id, s.calls[call].requestHash, s.clock)],
       phases := s.phases[call := if seen then Executing(|s.grants|, 1) else Finished(Failed)])
  }

  function ReadOutcome(s: State, call: nat, n: nat, now: int): Phase
    requires At(s, call)
  {
    var input := s.calls[call];
    if input.slot !in s.table then NextAttempt(n)
    else
      var row := s.table[input.slot];
      if row.requestHash != input.requestHash then Finished(KeyReused)
      else if row.completion.Some? then
        var body := row.completion.value.responseBody;
        if IsStored(body) then Finished(Replayed(StoredResult(body))) else Finished(ReplayUnavailable)
      else if row.createdAt > now - CLAIM_LEASE_MS then Finished(Busy)
      else Recovering(n, now, row.id)
  }

  /** Payment, projection, event, audit and completion of the claim, all or nothing. */
  function Commit(s: State, slot: Slot, grant: nat, payment: Payment): State
    requires slot in s.table && grant < |s.grants|
  {
    var row := s.table[slot];
    s.(table := Complete(s.table, slot, s.grants[grant].id, Completion(201, ToStored(payment), s.clock)),
       ledger := s.ledger + [Entry(slot, row.requestHash, grant, payment, row.expiresAt)])
  }

  function AfterError(grant: nat, tries: nat, retryable: bool): Phase {
    if retryable && tries < TRANSACTION_ATTEMPTS then Executing(grant, tries + 1) else Releasing(grant, Failed)
  }

  function Apply(s: State, e: Event): State
    requires Enabled(s, e)
  {
    match e
    case Tick(ms) => s.(clock := s.clock + ms)
    case Submit(call, input) => s.(calls := s.calls[call := input], phases := s.phases[call := Attempting(0)])
    case ReadClock(call) => s.(phases := s.phases[call := Deleting(s.phases[call].n, s.clock)])
    case DeleteExpiredRow(call) =>
      var p := s.phases[call];
      s.(table := DeleteExpired(s.table, s.calls[call].slot, p.now), phases := s.phases[call := Creating(p.n, p.now)])
    case CreateRow(call, id, seen) =>
      var p := s.phases[call];
      var created := Create(s.table, s.calls[call], id, p.now);
      if created.Some? then GrantClaim(s, call, id, created.value, seen)
      else s.(issued := s.issued + {id}, phases := s.phases[call := Reading(p.n, p.now)])
    case ReadRow(call) =>
      var p := s.phases[call];
      s.(phases := s.phases[call := ReadOutcome(s, call, p.n, p.now)])
    case RecoverRow(call, id, seen) =>
      var p := s.phases[call];
      if Recoverable(s.table, s.calls[call], p.existing, p.now - CLAIM_LEASE_MS)
      then GrantClaim(s, call, id, Recover(s.table, s.calls[call], p.existing, id, p.now), seen)
      else s.(issued := s.issued + {id}, phases := s.phases[call := NextAttempt(p.n)])
    case Transact(call, outcome, payment, retryable) =>
      var p := s.phases[call];
      var slot := s.calls[call].slot;
      if !Owns(s.table, slot, s.grants[p.grant].id) then
        s.(phases := s.phases[call := Releasing(p.grant, ClaimLost)])
      else (
        match outcome
        case Commits(true) =>
          Commit(s, slot, p.grant, payment).(phases := s.phases[call := Finished(Created(ToResult(payment)))])
        case Commits(false) =>
          Commit(s, slot, p.grant, payment).(phases := s.phases[call := AfterError(p.grant, p.tries, retryable)])
        case Aborts => s.(phases := s.phases[call := AfterError(p.grant, p.tries, retryable)])
        case OrderMissing => s.(phases := s.phases[call := Releasing(p.grant, NotFound)])
        case InvariantViolated => s.(phases := s.phases[call := Releasing(p.grant, Refused)])
      )
    case ReleaseClaim(call, delivered) =>
      var p := s.phases[call];
      s.(table := if delivered then Release(s.table, s.calls[call].slot, s.grants[p.grant].id) else s.table,
         phases := s.phases[call := Finished(p.outcome)])
  }

  /** The events of a run, each enabled where it happens, lead from `s` to `Run(s, es)`. */
  ghost predicate Valid(s: State, es: seq<Event>)
    decreases |es|, 0
  {
    es == [] || (Valid(s, es[..|es| - 1]) && Enabled(Run(s, es[..|es| - 1]), es[|es| - 1]))
  }

  ghost function Run(s: State, es: seq<Event>): State
    requires Valid(s, es)
    decreases |es|, 1
  {
    if es == [] then s else Apply(Run(s, es[..|es| - 1]), es[|es| - 1])
  }

  ghost predicate Reachable(s: State) {
    exists clock: int, es: seq<Event> :: Valid(Initial(clock), es) && s == Run(Initial(clock), es)
  }

  // ---------------------------------------------------------------------------------------------
  // Invariant
  // ---------------------------------------------------------------------------------------------

  /** Issued ids are used once. */
  ghost predicate GrantsFresh(s: State) {
    && (forall i | 0 <= i < |s.grants| :: s.grants[i].id in s.issued)
    && (forall i, j | 0 <= i < j < |s.grants| :: s.grants[i].id != s.grants[j].id)
  }

  /** `g` is the last grant on its slot. */
  ghost predicate LastOn(s: State, g: nat) {
    && g < |s.grants|
    && forall j | g < j < |s.grants| :: s.grants[j].slot != s.grants[g].slot
  }

  /** The row of a slot carries its last grant, and is completed exactly when that grant has paid. */
  ghost predicate RowsGranted(s: State) {
    forall slot | slot in s.table ::
      exists g: nat :: LastOn(s, g) && RowGranted(s, slot, g)
  }

  ghost predicate RowGranted(s: State, slot: Slot, g: nat)
    requires slot in s.table
  {
    && g < |s.grants|
    && s.grants[g].slot == slot
    && s.grants[g].id == s.table[slot].id
    && s.grants[g].hash == s.table[slot].requestHash
    && (s.table[slot].completion.None? ==> forall i | 0 <= i < |s.ledger| :: s.ledger[i].grant != g)
    && (s.table[slot].completion.Some? ==>
          exists i :: 0 <= i < |s.ledger| && s.ledger[i].grant == g && Recorded(s, s.ledger[i]))
  }

  /** The row of a committed payment. */
  ghost predicate Recorded(s: State, e: Entry) {
    && e.grant < |s.grants|
    && e.slot in s.table
    && s.table[e.slot].id == s.grants[e.grant].id
    && s.table[e.slot].requestHash == e.hash
    && s.table[e.slot].expiresAt == e.expiresAt
    && s.table[e.slot].completion.Some?
    && s.table[e.slot].completion.value.responseBody == ToStored(e.payment)
  }

  ghost predicate EntryOk(s: State, e: Entry) {
    && e.grant < |s.grants|
    && s.grants[e.grant].slot == e.slot
    && s.grants[e.grant].hash == e.hash
    && (Recorded(s, e) || e.expiresAt <= s.clock)
    && forall j | e.grant < j < |s.grants| && s.grants[j].slot == e.slot :: e.expiresAt <= s.grants[j].at
  }

  ghost predicate LedgerOk(s: State) {
    && (forall i | 0 <= i < |s.ledger| :: EntryOk(s, s.ledger[i]))
    && (forall i, j | 0 <= i < j < |s.ledger| && s.ledger[i].slot == s.ledger[j].slot ::
          s.ledger[i].grant < s.ledger[j].grant)
  }

  ghost predicate Backed(s: State, input: ClaimInput, result: Value) {
    exists i :: 0 <= i < |s.ledger| && Backs(s.ledger[i], input, result)
  }

  ghost predicate Backs(e: Entry, input: ClaimInput, result: Value) {
    e.slot == input.slot && e.hash == input.requestHash && ToResult(e.payment) == result
  }

  ghost predicate PhaseOk(s: State, input: ClaimInput, p: Phase) {
    match p
    case Attempting(_) => true
    case Deleting(_, now) => now <= s.clock
    case Creating(_, now) => now <= s.clock
    case Reading(_, now) => now <= s.clock
    case Recovering(_, now, _) => now <= s.clock
    case Executing(g, _) => Holds(s, input, g)
    case Releasing(g, outcome) => Holds(s, input, g) && !outcome.Succeeded() && !outcome.ReplayUnavailable?
    case Finished(answer) =>
      !answer.ReplayUnavailable? && (answer.Succeeded() ==> Backed(s, input, answer.result))
  }

  ghost predicate Holds(s: State, input: ClaimInput, g: nat) {
    g < |s.grants| && s.grants[g].slot == input.slot && s.grants[g].hash == input.requestHash
  }

  ghost predicate CallsOk(s: State) {
    forall c | c in s.phases :: c in s.calls && PhaseOk(s, s.calls[c], s.phases[c])
  }

  ghost predicate Inv(s: State) {
    GrantsFresh(s) && RowsGranted(s) && LedgerOk(s) && CallsOk(s)
  }

  /** Later states keep what a call may rely on. */
  ghost predicate Extends(s: State, t: State) {
    s.clock <= t.clock && s.grants <= t.grants && s.ledger <= t.ledger
  }

  lemma PhaseOkExtends(s: State, t: State, input: ClaimInput, p: Phase)
    requires Extends(s, t) && PhaseOk(s, input, p)
    ensures PhaseOk(t, input, p)
  {
    if p.Finished? && p.answer.Succeeded() {
      var i :| 0 <= i < |s.ledger| && Backs(s.ledger[i], input, p.answer.result);
      assert t.ledger[i] == s.ledger[i];
    }
  }

  /** One call moves to a phase that is in order; the others keep theirs. */
  lemma CallsOkAfter(s: State, t: State, call: nat, p: Phase)
    requires CallsOk(s) && Extends(s, t)
    requires call in t.calls && PhaseOk(t, t.calls[call], p)
    requires t.phases == s.phases[call := p]
    requires forall c | c in s.phases && c != call :: c in t.calls && t.calls[c] == s.calls[c]
    ensures CallsOk(t)
  {
    forall c | c in t.phases ensures c in t.calls && PhaseOk(t, t.calls[c], t.phases[c]) {
      if c != call {
        PhaseOkExtends(s, t, s.calls[c], s.phases[c]);
      }
    }
  }

  /** Rows and ledger stay in order when a row is removed that is incomplete or past its deadline. */
  lemma RowRemoved(s: State, t: State, slot: Slot)
    requires Inv(s)
    requires t.grants == s.grants && t.ledger == s.ledger && s.clock <= t.clock && s.issued <= t.issued
    requires t.table == s.table || (slot in s.table && t.table == s.table - {slot}
               && (s.table[slot].completion.None? || s.table[slot].expiresAt <= s.clock))
    ensures GrantsFresh(t) && RowsGranted(t) && LedgerOk(t)
  {
    RemovalKeepsRows(s, t);
    forall i | 0 <= i < |t.ledger| ensures EntryOk(t, t.ledger[i]) {
      assert EntryOk(s, s.ledger[i]);
    }
  }

  lemma RemovalKeepsRows(s: State, t: State)
    requires RowsGranted(s) && LedgerOk(s) && t.grants == s.grants && t.ledger == s.ledger
    requires forall x :: x in t.table ==> x in s.table && t.table[x] == s.table[x]
    ensures RowsGranted(t)
  {
    forall x | x in t.table ensures exists g: nat :: LastOn(t, g) && RowGranted(t, x, g) {
      var g: nat :| LastOn(s, g) && RowGranted(s, x, g);
      RemovalKeepsRow(s, t, x, g);
    }
  }

  lemma RemovalKeepsRow(s: State, t: State, x: Slot, g: nat)
    requires LedgerOk(s) && t.grants == s.grants && t.ledger == s.ledger
    requires x in t.table && x in s.table && t.table[x] == s.table[x]
    requires LastOn(s, g) && RowGranted(s, x, g)
    ensures LastOn(t, g) && RowGranted(t, x, g)
  {
    if s.table[x].completion.Some? {
      var i :| 0 <= i < |s.ledger| && s.ledger[i].grant == g && Recorded(s, s.ledger[i]);
      assert EntryOk(s, s.ledger[i]);
      assert Recorded(t, t.ledger[i]);
    }
  }

  /** A slot whose row is absent or incomplete holds no payment within its retention. */
  lemma NoLivePayment(s: State, slot: Slot)
    requires LedgerOk(s) && !SettledRow(s.table, slot)
    ensures forall i | 0 <= i < |s.ledger| && s.ledger[i].slot == slot :: s.ledger[i].expiresAt <= s.clock
  {
    forall i | 0 <= i < |s.ledger| && s.ledger[i].slot == slot ensures s.ledger[i].expiresAt <= s.clock {
      assert EntryOk(s, s.ledger[i]);
    }
  }

  lemma LedgerOkAfterGrant(s: State, t: State, g: Grant, row: Row)
    requires LedgerOk(s) && !SettledRow(s.table, g.slot)
    requires t.table == s.table[g.slot := row] && t.grants == s.grants + [g] && g.at == s.clock
    requires t.ledger == s.ledger && t.clock == s.clock
    ensures LedgerOk(t)
  {
    NoLivePayment(s, g.slot);
    forall i | 0 <= i < |t.ledger| ensures EntryOk(t, t.ledger[i]) {
      assert EntryOk(s, s.ledger[i]);
    }
  }

  lemma RowsGrantedAfterGrant(s: State, t: State, g: Grant, row: Row)
    requires RowsGranted(s) && LedgerOk(s)
    requires t.table == s.table[g.slot := row] && t.grants == s.grants + [g] && t.ledger == s.ledger
    requires row.id == g.id && row.requestHash == g.hash && row.completion.None?
    ensures RowsGranted(t)
  {
    forall x | x in t.table ensures exists h: nat :: LastOn(t, h) && RowGranted(t, x, h) {
      if x == g.slot {
        forall i | 0 <= i < |s.ledger| ensures t.ledger[i].grant != |s.grants| {
          assert EntryOk(s, s.ledger[i]);
        }
        assert LastOn(t, |s.grants|) && RowGranted(t, x, |s.grants|);
      } else {
        var h: nat :| LastOn(s, h) && RowGranted(s, x, h);
        RowGrantedElsewhere(s, t, x, h);
        assert LastOn(t, h);
      }
    }
  }

  lemma RowGrantedElsewhere(s: State, t: State, x: Slot, h: nat)
    requires x in s.table && x in t.table && t.table[x] == s.table[x]
    requires s.grants <= t.grants && s.ledger <= t.ledger
    requires forall i | |s.ledger| <= i < |t.ledger| :: t.ledger[i].grant != h
    requires RowGranted(s, x, h)
    requires forall i | 0 <= i < |s.ledger| && s.ledger[i].grant == h && Recorded(s, s.ledger[i]) :: s.ledger[i].slot == x
    ensures RowGranted(t, x, h)
  {
    if s.table[x].completion.Some? {
      var i :| 0 <= i < |s.ledger| && s.ledger[i].grant == h && Recorded(s, s.ledger[i]);
      assert t.ledger[i] == s.ledger[i] && Recorded(t, t.ledger[i]);
    }
  }

  lemma ClaimGranted(s: State, call: nat, id: Id, row: Row, seen: bool)
    requires Inv(s) && At(s, call) && id !in s.issued
    requires !SettledRow(s.table, s.calls[call].slot)
    requires row.id == id && row.completion.None? && row.requestHash == s.calls[call].requestHash
    ensures Inv(GrantClaim(s, call, id, s.table[s.calls[call].slot := row], seen))
  {
    var slot := s.calls[call].slot;
    var t := GrantClaim(s, call, id, s.table[slot := row], seen);
    var g := Grant(slot, id, s.calls[call].requestHash, s.clock);
    LedgerOkAfterGrant(s, t, g, row);
    RowsGrantedAfterGrant(s, t, g, row);
    CallsOkAfter(s, t, call, t.phases[call]);
  }

  /** A claim that owns its row commits under its own, last grant; no payment was made under it before. */
  lemma OwnerIsLastGrant(s: State, slot: Slot, g: nat)
    requires Inv(s) && g < |s.grants| && Owns(s.table, slot, s.grants[g].id)
    ensures LastOn(s, g) && RowGranted(s, slot, g)
    ensures forall i | 0 <= i < |s.ledger| && s.ledger[i].slot == slot :: s.ledger[i].grant < g
  {
    var h: nat :| LastOn(s, h) && RowGranted(s, slot, h);
    assert h == g;
    forall i | 0 <= i < |s.ledger| && s.ledger[i].slot == slot ensures s.ledger[i].grant < g {
      assert EntryOk(s, s.ledger[i]);
    }
  }

  lemma LedgerOkAfterCommit(s: State, slot: Slot, g: nat, payment: Payment)
    requires Inv(s) && g < |s.grants| && Owns(s.table, slot, s.grants[g].id)
    ensures LedgerOk(Commit(s, slot, g, payment))
    ensures Recorded(Commit(s, slot, g, payment), Commit(s, slot, g, payment).ledger[|s.ledger|])
  {
    var t := Commit(s, slot, g, payment);
    var last := |s.ledger|;
    OwnerIsLastGrant(s, slot, g);
    assert Recorded(t, t.ledger[last]);
    forall i | 0 <= i < |t.ledger| ensures EntryOk(t, t.ledger[i]) {
      if i < last {
        EarlierEntryOk(s, slot, g, payment, i);
      }
    }
    assert forall i :: 0 <= i < last ==> t.ledger[i] == s.ledger[i];
  }

  lemma EarlierEntryOk(s: State, slot: Slot, g: nat, payment: Payment, i: nat)
    requires Inv(s) && g < |s.grants| && Owns(s.table, slot, s.grants[g].id) && i < |s.ledger|
    ensures EntryOk(Commit(s, slot, g, payment), Commit(s, slot, g, payment).ledger[i])
  {
    var t := Commit(s, slot, g, payment);
    assert t.ledger[i] == s.ledger[i] && EntryOk(s, s.ledger[i]);
  }

  lemma RowsGrantedAfterCommit(s: State, slot: Slot, g: nat, payment: Payment)
    requires Inv(s) && g < |s.grants| && Owns(s.table, slot, s.grants[g].id)
    ensures RowsGranted(Commit(s, slot, g, payment))
  {
    var t := Commit(s, slot, g, payment);
    var last := |s.ledger|;
    OwnerIsLastGrant(s, slot, g);
    LedgerOkAfterCommit(s, slot, g, payment);
    forall x | x in t.table ensures exists h: nat :: LastOn(t, h) && RowGranted(t, x, h) {
      if x == slot {
        assert t.ledger[last].grant == g;
        assert LastOn(t, g) && RowGranted(t, x, g);
      } else {
        var h: nat :| LastOn(s, h) && RowGranted(s, x, h);
        assert LastOn(t, h);
        forall i | 0 <= i < |s.ledger| && s.ledger[i].grant == h ensures s.ledger[i].slot == x {
          assert EntryOk(s, s.ledger[i]);
        }
        RowGrantedElsewhere(s, t, x, h);
      }
    }
  }

  predicate AfterCommit(s: State, call: nat, payment: Payment, p: Phase)
    requires At(s, call) && s.phases[call].Executing?
  {
    || p == Finished(Created(ToResult(payment)))
    || p == Executing(s.phases[call].grant, s.phases[call].tries + 1)
    || p == Releasing(s.phases[call].grant, Failed)
  }

  lemma CallsOkAfterCommit(s: State, t: State, call: nat, payment: Payment, p: Phase)
    requires CallsOk(s) && At(s, call) && s.phases[call].Executing? && AfterCommit(s, call, payment, p)
    requires t.grants == s.grants && t.clock == s.clock && t.calls == s.calls && t.phases == s.phases[call := p]
    requires s.ledger <= t.ledger && |t.ledger| == |s.ledger| + 1
    requires Backs(t.ledger[|s.ledger|], s.calls[call], ToResult(payment))
    ensures CallsOk(t)
  {
    assert PhaseOk(s, s.calls[call], s.phases[call]);
    if p.Finished? {
      assert Backed(t, s.calls[call], p.answer.result);
    }
    CallsOkAfter(s, t, call, p);
  }

  lemma PaymentCommitted(s: State, call: nat, payment: Payment, p: Phase)
    requires Inv(s) && At(s, call) && s.phases[call].Executing? && s.phases[call].grant < |s.grants|
    requires Owns(s.table, s.calls[call].slot, s.grants[s.phases[call].grant].id)
    requires AfterCommit(s, call, payment, p)
    ensures Inv(Commit(s, s.calls[call].slot, s.phases[call].grant, payment).(phases := s.phases[call := p]))
  {
    var slot, g := s.calls[call].slot, s.phases[call].grant;
    var c := Commit(s, slot, g, payment);
    var t := c.(phases := s.phases[call := p]);
    LedgerOkAfterCommit(s, slot, g, payment);
    RowsGrantedAfterCommit(s, slot, g, payment);
    SameRecords(c, t);
    assert PhaseOk(s, s.calls[call], s.phases[call]);
    OwnerIsLastGrant(s, slot, g);
    CallsOkAfterCommit(s, t, call, payment, p);
  }

  lemma SameRecords(s: State, t: State)
    requires t.table == s.table && t.grants == s.grants && t.ledger == s.ledger && s.clock <= t.clock
    requires s.issued <= t.issued
    ensures GrantsFresh(s) ==> GrantsFresh(t)
    ensures RowsGranted(s) ==> RowsGranted(t)
    ensures LedgerOk(s) ==> LedgerOk(t)
  {
    if RowsGranted(s) {
      forall x | x in t.table ensures exists g: nat :: LastOn(t, g) && RowGranted(t, x, g) {
        var g: nat :| LastOn(s, g) && RowGranted(s, x, g);
        assert LastOn(t, g) && RowGranted(t, x, g);
      }
    }
    if LedgerOk(s) {
      forall i | 0 <= i < |t.ledger| ensures EntryOk(t, t.ledger[i]) {
        assert EntryOk(s, s.ledger[i]);
      }
    }
  }

  /** A completed row was written by its payment, so its body is recognised and is that payment's result. */
  lemma CompletedRowIsBacked(s: State, input: ClaimInput)
    requires Inv(s) && SettledRow(s.table, input.slot) && s.table[input.slot].requestHash == input.requestHash
    ensures var body := s.table[input.slot].completion.value.responseBody;
            IsStored(body) && Backed(s, input, StoredResult(body))
  {
    var g: nat :| LastOn(s, g) && RowGranted(s, input.slot, g);
    var i :| 0 <= i < |s.ledger| && s.ledger[i].grant == g && Recorded(s, s.ledger[i]);
    var e := s.ledger[i];
    assert EntryOk(s, e);
    StoredResultRoundTrip(e.payment);
    assert Backs(e, input, ToResult(e.payment));
  }

  /** A step that writes no row and no payment. */
  lemma QuietStep(s: State, t: State, call: nat, p: Phase)
    requires Inv(s)
    requires t.table == s.table && t.grants == s.grants && t.ledger == s.ledger && t.clock == s.clock
    requires s.issued <= t.issued && t.calls == s.calls && call in s.calls && t.phases == s.phases[call := p]
    requires PhaseOk(t, t.calls[call], p)
    ensures Inv(t)
  {
    SameRecords(s, t);
    CallsOkAfter(s, t, call, p);
  }

  lemma ClaimStepKeepsInv(s: State, e: Event)
    requires Inv(s) && Enabled(s, e)
    requires e.ReadClock? || e.DeleteExpiredRow? || e.CreateRow? || e.ReadRow? || e.RecoverRow?
    ensures Inv(Apply(s, e))
  {
    var t := Apply(s, e);
    var call := e.call;
    var input := s.calls[call];
    var p := s.phases[call];
    assert PhaseOk(s, input, p);
    match e
    case ReadClock(_) =>
      QuietStep(s, t, call, t.phases[call]);
    case DeleteExpiredRow(_) =>
      RowRemoved(s, t, input.slot);
      CallsOkAfter(s, t, call, t.phases[call]);
    case CreateRow(_, id, seen) =>
      if input.slot in s.table {
        QuietStep(s, t, call, t.phases[call]);
      } else {
        ClaimGranted(s, call, id, Row(id, input.requestHash, p.now, input.expiresAt, None), seen);
      }
    case ReadRow(_) =>
      if SettledRow(s.table, input.slot) && s.table[input.slot].requestHash == input.requestHash {
        CompletedRowIsBacked(s, input);
        assert Backed(t, input, StoredResult(s.table[input.slot].completion.value.responseBody)) by {
          assert t.ledger == s.ledger;
        }
      }
      QuietStep(s, t, call, t.phases[call]);
    case RecoverRow(_, id, seen) =>
      if Recoverable(s.table, input, p.existing, p.now - CLAIM_LEASE_MS) {
        ClaimGranted(s, call, id, s.table[input.slot].(id := id, createdAt := p.now, expiresAt := input.expiresAt), seen);
      } else {
        QuietStep(s, t, call, t.phases[call]);
      }
  }

  lemma TransactKeepsInv(s: State, e: Event)
    requires Inv(s) && Enabled(s, e) && e.Transact?
    ensures Inv(Apply(s, e))
  {
    var call := e.call;
    var p := s.phases[call];
    assert PhaseOk(s, s.calls[call], p);
    var t := Apply(s, e);
    if Owns(s.table, s.calls[call].slot, s.grants[p.grant].id) && e.outcome.Commits? {
      PaymentCommitted(s, call, e.payment, t.phases[call]);
    } else {
      QuietStep(s, t, call, t.phases[call]);
    }
  }

  lemma ReleaseKeepsInv(s: State, e: Event)
    requires Inv(s) && Enabled(s, e) && e.ReleaseClaim?
    ensures Inv(Apply(s, e))
  {
    var t := Apply(s, e);
    assert PhaseOk(s, s.calls[e.call], s.phases[e.call]);
    RowRemoved(s, t, s.calls[e.call].slot);
    CallsOkAfter(s, t, e.call, t.phases[e.call]);
  }

  lemma ClockOrSubmitKeepsInv(s: State, e: Event)
    requires Inv(s) && Enabled(s, e) && (e.Tick? || e.Submit?)
    ensures Inv(Apply(s, e))
  {
    var t := Apply(s, e);
    SameRecords(s, t);
    if e.Submit? {
      CallsOkAfter(s, t, e.call, t.phases[e.call]);
    } else {
      forall c | c in t.phases ensures c in t.calls && PhaseOk(t, t.calls[c], t.phases[c]) {
        PhaseOkExtends(s, t, s.calls[c], s.phases[c]);
      }
    }
  }

  lemma StepExtends(s: State, e: Event)
    requires Enabled(s, e)
    ensures Extends(s, Apply(s, e))
  {
  }

  lemma StepKeepsInv(s: State, e: Event)
    requires Inv(s) && Enabled(s, e)
    ensures Inv(Apply(s, e))
  {
    if e.Tick? || e.Submit? {
      ClockOrSubmitKeepsInv(s, e);
    } else if e.Transact? {
      TransactKeepsInv(s, e);
    } else if e.ReleaseClaim? {
      ReleaseKeepsInv(s, e);
    } else {
      ClaimStepKeepsInv(s, e);
    }
  }

  lemma {:induction false} RunKeepsInv(s: State, es: seq<Event>)
    requires Inv(s) && Valid(s, es)
    ensures Inv(Run(s, es))
    ensures Extends(s, Run(s, es))
    decreases |es|
  {
    if es != [] {
      RunKeepsInv(s, es[..|es| - 1]);
      StepKeepsInv(Run(s, es[..|es| - 1]), es[|es| - 1]);
      StepExtends(Run(s, es[..|es| - 1]), es[|es| - 1]);
    }
  }

  lemma RunSnoc(s: State, es: seq<Event>, e: Event)
    requires Valid(s, es) && Enabled(Run(s, es), e)
    ensures Valid(s, es + [e]) && Run(s, es + [e]) == Apply(Run(s, es), e)
  {
    assert (es + [e])[..|es + [e]| - 1] == es;
  }

  lemma ReachableInv(s: State)
    requires Reachable(s)
    ensures Inv(s)
  {
    var clock: int, es: seq<Event> :| Valid(Initial(clock), es) && s == Run(Initial(clock), es);
    RunKeepsInv(Initial(clock), es);
  }

  // ---------------------------------------------------------------------------------------------
  // What every run guarantees
  // ---------------------------------------------------------------------------------------------

  /** Payment `i` was made under the id the row of `slot` carries. */
  ghost predicate Pays(s: State, slot: Slot, i: int) {
    && slot in s.table
    && 0 <= i < |s.ledger|
    && s.ledger[i].slot == slot
    && s.ledger[i].grant < |s.grants|
    && s.grants[s.ledger[i].grant].id == s.table[slot].id
  }

  /** A completed record has exactly one committed payment, an incomplete one has none. */
  lemma ExactlyOnePayment(s: State, slot: Slot)
    requires Reachable(s) && slot in s.table
    ensures s.table[slot].completion.Some? ==>
      exists i :: Pays(s, slot, i) && Recorded(s, s.ledger[i]) && forall j :: Pays(s, slot, j) ==> j == i
    ensures s.table[slot].completion.None? ==> forall j :: !Pays(s, slot, j)
  {
    ReachableInv(s);
    var g: nat :| LastOn(s, g) && RowGranted(s, slot, g);
    forall j | Pays(s, slot, j) ensures s.ledger[j].grant == g {
      assert s.grants[s.ledger[j].grant].id == s.grants[g].id;
    }
    if s.table[slot].completion.Some? {
      var i :| 0 <= i < |s.ledger| && s.ledger[i].grant == g && Recorded(s, s.ledger[i]);
      assert EntryOk(s, s.ledger[i]);
      assert Pays(s, slot, i);
      forall j | Pays(s, slot, j) ensures j == i {
        assert s.ledger[j].grant == s.ledger[i].grant;
      }
    }
  }

  /** Two payments under one key: the later was claimed when the first record's retention was over. */
  lemma WindowsAreDisjoint(s: State, i: int, j: int)
    requires Reachable(s)
    requires 0 <= i < j < |s.ledger| && s.ledger[i].slot == s.ledger[j].slot
    ensures s.ledger[j].grant < |s.grants|
    ensures s.ledger[i].expiresAt <= s.grants[s.ledger[j].grant].at
  {
    ReachableInv(s);
    assert EntryOk(s, s.ledger[i]) && EntryOk(s, s.ledger[j]);
  }

  /** Results of two payments under one key, the later claimed when the earlier record's retention was over. */
  ghost predicate Apart(s: State, slot: Slot, a: Value, b: Value) {
    exists i, j | 0 <= i < |s.ledger| && 0 <= j < |s.ledger| && s.ledger[j].grant < |s.grants| ::
      && s.ledger[i].slot == s.ledger[j].slot == slot
      && s.ledger[i].expiresAt <= s.grants[s.ledger[j].grant].at
      && ToResult(s.ledger[i].payment) == a && ToResult(s.ledger[j].payment) == b
  }

  lemma BackedApart(s: State, i: int, j: int, x: ClaimInput, a: Value, y: ClaimInput, b: Value)
    requires Reachable(s) && 0 <= i < j < |s.ledger| && x.slot == y.slot
    requires Backs(s.ledger[i], x, a) && Backs(s.ledger[j], y, b)
    ensures Apart(s, x.slot, a, b)
  {
    WindowsAreDisjoint(s, i, j);
  }

  lemma AnswerIsBacked(s: State, c: nat)
    requires Reachable(s) && c in s.phases && s.phases[c].Finished? && s.phases[c].answer.Succeeded()
    ensures c in s.calls && Backed(s, s.calls[c], s.phases[c].answer.result)
  {
    ReachableInv(s);
    assert PhaseOk(s, s.calls[c], s.phases[c]);
  }

  /**
   A successful answer, first or replayed, is the result of a payment committed for this very key and
   command. Two successful answers under one key agree, unless the later payment was claimed after the
   earlier record had expired.
   */
  lemma AnswersAgree(s: State, c: nat, d: nat)
    requires Reachable(s) && c in s.phases && d in s.phases
    requires s.phases[c].Finished? && s.phases[c].answer.Succeeded()
    requires s.phases[d].Finished? && s.phases[d].answer.Succeeded()
    ensures c in s.calls && d in s.calls
    ensures s.calls[c].slot == s.calls[d].slot ==>
      var a, b := s.phases[c].answer.result, s.phases[d].answer.result;
      || (a == b && s.calls[c].requestHash == s.calls[d].requestHash)
      || Apart(s, s.calls[c].slot, a, b)
      || Apart(s, s.calls[c].slot, b, a)
  {
    AnswerIsBacked(s, c);
    AnswerIsBacked(s, d);
    var x, a, y, b := s.calls[c], s.phases[c].answer.result, s.calls[d], s.phases[d].answer.result;
    var i :| 0 <= i < |s.ledger| && Backs(s.ledger[i], x, a);
    var j :| 0 <= j < |s.ledger| && Backs(s.ledger[j], y, b);
    if x.slot == y.slot {
      if i < j {
        BackedApart(s, i, j, x, a, y, b);
      } else if j < i {
        BackedApart(s, j, i, y, b, x, a);
      }
    }
  }

  /** The stored body of this scope is always one that replay can read. */
  lemma ReplayIsAlwaysAvailable(s: State, c: nat)
    requires Reachable(s) && c in s.phases && s.phases[c].Finished?
    ensures !s.phases[c].answer.ReplayUnavailable?
  {
    ReachableInv(s);
    assert PhaseOk(s, s.calls[c], s.phases[c]);
  }

  /** Payments are never taken back, in any continuation of any run. */
  lemma PaymentsArePermanent(s: State, es: seq<Event>)
    requires Reachable(s) && Valid(s, es)
    ensures s.ledger <= Run(s, es).ledger
  {
    ReachableInv(s);
    RunKeepsInv(s, es);
  }
}
