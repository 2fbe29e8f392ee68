/** What a call for a manual payment achieves when the statements it depends on are not disturbed. */
module PaymentProgress {
  import opened Options
  import opened IdempotencyTable
  import opened StoredPayments
  import opened ManualPayments

  // --- Claiming ---

  /** The events of an attempt that creates its row. */
  function Inserts(call: nat, id: Id): seq<Event> {
    [ReadClock(call), DeleteExpiredRow(call), CreateRow(call, id, true)]
  }

  /** The events of an attempt that finds the key taken and reads the row. */
  function Reads(call: nat, id: Id): seq<Event> {
    [ReadClock(call), DeleteExpiredRow(call), CreateRow(call, id, true), ReadRow(call)]
  }

  lemma RunThree(s: State, a: Event, b: Event, c: Event)
    requires Enabled(s, a) && Enabled(Apply(s, a), b) && Enabled(Apply(Apply(s, a), b), c)
    ensures Valid(s, [a, b, c]) && Run(s, [a, b, c]) == Apply(Apply(Apply(s, a), b), c)
  {
    RunSnoc(s, [], a);
    assert [] + [a] == [a];
    RunSnoc(s, [a], b);
    assert [a] + [b] == [a, b];
    RunSnoc(s, [a, b], c);
    assert [a, b] + [c] == [a, b, c];
  }

  lemma RunReads(s: State, call: nat, id: Id, e: Event)
    requires Valid(s, Inserts(call, id)) && Enabled(Run(s, Inserts(call, id)), e)
    ensures Valid(s, Inserts(call, id) + [e])
    ensures Run(s, Inserts(call, id) + [e]) == Apply(Run(s, Inserts(call, id)), e)
  {
    RunSnoc(s, Inserts(call, id), e);
  }

  /** An attempt reads the clock and deletes the record of its key if that has expired. */
  lemma AttemptBegins(s: State, call: nat)
    requires At(s, call) && s.phases[call].Attempting?
    ensures Enabled(s, ReadClock(call)) && Enabled(Apply(s, ReadClock(call)), DeleteExpiredRow(call))
    ensures var t, slot := Apply(Apply(s, ReadClock(call)), DeleteExpiredRow(call)), s.calls[call].slot;
      && t.phases == s.phases[call := Creating(s.phases[call].n, s.clock)]
      && t.table == (if slot in s.table && s.table[slot].expiresAt <= s.clock then s.table - {slot} else s.table)
      && t == s.(phases := t.phases, table := t.table)
  {
    var n := s.phases[call].n;
    assert s.phases[call := Deleting(n, s.clock)][call := Creating(n, s.clock)] == s.phases[call := Creating(n, s.clock)];
  }

  /** A key without a record, or with an expired one, is claimed at once. */
  lemma FreeKeyIsClaimed(s: State, call: nat, id: Id)
    requires At(s, call) && s.phases[call].Attempting? && id !in s.issued
    requires s.calls[call].slot in s.table ==> s.table[s.calls[call].slot].expiresAt <= s.clock
    ensures Valid(s, Inserts(call, id))
    ensures var t, input := Run(s, Inserts(call, id)), s.calls[call];
      && t.phases[call] == Executing(|s.grants|, 1)
      && t.table == s.table[input.slot := Row(id, input.requestHash, s.clock, input.expiresAt, None)]
      && t.grants == s.grants + [Grant(input.slot, id, input.requestHash, s.clock)]
      && t.ledger == s.ledger && t.calls == s.calls
  {
    AttemptBegins(s, call);
    RunThree(s, ReadClock(call), DeleteExpiredRow(call), CreateRow(call, id, true));
  }

  /** A key with a retained record is not claimed by inserting; the attempt goes on to read the row. */
  lemma TakenKeyIsRead(s: State, call: nat, id: Id)
    requires At(s, call) && s.phases[call].Attempting? && id !in s.issued
    requires s.calls[call].slot in s.table && s.clock < s.table[s.calls[call].slot].expiresAt
    ensures Valid(s, Inserts(call, id))
    ensures var t := Run(s, Inserts(call, id));
      && t.phases == s.phases[call := Reading(s.phases[call].n, s.clock)]
      && t == s.(phases := t.phases, issued := s.issued + {id})
  {
    var n := s.phases[call].n;
    AttemptBegins(s, call);
    RunThree(s, ReadClock(call), DeleteExpiredRow(call), CreateRow(call, id, true));
    assert s.phases[call := Creating(n, s.clock)][call := Reading(n, s.clock)] == s.phases[call := Reading(n, s.clock)];
  }

  /** The row of another command: the key is refused. */
  lemma OtherCommandIsRefused(s: State, call: nat, id: Id)
    requires At(s, call) && s.phases[call].Attempting? && id !in s.issued
    requires var input := s.calls[call];
      && input.slot in s.table && s.clock < s.table[input.slot].expiresAt
      && s.table[input.slot].requestHash != input.requestHash
    ensures Valid(s, Reads(call, id))
    ensures var t := Run(s, Reads(call, id));
      t.phases[call] == Finished(KeyReused) && t.table == s.table && t.ledger == s.ledger
  {
    TakenKeyIsRead(s, call, id);
    assert Inserts(call, id) + [ReadRow(call)] == Reads(call, id);
    RunReads(s, call, id, ReadRow(call));
  }

  /** An incomplete row for the same command that is younger than the processing lease: the caller has to wait. */
  lemma YoungClaimIsLeftAlone(s: State, call: nat, id: Id)
    requires At(s, call) && s.phases[call].Attempting? && id !in s.issued
    requires var input := s.calls[call];
      && input.slot in s.table && s.clock < s.table[input.slot].expiresAt
      && s.table[input.slot].requestHash == input.requestHash && s.table[input.slot].completion.None?
      && s.clock < s.table[input.slot].createdAt + CLAIM_LEASE_MS
    ensures Valid(s, Reads(call, id))
    ensures var t := Run(s, Reads(call, id));
      t.phases[call] == Finished(Busy) && t.table == s.table && t.ledger == s.ledger
  {
    TakenKeyIsRead(s, call, id);
    assert Inserts(call, id) + [ReadRow(call)] == Reads(call, id);
    RunReads(s, call, id, ReadRow(call));
  }

  /**
   * A call that reads an incomplete row of its own command, at least a processing lease old by the clock of its
   * attempt, takes the row over with its next statement unless that statement is disturbed.
   */
  lemma StaleClaimIsTakenOver(s: State, call: nat, id: Id)
    requires At(s, call) && s.phases[call].Reading? && id !in s.issued
    requires var input := s.calls[call];
      && input.slot in s.table
      && s.table[input.slot].requestHash == input.requestHash && s.table[input.slot].completion.None?
      && s.table[input.slot].createdAt + CLAIM_LEASE_MS <= s.phases[call].now
    ensures Enabled(s, ReadRow(call)) && Enabled(Apply(s, ReadRow(call)), RecoverRow(call, id, true))
    ensures var t, input := Apply(Apply(s, ReadRow(call)), RecoverRow(call, id, true)), s.calls[call];
      && t.phases[call] == Executing(|s.grants|, 1)
      && t.table == s.table[input.slot := Row(id, input.requestHash, s.phases[call].now, input.expiresAt, None)]
      && t.grants == s.grants + [Grant(input.slot, id, input.requestHash, s.clock)]
      && t.ledger == s.ledger && t.calls == s.calls
  {
    assert Apply(s, ReadRow(call)).phases[call].Recovering?;
  }

  /** The same for a whole attempt that begins when the claim is stale. */
  lemma StaleKeyIsClaimed(s: State, call: nat, id: Id, rotated: Id)
    requires At(s, call) && s.phases[call].Attempting? && id !in s.issued && rotated !in s.issued && id != rotated
    requires var input := s.calls[call];
      && input.slot in s.table && s.clock < s.table[input.slot].expiresAt
      && s.table[input.slot].requestHash == input.requestHash && s.table[input.slot].completion.None?
      && s.table[input.slot].createdAt + CLAIM_LEASE_MS <= s.clock
    ensures var es, input := Reads(call, id) + [RecoverRow(call, rotated, true)], s.calls[call];
      && Valid(s, es)
      && var t := Run(s, es);
        && t.phases[call] == Executing(|s.grants|, 1)
        && t.table == s.table[input.slot := Row(rotated, input.requestHash, s.clock, input.expiresAt, None)]
        && t.grants == s.grants + [Grant(input.slot, rotated, input.requestHash, s.clock)]
        && t.ledger == s.ledger && t.calls == s.calls
  {
    TakenKeyIsRead(s, call, id);
    var t := Run(s, Inserts(call, id));
    StaleClaimIsTakenOver(t, call, rotated);
    assert Inserts(call, id) + [ReadRow(call)] == Reads(call, id);
    RunReads(s, call, id, ReadRow(call));
    RunSnoc(s, Reads(call, id), RecoverRow(call, rotated, true));
  }

  // --- Paying ---

  /** The call executes under a claim whose row still carries the claimed id and has no result. */
  predicate HoldsClaim(s: State, call: nat) {
    && At(s, call) && s.phases[call].Executing? && s.phases[call].grant < |s.grants|
    && var slot := s.calls[call].slot;
      slot in s.table && s.table[slot].id == s.grants[s.phases[call].grant].id && s.table[slot].completion.None?
  }

  /** A call that holds its claim pays with its next successful transaction, and the row then carries the result. */
  lemma ClaimHolderPays(s: State, call: nat, p: Payment)
    requires HoldsClaim(s, call)
    ensures Enabled(s, Transact(call, Commits(true), p, false))
    ensures var t, slot := Apply(s, Transact(call, Commits(true), p, false)), s.calls[call].slot;
      && t.phases[call] == Finished(Created(ToResult(p)))
      && t.ledger == s.ledger + [Entry(slot, s.table[slot].requestHash, s.phases[call].grant, p, s.table[slot].expiresAt)]
      && t.table == s.table[slot := s.table[slot].(completion := Some(Completion(201, ToStored(p), s.clock)))]
  {
  }

  /** The key is free, or held by a claim of the same command that is stale. */
  predicate Claimable(s: State, call: nat)
    requires At(s, call)
  {
    var input := s.calls[call];
    input.slot in s.table && s.clock < s.table[input.slot].expiresAt ==>
      && s.table[input.slot].requestHash == input.requestHash && s.table[input.slot].completion.None?
      && s.table[input.slot].createdAt + CLAIM_LEASE_MS <= s.clock
  }

  /** Between `s` and `t` the call has paid `p` under its key, and nothing else was paid. */
  predicate HasPaid(s: State, t: State, call: nat, p: Payment)
    requires At(s, call)
  {
    var input := s.calls[call];
    && call in t.phases && t.phases[call] == Finished(Created(ToResult(p)))
    && |t.ledger| == |s.ledger| + 1 && s.ledger <= t.ledger
    && t.ledger[|s.ledger|].slot == input.slot
    && t.ledger[|s.ledger|].hash == input.requestHash
    && t.ledger[|s.ledger|].payment == p
    && input.slot in t.table
    && t.table[input.slot].completion == Some(Completion(201, ToStored(p), s.clock))
    && t.table[input.slot].expiresAt == input.expiresAt
  }

  lemma ClaimedCallPays(s: State, es: seq<Event>, call: nat, p: Payment)
    requires At(s, call) && Valid(s, es) && HoldsClaim(Run(s, es), call)
    requires var t, input := Run(s, es), s.calls[call];
      && t.ledger == s.ledger && t.calls == s.calls && t.clock == s.clock
      && t.table[input.slot].requestHash == input.requestHash && t.table[input.slot].expiresAt == input.expiresAt
    ensures var all := es + [Transact(call, Commits(true), p, false)];
      Valid(s, all) && HasPaid(s, Run(s, all), call, p)
  {
    ClaimHolderPays(Run(s, es), call, p);
    RunSnoc(s, es, Transact(call, Commits(true), p, false));
  }

  lemma FreeKeyIsPaid(s: State, call: nat, id: Id, p: Payment)
    requires At(s, call) && s.phases[call].Attempting? && id !in s.issued
    requires s.calls[call].slot in s.table ==> s.table[s.calls[call].slot].expiresAt <= s.clock
    ensures var es := Inserts(call, id) + [Transact(call, Commits(true), p, false)];
      Valid(s, es) && HasPaid(s, Run(s, es), call, p)
  {
    FreeKeyIsClaimed(s, call, id);
    RunSameClock(s, Inserts(call, id));
    ClaimedCallPays(s, Inserts(call, id), call, p);
  }

  lemma StaleKeyIsPaid(s: State, call: nat, id: Id, rotated: Id, p: Payment)
    requires At(s, call) && s.phases[call].Attempting? && id !in s.issued && rotated !in s.issued && id != rotated
    requires s.calls[call].slot in s.table && s.clock < s.table[s.calls[call].slot].expiresAt && Claimable(s, call)
    ensures var es := Reads(call, id) + [RecoverRow(call, rotated, true)] + [Transact(call, Commits(true), p, false)];
      Valid(s, es) && HasPaid(s, Run(s, es), call, p)
  {
    StaleKeyIsClaimed(s, call, id, rotated);
    RunSameClock(s, Reads(call, id) + [RecoverRow(call, rotated, true)]);
    ClaimedCallPays(s, Reads(call, id) + [RecoverRow(call, rotated, true)], call, p);
  }

  /** Whatever state the run is in: an undisturbed call for a claimable key ends with its payment committed, once. */
  lemma UndisturbedCallPays(s: State, call: nat, id: Id, rotated: Id, p: Payment) returns (es: seq<Event>)
    requires At(s, call) && s.phases[call].Attempting? && id !in s.issued && rotated !in s.issued && id != rotated
    requires Claimable(s, call)
    ensures Valid(s, es) && HasPaid(s, Run(s, es), call, p)
    ensures forall e | e in es :: !e.Tick? && e.call == call
  {
    if s.calls[call].slot in s.table && s.clock < s.table[s.calls[call].slot].expiresAt {
      StaleKeyIsPaid(s, call, id, rotated, p);
      es := Reads(call, id) + [RecoverRow(call, rotated, true)] + [Transact(call, Commits(true), p, false)];
    } else {
      FreeKeyIsPaid(s, call, id, p);
      es := Inserts(call, id) + [Transact(call, Commits(true), p, false)];
    }
  }

  lemma {:induction false} RunSameClock(s: State, es: seq<Event>)
    requires Valid(s, es) && forall e | e in es :: !e.Tick?
    ensures Run(s, es).clock == s.clock
    decreases |es|
  {
    if es != [] {
      assert es[|es| - 1] in es;
      RunSameClock(s, es[..|es| - 1]);
    }
  }

  // --- Losing ---

  /** A row that vanished before it could be read costs the call one of its three attempts, and nothing else. */
  lemma LostAttemptIsRepeated(s: State, call: nat)
    requires At(s, call) && s.phases[call].Reading? && s.calls[call].slot !in s.table
    ensures Enabled(s, ReadRow(call))
    ensures var t, n := Apply(s, ReadRow(call)), s.phases[call].n;
      && t == s.(phases := t.phases)
      && t.phases[call] == if n + 1 < 3 then Attempting(n + 1) else Finished(Busy)
  {
  }

  /** A call whose commit succeeded unseen finds its claim gone when it tries again: it fails, although it has paid. */
  lemma UnseenCommitLosesClaim(s: State, call: nat, p: Payment, q: Payment, outcome: TransactionOutcome)
    requires HoldsClaim(s, call) && s.phases[call].tries < TRANSACTION_ATTEMPTS
    ensures Enabled(s, Transact(call, Commits(false), p, true))
    ensures var t := Apply(s, Transact(call, Commits(false), p, true));
      && |t.ledger| == |s.ledger| + 1 && t.ledger[|s.ledger|].payment == p
      && Enabled(t, Transact(call, outcome, q, true))
      && var u := Apply(t, Transact(call, outcome, q, true));
        && u.phases[call] == Releasing(s.phases[call].grant, ClaimLost)
        && u.ledger == t.ledger && u.table == t.table
        && Apply(u, ReleaseClaim(call, true)).table == t.table
  {
    var t := Apply(s, Transact(call, Commits(false), p, true));
    assert t.phases[call] == Executing(s.phases[call].grant, s.phases[call].tries + 1);
  }

  // --- Failing ---

  /** An aborted transaction is tried again while attempts are left; after the last one the claim is given up. */
  lemma AbortIsRetried(s: State, call: nat, p: Payment)
    requires HoldsClaim(s, call)
    ensures Enabled(s, Transact(call, Aborts, p, true))
    ensures var t, q := Apply(s, Transact(call, Aborts, p, true)), s.phases[call];
      && t.table == s.table && t.ledger == s.ledger
      && (q.tries < TRANSACTION_ATTEMPTS ==> t.phases[call] == Executing(q.grant, q.tries + 1) && HoldsClaim(t, call))
      && (q.tries >= TRANSACTION_ATTEMPTS ==> t.phases[call] == Releasing(q.grant, Failed))
  {
  }

  /** A transaction that did not commit leaves the key free for the next call once its release is delivered. */
  lemma FailedCallFreesKey(s: State, call: nat, outcome: TransactionOutcome, p: Payment)
    requires HoldsClaim(s, call) && !outcome.Commits?
    ensures Enabled(s, Transact(call, outcome, p, false))
    ensures var t := Apply(s, Transact(call, outcome, p, false));
      && Enabled(t, ReleaseClaim(call, true))
      && var u := Apply(t, ReleaseClaim(call, true));
        && s.calls[call].slot !in u.table && u.table == s.table - {s.calls[call].slot} && u.ledger == s.ledger
        && u.phases[call] == Finished(match outcome
                                      case OrderMissing => NotFound
                                      case InvariantViolated => Refused
                                      case _ => Failed)
  {
    var t := Apply(s, Transact(call, outcome, p, false));
    assert t.phases[call].Releasing?;
  }
}
