/** What a committed manual payment means for everything that happens while its record is retained. */
module PaymentReplay {
  import opened Options
  import opened Json
  import opened IdempotencyTable
  import opened StoredPayments
  import opened ManualPayments

  // --- A completed record stands until it expires ---

  lemma CompletedRowStands(s: State, e: Event, slot: Slot)
    requires Inv(s) && Enabled(s, e) && SettledRow(s.table, slot) && s.clock < s.table[slot].expiresAt
    ensures slot in Apply(s, e).table && Apply(s, e).table[slot] == s.table[slot]
    ensures forall i | |s.ledger| <= i < |Apply(s, e).ledger| :: Apply(s, e).ledger[i].slot != slot
  {
    if !e.Tick? && !e.Submit? {
      assert PhaseOk(s, s.calls[e.call], s.phases[e.call]);
    }
  }

  /** Where a call can be that was submitted for the retained command of a completed record. */
  ghost predicate OnlyReads(s: State, call: nat, row: Row)
    requires row.completion.Some?
  {
    call in s.phases && call in s.calls &&
    match s.phases[call]
    case Attempting(_) => true
    case Deleting(_, now) => now < row.expiresAt
    case Creating(_, now) => now < row.expiresAt
    case Reading(_, now) => now < row.expiresAt
    case Finished(answer) =>
      IsStored(row.completion.value.responseBody) && answer == Replayed(StoredResult(row.completion.value.responseBody))
    case _ => false
  }

  ghost predicate SameCommand(s: State, call: nat, slot: Slot, row: Row) {
    call in s.calls && s.calls[call].slot == slot && s.calls[call].requestHash == row.requestHash
  }

  lemma OthersLeaveReader(s: State, e: Event, call: nat)
    requires Enabled(s, e) && call in s.phases && call in s.calls && (e.Tick? || e.call != call)
    ensures call in Apply(s, e).phases && Apply(s, e).phases[call] == s.phases[call]
    ensures call in Apply(s, e).calls && Apply(s, e).calls[call] == s.calls[call]
  {
  }

  lemma ReaderMoves(s: State, e: Event, slot: Slot, call: nat)
    requires Inv(s) && Enabled(s, e) && SettledRow(s.table, slot) && s.clock < s.table[slot].expiresAt
    requires SameCommand(s, call, slot, s.table[slot]) && OnlyReads(s, call, s.table[slot])
    requires !e.Tick? && e.call == call
    ensures Apply(s, e).calls == s.calls && OnlyReads(Apply(s, e), call, s.table[slot])
  {
    if e.ReadRow? {
      CompletedRowIsBacked(s, s.calls[call]);
    }
  }

  lemma ReaderStep(s: State, e: Event, slot: Slot, call: nat)
    requires Inv(s) && Enabled(s, e) && SettledRow(s.table, slot) && s.clock < s.table[slot].expiresAt
    requires SameCommand(s, call, slot, s.table[slot]) && OnlyReads(s, call, s.table[slot])
    ensures SameCommand(Apply(s, e), call, slot, s.table[slot]) && OnlyReads(Apply(s, e), call, s.table[slot])
  {
    if e.Tick? || e.call != call {
      OthersLeaveReader(s, e, call);
    } else {
      ReaderMoves(s, e, slot, call);
    }
  }

  lemma ReaderStarts(s: State, e: Event, call: nat)
    requires Enabled(s, e) && call !in s.phases && call in Apply(s, e).phases
    ensures e.Submit? && e.call == call && Apply(s, e).phases[call] == Attempting(0)
    ensures call in Apply(s, e).calls
  {
  }

  lemma CallKept(s: State, e: Event, call: nat)
    requires Enabled(s, e) && call in s.phases && call in s.calls
    ensures call in Apply(s, e).calls && Apply(s, e).calls[call] == s.calls[call]
  {
  }

  /**
   * Any continuation, whatever calls, takeovers, retries, failures and releases it contains: while the clock is below
   * the expiry of a completed record, the record is unchanged and no further payment is made under its key.
   */
  lemma {:induction false} RetainedRecordStands(s: State, es: seq<Event>, slot: Slot)
    requires Inv(s) && Valid(s, es) && SettledRow(s.table, slot)
    requires Run(s, es).clock < s.table[slot].expiresAt
    ensures Inv(Run(s, es)) && s.clock <= Run(s, es).clock
    ensures slot in Run(s, es).table && Run(s, es).table[slot] == s.table[slot]
    ensures s.ledger <= Run(s, es).ledger
    ensures forall i | |s.ledger| <= i < |Run(s, es).ledger| :: Run(s, es).ledger[i].slot != slot
    decreases |es|
  {
    RunKeepsInv(s, es);
    if es != [] {
      var n := |es| - 1;
      var before := Run(s, es[..n]);
      StepExtends(before, es[n]);
      RetainedRecordStands(s, es[..n], slot);
      CompletedRowStands(before, es[n], slot);
    }
  }

  /**
   * Every call submitted for the same key and command while the record is retained, at whatever point and with
   * whatever interleaving, can only finish with the stored result.
   */
  lemma {:induction false} LostResponseIsReplayed(s: State, es: seq<Event>, slot: Slot, call: nat)
    requires Inv(s) && Valid(s, es) && SettledRow(s.table, slot)
    requires Run(s, es).clock < s.table[slot].expiresAt
    requires call !in s.phases && call in Run(s, es).phases && SameCommand(Run(s, es), call, slot, s.table[slot])
    ensures OnlyReads(Run(s, es), call, s.table[slot])
    decreases |es|
  {
    if es != [] {
      var n := |es| - 1;
      var before, e := Run(s, es[..n]), es[n];
      StepExtends(before, e);
      RetainedRecordStands(s, es[..n], slot);
      if call in before.phases {
        assert call in before.calls;
        CallKept(before, e, call);
        LostResponseIsReplayed(s, es[..n], slot, call);
        ReaderStep(before, e, slot, call);
      } else {
        ReaderStarts(before, e, call);
      }
    }
  }

  /** The same from the payment: in every later state of the run, the answer is the result of that payment. */
  lemma RetryIsAnsweredWithPayment(s: State, es: seq<Event>, i: int, call: nat)
    requires Reachable(s) && Valid(s, es) && 0 <= i < |s.ledger| && Recorded(s, s.ledger[i])
    requires Run(s, es).clock < s.ledger[i].expiresAt
    requires call !in s.phases && call in Run(s, es).phases
    requires SameCommand(Run(s, es), call, s.ledger[i].slot, s.table[s.ledger[i].slot])
    requires Run(s, es).phases[call].Finished?
    ensures Run(s, es).phases[call].answer == Replayed(ToResult(s.ledger[i].payment))
  {
    ReachableInv(s);
    LostResponseIsReplayed(s, es, s.ledger[i].slot, call);
    StoredResultRoundTrip(s.ledger[i].payment);
  }

  // --- A claim pays once ---

  lemma GrantPaysOnce(s: State, i: int, j: int)
    requires Inv(s) && 0 <= i < j < |s.ledger|
    ensures s.ledger[i].grant != s.ledger[j].grant
  {
    assert EntryOk(s, s.ledger[i]) && EntryOk(s, s.ledger[j]);
  }

  /**
   * A call lost the response of its commit. In every continuation, through its own retries and its release and
   * whatever others do, its claim never pays again; and until the record expires the record is unchanged and no other
   * claim pays under its key either.
   */
  lemma LostCommitResponseIsHarmless(s: State, commit: Event, es: seq<Event>)
    requires Inv(s) && Enabled(s, commit) && commit.Transact? && commit.outcome == Commits(false)
    requires Owns(s.table, s.calls[commit.call].slot, s.grants[s.phases[commit.call].grant].id)
    requires Valid(Apply(s, commit), es)
    ensures var t, slot, g := Apply(s, commit), s.calls[commit.call].slot, s.phases[commit.call].grant;
      var u := Run(t, es);
      && |t.ledger| == |s.ledger| + 1 && t.ledger <= u.ledger
      && (forall i | |t.ledger| <= i < |u.ledger| :: u.ledger[i].grant != g)
      && SettledRow(t.table, slot)
      && (u.clock < t.table[slot].expiresAt ==>
        && slot in u.table && u.table[slot] == t.table[slot]
        && forall i | |t.ledger| <= i < |u.ledger| :: u.ledger[i].slot != slot)
  {
    var t, slot := Apply(s, commit), s.calls[commit.call].slot;
    StepKeepsInv(s, commit);
    RunKeepsInv(t, es);
    var u := Run(t, es);
    forall i | |t.ledger| <= i < |u.ledger| ensures u.ledger[i].grant != s.phases[commit.call].grant {
      GrantPaysOnce(u, |s.ledger|, i);
      assert u.ledger[|s.ledger|] == t.ledger[|s.ledger|];
    }
    if u.clock < t.table[slot].expiresAt {
      RetainedRecordStands(t, es, slot);
    }
  }

  // --- A retry can be answered at once ---

  lemma RunFour(s: State, a: Event, b: Event, c: Event, d: Event)
    requires Enabled(s, a) && Enabled(Apply(s, a), b) && Enabled(Apply(Apply(s, a), b), c)
    requires Enabled(Apply(Apply(Apply(s, a), b), c), d)
    ensures Valid(s, [a, b, c, d]) && Run(s, [a, b, c, d]) == Apply(Apply(Apply(Apply(s, a), b), c), d)
  {
    RunSnoc(s, [], a);
    assert [] + [a] == [a];
    RunSnoc(s, [a], b);
    assert [a] + [b] == [a, b];
    RunSnoc(s, [a, b], c);
    assert [a, b] + [c] == [a, b, c];
    RunSnoc(s, [a, b, c], d);
    assert [a, b, c] + [d] == [a, b, c, d];
  }

  /** The statements of one attempt that finds a retained, completed record of the same command. */
  lemma ReplaySteps(s: State, call: nat, id: Id)
    requires At(s, call) && s.phases[call].Attempting? && id !in s.issued
    requires SettledRow(s.table, s.calls[call].slot) && s.clock < s.table[s.calls[call].slot].expiresAt
    requires s.table[s.calls[call].slot].requestHash == s.calls[call].requestHash
    requires IsStored(s.table[s.calls[call].slot].completion.value.responseBody)
    ensures var s1 := Apply(s, ReadClock(call));
            var s2 := Apply(s1, DeleteExpiredRow(call));
            var s3 := Apply(s2, CreateRow(call, id, true));
            && Enabled(s3, ReadRow(call))
            && var t := Apply(s3, ReadRow(call));
               && t.table == s.table && t.ledger == s.ledger
               && t.phases[call] == Finished(Replayed(StoredResult(s.table[s.calls[call].slot].completion.value.responseBody)))
  {
    var n := s.phases[call].n;
    var s1 := Apply(s, ReadClock(call));
    assert s1.phases[call] == Deleting(n, s.clock) && s1.table == s.table;
    var s2 := Apply(s1, DeleteExpiredRow(call));
    assert s2.phases[call] == Creating(n, s.clock) && s2.table == s.table;
    var s3 := Apply(s2, CreateRow(call, id, true));
    assert s3.phases[call] == Reading(n, s.clock) && s3.table == s.table;
  }

  /** The answer is within reach: the statements of one undisturbed attempt give it. */
  lemma RetryCanFinish(s: State, call: nat, id: Id, i: int)
    requires Reachable(s) && At(s, call) && s.phases[call].Attempting? && id !in s.issued
    requires 0 <= i < |s.ledger| && Recorded(s, s.ledger[i]) && s.clock < s.ledger[i].expiresAt
    requires SameCommand(s, call, s.ledger[i].slot, s.table[s.ledger[i].slot])
    ensures var es := [ReadClock(call), DeleteExpiredRow(call), CreateRow(call, id, true), ReadRow(call)];
            && Valid(s, es)
            && Run(s, es).phases[call] == Finished(Replayed(ToResult(s.ledger[i].payment)))
            && Run(s, es).ledger == s.ledger && Run(s, es).table == s.table
  {
    StoredResultRoundTrip(s.ledger[i].payment);
    ReplaySteps(s, call, id);
    RunFour(s, ReadClock(call), DeleteExpiredRow(call), CreateRow(call, id, true), ReadRow(call));
  }
}
