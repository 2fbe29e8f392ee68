/**
 * The stamp a claim stores as its creation time, against the expiry of the record whose place it takes. The stamp is
 * read at the start of an attempt, before the statements that delete the expired record and create the new one.
 */
module ClaimStamps {
  import opened Options
  import opened IdempotencyTable
  import opened StoredPayments
  import opened ManualPayments

  // --- The past of a run ---

  /** What the clock showed when an attempt began, and how many expired rows had been deleted until then. */
  datatype Beginning = Beginning(at: int, deleted: nat)

  /** The deletion of an expired row by the attempt of a call. */
  datatype Deletion = Deletion(slot: Slot, row: Row, call: nat)

  /** A granted claim: the call, the stored stamp, the beginning of the granting attempt, and the deletions so far. */
  datatype Claim = Claim(call: nat, stamp: int, begun: Beginning, deleted: nat)

  datatype Past = Past(readings: map<nat, Beginning>, deletions: seq<Deletion>, claims: seq<Claim>)

  function ReadingOf(h: Past, call: nat): Beginning {
    if call in h.readings then h.readings[call] else Beginning(0, 0)
  }

  function Deleted(s: State, h: Past, call: nat): seq<Deletion>
    requires Enabled(s, DeleteExpiredRow(call))
  {
    var slot := s.calls[call].slot;
    if slot in s.table && s.table[slot].expiresAt <= s.phases[call].now then
      h.deletions + [Deletion(slot, s.table[slot], call)]
    else h.deletions
  }

  /** A claim is granted by the statement that adds to the grants; its stamp is what that statement stored. */
  function Claimed(s: State, h: Past, e: Event): seq<Claim>
    requires Enabled(s, e) && (e.CreateRow? || e.RecoverRow?)
  {
    var t, slot := Apply(s, e), s.calls[e.call].slot;
    if |t.grants| > |s.grants| && slot in t.table then
      h.claims + [Claim(e.call, t.table[slot].createdAt, ReadingOf(h, e.call), |h.deletions|)]
    else h.claims
  }

  function Then(s: State, h: Past, e: Event): Past
    requires Enabled(s, e)
  {
    match e
    case ReadClock(call) => h.(readings := h.readings[call := Beginning(s.clock, |h.deletions|)])
    case DeleteExpiredRow(call) => h.(deletions := Deleted(s, h, call))
    case CreateRow(_, _, _) => h.(claims := Claimed(s, h, e))
    case RecoverRow(_, _, _) => h.(claims := Claimed(s, h, e))
    case _ => h
  }

  ghost function PastOf(clock: int, es: seq<Event>): Past
    requires Valid(Initial(clock), es)
  {
    if es == [] then Past(map[], [], [])
    else
      var n := |es| - 1;
      Then(Run(Initial(clock), es[..n]), PastOf(clock, es[..n]), es[n])
  }

  // --- What the past says about the state ---

  function Now(p: Phase): Option<int> {
    match p
    case Deleting(_, now) => Some(now)
    case Creating(_, now) => Some(now)
    case Reading(_, now) => Some(now)
    case Recovering(_, now, _) => Some(now)
    case _ => None
  }

  /** An attempt goes on with the clock it read. */
  ghost predicate ReadingsOk(s: State, h: Past) {
    && (forall c | c in s.phases && Now(s.phases[c]).Some? ::
      c in h.readings && h.readings[c].at == Now(s.phases[c]).value)
    && (forall c | c in h.readings :: h.readings[c].at <= s.clock && h.readings[c].deleted <= |h.deletions|)
  }

  /** Rows deleted before a reading had expired by then, and so had the rows an attempt deletes itself. */
  ghost predicate DeletionsOk(h: Past, r: Beginning, call: nat, clock: int) {
    && (forall d | 0 <= d < |h.deletions| :: h.deletions[d].row.expiresAt <= clock)
    && (forall d | 0 <= d < |h.deletions| && d < r.deleted :: h.deletions[d].row.expiresAt <= r.at)
    && (forall d | r.deleted <= d < |h.deletions| && h.deletions[d].call == call :: h.deletions[d].row.expiresAt <= r.at)
  }

  /** Deletion `d` removed the record of payment `i`. */
  ghost predicate Removes(s: State, h: Past, d: int, i: int) {
    && 0 <= d < |h.deletions| && 0 <= i < |s.ledger| && s.ledger[i].grant < |s.grants|
    && h.deletions[d].slot == s.ledger[i].slot
    && h.deletions[d].row.id == s.grants[s.ledger[i].grant].id
    && h.deletions[d].row.expiresAt == s.ledger[i].expiresAt
  }

  ghost predicate RecordAccounted(s: State, h: Past, i: int)
    requires 0 <= i < |s.ledger|
  {
    Recorded(s, s.ledger[i]) || exists d :: Removes(s, h, d, i)
  }

  /** During the granting attempt, another call deleted the record of payment `i`. */
  ghost predicate DeletedMeanwhile(s: State, h: Past, c: Claim, i: int) {
    exists d :: c.begun.deleted <= d < c.deleted && Removes(s, h, d, i) && h.deletions[d].call != c.call
  }

  ghost predicate ClaimsOk(s: State, h: Past) {
    && |h.claims| == |s.grants|
    && forall g | 0 <= g < |h.claims| ::
      h.claims[g].stamp == h.claims[g].begun.at && h.claims[g].deleted <= |h.deletions|
  }

  /** A later claim began at or after the expiry it follows, or somebody deleted the record meanwhile. */
  ghost predicate LaterClaimsOk(s: State, h: Past) {
    forall i, g | Follows(s, h, i, g) :: LaterClaimOk(s, h, i, g)
  }

  ghost predicate Follows(s: State, h: Past, i: int, g: int) {
    && 0 <= i < |s.ledger| && s.ledger[i].grant < g < |s.grants| && g < |h.claims|
    && s.grants[g].slot == s.ledger[i].slot
  }

  ghost predicate LaterClaimOk(s: State, h: Past, i: int, g: int)
    requires 0 <= i < |s.ledger| && 0 <= g < |h.claims|
  {
    s.ledger[i].expiresAt <= h.claims[g].begun.at || DeletedMeanwhile(s, h, h.claims[g], i)
  }

  ghost predicate PastOk(s: State, h: Past) {
    && ReadingsOk(s, h)
    && (forall c | c in h.readings :: DeletionsOk(h, h.readings[c], c, s.clock))
    && (forall d | 0 <= d < |h.deletions| :: h.deletions[d].row.expiresAt <= s.clock)
    && (forall i | 0 <= i < |s.ledger| :: RecordAccounted(s, h, i))
    && ClaimsOk(s, h)
    && LaterClaimsOk(s, h)
  }

  // --- Every step keeps it so ---

  lemma ReadingsStep(s: State, h: Past, e: Event)
    requires Inv(s) && ReadingsOk(s, h) && Enabled(s, e)
    ensures ReadingsOk(Apply(s, e), Then(s, h, e))
  {
    var t, k := Apply(s, e), Then(s, h, e);
    StepExtends(s, e);
    assert |h.deletions| <= |k.deletions|;
    forall c | c in t.phases && Now(t.phases[c]).Some?
      ensures c in k.readings && k.readings[c].at == Now(t.phases[c]).value
    {
      PhaseNow(s, e, c);
    }
  }

  /** Except where an attempt reads the clock, a phase with an instant keeps the one it had. */
  lemma PhaseNow(s: State, e: Event, c: nat)
    requires Enabled(s, e) && c in Apply(s, e).phases && Now(Apply(s, e).phases[c]).Some?
    ensures e == ReadClock(c) ==> Now(Apply(s, e).phases[c]) == Some(s.clock)
    ensures e != ReadClock(c) ==> c in s.phases && Now(s.phases[c]) == Now(Apply(s, e).phases[c])
  {
  }

  lemma DeletionsStep(s: State, h: Past, e: Event)
    requires Inv(s) && PastOk(s, h) && Enabled(s, e)
    ensures var t, k := Apply(s, e), Then(s, h, e);
      && (forall d | 0 <= d < |k.deletions| :: k.deletions[d].row.expiresAt <= t.clock)
      && forall c | c in k.readings :: DeletionsOk(k, k.readings[c], c, t.clock)
  {
    var t, k := Apply(s, e), Then(s, h, e);
    StepExtends(s, e);
    if e.DeleteExpiredRow? {
      assert PhaseOk(s, s.calls[e.call], s.phases[e.call]);
      assert h.readings[e.call].at == s.phases[e.call].now;
      forall c | c in k.readings ensures DeletionsOk(k, k.readings[c], c, t.clock) {
        assert DeletionsOk(h, h.readings[c], c, s.clock);
      }
    } else {
      forall c | c in k.readings ensures DeletionsOk(k, k.readings[c], c, t.clock) {
        if c in h.readings && k.readings[c] == h.readings[c] {
          assert DeletionsOk(h, h.readings[c], c, s.clock);
        }
      }
    }
  }

  lemma RemovesKept(s: State, h: Past, t: State, k: Past, d: int, i: int)
    requires Removes(s, h, d, i) && Extends(s, t) && h.deletions <= k.deletions
    ensures Removes(t, k, d, i)
  {
    assert t.ledger[i] == s.ledger[i] && t.grants[s.ledger[i].grant] == s.grants[s.ledger[i].grant];
    assert k.deletions[d] == h.deletions[d];
  }

  lemma ThenExtends(s: State, h: Past, e: Event)
    requires Enabled(s, e)
    ensures h.deletions <= Then(s, h, e).deletions && h.claims <= Then(s, h, e).claims
  {
  }

  /** A completed row is still there after a step, or the step is the deletion of that expired row. */
  lemma CompletedRowFate(s: State, e: Event, slot: Slot)
    requires Inv(s) && Enabled(s, e) && SettledRow(s.table, slot)
    ensures (slot in Apply(s, e).table && Apply(s, e).table[slot] == s.table[slot])
      || (e.DeleteExpiredRow? && s.calls[e.call].slot == slot && s.table[slot].expiresAt <= s.phases[e.call].now)
  {
    if !e.Tick? && !e.Submit? {
      assert PhaseOk(s, s.calls[e.call], s.phases[e.call]);
    }
  }

  lemma OldRecordAccounted(s: State, h: Past, e: Event, i: int)
    requires Inv(s) && Enabled(s, e) && 0 <= i < |s.ledger| && RecordAccounted(s, h, i)
    ensures s.ledger <= Apply(s, e).ledger && RecordAccounted(Apply(s, e), Then(s, h, e), i)
  {
    var t, k := Apply(s, e), Then(s, h, e);
    StepExtends(s, e);
    ThenExtends(s, h, e);
    var entry := s.ledger[i];
    assert EntryOk(s, entry) && t.ledger[i] == entry && t.grants[entry.grant] == s.grants[entry.grant];
    if Recorded(s, entry) {
      CompletedRowFate(s, e, entry.slot);
      if entry.slot in t.table && t.table[entry.slot] == s.table[entry.slot] {
        assert Recorded(t, entry);
      } else {
        assert Removes(t, k, |h.deletions|, i);
      }
    } else {
      var d :| Removes(s, h, d, i);
      RemovesKept(s, h, t, k, d, i);
    }
  }

  /** A step that adds a payment is a commit, under the last claim of its slot, and records it. */
  lemma NewEntry(s: State, e: Event)
    requires Inv(s) && Enabled(s, e) && |Apply(s, e).ledger| > |s.ledger|
    ensures var t, n := Apply(s, e), |s.ledger|;
      && |t.ledger| == n + 1 && t.grants == s.grants
      && Recorded(t, t.ledger[n])
      && t.ledger[n].grant < |s.grants| && s.grants[t.ledger[n].grant].slot == t.ledger[n].slot
      && forall g | t.ledger[n].grant < g < |s.grants| :: s.grants[g].slot != t.ledger[n].slot
    ensures e.Transact?
  {
    var call := e.call;
    var slot, g := s.calls[call].slot, s.phases[call].grant;
    LedgerOkAfterCommit(s, slot, g, e.payment);
    OwnerIsLastGrant(s, slot, g);
  }

  lemma RecordsStep(s: State, h: Past, e: Event)
    requires Inv(s) && PastOk(s, h) && Enabled(s, e)
    ensures forall i | 0 <= i < |Apply(s, e).ledger| :: RecordAccounted(Apply(s, e), Then(s, h, e), i)
  {
    var t := Apply(s, e);
    StepExtends(s, e);
    forall i | 0 <= i < |t.ledger| ensures RecordAccounted(t, Then(s, h, e), i) {
      if i < |s.ledger| {
        OldRecordAccounted(s, h, e, i);
      } else {
        NewEntry(s, e);
      }
    }
  }

  /** A claim is granted on a slot without a completed row, by an attempt that goes on from its reading. */
  lemma NewGrant(s: State, h: Past, e: Event)
    requires Inv(s) && ReadingsOk(s, h) && Enabled(s, e) && |Apply(s, e).grants| > |s.grants|
    ensures e.CreateRow? || e.RecoverRow?
    ensures var t, n := Apply(s, e), |s.grants|;
      && |t.grants| == n + 1 && t.ledger == s.ledger
      && t.grants[n].slot == s.calls[e.call].slot && !SettledRow(s.table, s.calls[e.call].slot)
      && e.call in h.readings
      && Then(s, h, e) == h.(claims := h.claims +
           [Claim(e.call, h.readings[e.call].at, h.readings[e.call], |h.deletions|)])
  {
  }

  lemma ClaimsStep(s: State, h: Past, e: Event)
    requires Inv(s) && PastOk(s, h) && Enabled(s, e)
    ensures ClaimsOk(Apply(s, e), Then(s, h, e))
  {
    StepExtends(s, e);
    ThenExtends(s, h, e);
    if |Apply(s, e).grants| > |s.grants| {
      NewGrant(s, h, e);
    } else {
      assert Then(s, h, e).claims == h.claims;
    }
  }

  lemma MeanwhileKept(s: State, h: Past, t: State, k: Past, c: Claim, i: int)
    requires DeletedMeanwhile(s, h, c, i) && Extends(s, t) && h.deletions <= k.deletions
    ensures DeletedMeanwhile(t, k, c, i)
  {
    var d :| c.begun.deleted <= d < c.deleted && Removes(s, h, d, i) && h.deletions[d].call != c.call;
    RemovesKept(s, h, t, k, d, i);
    assert k.deletions[d] == h.deletions[d];
  }

  /** The argument: the record is gone, so it was deleted; not before the attempt began, and not by the attempt. */
  lemma GrantAfterRecord(s: State, h: Past, call: nat, i: int)
    requires LedgerOk(s) && PastOk(s, h) && call in h.readings && 0 <= i < |s.ledger|
    requires !SettledRow(s.table, s.ledger[i].slot)
    ensures var r := h.readings[call];
      s.ledger[i].expiresAt <= r.at || DeletedMeanwhile(s, h, Claim(call, r.at, r, |h.deletions|), i)
  {
    assert RecordAccounted(s, h, i);
    var d :| Removes(s, h, d, i);
    assert DeletionsOk(h, h.readings[call], call, s.clock);
    assert h.deletions[d].row.expiresAt == s.ledger[i].expiresAt;
  }

  lemma OldClaimKept(s: State, h: Past, t: State, k: Past, i: int, g: int)
    requires Extends(s, t) && h.deletions <= k.deletions && h.claims <= k.claims
    requires 0 <= i < |s.ledger| && 0 <= g < |h.claims| && LaterClaimOk(s, h, i, g)
    ensures LaterClaimOk(t, k, i, g)
  {
    assert t.ledger[i] == s.ledger[i] && k.claims[g] == h.claims[g];
    if s.ledger[i].expiresAt > h.claims[g].begun.at {
      MeanwhileKept(s, h, t, k, h.claims[g], i);
    }
  }

  lemma NewClaimOk(s: State, h: Past, e: Event, i: int)
    requires Inv(s) && PastOk(s, h) && Enabled(s, e) && |Apply(s, e).grants| > |s.grants|
    requires Follows(Apply(s, e), Then(s, h, e), i, |s.grants|)
    ensures LaterClaimOk(Apply(s, e), Then(s, h, e), i, |s.grants|)
  {
    NewGrant(s, h, e);
    GrantAfterRecord(s, h, e.call, i);
    StepExtends(s, e);
    ThenExtends(s, h, e);
    if s.ledger[i].expiresAt > h.readings[e.call].at {
      MeanwhileKept(s, h, Apply(s, e), Then(s, h, e), Then(s, h, e).claims[|s.grants|], i);
    }
  }

  lemma NewEntryIsFollowedByNone(s: State, h: Past, e: Event, g: int)
    requires Inv(s) && PastOk(s, h) && Enabled(s, e) && |Apply(s, e).ledger| > |s.ledger|
    ensures !Follows(Apply(s, e), Then(s, h, e), |s.ledger|, g)
  {
    NewEntry(s, e);
  }

  lemma LaterClaimStep(s: State, h: Past, e: Event, i: int, g: int)
    requires Inv(s) && PastOk(s, h) && Enabled(s, e) && Follows(Apply(s, e), Then(s, h, e), i, g)
    ensures LaterClaimOk(Apply(s, e), Then(s, h, e), i, g)
  {
    StepSizes(s, h, e);
    if i >= |s.ledger| {
      NewEntryIsFollowedByNone(s, h, e, g);
    } else if g >= |s.grants| {
      NewClaimOk(s, h, e, i);
    } else {
      OldFollows(s, h, e, i, g);
      OldClaimKept(s, h, Apply(s, e), Then(s, h, e), i, g);
    }
  }

  lemma LaterClaimsStep(s: State, h: Past, e: Event)
    requires Inv(s) && PastOk(s, h) && Enabled(s, e)
    ensures LaterClaimsOk(Apply(s, e), Then(s, h, e))
  {
    forall i, g | Follows(Apply(s, e), Then(s, h, e), i, g) ensures LaterClaimOk(Apply(s, e), Then(s, h, e), i, g) {
      LaterClaimStep(s, h, e, i, g);
    }
  }

  lemma StepSizes(s: State, h: Past, e: Event)
    requires Inv(s) && Enabled(s, e)
    ensures Extends(s, Apply(s, e)) && h.deletions <= Then(s, h, e).deletions && h.claims <= Then(s, h, e).claims
    ensures |Apply(s, e).grants| <= |s.grants| + 1 && |Apply(s, e).ledger| <= |s.ledger| + 1
  {
    StepExtends(s, e);
    ThenExtends(s, h, e);
  }

  lemma OldFollows(s: State, h: Past, e: Event, i: int, g: int)
    requires PastOk(s, h) && Enabled(s, e) && Extends(s, Apply(s, e))
    requires Follows(Apply(s, e), Then(s, h, e), i, g) && i < |s.ledger| && g < |s.grants|
    ensures Follows(s, h, i, g) && LaterClaimOk(s, h, i, g)
  {
    assert Apply(s, e).ledger[i] == s.ledger[i] && Apply(s, e).grants[g] == s.grants[g];
  }

  lemma PastStep(s: State, h: Past, e: Event)
    requires Inv(s) && PastOk(s, h) && Enabled(s, e)
    ensures PastOk(Apply(s, e), Then(s, h, e))
  {
    ReadingsStep(s, h, e);
    DeletionsStep(s, h, e);
    RecordsStep(s, h, e);
    ClaimsStep(s, h, e);
    LaterClaimsStep(s, h, e);
  }

  lemma {:induction false} PastIsOk(clock: int, es: seq<Event>)
    requires Valid(Initial(clock), es)
    ensures Inv(Run(Initial(clock), es)) && PastOk(Run(Initial(clock), es), PastOf(clock, es))
    decreases |es|
  {
    RunKeepsInv(Initial(clock), es);
    if es != [] {
      var n := |es| - 1;
      PastIsOk(clock, es[..n]);
      PastStep(Run(Initial(clock), es[..n]), PastOf(clock, es[..n]), es[n]);
    }
  }

  // --- When the stamp respects the expiry ---

  /** Payments `i` and `j` of one key, the claim of `j` granted after that of `i`. */
  ghost predicate Successive(s: State, i: int, j: int) {
    0 <= i < j < |s.ledger| && s.ledger[i].slot == s.ledger[j].slot
  }

  lemma SuccessiveFollows(s: State, h: Past, i: int, j: int)
    requires Inv(s) && PastOk(s, h) && Successive(s, i, j)
    ensures Follows(s, h, i, s.ledger[j].grant)
    ensures h.claims[s.ledger[j].grant].stamp == h.claims[s.ledger[j].grant].begun.at
    ensures LaterClaimOk(s, h, i, s.ledger[j].grant)
  {
    assert EntryOk(s, s.ledger[i]) && EntryOk(s, s.ledger[j]);
  }

  /**
   * Of two payments under one key in any run, the stamp of the later claim precedes the expiry of the earlier record
   * exactly when the granting attempt read its clock before that expiry and another call deleted the record while the
   * attempt was under way.
   */
  lemma StampPrecedesExpiryExactlyWhen(clock: int, es: seq<Event>, i: int, j: int)
    requires Valid(Initial(clock), es) && Successive(Run(Initial(clock), es), i, j)
    ensures var s, h := Run(Initial(clock), es), PastOf(clock, es);
      && s.ledger[j].grant < |h.claims|
      && var c := h.claims[s.ledger[j].grant];
        c.stamp < s.ledger[i].expiresAt <==>
          c.begun.at < s.ledger[i].expiresAt && DeletedMeanwhile(s, h, c, i)
  {
    PastIsOk(clock, es);
    SuccessiveFollows(Run(Initial(clock), es), PastOf(clock, es), i, j);
  }

  /** While the attempt was under way, no other call deleted a record on the key. */
  ghost predicate NoRivalDeletion(h: Past, c: Claim, slot: Slot) {
    forall d | c.begun.deleted <= d < c.deleted && 0 <= d < |h.deletions| && h.deletions[d].slot == slot ::
      h.deletions[d].call == c.call
  }

  /**
   * What a caller can see to beforehand: begun at or after the expiry, or with no other call deleting on the key while
   * it is under way, an attempt stores a stamp that respects the expiry.
   */
  lemma StampRespectsExpiry(clock: int, es: seq<Event>, i: int, j: int)
    requires Valid(Initial(clock), es) && Successive(Run(Initial(clock), es), i, j)
    ensures var s, h := Run(Initial(clock), es), PastOf(clock, es);
      && s.ledger[j].grant < |h.claims|
      && var c := h.claims[s.ledger[j].grant];
        s.ledger[i].expiresAt <= c.begun.at || NoRivalDeletion(h, c, s.ledger[i].slot) ==>
          s.ledger[i].expiresAt <= c.stamp
  {
    PastIsOk(clock, es);
    var s, h := Run(Initial(clock), es), PastOf(clock, es);
    SuccessiveFollows(s, h, i, j);
    NoRivalNoDeletion(s, h, h.claims[s.ledger[j].grant], i);
  }

  lemma NoRivalNoDeletion(s: State, h: Past, c: Claim, i: int)
    requires 0 <= i < |s.ledger|
    ensures NoRivalDeletion(h, c, s.ledger[i].slot) ==> !DeletedMeanwhile(s, h, c, i)
  {
  }
}
