/**
 The idempotency-record table and the statements that act on it.

 Every statement of the store filters on the unique `(shop, scope, key)` triple, here a `Slot`, so
 the table is a map from slots to rows. One statement is atomic. What other callers do between two
 statements of one call is not restricted: a claim takes the list of statements that ran in each gap.
 */
module IdempotencyTable {
  import opened Options
  import opened Json

  const CLAIM_LEASE_MS: int := 5 * 60 * 1000
  const CLAIM_ATTEMPTS: nat := 3

  type Id = string
  type Hash = Text

  datatype Slot = Slot(shop: string, scope: string, key: string)

  datatype Completion = Completion(responseCode: int, responseBody: Value, completedAt: int)

  datatype Row = Row(id: Id, requestHash: Hash, createdAt: int, expiresAt: int, completion: Option<Completion>)

  type Table = map<Slot, Row>

  datatype ClaimInput = ClaimInput(slot: Slot, requestHash: Hash, expiresAt: int)

  datatype ClaimResult =
    | Claimed(claimId: Id)
    | InProgress
    | HashMismatch
    | Completed(responseBody: Value)

  // ---------------------------------------------------------------------------------------------
  // Statements
  // ---------------------------------------------------------------------------------------------

  function DeleteExpired(t: Table, slot: Slot, now: int): Table {
    if slot in t && t[slot].expiresAt <= now then t - {slot} else t
  }

  /** `create`; None stands for the unique-key violation P2002. */
  function Create(t: Table, input: ClaimInput, id: Id, now: int): Option<Table> {
    if input.slot in t then None
    else Some(t[input.slot := Row(id, input.requestHash, now, input.expiresAt, None)])
  }

  predicate Recoverable(t: Table, input: ClaimInput, existing: Id, staleBefore: int) {
    && input.slot in t
    && t[input.slot].id == existing
    && t[input.slot].requestHash == input.requestHash
    && t[input.slot].completion.None?
    && t[input.slot].createdAt <= staleBefore
  }

  /** The conditional update that rotates the row id and so fences the previous owner. */
  function Recover(t: Table, input: ClaimInput, existing: Id, id: Id, now: int): Table {
    if Recoverable(t, input, existing, now - CLAIM_LEASE_MS)
    then t[input.slot := t[input.slot].(id := id, createdAt := now, expiresAt := input.expiresAt)]
    else t
  }

  /** Whether the locking update matches a row; the update writes the id it already has. */
  predicate Owns(t: Table, slot: Slot, claimId: Id) {
    slot in t && t[slot].id == claimId && t[slot].completion.None?
  }

  function Complete(t: Table, slot: Slot, claimId: Id, completion: Completion): Table {
    if Owns(t, slot, claimId) then t[slot := t[slot].(completion := Some(completion))] else t
  }

  function Release(t: Table, slot: Slot, claimId: Id): Table {
    if Owns(t, slot, claimId) then t - {slot} else t
  }

  /** A statement of any caller. */
  datatype Statement =
    | DeleteExpiredStatement(slot: Slot, now: int)
    | CreateStatement(input: ClaimInput, id: Id, now: int)
    | RecoverStatement(input: ClaimInput, existing: Id, id: Id, now: int)
    | CompleteStatement(slot: Slot, claimId: Id, completion: Completion)
    | ReleaseStatement(slot: Slot, claimId: Id)

  function Effect(s: Statement, t: Table): Table {
    match s
    case DeleteExpiredStatement(slot, now) => DeleteExpired(t, slot, now)
    case CreateStatement(input, id, now) => Create(t, input, id, now).GetOr(t)
    case RecoverStatement(input, existing, id, now) => Recover(t, input, existing, id, now)
    case CompleteStatement(slot, claimId, completion) => Complete(t, slot, claimId, completion)
    case ReleaseStatement(slot, claimId) => Release(t, slot, claimId)
  }

  function Effects(ss: seq<Statement>, t: Table): Table {
    if ss == [] then t else Effect(ss[|ss| - 1], Effects(ss[..|ss| - 1], t))
  }

  // ---------------------------------------------------------------------------------------------
  // The store
  // ---------------------------------------------------------------------------------------------

  /** Nobody else runs between the statements of a call. */
  predicate Undisturbed(others: seq<seq<Statement>>) {
    forall i | 0 <= i < |others| :: others[i] == []
  }

  /** The row of a slot is there and retained at `now`. */
  predicate Retained(t: Table, slot: Slot, now: int) {
    slot in t && now < t[slot].expiresAt
  }

  /** The row is for the command and has no result. */
  predicate Unanswered(t: Table, input: ClaimInput) {
    && input.slot in t
    && t[input.slot].requestHash == input.requestHash
    && t[input.slot].completion.None?
  }

  /**
   What the answer of a claim says about the table: a claimed row is new and the caller's, a result is the one stored
   for the command, and another claim is in progress only if it is for the same command, unanswered and young.
   */
  predicate Reported(t: Table, input: ClaimInput, result: ClaimResult, ids: set<Id>, instants: set<int>) {
    && input.slot in t
    && var row := t[input.slot];
      match result
      case Claimed(id) =>
        && id in ids && row.createdAt in instants
        && row == Row(id, input.requestHash, row.createdAt, input.expiresAt, None)
      case Completed(body) =>
        row.requestHash == input.requestHash && row.completion.Some? && row.completion.value.responseBody == body
      case HashMismatch => row.requestHash != input.requestHash
      case InProgress =>
        && row.requestHash == input.requestHash && row.completion.None?
        && exists now | now in instants :: now < row.createdAt + CLAIM_LEASE_MS
  }

  /** Each of the first `n` attempts was disturbed between its insert and its update. */
  predicate Disturbed(others: seq<seq<Statement>>, n: nat)
    requires |others| >= 4 * n
  {
    forall k: nat | k < n :: others[4 * k + 2] != [] || others[4 * k + 3] != []
  }

  /** The answer and the table of a call in which nobody else ran, by the row it found at `now`. */
  predicate Decided(found: Table, t: Table, input: ClaimInput, now: int, unused: Id, rotated: Id, result: ClaimResult) {
    if !Retained(found, input.slot, now) then
      && result == Claimed(unused)
      && t == found[input.slot := Row(unused, input.requestHash, now, input.expiresAt, None)]
    else if Unanswered(found, input) && found[input.slot].createdAt + CLAIM_LEASE_MS <= now then
      && result == Claimed(rotated)
      && t == found[input.slot := Row(rotated, input.requestHash, now, input.expiresAt, None)]
    else
      && t == found
      && (result == HashMismatch <==> found[input.slot].requestHash != input.requestHash)
      && (result == InProgress <==> Unanswered(found, input))
      && (found[input.slot].requestHash == input.requestHash && found[input.slot].completion.Some? ==>
            result == Completed(found[input.slot].completion.value.responseBody))
  }

  class IdempotencyStore {
    var rows: Table

    constructor ()
      ensures rows == map[]
    {
      rows := map[];
    }

    method Execute(ss: seq<Statement>)
      modifies this
      ensures rows == Effects(ss, old(rows))
    {
      var i := 0;
      while i < |ss|
        invariant 0 <= i <= |ss|
        invariant rows == Effects(ss[..i], old(rows))
      {
        rows := Effect(ss[i], rows);
        assert ss[..i + 1][..i] == ss[..i];
        i := i + 1;
      }
      assert ss[..|ss|] == ss;
    }

    /** Statements of other callers take effect and are added to the log. */
    method Interfere(ss: seq<Statement>, ghost log: seq<Statement>, ghost start: Table)
      returns (ghost longer: seq<Statement>)
      requires rows == Effects(log, start)
      modifies this
      ensures rows == Effects(ss, old(rows)) && rows == Effects(longer, start)
      ensures longer == log + ss
    {
      Execute(ss);
      EffectsAppend(log, ss, start);
      longer := log + ss;
    }

    /** The conditional update that takes over a stale claim, if the row is still the one read. */
    method RecoverClaim(input: ClaimInput, existing: Id, rotated: Id, now: int, ghost log: seq<Statement>, ghost start: Table)
      returns (recovered: bool, ghost longer: seq<Statement>)
      requires rows == Effects(log, start)
      modifies this
      ensures rows == Effects(longer, start)
      ensures recovered ==>
        && input.slot in old(rows) && Unanswered(old(rows), input)
        && old(rows)[input.slot].id == existing && old(rows)[input.slot].createdAt + CLAIM_LEASE_MS <= now
        && rows == old(rows)[input.slot := Row(rotated, input.requestHash, now, input.expiresAt, None)]
      ensures !recovered ==>
        && rows == old(rows)
        && !(Unanswered(rows, input) && rows[input.slot].id == existing
             && rows[input.slot].createdAt + CLAIM_LEASE_MS <= now)
    {
      recovered := Recoverable(rows, input, existing, now - CLAIM_LEASE_MS);
      rows := Recover(rows, input, existing, rotated, now);
      EffectsSnoc(log, RecoverStatement(input, existing, rotated, now), start);
      longer := log + [RecoverStatement(input, existing, rotated, now)];
    }

    /**
     One attempt of the claim loop: what it answers, or `None` when it has to be repeated. `others[j]` ran just
     before its j-th statement. `log` lists every statement that took effect, so the final table is no more than
     what the statements wrote.
     */
    method AttemptClaim(
      input: ClaimInput, now: int, unused: Id, rotated: Id, others: seq<seq<Statement>>,
      ghost log: seq<Statement>, ghost start: Table)
      returns (result: Option<ClaimResult>, ghost longer: seq<Statement>)
      requires |others| == 4 && rows == Effects(log, start)
      modifies this
      ensures rows == Effects(longer, start)
      ensures result.Some? ==> Reported(rows, input, result.value, {unused, rotated}, {now})
      ensures result == None ==> others[2] != [] || others[3] != []
      ensures Undisturbed(others) ==> result.Some? && Decided(old(rows), rows, input, now, unused, rotated, result.value)
    {
      longer := Interfere(others[0], log, start);
      rows := DeleteExpired(rows, input.slot, now);
      EffectsSnoc(longer, DeleteExpiredStatement(input.slot, now), start);
      longer := longer + [DeleteExpiredStatement(input.slot, now)];

      longer := Interfere(others[1], longer, start);
      var created := Create(rows, input, unused, now);
      if created.Some? {
        rows := created.value;
        EffectsSnoc(longer, CreateStatement(input, unused, now), start);
        longer := longer + [CreateStatement(input, unused, now)];
        return Some(Claimed(unused)), longer;
      }

      longer := Interfere(others[2], longer, start);
      if input.slot !in rows {
        return None, longer;
      }
      var existing := rows[input.slot];
      if existing.requestHash != input.requestHash {
        return Some(HashMismatch), longer;
      }
      if existing.completion.Some? {
        return Some(Completed(existing.completion.value.responseBody)), longer;
      }
      if existing.createdAt > now - CLAIM_LEASE_MS {
        return Some(InProgress), longer;
      }

      longer := Interfere(others[3], longer, start);
      var recovered;
      recovered, longer := RecoverClaim(input, existing.id, rotated, now, longer, start);
      result := if recovered then Some(Claimed(rotated)) else None;
    }

    /**
     The bounded claim loop. `clock[k]` is the instant read by attempt k, `ids` supplies the random ids, and
     `others[4 * k + j]` ran just before the j-th statement of attempt k.
     */
    method ClaimIdempotencyRecord(
      input: ClaimInput, clock: seq<int>, ids: seq<Id>, others: seq<seq<Statement>>)
      returns (result: ClaimResult, ghost log: seq<Statement>)
      requires |clock| == CLAIM_ATTEMPTS && |ids| == 2 * CLAIM_ATTEMPTS && |others| == 4 * CLAIM_ATTEMPTS
      modifies this
      ensures rows == Effects(log, old(rows))
      ensures result.Claimed? ==>
        && result.claimId in ids
        && input.slot in rows
        && rows[input.slot].id == result.claimId
        && rows[input.slot].requestHash == input.requestHash
        && rows[input.slot].expiresAt == input.expiresAt
        && rows[input.slot].createdAt in clock
        && rows[input.slot].completion.None?
      ensures result.Completed? ==>
        && input.slot in rows
        && rows[input.slot].requestHash == input.requestHash
        && rows[input.slot].completion.Some?
        && rows[input.slot].completion.value.responseBody == result.responseBody
      ensures result.HashMismatch? ==>
        input.slot in rows && rows[input.slot].requestHash != input.requestHash
      ensures result.InProgress? ==>
        || (forall k: nat | k < CLAIM_ATTEMPTS :: others[4 * k + 2] != [] || others[4 * k + 3] != [])
        || (&& input.slot in rows
            && rows[input.slot].requestHash == input.requestHash
            && rows[input.slot].completion.None?
            && exists now :: now in clock && now < rows[input.slot].createdAt + CLAIM_LEASE_MS)
      // When nobody else runs, the row found decides. It is absent or expired:
      ensures Undisturbed(others) && (input.slot in old(rows) ==> old(rows)[input.slot].expiresAt <= clock[0]) ==>
        && result == Claimed(ids[0])
        && rows == old(rows)[input.slot := Row(ids[0], input.requestHash, clock[0], input.expiresAt, None)]
      // It is retained, for another command:
      ensures Undisturbed(others) && input.slot in old(rows) && clock[0] < old(rows)[input.slot].expiresAt ==>
        old(rows)[input.slot].requestHash != input.requestHash ==>
          result == HashMismatch && rows == old(rows)
      // For this command, and completed:
      ensures Undisturbed(others) && input.slot in old(rows) && clock[0] < old(rows)[input.slot].expiresAt ==>
        old(rows)[input.slot].requestHash == input.requestHash && old(rows)[input.slot].completion.Some? ==>
          result == Completed(old(rows)[input.slot].completion.value.responseBody) && rows == old(rows)
      // For this command, incomplete, and younger than the processing lease:
      ensures Undisturbed(others) && input.slot in old(rows) && clock[0] < old(rows)[input.slot].expiresAt ==>
        old(rows)[input.slot].requestHash == input.requestHash && old(rows)[input.slot].completion.None? ==>
          clock[0] < old(rows)[input.slot].createdAt + CLAIM_LEASE_MS ==>
            result == InProgress && rows == old(rows)
      // For this command, incomplete, and stale:
      ensures Undisturbed(others) && input.slot in old(rows) && clock[0] < old(rows)[input.slot].expiresAt ==>
        old(rows)[input.slot].requestHash == input.requestHash && old(rows)[input.slot].completion.None? ==>
          old(rows)[input.slot].createdAt + CLAIM_LEASE_MS <= clock[0] ==>
            && result == Claimed(ids[1])
            && rows == old(rows)[input.slot := Row(ids[1], input.requestHash, clock[0], input.expiresAt, None)]
    {
      log := [];
      var attempt := 0;
      while attempt < CLAIM_ATTEMPTS
        invariant 0 <= attempt <= CLAIM_ATTEMPTS
        invariant rows == Effects(log, old(rows))
        invariant attempt == 0 ==> rows == old(rows)
        invariant Disturbed(others, attempt)
        invariant attempt > 0 ==> !Undisturbed(others)
      {
        var answer;
        answer, log := AttemptClaim(input, clock[attempt], ids[2 * attempt], ids[2 * attempt + 1],
          others[4 * attempt..4 * attempt + 4], log, old(rows));
        if answer.Some? {
          assert ids[2 * attempt] in ids && ids[2 * attempt + 1] in ids && clock[attempt] in clock;
          return answer.value, log;
        }
        assert others[4 * attempt + 2] != [] || others[4 * attempt + 3] != [];
        attempt := attempt + 1;
      }
      return InProgress, log;
    }

    method LockIdempotencyClaim(slot: Slot, claimId: Id) returns (owned: bool)
      ensures owned <==> slot in rows && rows[slot].id == claimId && rows[slot].completion.None?
    {
      owned := slot in rows && rows[slot].id == claimId && rows[slot].completion.None?;
    }

    method CompleteIdempotencyClaim(slot: Slot, claimId: Id, completion: Completion) returns (completed: bool)
      modifies this
      ensures completed <==> slot in old(rows) && old(rows)[slot].id == claimId && old(rows)[slot].completion.None?
      ensures rows == if completed then old(rows)[slot := old(rows)[slot].(completion := Some(completion))] else old(rows)
      ensures rows == Complete(old(rows), slot, claimId, completion)
    {
      completed := slot in rows && rows[slot].id == claimId && rows[slot].completion.None?;
      if completed {
        rows := rows[slot := rows[slot].(completion := Some(completion))];
      }
    }

    method ReleaseIdempotencyClaim(slot: Slot, claimId: Id)
      modifies this
      ensures rows == Release(old(rows), slot, claimId)
      ensures slot in old(rows) && old(rows)[slot].id == claimId && old(rows)[slot].completion.None? ==>
        rows == old(rows) - {slot}
    {
      if slot in rows && rows[slot].id == claimId && rows[slot].completion.None? {
        rows := rows - {slot};
      }
    }
  }

  lemma EffectsSnoc(ss: seq<Statement>, last: Statement, t: Table)
    ensures Effects(ss + [last], t) == Effect(last, Effects(ss, t))
  {
    assert (ss + [last])[..|ss|] == ss;
  }

  lemma {:induction false} EffectsAppend(ss: seq<Statement>, more: seq<Statement>, t: Table)
    ensures Effects(ss + more, t) == Effects(more, Effects(ss, t))
  {
    if more == [] {
      assert ss + more == ss;
    } else {
      EffectsAppend(ss, more[..|more| - 1], t);
      assert (ss + more)[..|ss + more| - 1] == ss + more[..|more| - 1];
    }
  }

  // ---------------------------------------------------------------------------------------------
  // Fencing
  // ---------------------------------------------------------------------------------------------

  /** A row is locked, completed or released by one id only, so two issued ids never both own it. */
  lemma OneOwner(t: Table, slot: Slot, a: Id, b: Id)
    requires a != b && Owns(t, slot, a)
    ensures !Owns(t, slot, b)
    ensures forall c :: Complete(t, slot, b, c) == t
    ensures Release(t, slot, b) == t
  {
    assert t[slot].id == a;
  }

  predicate SettledRow(t: Table, slot: Slot) {
    slot in t && t[slot].completion.Some?
  }

  /** Only expiry removes or rewrites a completed row, whichever statement runs. */
  lemma CompletedRowOutlivesStatements(s: Statement, t: Table, slot: Slot)
    requires SettledRow(t, slot)
    ensures Effect(s, t) != t && (slot !in Effect(s, t) || Effect(s, t)[slot] != t[slot]) ==>
      s.DeleteExpiredStatement? && s.slot == slot && t[slot].expiresAt <= s.now && Effect(s, t) == t - {slot}
  {
  }

  /** An id that lost the row gets it back only from a statement that issues that very id again. */
  lemma LostClaimStaysLost(s: Statement, t: Table, slot: Slot, id: Id)
    requires !(slot in t && t[slot].id == id)
    requires !(s.CreateStatement? && s.id == id) && !(s.RecoverStatement? && s.id == id)
    ensures !(slot in Effect(s, t) && Effect(s, t)[slot].id == id)
  {
  }

  /** Statements of other ids that are fresh leave a lost claim lost for good. */
  lemma {:induction false} LostClaimStaysLostForever(ss: seq<Statement>, t: Table, slot: Slot, id: Id)
    requires !(slot in t && t[slot].id == id)
    requires forall s | s in ss :: !(s.CreateStatement? && s.id == id) && !(s.RecoverStatement? && s.id == id)
    ensures !(slot in Effects(ss, t) && Effects(ss, t)[slot].id == id)
    ensures !Owns(Effects(ss, t), slot, id)
  {
    if ss != [] {
      var n := |ss| - 1;
      LostClaimStaysLostForever(ss[..n], t, slot, id);
      LostClaimStaysLost(ss[n], Effects(ss[..n], t), slot, id);
    }
  }

  /** A live claim changes hands only after its processing lease, by the claimant's own reading of the clock. */
  lemma TakeoverWaitsForLease(s: Statement, t: Table, slot: Slot, id: Id)
    requires Owns(t, slot, id)
    requires slot in Effect(s, t) && Effect(s, t)[slot].id != id
    ensures s.RecoverStatement? && s.input.slot == slot && t[slot].createdAt + CLAIM_LEASE_MS <= s.now
    ensures s.input.requestHash == t[slot].requestHash
  {
  }
}
