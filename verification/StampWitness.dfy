/** A run in which the stamp of a later claim precedes the expiry of the record it replaces. */
module StampWitness {
  import opened Options
  import opened Json
  import opened IdempotencyTable
  import opened StoredPayments
  import opened ManualPayments
  import opened ClaimStamps

  lemma Snoc(clock: int, es: seq<Event>, e: Event)
    requires Valid(Initial(clock), es) && Enabled(Run(Initial(clock), es), e)
    ensures Valid(Initial(clock), es + [e])
    ensures Run(Initial(clock), es + [e]) == Apply(Run(Initial(clock), es), e)
    ensures PastOf(clock, es + [e]) == Then(Run(Initial(clock), es), PastOf(clock, es), e)
  {
    assert (es + [e])[..|es + [e]| - 1] == es;
  }

  function InputAt(slot: Slot, hash: Hash, clock: int): ClaimInput {
    ClaimInput(slot, hash, clock + RETENTION_MS)
  }

  /** A run that reaches a state with a past. */
  ghost predicate Reaches(es: seq<Event>, s: State, h: Past) {
    Valid(Initial(0), es) && Run(Initial(0), es) == s && PastOf(0, es) == h
  }

  lemma Next(es: seq<Event>, s: State, h: Past, e: Event) returns (longer: seq<Event>)
    requires Reaches(es, s, h) && Enabled(s, e)
    ensures longer == es + [e] && Reaches(longer, Apply(s, e), Then(s, h, e))
  {
    Snoc(0, es, e);
    longer := es + [e];
  }

  /** The row of the first payment, completed at the start. */
  function FirstRow(hash: Hash, p: Payment): Row {
    Row("a", hash, 0, RETENTION_MS, Some(Completion(201, ToStored(p), 0)))
  }

  function Paid(slot: Slot, hash: Hash, p: Payment): State {
    State(0, map[slot := FirstRow(hash, p)], {"a"}, [Grant(slot, "a", hash, 0)],
      [Entry(slot, hash, 0, p, RETENTION_MS)], map[1 := InputAt(slot, hash, 0)],
      map[1 := Finished(Created(ToResult(p)))])
  }

  const FIRST_CLAIM := Claim(1, 0, Beginning(0, 0), 0)

  function Begun(slot: Slot, hash: Hash): State {
    State(0, map[], {}, [], [], map[1 := InputAt(slot, hash, 0)], map[1 := Creating(0, 0)])
  }

  lemma FirstAttempt(slot: Slot, hash: Hash) returns (es: seq<Event>)
    ensures Reaches(es, Begun(slot, hash), Past(map[1 := Beginning(0, 0)], [], []))
  {
    es := [];
    var s, h := Initial(0), Past(map[], [], []);
    var submit := Submit(1, InputAt(slot, hash, 0));
    es := Next(es, s, h, submit);
    s := Apply(s, submit);
    es := Next(es, s, h, ReadClock(1));
    h := Then(s, h, ReadClock(1));
    s := Apply(s, ReadClock(1));
    es := Next(es, s, h, DeleteExpiredRow(1));
    assert Then(s, h, DeleteExpiredRow(1)) == Past(map[1 := Beginning(0, 0)], [], []);
    assert Apply(s, DeleteExpiredRow(1)) == Begun(slot, hash);
  }

  /** Call 1 claims, pays and finishes, all at the start of the clock. */
  lemma FirstPayment(slot: Slot, hash: Hash, p: Payment) returns (es: seq<Event>)
    ensures Reaches(es, Paid(slot, hash, p), Past(map[1 := Beginning(0, 0)], [], [FIRST_CLAIM]))
  {
    es := FirstAttempt(slot, hash);
    var s, h := Begun(slot, hash), Past(map[1 := Beginning(0, 0)], [], []);
    es := Next(es, s, h, CreateRow(1, "a", true));
    h := Then(s, h, CreateRow(1, "a", true));
    s := Apply(s, CreateRow(1, "a", true));
    assert s.table == map[slot := Row("a", hash, 0, RETENTION_MS, None)];
    assert s.phases == map[1 := Executing(0, 1)] && s.grants == [Grant(slot, "a", hash, 0)];
    assert h.claims == [FIRST_CLAIM];
    var pay := Transact(1, Commits(true), p, false);
    es := Next(es, s, h, pay);
    assert Apply(s, pay) == Paid(slot, hash, p);
  }

  /** Call 2 reads the clock a millisecond before the expiry, call 3 reads it at the expiry and deletes the record. */
  function Deleted(slot: Slot, hash: Hash, p: Payment): State {
    State(RETENTION_MS, map[], {"a"}, [Grant(slot, "a", hash, 0)], [Entry(slot, hash, 0, p, RETENTION_MS)],
      map[1 := InputAt(slot, hash, 0), 2 := InputAt(slot, hash, RETENTION_MS - 1), 3 := InputAt(slot, hash, RETENTION_MS)],
      map[1 := Finished(Created(ToResult(p))), 2 := Deleting(0, RETENTION_MS - 1), 3 := Creating(0, RETENTION_MS)])
  }

  function DeletedPast(slot: Slot, hash: Hash, p: Payment): Past {
    Past(map[1 := Beginning(0, 0), 2 := Beginning(RETENTION_MS - 1, 0), 3 := Beginning(RETENTION_MS, 0)],
      [Deletion(slot, FirstRow(hash, p), 3)], [FIRST_CLAIM])
  }

  function Waiting(slot: Slot, hash: Hash, p: Payment): State {
    State(RETENTION_MS, map[slot := FirstRow(hash, p)], {"a"}, [Grant(slot, "a", hash, 0)],
      [Entry(slot, hash, 0, p, RETENTION_MS)],
      map[1 := InputAt(slot, hash, 0), 2 := InputAt(slot, hash, RETENTION_MS - 1)],
      map[1 := Finished(Created(ToResult(p))), 2 := Deleting(0, RETENTION_MS - 1)])
  }

  function WaitingPast(): Past {
    Past(map[1 := Beginning(0, 0), 2 := Beginning(RETENTION_MS - 1, 0)], [], [FIRST_CLAIM])
  }

  lemma SecondWaits(slot: Slot, hash: Hash, p: Payment) returns (es: seq<Event>)
    ensures Reaches(es, Waiting(slot, hash, p), WaitingPast())
  {
    es := FirstPayment(slot, hash, p);
    var s, h := Paid(slot, hash, p), Past(map[1 := Beginning(0, 0)], [], [FIRST_CLAIM]);
    es := Next(es, s, h, Tick(RETENTION_MS - 1));
    s := Apply(s, Tick(RETENTION_MS - 1));
    var second := Submit(2, InputAt(slot, hash, RETENTION_MS - 1));
    es := Next(es, s, h, second);
    s := Apply(s, second);
    es := Next(es, s, h, ReadClock(2));
    h := Then(s, h, ReadClock(2));
    s := Apply(s, ReadClock(2));
    assert h == WaitingPast();
    es := Next(es, s, h, Tick(1));
    assert Apply(s, Tick(1)) == Waiting(slot, hash, p);
  }

  lemma RecordDeleted(slot: Slot, hash: Hash, p: Payment) returns (es: seq<Event>)
    ensures Reaches(es, Deleted(slot, hash, p), DeletedPast(slot, hash, p))
  {
    es := SecondWaits(slot, hash, p);
    var s, h := Waiting(slot, hash, p), WaitingPast();
    var third := Submit(3, InputAt(slot, hash, RETENTION_MS));
    es := Next(es, s, h, third);
    s := Apply(s, third);
    es := Next(es, s, h, ReadClock(3));
    h := Then(s, h, ReadClock(3));
    s := Apply(s, ReadClock(3));
    assert s.table == map[slot := FirstRow(hash, p)] && s.phases[3] == Deleting(0, RETENTION_MS);
    es := Next(es, s, h, DeleteExpiredRow(3));
    assert Then(s, h, DeleteExpiredRow(3)) == DeletedPast(slot, hash, p);
    assert Apply(s, DeleteExpiredRow(3)) == Deleted(slot, hash, p);
  }

  /** Call 2 goes on: it finds nothing to delete, creates its row with the stamp it read, and pays. */
  lemma ClaimStampMayPrecedeExpiry(slot: Slot, hash: Hash, p: Payment, q: Payment) returns (es: seq<Event>)
    ensures Valid(Initial(0), es) && Successive(Run(Initial(0), es), 0, 1)
    ensures var s, h := Run(Initial(0), es), PastOf(0, es);
      && s.ledger[1].grant < |h.claims|
      && h.claims[s.ledger[1].grant].stamp < s.ledger[0].expiresAt
  {
    es := RecordDeleted(slot, hash, p);
    var s, h := Deleted(slot, hash, p), DeletedPast(slot, hash, p);
    es := Next(es, s, h, DeleteExpiredRow(2));
    assert Then(s, h, DeleteExpiredRow(2)) == h;
    s := Apply(s, DeleteExpiredRow(2));
    assert s.table == map[] && s.phases[2] == Creating(0, RETENTION_MS - 1);
    var create := CreateRow(2, "b", true);
    es := Next(es, s, h, create);
    h := Then(s, h, create);
    s := Apply(s, create);
    assert s.table == map[slot := Row("b", hash, RETENTION_MS - 1, 2 * RETENTION_MS - 1, None)];
    assert s.phases[2] == Executing(1, 1) && s.grants[1] == Grant(slot, "b", hash, RETENTION_MS);
    assert h.claims[1].stamp == RETENTION_MS - 1;
    var pay := Transact(2, Commits(true), q, false);
    es := Next(es, s, h, pay);
    s := Apply(s, pay);
    assert |s.ledger| == 2 && s.ledger[1].grant == 1 && s.ledger[0].expiresAt == RETENTION_MS;
  }
}
