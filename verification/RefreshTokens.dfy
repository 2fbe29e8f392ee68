/**
 Refresh-token families: issue, rotation with reuse detection, logout, password change, and the
 retention purge. A transaction is atomic; a token row is named by its unique hash, to which the parent
 link of its replacement refers. Deleting a family deletes its tokens (ON DELETE CASCADE).
 */
module RefreshTokens {
  import opened Options

  type Hash = string
  type FamilyId = nat
  type UserId = string
  type MemberId = string
  type ShopId = string

  datatype Reason = ROTATED | LOGOUT | FAMILY_COMPROMISED | PASSWORD_CHANGED | REUSE_DETECTED

  datatype Family = Family(
    user: UserId,
    member: MemberId,
    revokedAt: Option<int>,
    reason: Option<Reason>,
    reuseDetectedAt: Option<int>,
    createdAt: int)

  datatype Token = Token(
    user: UserId,
    member: MemberId,
    family: FamilyId,
    parent: Option<Hash>,
    expiresAt: int,
    revokedAt: Option<int>,
    consumedAt: Option<int>,
    reason: Option<Reason>)

  datatype Db = Db(families: map<FamilyId, Family>, tokens: map<Hash, Token>)

  datatype Member = Member(user: UserId, shop: ShopId, active: bool)

  /** Users with their ACTIVE flag, and shop members, as the transaction reads them. */
  datatype Accounts = Accounts(users: map<UserId, bool>, members: map<MemberId, Member>)

  datatype Replacement = Replacement(hash: Hash, expiresAt: int)

  datatype Outcome = Rotated | Reused | Rejected | Concurrent

  // ---------------------------------------------------------------------------------------------
  // Transactions
  // ---------------------------------------------------------------------------------------------

  predicate Eligible(db: Db, a: Accounts, token: Token, shop: ShopId)
    requires token.family in db.families
  {
    var family := db.families[token.family];
    && family.revokedAt.None?
    && family.user == token.user
    && family.member == token.member
    && token.user in a.users && a.users[token.user]
    && token.member in a.members
    && a.members[token.member].active
    && a.members[token.member].user == token.user
    && a.members[token.member].shop == shop
  }

  function RevokeTokens(db: Db, which: set<Hash>, now: int, reason: Reason): Db {
    db.(tokens := map h | h in db.tokens ::
      if h in which && db.tokens[h].revokedAt.None?
      then db.tokens[h].(revokedAt := Some(now), reason := Some(reason)) else db.tokens[h])
  }

  function InFamily(db: Db, f: FamilyId): set<Hash> {
    set h | h in db.tokens && db.tokens[h].family == f
  }

  function OfUser(db: Db, u: UserId): set<Hash> {
    set h | h in db.tokens && db.tokens[h].user == u
  }

  /** Reuse: the family is marked and every live token of it revoked. */
  function Compromise(db: Db, f: FamilyId, now: int): Db
    requires f in db.families
  {
    RevokeTokens(
      db.(families := db.families[f := db.families[f].(revokedAt := Some(now), reason := Some(REUSE_DETECTED),
                                                       reuseDetectedAt := Some(now))]),
      InFamily(db, f), now, FAMILY_COMPROMISED)
  }

  function Consume(db: Db, hash: Hash, r: Replacement, now: int): Db
    requires hash in db.tokens
  {
    var t := db.tokens[hash];
    db.(tokens := db.tokens[hash := t.(revokedAt := Some(now), consumedAt := Some(now), reason := Some(ROTATED))]
                           [r.hash := Token(t.user, t.member, t.family, Some(hash), r.expiresAt, None, None, None)])
  }

  function RotationOutcome(db: Db, hash: Hash, a: Accounts, shop: ShopId, now: int): Outcome
    requires Referential(db)
  {
    if hash !in db.tokens || db.tokens[hash].expiresAt <= now then Rejected
    else
      var t := db.tokens[hash];
      if t.revokedAt.Some? then
        if t.reason == Some(ROTATED) && t.consumedAt.Some? && db.families[t.family].revokedAt.None?
        then Reused else Rejected
      else if Eligible(db, a, t, shop) then Rotated
      else Rejected
  }

  function Rotate(db: Db, hash: Hash, r: Replacement, a: Accounts, shop: ShopId, now: int): Db
    requires Referential(db)
  {
    match RotationOutcome(db, hash, a, shop, now)
    case Rotated => Consume(db, hash, r, now)
    case Reused => Compromise(db, db.tokens[hash].family, now)
    case Rejected => db
    case Concurrent => db
  }

  function Issue(db: Db, f: FamilyId, hash: Hash, user: UserId, member: MemberId, expiresAt: int, now: int): Db {
    Db(db.families[f := Family(user, member, None, None, None, now)],
       db.tokens[hash := Token(user, member, f, None, expiresAt, None, None, None)])
  }

  function Logout(db: Db, hash: Hash, user: UserId, member: MemberId, now: int): Db {
    if hash in db.tokens && db.tokens[hash].user == user && db.tokens[hash].member == member
       && db.tokens[hash].revokedAt.None?
    then db.(tokens := db.tokens[hash := db.tokens[hash].(revokedAt := Some(now), reason := Some(LOGOUT))])
    else db
  }

  function ChangePassword(db: Db, user: UserId, now: int): Db {
    RevokeTokens(
      db.(families := map f | f in db.families ::
        if db.families[f].user == user && db.families[f].revokedAt.None?
        then db.families[f].(revokedAt := Some(now), reason := Some(PASSWORD_CHANGED)) else db.families[f]),
      OfUser(db, user), now, PASSWORD_CHANGED)
  }

  predicate Referential(db: Db) {
    forall h | h in db.tokens :: db.tokens[h].family in db.families
  }

  // ---------------------------------------------------------------------------------------------
  // Retention
  // ---------------------------------------------------------------------------------------------

  function EventTime(f: Family): int {
    if f.reuseDetectedAt.Some? then f.reuseDetectedAt.value
    else f.revokedAt.GetOr(f.createdAt)
  }

  function TerminalTime(t: Token): int {
    t.revokedAt.GetOr(t.expiresAt)
  }

  predicate Purgeable(db: Db, f: FamilyId, cutoff: int) {
    && f in db.families
    && EventTime(db.families[f]) <= cutoff
    && forall h | h in db.tokens && db.tokens[h].family == f :: TerminalTime(db.tokens[h]) <= cutoff
  }

  function PurgeableFamilies(db: Db, cutoff: int): set<FamilyId> {
    set f | f in db.families && Purgeable(db, f, cutoff)
  }

  function DeleteFamilies(db: Db, ids: set<FamilyId>): Db {
    Db(db.families - ids, map h | h in db.tokens && db.tokens[h].family !in ids :: db.tokens[h])
  }

  predicate Precedes(db: Db, f: FamilyId, g: FamilyId)
    requires f in db.families && g in db.families
  {
    var x, y := EventTime(db.families[f]), EventTime(db.families[g]);
    x < y || (x == y && f <= g)
  }

  /** The rows of `ORDER BY event time, id LIMIT limit FOR UPDATE SKIP LOCKED`. */
  ghost predicate IsBatch(db: Db, cutoff: int, limit: nat, locked: set<FamilyId>, ids: set<FamilyId>) {
    var open := PurgeableFamilies(db, cutoff) - locked;
    && ids <= open
    && (|ids| == limit || ids == open)
    && |ids| <= limit
    && forall f, g | f in ids && g in open - ids :: Precedes(db, f, g)
  }

  class RefreshTokenStore {
    var families: map<FamilyId, Family>
    var tokens: map<Hash, Token>

    constructor ()
      ensures Snapshot() == Db(map[], map[])
    {
      families, tokens := map[], map[];
    }

    ghost function Snapshot(): Db
      reads this
    {
      Db(families, tokens)
    }

    method CreateRefreshToken(f: FamilyId, hash: Hash, user: UserId, member: MemberId, expiresAt: int, now: int)
      modifies this
      ensures Snapshot() == Issue(old(Snapshot()), f, hash, user, member, expiresAt, now)
    {
      families := families[f := Family(user, member, None, None, None, now)];
      tokens := tokens[hash := Token(user, member, f, None, expiresAt, None, None, None)];
    }

    /** `conflict` stands for a serialization failure reported by the database. */
    method RotateRefreshToken(hash: Hash, r: Replacement, a: Accounts, shop: ShopId, now: int, conflict: bool)
      returns (outcome: Outcome)
      requires Referential(Snapshot())
      modifies this
      ensures outcome == Concurrent <==> conflict
      ensures outcome == Rotated <==>
        && !conflict && hash in old(tokens)
        && var t := old(tokens)[hash];
          && now < t.expiresAt && t.revokedAt == None
          && old(families)[t.family].revokedAt == None
          && old(families)[t.family].user == t.user && old(families)[t.family].member == t.member
          && t.user in a.users && a.users[t.user]
          && t.member in a.members && a.members[t.member] == Member(t.user, shop, true)
      ensures outcome == Reused <==>
        && !conflict && hash in old(tokens)
        && var t := old(tokens)[hash];
          && now < t.expiresAt && t.revokedAt.Some? && t.consumedAt.Some? && t.reason == Some(ROTATED)
          && old(families)[t.family].revokedAt == None
      ensures outcome == Rotated ==>
        && families == old(families)
        && var t := old(tokens)[hash];
          tokens == old(tokens)[hash := t.(revokedAt := Some(now), consumedAt := Some(now), reason := Some(ROTATED))]
            [r.hash := Token(t.user, t.member, t.family, Some(hash), r.expiresAt, None, None, None)]
      ensures outcome == Rejected || outcome == Concurrent ==> families == old(families) && tokens == old(tokens)
      ensures !conflict ==> outcome == RotationOutcome(old(Snapshot()), hash, a, shop, now)
      ensures !conflict ==> Snapshot() == Rotate(old(Snapshot()), hash, r, a, shop, now)
    {
      if conflict {
        return Concurrent;
      }
      if hash !in tokens || tokens[hash].expiresAt <= now {
        return Rejected;
      }
      var token := tokens[hash];
      var db := Db(families, tokens);
      if token.revokedAt.Some? {
        if token.reason != Some(ROTATED) || token.consumedAt.None? || families[token.family].revokedAt.Some? {
          return Rejected;
        }
        families := families[token.family := families[token.family].(
          revokedAt := Some(now), reason := Some(REUSE_DETECTED), reuseDetectedAt := Some(now))];
        tokens := RevokeTokens(db, InFamily(db, token.family), now, FAMILY_COMPROMISED).tokens;
        return Reused;
      }
      if !Eligible(db, a, token, shop) {
        return Rejected;
      }
      tokens := tokens[hash := token.(revokedAt := Some(now), consumedAt := Some(now), reason := Some(ROTATED))];
      tokens := tokens[r.hash := Token(token.user, token.member, token.family, Some(hash), r.expiresAt, None, None, None)];
      return Rotated;
    }

    method RevokeRefreshToken(hash: Hash, user: UserId, member: MemberId, now: int)
      modifies this
      ensures Snapshot() == Logout(old(Snapshot()), hash, user, member, now)
      ensures families == old(families) && tokens.Keys == old(tokens).Keys
      ensures forall h | h in tokens ::
        var t := old(tokens)[h];
        tokens[h] == if h == hash && t.user == user && t.member == member && t.revokedAt == None
                     then t.(revokedAt := Some(now), reason := Some(LOGOUT)) else t
    {
      if hash in tokens && tokens[hash].user == user && tokens[hash].member == member && tokens[hash].revokedAt.None? {
        tokens := tokens[hash := tokens[hash].(revokedAt := Some(now), reason := Some(LOGOUT))];
      }
    }

    method UpdatePasswordAndRevokeSessions(user: UserId, now: int)
      modifies this
      ensures Snapshot() == ChangePassword(old(Snapshot()), user, now)
      ensures families.Keys == old(families).Keys && tokens.Keys == old(tokens).Keys
      ensures forall f | f in families ::
        var family := old(families)[f];
        families[f] == if family.user == user && family.revokedAt == None
                       then family.(revokedAt := Some(now), reason := Some(PASSWORD_CHANGED)) else family
      ensures forall h | h in tokens ::
        var t := old(tokens)[h];
        tokens[h] == if t.user == user && t.revokedAt == None
                     then t.(revokedAt := Some(now), reason := Some(PASSWORD_CHANGED)) else t
    {
      var db := Db(families, tokens);
      families := map f | f in families ::
        if families[f].user == user && families[f].revokedAt.None?
        then families[f].(revokedAt := Some(now), reason := Some(PASSWORD_CHANGED)) else families[f];
      tokens := RevokeTokens(db, OfUser(db, user), now, PASSWORD_CHANGED).tokens;
    }

    /** The first family of a non-empty set in the order of the purge query. */
    method Earliest(open: set<FamilyId>) returns (f: FamilyId)
      requires open != {} && open <= families.Keys
      ensures f in open && forall g | g in open :: Precedes(Snapshot(), f, g)
    {
      var db := Db(families, tokens);
      f :| f in open;
      var rest := open - {f};
      while rest != {}
        invariant f in open && rest < open <= db.families.Keys && f !in rest
        invariant forall g | g in open && g !in rest :: Precedes(db, f, g)
        decreases rest
      {
        var g :| g in rest;
        rest := rest - {g};
        if !Precedes(db, f, g) {
          f := g;
        }
      }
    }

    method SelectCandidates(cutoff: int, limit: nat, locked: set<FamilyId>) returns (ids: set<FamilyId>)
      ensures IsBatch(Snapshot(), cutoff, limit, locked, ids)
    {
      var db := Db(families, tokens);
      var open := PurgeableFamilies(db, cutoff) - locked;
      ids := {};
      var rest := open;
      while |ids| < limit && rest != {}
        invariant ids <= open <= db.families.Keys && rest == open - ids && |ids| <= limit
        invariant forall f, g | f in ids && g in rest :: Precedes(db, f, g)
        decreases rest
      {
        var f := Earliest(rest);
        ids := ids + {f};
        rest := rest - {f};
      }
      assert rest == {} ==> ids == open;
    }

    method PurgeRefreshFamilies(cutoff: int, limit: nat, locked: set<FamilyId>)
      returns (count: nat, ghost ids: set<FamilyId>)
      modifies this
      ensures IsBatch(old(Snapshot()), cutoff, limit, locked, ids)
      ensures Snapshot() == DeleteFamilies(old(Snapshot()), ids)
      ensures count == |ids|
    {
      var candidates := SelectCandidates(cutoff, limit, locked);
      ids := candidates;
      families := families - candidates;
      tokens := map h | h in tokens && tokens[h].family !in candidates :: tokens[h];
      count := |candidates|;
    }

    /** The batch loop of the cleanup job, on data nobody else changes or locks. */
    method PurgeBatches(cutoff: int, batchSize: nat) returns (deleted: nat, batches: nat)
      requires batchSize > 0
      modifies this
      ensures PurgeableFamilies(Snapshot(), cutoff) == {}
      ensures Snapshot() == DeleteFamilies(old(Snapshot()), PurgeableFamilies(old(Snapshot()), cutoff))
      ensures deleted == |PurgeableFamilies(old(Snapshot()), cutoff)|
      ensures deleted <= batches * batchSize < deleted + batchSize
    {
      ghost var db := Snapshot();
      ghost var all := PurgeableFamilies(db, cutoff);
      ghost var gone: set<FamilyId> := {};
      deleted, batches := 0, 0;
      var hasFullBatch := true;
      assert Snapshot() == DeleteFamilies(db, {});
      while hasFullBatch
        invariant gone <= all && deleted == |gone|
        invariant Snapshot() == DeleteFamilies(db, gone)
        invariant hasFullBatch ==> deleted == batches * batchSize
        invariant !hasFullBatch ==> gone == all
        invariant deleted <= batches * batchSize < deleted + batchSize
        decreases all - gone, hasFullBatch
      {
        var count, ids := PurgeRefreshFamilies(cutoff, batchSize, {});
        BatchProgress(db, gone, cutoff, batchSize, ids);
        gone := gone + ids;
        deleted := deleted + count;
        if count == 0 {
          PurgeableAfterDelete(db, gone, cutoff);
          return;
        }
        assert (batches + 1) * batchSize == batches * batchSize + batchSize;
        batches := batches + 1;
        hasFullBatch := count == batchSize;
      }
      PurgeableAfterDelete(db, gone, cutoff);
    }
  }

  /** What makes a family purgeable: nothing about it or its tokens ended, or will end, after the cutoff. */
  lemma PurgeableExactlyWhen(db: Db, f: FamilyId, cutoff: int)
    ensures f in PurgeableFamilies(db, cutoff) <==>
      && f in db.families
      && var x := db.families[f];
        && (if x.reuseDetectedAt.Some? then x.reuseDetectedAt.value <= cutoff
            else if x.revokedAt.Some? then x.revokedAt.value <= cutoff
            else x.createdAt <= cutoff)
        && forall h | h in db.tokens && db.tokens[h].family == f ::
          if db.tokens[h].revokedAt.Some? then db.tokens[h].revokedAt.value <= cutoff else db.tokens[h].expiresAt <= cutoff
  {
    if f in db.families {
      assert Purgeable(db, f, cutoff) <==> f in PurgeableFamilies(db, cutoff);
    }
  }

  /** A batch leaves no unlocked family behind that ended before one it takes. */
  lemma PurgesOldestFirst(db: Db, cutoff: int, limit: nat, locked: set<FamilyId>, ids: set<FamilyId>, f: FamilyId, g: FamilyId)
    requires IsBatch(db, cutoff, limit, locked, ids) && f in ids
    requires g in PurgeableFamilies(db, cutoff) && g !in locked && g !in ids
    ensures f in db.families && g in db.families
    ensures var x, y := db.families[f], db.families[g];
      var a := if x.reuseDetectedAt.Some? then x.reuseDetectedAt.value
               else if x.revokedAt.Some? then x.revokedAt.value else x.createdAt;
      var b := if y.reuseDetectedAt.Some? then y.reuseDetectedAt.value
               else if y.revokedAt.Some? then y.revokedAt.value else y.createdAt;
      a < b || (a == b && f < g)
  {
    assert Precedes(db, f, g);
  }

  /** One batch after others: the next oldest families, all that are left when it is not full. */
  lemma BatchProgress(db: Db, gone: set<FamilyId>, cutoff: int, limit: nat, ids: set<FamilyId>)
    requires gone <= PurgeableFamilies(db, cutoff)
    requires IsBatch(DeleteFamilies(db, gone), cutoff, limit, {}, ids)
    ensures DeleteFamilies(DeleteFamilies(db, gone), ids) == DeleteFamilies(db, gone + ids)
    ensures gone + ids <= PurgeableFamilies(db, cutoff)
    ensures |gone + ids| == |gone| + |ids|
    ensures |ids| < limit ==> gone + ids == PurgeableFamilies(db, cutoff)
    ensures |ids| <= limit
    ensures ids != {} ==> PurgeableFamilies(db, cutoff) - (gone + ids) < PurgeableFamilies(db, cutoff) - gone
  {
    PurgeableAfterDelete(db, gone, cutoff);
    DeleteTwice(db, gone, ids);
    var open := PurgeableFamilies(DeleteFamilies(db, gone), cutoff);
    assert open - {} == open == PurgeableFamilies(db, cutoff) - gone;
    if ids != {} {
      var f :| f in ids;
      assert f in PurgeableFamilies(db, cutoff) - gone && f !in PurgeableFamilies(db, cutoff) - (gone + ids);
    }
  }

  lemma PurgeableAfterDelete(db: Db, gone: set<FamilyId>, cutoff: int)
    ensures PurgeableFamilies(DeleteFamilies(db, gone), cutoff) == PurgeableFamilies(db, cutoff) - gone
  {
    var after := DeleteFamilies(db, gone);
    forall f | f in db.families && f !in gone ensures Purgeable(after, f, cutoff) <==> Purgeable(db, f, cutoff) {
      if Purgeable(after, f, cutoff) {
        forall h | h in db.tokens && db.tokens[h].family == f ensures TerminalTime(db.tokens[h]) <= cutoff {
          assert h in after.tokens;
        }
      }
    }
  }

  lemma DeleteTwice(db: Db, a: set<FamilyId>, b: set<FamilyId>)
    ensures DeleteFamilies(DeleteFamilies(db, a), b) == DeleteFamilies(db, a + b)
  {
    assert db.families - a - b == db.families - (a + b);
  }
}
