/**
 Whole-run properties of refresh-token families: lineage, reuse detection, and the retention purge.

 A run is a list of committed transactions. Token hashes and family ids are random, so an issued one is
 never issued again, not even after its row was purged.
 */
module TokenLineage {
  import opened Options
  import opened RefreshTokens

  datatype Op =
    | IssueOp(f: FamilyId, hash: Hash, user: UserId, member: MemberId, expiresAt: int, now: int)
    | RotateOp(hash: Hash, r: Replacement, accounts: Accounts, shop: ShopId, now: int)
    | ConflictOp(hash: Hash)
    | LogoutOp(hash: Hash, user: UserId, member: MemberId, now: int)
    | PasswordOp(user: UserId, now: int)
    | PurgeOp(cutoff: int, limit: nat, locked: set<FamilyId>, ids: set<FamilyId>)

  /** The database with its history: issued names, and how often a rotation in a family succeeded. */
  datatype State = State(db: Db, hashes: set<Hash>, issued: set<FamilyId>, rotations: map<FamilyId, nat>)

  const EMPTY: State := State(Db(map[], map[]), {}, {}, map[])

  ghost predicate Enabled(s: State, op: Op) {
    match op
    case IssueOp(f, hash, _, _, _, _) => f !in s.issued && hash !in s.hashes
    case RotateOp(_, r, _, _, _) => r.hash !in s.hashes && Referential(s.db)
    case PurgeOp(cutoff, limit, locked, ids) => IsBatch(s.db, cutoff, limit, locked, ids)
    case _ => true
  }

  ghost predicate Rotates(s: State, op: Op)
    requires Enabled(s, op)
  {
    op.RotateOp? && RotationOutcome(s.db, op.hash, op.accounts, op.shop, op.now).Rotated?
  }

  ghost function Apply(s: State, op: Op): State
    requires Enabled(s, op)
  {
    match op
    case IssueOp(f, hash, user, member, expiresAt, now) =>
      State(Issue(s.db, f, hash, user, member, expiresAt, now), s.hashes + {hash}, s.issued + {f}, s.rotations[f := 0])
    case RotateOp(hash, r, a, shop, now) =>
      var next := s.(db := Rotate(s.db, hash, r, a, shop, now), hashes := s.hashes + {r.hash});
      if Rotates(s, op) then next.(rotations := Counted(s.rotations, s.db.tokens[hash].family)) else next
    case ConflictOp(_) => s
    case LogoutOp(hash, user, member, now) => s.(db := Logout(s.db, hash, user, member, now))
    case PasswordOp(user, now) => s.(db := ChangePassword(s.db, user, now))
    case PurgeOp(_, _, _, ids) => s.(db := DeleteFamilies(s.db, ids))
  }

  function Counted(rotations: map<FamilyId, nat>, f: FamilyId): map<FamilyId, nat> {
    rotations[f := (if f in rotations then rotations[f] else 0) + 1]
  }

  ghost predicate Valid(s: State, ops: seq<Op>)
    decreases |ops|
  {
    ops == [] || (Enabled(s, ops[0]) && Valid(Apply(s, ops[0]), ops[1..]))
  }

  ghost function Run(s: State, ops: seq<Op>): State
    requires Valid(s, ops)
    decreases |ops|
  {
    if ops == [] then s else Run(Apply(s, ops[0]), ops[1..])
  }

  // ---------------------------------------------------------------------------------------------
  // Lineage
  // ---------------------------------------------------------------------------------------------

  /**
   `c` lists the tokens of family `f` from its root: each token is the only child of the one before it,
   all but the last were consumed by a rotation, and the last was not.
   */
  ghost predicate IsLineage(db: Db, f: FamilyId, c: seq<Hash>) {
    && f in db.families
    && c != []
    && (forall i | 0 <= i < |c| :: c[i] in db.tokens && db.tokens[c[i]].family == f)
    && (forall h | h in db.tokens && db.tokens[h].family == f :: h in c)
    && (forall i, j | 0 <= i < j < |c| :: c[i] != c[j])
    && db.tokens[c[0]].parent == None
    && (forall i, j | 0 <= i < j < |c| && j == i + 1 :: db.tokens[c[j]].parent == Some(c[i]))
    && (forall i | 0 <= i < |c| - 1 :: Spent(db.tokens[c[i]]))
    && !db.tokens[c[|c| - 1]].reason.Some? == db.tokens[c[|c| - 1]].revokedAt.None?
    && db.tokens[c[|c| - 1]].reason != Some(ROTATED)
    && (forall i | 0 <= i < |c| :: db.tokens[c[i]].user == db.families[f].user)
    && (forall i | 0 <= i < |c| :: db.tokens[c[i]].member == db.families[f].member)
  }

  predicate Spent(t: Token) {
    t.revokedAt.Some? && t.consumedAt.Some? && t.reason == Some(ROTATED)
  }

  /** A lineage for every family, kept up to date along a run. */
  type Chains = map<FamilyId, seq<Hash>>

  ghost predicate Inv(s: State, chains: Chains) {
    && Referential(s.db)
    && s.db.tokens.Keys <= s.hashes
    && s.db.families.Keys <= s.issued == s.rotations.Keys
    && Lineages(s.db, s.rotations, chains)
  }

  ghost predicate Lineages(db: Db, rotations: map<FamilyId, nat>, chains: Chains) {
    forall f | f in db.families ::
      && f in rotations && f in chains
      && IsLineage(db, f, chains[f]) && |chains[f]| == 1 + rotations[f]
  }

  /** The same token after a logout, a password change or a detected reuse. */
  predicate Ended(t: Token, u: Token) {
    && t.revokedAt.None? && u.revokedAt.Some? && u.reason.Some? && u.reason != Some(ROTATED)
    && u == t.(revokedAt := u.revokedAt, reason := u.reason)
  }

  /** Whole families may be gone and live tokens revoked; nothing is issued, unrevoked or moved. */
  ghost predicate Declines(a: Db, b: Db) {
    && b.families.Keys <= a.families.Keys
    && (forall f | f in b.families :: b.families[f].user == a.families[f].user
                                     && b.families[f].member == a.families[f].member
                                     && (a.families[f].revokedAt.Some? ==> b.families[f].revokedAt.Some?))
    && (forall h | h in a.tokens && a.tokens[h].family in b.families :: h in b.tokens)
    && (forall h | h in b.tokens :: h in a.tokens && a.tokens[h].family in b.families
                                   && (b.tokens[h] == a.tokens[h] || Ended(a.tokens[h], b.tokens[h])))
  }

  lemma RevokeDeclines(db: Db, which: set<Hash>, now: int, reason: Reason)
    requires Referential(db) && reason != ROTATED
    ensures Declines(db, RevokeTokens(db, which, now, reason))
  {
  }

  lemma LogoutDeclines(db: Db, hash: Hash, user: UserId, member: MemberId, now: int)
    requires Referential(db)
    ensures Declines(db, Logout(db, hash, user, member, now))
  {
  }

  lemma DeleteDeclines(db: Db, ids: set<FamilyId>)
    requires Referential(db)
    ensures Declines(db, DeleteFamilies(db, ids))
  {
  }

  /** Marking families as revoked before revoking tokens is also a decline. */
  lemma MarkedDeclines(db: Db, families: map<FamilyId, Family>, which: set<Hash>, now: int, reason: Reason)
    requires Referential(db) && reason != ROTATED && families.Keys == db.families.Keys
    requires forall f | f in families :: families[f].user == db.families[f].user && families[f].member == db.families[f].member
                                         && (families[f] == db.families[f] || families[f].revokedAt.Some?)
    ensures Declines(db, RevokeTokens(db.(families := families), which, now, reason))
  {
    RevokeDeclines(db.(families := families), which, now, reason);
  }

  lemma PasswordDeclines(db: Db, user: UserId, now: int)
    requires Referential(db)
    ensures Declines(db, ChangePassword(db, user, now))
  {
    var after := ChangePassword(db, user, now);
    MarkedDeclines(db, after.families, OfUser(db, user), now, PASSWORD_CHANGED);
  }

  lemma CompromiseDeclines(db: Db, f: FamilyId, now: int)
    requires Referential(db) && f in db.families
    ensures Declines(db, Compromise(db, f, now))
  {
    var after := Compromise(db, f, now);
    MarkedDeclines(db, after.families, InFamily(db, f), now, FAMILY_COMPROMISED);
  }

  /** Every operation but issuing and a successful rotation only lets the data decline. */
  lemma StepDeclines(s: State, op: Op)
    requires Referential(s.db) && Enabled(s, op) && !op.IssueOp? && !Rotates(s, op)
    ensures var t := Apply(s, op);
            Declines(s.db, t.db) && s.hashes <= t.hashes && t.issued == s.issued && t.rotations == s.rotations
  {
    match op
    case LogoutOp(hash, user, member, now) => LogoutDeclines(s.db, hash, user, member, now);
    case PasswordOp(user, now) => PasswordDeclines(s.db, user, now);
    case PurgeOp(_, _, _, ids) => DeleteDeclines(s.db, ids);
    case ConflictOp(_) =>
    case RotateOp(hash, r, accounts, shop, now) =>
      if RotationOutcome(s.db, hash, accounts, shop, now).Reused? {
        CompromiseDeclines(s.db, s.db.tokens[hash].family, now);
      }
  }

  lemma LineageDeclines(a: Db, b: Db, f: FamilyId, c: seq<Hash>)
    requires IsLineage(a, f, c) && Declines(a, b) && f in b.families
    ensures IsLineage(b, f, c)
  {
    forall i | 0 <= i < |c| ensures c[i] in b.tokens && c[i] in a.tokens && a.tokens[c[i]].family == f {
      assert c[i] in c;
    }
  }

  lemma DeclineKeepsInv(s: State, t: State, chains: Chains)
    requires Inv(s, chains) && Declines(s.db, t.db)
    requires s.hashes <= t.hashes && t.issued == s.issued && t.rotations == s.rotations
    ensures Inv(t, chains)
  {
    forall f | f in t.db.families ensures IsLineage(t.db, f, chains[f]) {
      LineageDeclines(s.db, t.db, f, chains[f]);
    }
  }

  /** The token a successful rotation consumes is the last of its lineage. */
  lemma LiveIsLast(db: Db, f: FamilyId, c: seq<Hash>, hash: Hash)
    requires IsLineage(db, f, c) && hash in db.tokens && db.tokens[hash].family == f
    requires db.tokens[hash].revokedAt.None?
    ensures hash == c[|c| - 1]
  {
    assert hash in c;
    var i :| 0 <= i < |c| && c[i] == hash;
    assert i < |c| - 1 ==> Spent(db.tokens[c[i]]);
  }

  lemma GrownMembers(db: Db, f: FamilyId, c: seq<Hash>, r: Replacement, now: int)
    requires IsLineage(db, f, c) && r.hash !in db.tokens
    ensures var d, after := c + [r.hash], Consume(db, c[|c| - 1], r, now);
      && (forall h :: h in d <==> h in after.tokens && after.tokens[h].family == f)
      && (forall i | 0 <= i < |c| :: d[i] == c[i] && c[i] in db.tokens && d[i] != r.hash)
      && (forall i | 0 <= i < |c| - 1 :: after.tokens[c[i]] == db.tokens[c[i]])
  {
    assert c[|c| - 1] in c;
    var d := c + [r.hash];
    assert forall h :: h in d <==> h in c || h == r.hash;
    forall i | 0 <= i < |c| ensures d[i] == c[i] && c[i] in db.tokens && d[i] != r.hash {
      assert c[i] in c;
    }
  }

  /** The columns of the grown lineage: only the old end is spent, and the new token hangs on it. */
  lemma GrownColumns(db: Db, f: FamilyId, c: seq<Hash>, r: Replacement, now: int)
    requires IsLineage(db, f, c) && r.hash !in db.tokens
    ensures var after, last := Consume(db, c[|c| - 1], r, now), c[|c| - 1];
      && (forall i | 0 <= i < |c| - 1 :: Spent(after.tokens[c[i]]))
      && Spent(after.tokens[last])
      && after.tokens[r.hash] == Token(db.families[f].user, db.families[f].member, f, Some(last), r.expiresAt, None, None, None)
      && (forall i | 0 <= i < |c| :: after.tokens[c[i]].parent == db.tokens[c[i]].parent
            && after.tokens[c[i]].user == db.families[f].user && after.tokens[c[i]].member == db.families[f].member)
  {
    GrownMembers(db, f, c, r, now);
    forall i | 0 <= i < |c| - 1 ensures Spent(db.tokens[c[i]]) {
    }
  }

  lemma LineageGrows(db: Db, f: FamilyId, c: seq<Hash>, r: Replacement, now: int)
    requires IsLineage(db, f, c) && r.hash !in db.tokens && Referential(db)
    requires db.tokens[c[|c| - 1]].revokedAt.None?
    ensures IsLineage(Consume(db, c[|c| - 1], r, now), f, c + [r.hash])
  {
    GrownMembers(db, f, c, r, now);
    GrownColumns(db, f, c, r, now);
    SpentThenLive(db.families[f], Consume(db, c[|c| - 1], r, now), f, c, r.hash);
  }

  lemma SpentThenLive(family: Family, after: Db, f: FamilyId, c: seq<Hash>, next: Hash)
    requires f in after.families && after.families[f] == family && c != []
    requires var d := c + [next];
      && (forall h :: h in d <==> h in after.tokens && after.tokens[h].family == f)
      && (forall i | 0 <= i < |c| :: c[i] != next)
    requires forall i, j | 0 <= i < j < |c| :: c[i] != c[j]
    requires forall i | 0 <= i < |c| ::
      && c[i] in after.tokens && Spent(after.tokens[c[i]])
      && after.tokens[c[i]].user == family.user && after.tokens[c[i]].member == family.member
    requires after.tokens[c[0]].parent == None
    requires forall i, j | 0 <= i < j < |c| && j == i + 1 :: after.tokens[c[j]].parent == Some(c[i])
    requires next in after.tokens
    requires var t := after.tokens[next];
      t.user == family.user && t.member == family.member && t.parent == Some(c[|c| - 1]) && t.revokedAt == None && t.reason == None
    ensures IsLineage(after, f, c + [next])
  {
    var d := c + [next];
    forall i | 0 <= i < |d| ensures d[i] in after.tokens && after.tokens[d[i]].family == f {
      assert d[i] in d;
    }
  }

  lemma LineageElsewhere(a: Db, b: Db, f: FamilyId, c: seq<Hash>)
    requires IsLineage(a, f, c) && f in b.families && b.families[f] == a.families[f]
    requires forall h | h in a.tokens && a.tokens[h].family == f :: h in b.tokens && b.tokens[h] == a.tokens[h]
    requires forall h | h in b.tokens && b.tokens[h].family == f :: h in a.tokens && a.tokens[h] == b.tokens[h]
    ensures IsLineage(b, f, c)
  {
    forall i | 0 <= i < |c| ensures c[i] in a.tokens && b.tokens[c[i]] == a.tokens[c[i]] {
      assert c[i] in c;
    }
  }

  /** What a successful rotation changes. */
  lemma RotationEffect(s: State, op: Op)
    requires Referential(s.db) && Enabled(s, op) && Rotates(s, op)
    ensures op.hash in s.db.tokens
    ensures var f := s.db.tokens[op.hash].family;
            && s.db.tokens[op.hash].revokedAt.None? && s.db.families[f].revokedAt.None?
            && Apply(s, op) == State(Consume(s.db, op.hash, op.r, op.now), s.hashes + {op.r.hash}, s.issued,
                                     Counted(s.rotations, f))
  {
  }

  lemma ConsumeFacts(db: Db, hash: Hash, r: Replacement, now: int)
    requires Referential(db) && hash in db.tokens && r.hash !in db.tokens
    ensures var after := Consume(db, hash, r, now);
            && after.families == db.families && Referential(after)
            && after.tokens.Keys == db.tokens.Keys + {r.hash}
            && after.tokens[r.hash].family == db.tokens[hash].family
            && after.tokens[hash].family == db.tokens[hash].family
            && forall h | h in db.tokens && h != hash :: after.tokens[h] == db.tokens[h]
  {
  }

  lemma OtherLineageAfterConsume(db: Db, hash: Hash, r: Replacement, now: int, f: FamilyId, c: seq<Hash>)
    requires Referential(db) && hash in db.tokens && r.hash !in db.tokens && f != db.tokens[hash].family
    requires IsLineage(db, f, c)
    ensures IsLineage(Consume(db, hash, r, now), f, c)
  {
    ConsumeFacts(db, hash, r, now);
    LineageElsewhere(db, Consume(db, hash, r, now), f, c);
  }

  lemma LineagesAfterConsume(db: Db, hash: Hash, r: Replacement, now: int, rotations: map<FamilyId, nat>,
      chains: Chains)
    returns (grown: Chains)
    requires Referential(db) && Lineages(db, rotations, chains)
    requires hash in db.tokens && db.tokens[hash].revokedAt.None? && r.hash !in db.tokens
    ensures Lineages(Consume(db, hash, r, now), Counted(rotations, db.tokens[hash].family), grown)
  {
    var after := Consume(db, hash, r, now);
    var own := db.tokens[hash].family;
    var c := chains[own];
    LiveIsLast(db, own, c, hash);
    LineageGrows(db, own, c, r, now);
    grown := chains[own := c + [r.hash]];
    forall f | f in after.families && f != own ensures f in chains && IsLineage(after, f, grown[f]) {
      OtherLineageAfterConsume(db, hash, r, now, f, chains[f]);
    }
  }

  lemma RotationKeepsInv(s: State, hash: Hash, r: Replacement, now: int, chains: Chains)
    returns (grown: Chains)
    requires Inv(s, chains) && hash in s.db.tokens && s.db.tokens[hash].revokedAt.None? && r.hash !in s.hashes
    ensures Inv(State(Consume(s.db, hash, r, now), s.hashes + {r.hash}, s.issued,
                      Counted(s.rotations, s.db.tokens[hash].family)), grown)
  {
    ConsumeFacts(s.db, hash, r, now);
    grown := LineagesAfterConsume(s.db, hash, r, now, s.rotations, chains);
  }

  lemma IssueKeepsInv(s: State, op: Op, chains: Chains) returns (grown: Chains)
    requires Inv(s, chains) && Enabled(s, op) && op.IssueOp?
    ensures Inv(Apply(s, op), grown)
  {
    var t := Apply(s, op);
    grown := chains[op.f := [op.hash]];
    assert IsLineage(t.db, op.f, [op.hash]);
    forall f | f in t.db.families && f != op.f ensures IsLineage(t.db, f, grown[f]) {
      LineageElsewhere(s.db, t.db, f, chains[f]);
    }
  }

  lemma StepKeepsInv(s: State, op: Op, chains: Chains) returns (grown: Chains)
    requires Inv(s, chains) && Enabled(s, op)
    ensures Inv(Apply(s, op), grown)
  {
    if op.IssueOp? {
      grown := IssueKeepsInv(s, op, chains);
    } else if Rotates(s, op) {
      RotationEffect(s, op);
      grown := RotationKeepsInv(s, op.hash, op.r, op.now, chains);
    } else {
      StepDeclines(s, op);
      DeclineKeepsInv(s, Apply(s, op), chains);
      grown := chains;
    }
  }

  lemma {:induction false} RunKeepsInv(s: State, ops: seq<Op>, chains: Chains) returns (grown: Chains)
    requires Inv(s, chains) && Valid(s, ops)
    ensures Inv(Run(s, ops), grown)
    decreases |ops|
  {
    if ops == [] {
      grown := chains;
    } else {
      var next := StepKeepsInv(s, ops[0], chains);
      grown := RunKeepsInv(Apply(s, ops[0]), ops[1..], next);
    }
  }

  ghost predicate OnlyLastIsLive(db: Db, f: FamilyId, c: seq<Hash>)
    requires c != []
  {
    forall h | h in db.tokens && db.tokens[h].family == f && db.tokens[h].revokedAt.None? :: h == c[|c| - 1]
  }

  /**
   After any run, every family is one chain of tokens from a single root; its length is one more than
   the number of successful rotations in the family, and only its last token may be unrevoked.
   */
  lemma TokensFormOneChain(ops: seq<Op>, f: FamilyId)
    requires Valid(EMPTY, ops) && f in Run(EMPTY, ops).db.families
    ensures var s := Run(EMPTY, ops);
            && f in s.rotations
            && exists c :: IsLineage(s.db, f, c) && |c| == 1 + s.rotations[f] && OnlyLastIsLive(s.db, f, c)
  {
    var chains := RunKeepsInv(EMPTY, ops, map[]);
    ChainOfFamily(Run(EMPTY, ops), chains, f);
  }

  lemma ChainOfFamily(s: State, chains: Chains, f: FamilyId)
    requires Inv(s, chains) && f in s.db.families
    ensures f in s.rotations && f in chains && IsLineage(s.db, f, chains[f]) && |chains[f]| == 1 + s.rotations[f]
    ensures OnlyLastIsLive(s.db, f, chains[f])
  {
    var c := chains[f];
    forall h | h in s.db.tokens && s.db.tokens[h].family == f && s.db.tokens[h].revokedAt.None? ensures h == c[|c| - 1] {
      LiveIsLast(s.db, f, c, h);
    }
  }

  lemma OneChildInLineage(db: Db, f: FamilyId, c: seq<Hash>, a: Hash, b: Hash)
    requires IsLineage(db, f, c) && a in c && b in c
    requires a in db.tokens && b in db.tokens && db.tokens[a].parent.Some? && db.tokens[a].parent == db.tokens[b].parent
    ensures a == b
  {
    var i :| 0 <= i < |c| && c[i] == a;
    var j :| 0 <= j < |c| && c[j] == b;
    assert i > 0 && j > 0 && db.tokens[c[i]].parent == Some(c[i - 1]) && db.tokens[c[j]].parent == Some(c[j - 1]);
  }

  lemma ParentInFamily(db: Db, f: FamilyId, c: seq<Hash>, a: Hash)
    requires IsLineage(db, f, c) && a in c && a in db.tokens && db.tokens[a].parent.Some?
    ensures db.tokens[a].parent.value in c
  {
    var i :| 0 <= i < |c| && c[i] == a;
    assert i > 0 && db.tokens[c[i]].parent == Some(c[i - 1]);
  }

  /** `c` is the lineage of the token's family and the token is its unrevoked end. */
  ghost predicate EndsLineage(db: Db, hash: Hash, c: seq<Hash>) {
    && hash in db.tokens && db.tokens[hash].revokedAt == None
    && IsLineage(db, db.tokens[hash].family, c) && hash == c[|c| - 1]
  }

  /**
   After any run, a presented token is exchanged if and only if it is the unrevoked end of its lineage, has not expired,
   its family is not revoked, its user is active, and its member is active, of that user and of the shop. Its
   replacement is then the end of the lineage, and the token the last but one.
   */
  lemma RotatesExactlyWhen(ops: seq<Op>, hash: Hash, r: Replacement, a: Accounts, shop: ShopId, now: int)
    requires Valid(EMPTY, ops) && r.hash !in Run(EMPTY, ops).hashes
    ensures var db := Run(EMPTY, ops).db;
      && Referential(db)
      && (RotationOutcome(db, hash, a, shop, now) == Rotated <==>
        && (exists c :: EndsLineage(db, hash, c))
        && now < db.tokens[hash].expiresAt
        && db.families[db.tokens[hash].family].revokedAt == None
        && db.tokens[hash].user in a.users && a.users[db.tokens[hash].user]
        && db.tokens[hash].member in a.members
        && a.members[db.tokens[hash].member] == Member(db.tokens[hash].user, shop, true))
      && (RotationOutcome(db, hash, a, shop, now) == Rotated ==>
        forall c | EndsLineage(db, hash, c) ::
          IsLineage(Rotate(db, hash, r, a, shop, now), db.tokens[hash].family, c + [r.hash]))
  {
    var chains := RunKeepsInv(EMPTY, ops, map[]);
    var db := Run(EMPTY, ops).db;
    if hash in db.tokens && db.tokens[hash].revokedAt == None {
      var f := db.tokens[hash].family;
      LiveIsLast(db, f, chains[f], hash);
      assert EndsLineage(db, hash, chains[f]);
      OwnerOfLineage(db, f, chains[f], hash);
    }
    if RotationOutcome(db, hash, a, shop, now) == Rotated {
      forall c | EndsLineage(db, hash, c)
        ensures IsLineage(Rotate(db, hash, r, a, shop, now), db.tokens[hash].family, c + [r.hash])
      {
        LineageGrows(db, db.tokens[hash].family, c, r, now);
      }
    }
  }

  lemma OwnerOfLineage(db: Db, f: FamilyId, c: seq<Hash>, hash: Hash)
    requires IsLineage(db, f, c) && hash in db.tokens && db.tokens[hash].family == f
    ensures db.families[f].user == db.tokens[hash].user && db.families[f].member == db.tokens[hash].member
  {
    assert hash in c;
  }

  /** No fork: two tokens never replace the same token, in any run. */
  lemma OneChildPerToken(ops: seq<Op>, a: Hash, b: Hash)
    requires Valid(EMPTY, ops)
    requires var t := Run(EMPTY, ops).db.tokens;
             a in t && b in t && t[a].parent.Some? && t[a].parent == t[b].parent
    ensures a == b
  {
    var chains := RunKeepsInv(EMPTY, ops, map[]);
    var s := Run(EMPTY, ops);
    var f, g := s.db.tokens[a].family, s.db.tokens[b].family;
    ParentInFamily(s.db, f, chains[f], a);
    ParentInFamily(s.db, g, chains[g], b);
    assert f == g;
    OneChildInLineage(s.db, f, chains[f], a, b);
  }

  // ---------------------------------------------------------------------------------------------
  // Revocation
  // ---------------------------------------------------------------------------------------------

  lemma RotatedIsSpent(db: Db, f: FamilyId, c: seq<Hash>, hash: Hash)
    requires IsLineage(db, f, c) && hash in db.tokens && db.tokens[hash].family == f
    requires db.tokens[hash].reason == Some(ROTATED)
    ensures Spent(db.tokens[hash])
  {
    assert hash in c;
    var i :| 0 <= i < |c| && c[i] == hash;
    assert i < |c| - 1 ==> Spent(db.tokens[c[i]]);
  }

  /** The effect of a detected reuse, row by row. */
  ghost predicate FamilyEnded(a: Db, b: Db, f: FamilyId, now: int) {
    && f in a.families
    && b.families == a.families[f := a.families[f].(revokedAt := Some(now), reason := Some(REUSE_DETECTED),
                                                    reuseDetectedAt := Some(now))]
    && b.tokens.Keys == a.tokens.Keys
    && forall h | h in a.tokens ::
         b.tokens[h] == if a.tokens[h].family == f && a.tokens[h].revokedAt.None?
                        then a.tokens[h].(revokedAt := Some(now), reason := Some(FAMILY_COMPROMISED))
                        else a.tokens[h]
  }

  lemma ReuseDetected(db: Db, f: FamilyId, c: seq<Hash>, hash: Hash, r: Replacement, a: Accounts,
      shop: ShopId, now: int)
    requires Referential(db) && IsLineage(db, f, c) && hash in db.tokens && db.tokens[hash].family == f
    requires now < db.tokens[hash].expiresAt && db.tokens[hash].reason == Some(ROTATED) && db.families[f].revokedAt.None?
    ensures RotationOutcome(db, hash, a, shop, now).Reused?
    ensures FamilyEnded(db, Rotate(db, hash, r, a, shop, now), f, now)
  {
    RotatedIsSpent(db, f, c, hash);
    CompromiseEnds(db, f, now);
  }

  /** A consumed token that is presented again ends its whole family, and nothing else. */
  lemma ReuseEndsFamily(ops: seq<Op>, hash: Hash, r: Replacement, a: Accounts, shop: ShopId, now: int)
    requires Valid(EMPTY, ops)
    requires var db := Run(EMPTY, ops).db;
             && Referential(db) && hash in db.tokens
             && now < db.tokens[hash].expiresAt && db.tokens[hash].reason == Some(ROTATED)
             && db.families[db.tokens[hash].family].revokedAt.None?
    ensures var db := Run(EMPTY, ops).db;
            && RotationOutcome(db, hash, a, shop, now).Reused?
            && FamilyEnded(db, Rotate(db, hash, r, a, shop, now), db.tokens[hash].family, now)
  {
    var chains := RunKeepsInv(EMPTY, ops, map[]);
    var s := Run(EMPTY, ops);
    var f := s.db.tokens[hash].family;
    ReuseDetected(s.db, f, chains[f], hash, r, a, shop, now);
  }

  lemma CompromiseEnds(db: Db, f: FamilyId, now: int)
    requires f in db.families
    ensures FamilyEnded(db, Compromise(db, f, now), f, now)
  {
  }

  /** No token of the family can be exchanged: it is gone, revoked, or holds no unrevoked token. */
  ghost predicate Closed(db: Db, f: FamilyId) {
    || f !in db.families
    || db.families[f].revokedAt.Some?
    || AllRevoked(db, f)
  }

  ghost predicate AllRevoked(db: Db, f: FamilyId) {
    forall h | h in db.tokens && db.tokens[h].family == f :: db.tokens[h].revokedAt.Some?
  }

  lemma ClosedDeclines(a: Db, b: Db, f: FamilyId)
    requires Closed(a, f) && Declines(a, b)
    ensures Closed(b, f)
  {
  }

  lemma ClosedAfterConsume(db: Db, hash: Hash, r: Replacement, now: int, f: FamilyId)
    requires Referential(db) && Closed(db, f) && hash in db.tokens && db.tokens[hash].revokedAt.None?
    requires db.families[db.tokens[hash].family].revokedAt.None? && r.hash !in db.tokens
    ensures f != db.tokens[hash].family
    ensures Closed(Consume(db, hash, r, now), f)
  {
    ClosedElsewhere(db, Consume(db, hash, r, now), f);
  }

  lemma ClosedStays(s: State, op: Op, f: FamilyId, chains: Chains)
    requires Inv(s, chains) && Enabled(s, op) && Closed(s.db, f) && f in s.issued
    ensures Closed(Apply(s, op).db, f) && f in Apply(s, op).issued
    ensures f in s.rotations && f in Apply(s, op).rotations && Apply(s, op).rotations[f] == s.rotations[f]
  {
    if op.IssueOp? {
      ClosedElsewhere(s.db, Apply(s, op).db, f);
    } else if Rotates(s, op) {
      RotationEffect(s, op);
      ClosedAfterConsume(s.db, op.hash, op.r, op.now, f);
    } else {
      StepDeclines(s, op);
      ClosedDeclines(s.db, Apply(s, op).db, f);
    }
  }

  lemma ClosedElsewhere(a: Db, b: Db, f: FamilyId)
    requires Closed(a, f)
    requires f in b.families ==> f in a.families && b.families[f] == a.families[f]
    requires forall h | h in b.tokens && b.tokens[h].family == f :: h in a.tokens && a.tokens[h] == b.tokens[h]
    ensures Closed(b, f)
  {
  }

  /** A closed family never rotates again, in any continuation. */
  lemma {:induction false} ClosedForever(s: State, ops: seq<Op>, f: FamilyId, chains: Chains)
    requires Inv(s, chains) && Valid(s, ops) && Closed(s.db, f) && f in s.issued
    ensures f in s.rotations && f in Run(s, ops).rotations && Run(s, ops).rotations[f] == s.rotations[f]
    decreases |ops|
  {
    if ops != [] {
      ClosedStays(s, ops[0], f, chains);
      var next := StepKeepsInv(s, ops[0], chains);
      ClosedForever(Apply(s, ops[0]), ops[1..], f, next);
    }
  }

  /** What closes a family: reuse, a password change of its owner, the logout of its current token. */
  ghost predicate Revokes(s: State, op: Op, f: FamilyId)
    requires Enabled(s, op) && f in s.db.families
  {
    match op
    case RotateOp(hash, _, a, shop, now) =>
      hash in s.db.tokens && s.db.tokens[hash].family == f && RotationOutcome(s.db, hash, a, shop, now).Reused?
    case PasswordOp(user, _) => s.db.families[f].user == user
    case LogoutOp(hash, user, member, _) =>
      && hash in s.db.tokens && s.db.tokens[hash].family == f && s.db.tokens[hash].revokedAt.None?
      && s.db.tokens[hash].user == user && s.db.tokens[hash].member == member
    case _ => false
  }

  lemma LogoutCloses(db: Db, f: FamilyId, c: seq<Hash>, hash: Hash, user: UserId, member: MemberId, now: int)
    requires IsLineage(db, f, c) && hash in db.tokens && db.tokens[hash].family == f && db.tokens[hash].revokedAt.None?
    requires db.tokens[hash].user == user && db.tokens[hash].member == member
    ensures AllRevoked(Logout(db, hash, user, member, now), f)
  {
    LiveIsLast(db, f, c, hash);
    forall h | h in db.tokens && db.tokens[h].family == f && db.tokens[h].revokedAt.None? ensures h == hash {
      LiveIsLast(db, f, c, h);
    }
  }

  lemma RevocationCloses(s: State, op: Op, f: FamilyId, chains: Chains)
    requires Inv(s, chains) && Enabled(s, op) && f in s.db.families && Revokes(s, op, f)
    ensures Closed(Apply(s, op).db, f)
  {
    match op
    case LogoutOp(hash, user, member, now) =>
      LogoutCloses(s.db, f, chains[f], hash, user, member, now);
    case PasswordOp(user, now) =>
      assert ChangePassword(s.db, user, now).families[f].revokedAt.Some?;
    case RotateOp(_, _, _, _, now) =>
      assert Compromise(s.db, f, now).families[f].revokedAt.Some?;
  }

  /** Revocation is final: whatever happens later, no rotation in the family ever succeeds again. */
  lemma RevocationIsFinal(before: seq<Op>, op: Op, after: seq<Op>, f: FamilyId)
    requires Valid(EMPTY, before) && Enabled(Run(EMPTY, before), op)
    requires Valid(Apply(Run(EMPTY, before), op), after)
    requires f in Run(EMPTY, before).db.families && Revokes(Run(EMPTY, before), op, f)
    ensures var t := Apply(Run(EMPTY, before), op);
            f in t.rotations && f in Run(t, after).rotations && Run(t, after).rotations[f] == t.rotations[f]
  {
    var chains := RunKeepsInv(EMPTY, before, map[]);
    var s := Run(EMPTY, before);
    RevocationCloses(s, op, f, chains);
    var next := StepKeepsInv(s, op, chains);
    StepDeclines(s, op);
    ClosedForever(Apply(s, op), after, f, next);
  }

  // ---------------------------------------------------------------------------------------------
  // Purge
  // ---------------------------------------------------------------------------------------------

  /**
   With a cutoff that is not in the future, a purge removes whole families only, and no token of a
   purged family could have been exchanged from then on, whoever presents it.
   */
  lemma PurgeIsSafe(db: Db, cutoff: int, limit: nat, locked: set<FamilyId>, ids: set<FamilyId>,
                    hash: Hash, a: Accounts, shop: ShopId, now: int)
    requires Referential(db) && IsBatch(db, cutoff, limit, locked, ids) && cutoff <= now
    requires hash in db.tokens && db.tokens[hash].family in ids
    ensures !RotationOutcome(db, hash, a, shop, now).Rotated?
    ensures hash !in DeleteFamilies(db, ids).tokens
    ensures Referential(DeleteFamilies(db, ids))
    ensures forall h | h in db.tokens && db.tokens[h].family !in ids ::
      h in DeleteFamilies(db, ids).tokens && DeleteFamilies(db, ids).tokens[h] == db.tokens[h]
  {
    assert Purgeable(db, db.tokens[hash].family, cutoff);
    assert TerminalTime(db.tokens[hash]) <= cutoff;
  }
}
