/**
 The owner-token lease that lets one API replica at a time run a periodic job.

 `LeaseTable` holds the database rows, `Coordinator` is the replica-local object that runs a job under
 the lease. Behaviours of many replicas are sequences of steps over `World`: statements on the table in
 any order, renewals at any time while a job runs, lost responses, and any timing.
 */
module SchedulerLease {
  import opened Options

  type Token = string
  type JobKey = string

  datatype Lease = Lease(owner: Token, until: int)
  type Leases = map<JobKey, Lease>

  // ---------------------------------------------------------------------------------------------
  // Statements
  // ---------------------------------------------------------------------------------------------

  predicate Acquirable(t: Leases, key: JobKey, clock: int) {
    key in t ==> t[key].until <= clock
  }

  function Acquire(t: Leases, key: JobKey, token: Token, clock: int, leaseMs: int): Leases {
    if Acquirable(t, key, clock) then t[key := Lease(token, clock + leaseMs)] else t
  }

  predicate Owned(t: Leases, key: JobKey, token: Token) {
    key in t && t[key].owner == token
  }

  function Renew(t: Leases, key: JobKey, token: Token, clock: int, leaseMs: int): Leases {
    if Owned(t, key, token) then t[key := Lease(token, clock + leaseMs)] else t
  }

  function Release(t: Leases, key: JobKey, token: Token): Leases {
    if Owned(t, key, token) then t - {key} else t
  }

  class LeaseTable {
    var rows: Leases
    const leaseMs: int

    constructor (leaseMs: int)
      ensures rows == map[] && this.leaseMs == leaseMs
    {
      rows := map[];
      this.leaseMs := leaseMs;
    }

    method TryAcquire(key: JobKey, token: Token, clock: int) returns (acquired: bool)
      modifies this
      ensures acquired <==> key !in old(rows) || old(rows)[key].until <= clock
      ensures rows == if acquired then old(rows)[key := Lease(token, clock + leaseMs)] else old(rows)
      ensures rows == Acquire(old(rows), key, token, clock, leaseMs)
    {
      acquired := key !in rows || rows[key].until <= clock;
      if acquired {
        rows := rows[key := Lease(token, clock + leaseMs)];
      }
    }

    method TryRenew(key: JobKey, token: Token, clock: int) returns (renewed: bool)
      modifies this
      ensures renewed <==> key in old(rows) && old(rows)[key].owner == token
      ensures rows == if renewed then old(rows)[key := Lease(token, clock + leaseMs)] else old(rows)
      ensures rows == Renew(old(rows), key, token, clock, leaseMs)
    {
      renewed := key in rows && rows[key].owner == token;
      if renewed {
        rows := rows[key := Lease(token, clock + leaseMs)];
      }
    }

    method TryRelease(key: JobKey, token: Token) returns (released: bool)
      modifies this
      ensures released <==> key in old(rows) && old(rows)[key].owner == token
      ensures rows == if released then old(rows) - {key} else old(rows)
      ensures rows == Release(old(rows), key, token)
    {
      released := key in rows && rows[key].owner == token;
      if released {
        rows := rows - {key};
      }
    }
  }

  // ---------------------------------------------------------------------------------------------
  // One replica
  // ---------------------------------------------------------------------------------------------

  datatype RunResult = Acquired | NotAcquired | OwnershipLost | WorkFailed | AcquireFailed | ReleaseFailed

  /** Whether the caller of a statement sees its answer, and if not, whether it took effect. */
  datatype Delivery = Answered | FailedAfter | FailedBefore

  /** Statements of other owners, with the clock at which each executes. */
  datatype Rival =
    | RivalAcquire(key: JobKey, token: Token, clock: int)
    | RivalRenew(key: JobKey, token: Token, clock: int)
    | RivalRelease(key: JobKey, token: Token)

  function RivalEffect(t: Leases, r: Rival, leaseMs: int): Leases {
    match r
    case RivalAcquire(key, token, clock) => Acquire(t, key, token, clock, leaseMs)
    case RivalRenew(key, token, clock) => Renew(t, key, token, clock, leaseMs)
    case RivalRelease(key, token) => Release(t, key, token)
  }

  /** A moment during the work: a statement of a rival, or the timer renewing this run's lease. */
  datatype Moment = Interference(rival: Rival) | Renewal(clock: int, delivery: Delivery)

  predicate RivalsDiffer(moments: seq<Moment>, token: Token) {
    forall m | m in moments :: m.Interference? ==> m.rival.token != token
  }

  /** Table and `ownershipFailure` after the moments of a run. */
  function During(t: Leases, failed: bool, key: JobKey, token: Token, moments: seq<Moment>, leaseMs: int): (Leases, bool) {
    if moments == [] then (t, failed)
    else
      var (before, lost) := During(t, failed, key, token, moments[..|moments| - 1], leaseMs);
      match moments[|moments| - 1]
      case Interference(r) => (RivalEffect(before, r, leaseMs), lost)
      case Renewal(clock, delivery) =>
        if lost then (before, lost)
        else
          (if delivery == FailedBefore then before else Renew(before, key, token, clock, leaseMs),
           delivery != Answered || !Owned(before, key, token))
  }

  class Coordinator {
    var locallyHeld: set<JobKey>

    constructor ()
      ensures locallyHeld == {}
    {
      locallyHeld := {};
    }

    /**
     `runIfOwner`: the work consists of the given moments and then succeeds or throws. `acquired: true`
     is returned only when the row belonged to this run at every moment of the work.
     */
    method RunIfOwner(table: LeaseTable, key: JobKey, token: Token, clock: int, acquire: Delivery,
        moments: seq<Moment>, workOk: bool, release: Delivery)
      returns (result: RunResult)
      requires RivalsDiffer(moments, token)
      requires !exists k :: k in table.rows && table.rows[k].owner == token
      modifies this, table
      ensures locallyHeld == old(locallyHeld)
      ensures result.NotAcquired? || result.AcquireFailed? ==>
        && (result.NotAcquired? <==>
              || key in old(locallyHeld)
              || (acquire == Answered && key in old(table.rows) && clock < old(table.rows)[key].until))
        && (table.rows == old(table.rows)
            || (result.AcquireFailed? && table.rows == Acquire(old(table.rows), key, token, clock, table.leaseMs)))
      ensures !result.NotAcquired? && !result.AcquireFailed? ==>
        var start := Acquire(old(table.rows), key, token, clock, table.leaseMs);
        var (end, lost) := During(start, false, key, token, moments, table.leaseMs);
        && table.rows == (if release == FailedBefore then end else Release(end, key, token))
        && (result.WorkFailed? <==> !workOk)
        && (result.OwnershipLost? <==> workOk && (lost || (release == Answered && !Owned(end, key, token))))
        && (result.Acquired? <==> workOk && !lost && release == Answered && Owned(end, key, token))
      ensures result.Acquired? ==>
        var start := Acquire(old(table.rows), key, token, clock, table.leaseMs);
        forall i | 0 <= i <= |moments| :: Owned(During(start, false, key, token, moments[..i], table.leaseMs).0, key, token)
    {
      if key in locallyHeld {
        return NotAcquired;
      }
      ghost var held := locallyHeld;
      locallyHeld := locallyHeld + {key};
      var acquired := false;
      if acquire != FailedBefore {
        acquired := table.TryAcquire(key, token, clock);
      }
      if acquire != Answered || !acquired {
        locallyHeld := locallyHeld - {key};
        assert locallyHeld == held;
        return if acquire == Answered then NotAcquired else AcquireFailed;
      }
      ghost var start := table.rows;
      var ownershipFailure := Work(table, key, token, moments);
      ghost var end := table.rows;
      var released := true;
      if release != FailedBefore {
        released := table.TryRelease(key, token);
      }
      if release == Answered && !released {
        ownershipFailure := true;
      }
      locallyHeld := locallyHeld - {key};
      assert locallyHeld == held;
      if !workOk {
        return WorkFailed;
      }
      if ownershipFailure {
        return OwnershipLost;
      }
      if release != Answered {
        return ReleaseFailed;
      }
      OwnedAtEndOwnedThroughout(start, key, token, moments, table.leaseMs);
      return Acquired;
    }

    /** What happens to the table and to `ownershipFailure` while the work is under way. */
    method Work(table: LeaseTable, key: JobKey, token: Token, moments: seq<Moment>)
      returns (ownershipFailure: bool)
      modifies table
      ensures (table.rows, ownershipFailure) ==
        During(old(table.rows), false, key, token, moments, table.leaseMs)
    {
      ownershipFailure := false;
      for i := 0 to |moments|
        invariant (table.rows, ownershipFailure) ==
          During(old(table.rows), false, key, token, moments[..i], table.leaseMs)
      {
        assert moments[..i + 1][..i] == moments[..i];
        match moments[i] {
          case Interference(rival) =>
            table.rows := RivalEffect(table.rows, rival, table.leaseMs);
          case Renewal(at, delivery) =>
            if !ownershipFailure {
              var renewed := false;
              if delivery != FailedBefore {
                renewed := table.TryRenew(key, token, at);
              }
              if delivery != Answered || !renewed {
                ownershipFailure := true;
              }
            }
        }
      }
      assert moments[..|moments|] == moments;
    }
  }

  /** Nobody hands a token its lease back: owning the row at the end means owning it all along. */
  lemma {:induction false} OwnedAtEndOwnedThroughout(t: Leases, key: JobKey, token: Token,
      moments: seq<Moment>, leaseMs: int)
    requires RivalsDiffer(moments, token)
    requires Owned(During(t, false, key, token, moments, leaseMs).0, key, token)
    ensures forall i | 0 <= i <= |moments| :: Owned(During(t, false, key, token, moments[..i], leaseMs).0, key, token)
  {
    if moments == [] {
      assert forall i | 0 <= i <= |moments| :: moments[..i] == moments;
    } else {
      var n := |moments| - 1;
      OwnedAtEndOwnedThroughout(t, key, token, moments[..n], leaseMs);
      forall i | 0 <= i <= |moments| ensures Owned(During(t, false, key, token, moments[..i], leaseMs).0, key, token) {
        if i <= n {
          assert moments[..n][..i] == moments[..i];
        } else {
          assert moments[..i] == moments;
        }
      }
    }
  }

  // ---------------------------------------------------------------------------------------------
  // Many replicas
  // ---------------------------------------------------------------------------------------------

  /** Progress of one `runIfOwner`; instants are positions in the behaviour, for the record only. */
  datatype Phase =
    | Acquiring
    | Working(acquiredAt: nat, failed: bool)
    | Ending(acquiredAt: nat, failed: bool, workOk: bool)
    | Succeeded(acquiredAt: nat, releasedAt: nat)
    | Ended
  {
    predicate Active() { Acquiring? || Working? || Ending? }
  }

  /** `lastExpiry` is the expiry this run wrote last. */
  datatype Job = Job(replica: nat, key: JobKey, phase: Phase, lastExpiry: int)

  datatype World = World(clock: int, rows: Leases, held: set<(nat, JobKey)>, jobs: map<Token, Job>, steps: nat)

  datatype Event =
    | Tick(ms: nat)
    | Begin(token: Token, replica: nat, key: JobKey)
    | AcquireStatement(token: Token, seen: bool)
    | RenewStatement(token: Token, seen: bool)
    | FinishWork(token: Token, ok: bool)
    | ReleaseStatement(token: Token, seen: bool)
    // A statement that fails without having taken effect.
    | AcquireLost(token: Token)
    | RenewLost(token: Token)
    | ReleaseLost(token: Token)

  predicate Enabled(w: World, e: Event) {
    match e
    case Tick(_) => true
    case Begin(token, replica, key) => token !in w.jobs && (replica, key) !in w.held
    case AcquireStatement(token, _) => token in w.jobs && w.jobs[token].phase.Acquiring?
    // A renewal may still be pending when the work has ended; release waits for it.
    case RenewStatement(token, _) => token in w.jobs && (w.jobs[token].phase.Working? || w.jobs[token].phase.Ending?)
                                     && !w.jobs[token].phase.failed
    case FinishWork(token, _) => token in w.jobs && w.jobs[token].phase.Working?
    case ReleaseStatement(token, _) => token in w.jobs && w.jobs[token].phase.Ending?
    case AcquireLost(token) => token in w.jobs && w.jobs[token].phase.Acquiring?
    case RenewLost(token) => token in w.jobs && (w.jobs[token].phase.Working? || w.jobs[token].phase.Ending?)
    case ReleaseLost(token) => token in w.jobs && w.jobs[token].phase.Ending?
  }

  function Leave(w: World, job: Job): set<(nat, JobKey)> {
    w.held - {(job.replica, job.key)}
  }

  function Apply(w: World, e: Event, leaseMs: int): World
    requires Enabled(w, e)
  {
    var next := w.(steps := w.steps + 1);
    match e
    case Tick(ms) => next.(clock := w.clock + ms)
    case Begin(token, replica, key) =>
      next.(held := w.held + {(replica, key)}, jobs := w.jobs[token := Job(replica, key, Acquiring, 0)])
    case AcquireStatement(token, seen) =>
      var job := w.jobs[token];
      if Acquirable(w.rows, job.key, w.clock) then
        var written := job.(lastExpiry := w.clock + leaseMs);
        if seen then
          next.(rows := Acquire(w.rows, job.key, token, w.clock, leaseMs),
                jobs := w.jobs[token := written.(phase := Working(w.steps, false))])
        else
          next.(rows := Acquire(w.rows, job.key, token, w.clock, leaseMs), held := Leave(w, job),
                jobs := w.jobs[token := written.(phase := Ended)])
      else next.(held := Leave(w, job), jobs := w.jobs[token := job.(phase := Ended)])
    case RenewStatement(token, seen) =>
      var job := w.jobs[token];
      var owned := Owned(w.rows, job.key, token);
      next.(rows := Renew(w.rows, job.key, token, w.clock, leaseMs),
            jobs := w.jobs[token := job.(lastExpiry := if owned then w.clock + leaseMs else job.lastExpiry,
                                         phase := job.phase.(failed := !(seen && owned)))])
    case FinishWork(token, ok) =>
      var job := w.jobs[token];
      // `assertActive` runs once more when the work returns.
      next.(jobs := w.jobs[token := job.(phase := Ending(job.phase.acquiredAt, job.phase.failed, ok && !job.phase.failed))])
    case ReleaseStatement(token, seen) =>
      var job := w.jobs[token];
      var success := seen && Owned(w.rows, job.key, token) && job.phase.workOk && !job.phase.failed;
      next.(rows := Release(w.rows, job.key, token), held := Leave(w, job),
            jobs := w.jobs[token := job.(phase := if success then Succeeded(job.phase.acquiredAt, w.steps) else Ended)])
    case AcquireLost(token) =>
      var job := w.jobs[token];
      next.(held := Leave(w, job), jobs := w.jobs[token := job.(phase := Ended)])
    case RenewLost(token) =>
      var job := w.jobs[token];
      next.(jobs := w.jobs[token := job.(phase := job.phase.(failed := true))])
    case ReleaseLost(token) =>
      var job := w.jobs[token];
      next.(held := Leave(w, job), jobs := w.jobs[token := job.(phase := Ended)])
  }

  ghost predicate Next(w: World, v: World, leaseMs: int) {
    exists e :: Enabled(w, e) && v == Apply(w, e, leaseMs)
  }

  predicate Start(w: World) {
    w.rows == map[] && w.held == {} && w.jobs == map[] && w.steps == 0
  }

  ghost predicate Behaviour(ws: seq<World>, leaseMs: int) {
    && ws != []
    && Start(ws[0])
    && forall i | 0 <= i < |ws| - 1 :: Next(ws[i], ws[i + 1], leaseMs)
  }

  /** A run that no longer owns its row never owns it again. */
  lemma LostStaysLost(w: World, e: Event, leaseMs: int, token: Token)
    requires Enabled(w, e) && token in w.jobs && !w.jobs[token].phase.Acquiring?
    requires !Owned(w.rows, w.jobs[token].key, token)
    ensures var v := Apply(w, e, leaseMs);
            token in v.jobs && v.jobs[token].key == w.jobs[token].key && !v.jobs[token].phase.Acquiring?
            && !Owned(v.rows, v.jobs[token].key, token)
  {
  }

  /** What the history of one run says about the rows, up to the last world. */
  ghost predicate OwnershipHistory(ws: seq<World>, token: Token)
    requires ws != [] && token in ws[|ws| - 1].jobs
  {
    var n := |ws| - 1;
    var job := ws[n].jobs[token];
    match job.phase
    case Acquiring => true
    case Ended => true
    case Working(a, _) =>
      a < n && (!Owned(ws[n].rows, job.key, token) || forall i | a < i <= n :: Owned(ws[i].rows, job.key, token))
    case Ending(a, _, _) =>
      a < n && (!Owned(ws[n].rows, job.key, token) || forall i | a < i <= n :: Owned(ws[i].rows, job.key, token))
    case Succeeded(a, r) =>
      a < r < n && forall i | a < i <= r :: Owned(ws[i].rows, job.key, token)
  }

  ghost predicate Histories(ws: seq<World>)
    requires ws != []
  {
    && ws[|ws| - 1].steps == |ws| - 1
    && forall token | token in ws[|ws| - 1].jobs :: OwnershipHistory(ws, token)
  }

  predicate Holding(p: Phase) { p.Working? || p.Ending? }

  /** How one event moves one run along. */
  lemma PhaseStep(w: World, e: Event, leaseMs: int, token: Token)
    requires Enabled(w, e) && token in w.jobs
    ensures var v := Apply(w, e, leaseMs);
      && token in v.jobs && v.steps == w.steps + 1
      && var job, p, q := w.jobs[token], w.jobs[token].phase, v.jobs[token].phase;
        && v.jobs[token].key == job.key
        && (Holding(q) ==> Holding(p) || p.Acquiring?)
        && (Holding(p) && Holding(q) ==> q.acquiredAt == p.acquiredAt)
        && (p.Acquiring? && Holding(q) ==> q.acquiredAt == w.steps && Owned(v.rows, job.key, token))
        && (q.Succeeded? && p != q ==>
          p.Ending? && q.acquiredAt == p.acquiredAt && q.releasedAt == w.steps && Owned(w.rows, job.key, token))
  {
  }

  lemma HistoryStep(ws: seq<World>, v: World, e: Event, leaseMs: int, token: Token)
    requires ws != [] && Histories(ws) && Enabled(ws[|ws| - 1], e) && v == Apply(ws[|ws| - 1], e, leaseMs)
    requires token in v.jobs
    ensures OwnershipHistory(ws + [v], token)
  {
    var n := |ws| - 1;
    var w := ws[n];
    var all := ws + [v];
    assert all[n] == w && all[n + 1] == v;
    if token in w.jobs {
      assert OwnershipHistory(ws, token);
      PhaseStep(w, e, leaseMs, token);
      var before, after := w.jobs[token].phase, v.jobs[token].phase;
      if Holding(before) && Holding(after) {
        if Owned(w.rows, w.jobs[token].key, token) {
          forall i | before.acquiredAt < i <= n ensures Owned(all[i].rows, w.jobs[token].key, token) {
            assert all[i] == ws[i];
          }
        } else {
          LostStaysLost(w, e, leaseMs, token);
        }
      } else if after.Succeeded? {
        forall i | after.acquiredAt < i <= after.releasedAt ensures Owned(all[i].rows, w.jobs[token].key, token) {
          assert all[i] == ws[i];
        }
      }
    } else {
      assert e.Begin? && v.jobs[token].phase.Acquiring?;
    }
  }

  lemma {:induction false} BehaviourHistories(ws: seq<World>, leaseMs: int)
    requires Behaviour(ws, leaseMs)
    ensures Histories(ws)
    decreases |ws|
  {
    var n := |ws| - 1;
    if n > 0 {
      var prefix := ws[..n];
      assert Behaviour(prefix, leaseMs);
      BehaviourHistories(prefix, leaseMs);
      assert Next(ws[n - 1], ws[n - 1 + 1], leaseMs);
      var e :| Enabled(ws[n - 1], e) && ws[n] == Apply(ws[n - 1], e, leaseMs);
      assert prefix[|prefix| - 1] == ws[n - 1] && ws == prefix + [ws[n]];
      forall token | token in ws[n].jobs ensures OwnershipHistory(ws, token) {
        HistoryStep(prefix, ws[n], e, leaseMs, token);
      }
    }
  }

  /** A successful run owned its row in every world from acquisition to release, whatever the timing. */
  lemma SuccessOwnsThroughout(ws: seq<World>, leaseMs: int, token: Token)
    requires Behaviour(ws, leaseMs) && token in ws[|ws| - 1].jobs
    requires ws[|ws| - 1].jobs[token].phase.Succeeded?
    ensures var job := ws[|ws| - 1].jobs[token];
            && job.phase.acquiredAt < job.phase.releasedAt < |ws| - 1
            && forall i | job.phase.acquiredAt < i <= job.phase.releasedAt :: Owned(ws[i].rows, job.key, token)
  {
    BehaviourHistories(ws, leaseMs);
    assert OwnershipHistory(ws, token);
  }

  /** Successful runs of one job key are totally ordered: one has released before the other acquires. */
  lemma SuccessfulRunsNeverOverlap(ws: seq<World>, leaseMs: int, a: Token, b: Token)
    requires Behaviour(ws, leaseMs)
    requires var w := ws[|ws| - 1];
             && a != b && a in w.jobs && b in w.jobs && w.jobs[a].key == w.jobs[b].key
             && w.jobs[a].phase.Succeeded? && w.jobs[b].phase.Succeeded?
    ensures var p, q := ws[|ws| - 1].jobs[a].phase, ws[|ws| - 1].jobs[b].phase;
            p.releasedAt <= q.acquiredAt || q.releasedAt <= p.acquiredAt
  {
    SuccessOwnsThroughout(ws, leaseMs, a);
    SuccessOwnsThroughout(ws, leaseMs, b);
    var w := ws[|ws| - 1];
    var key, p, q := w.jobs[a].key, w.jobs[a].phase, w.jobs[b].phase;
    var later := if p.acquiredAt < q.acquiredAt then q.acquiredAt else p.acquiredAt;
    assert later < p.releasedAt ==> Owned(ws[later + 1].rows, key, a);
    assert later < q.releasedAt ==> Owned(ws[later + 1].rows, key, b);
  }

  /** Rows carry the expiry their owner wrote last. */
  ghost predicate RowsFromOwners(w: World) {
    forall key | key in w.rows ::
      var token := w.rows[key].owner;
      token in w.jobs && w.jobs[token].key == key && !w.jobs[token].phase.Acquiring?
      && w.jobs[token].lastExpiry == w.rows[key].until
  }

  lemma RowsFromOwnersStep(w: World, e: Event, leaseMs: int)
    requires RowsFromOwners(w) && Enabled(w, e)
    ensures RowsFromOwners(Apply(w, e, leaseMs))
  {
    var v := Apply(w, e, leaseMs);
    forall key | key in v.rows ensures
      var token := v.rows[key].owner;
      token in v.jobs && v.jobs[token].key == key && !v.jobs[token].phase.Acquiring?
      && v.jobs[token].lastExpiry == v.rows[key].until
    {
      if e.Tick? || e.Begin? || v.rows[key].owner != e.token {
        assert key in w.rows && v.rows[key] == w.rows[key];
      }
    }
  }

  lemma {:induction false} BehaviourRows(ws: seq<World>, leaseMs: int)
    requires Behaviour(ws, leaseMs)
    ensures RowsFromOwners(ws[|ws| - 1])
    decreases |ws|
  {
    var n := |ws| - 1;
    if n > 0 {
      assert Behaviour(ws[..n], leaseMs);
      BehaviourRows(ws[..n], leaseMs);
      assert Next(ws[n - 1], ws[n - 1 + 1], leaseMs);
      var e :| Enabled(ws[n - 1], e) && ws[n] == Apply(ws[n - 1], e, leaseMs);
      RowsFromOwnersStep(ws[n - 1], e, leaseMs);
    }
  }

  /**
   A row leaves its owner in two ways only: the owner's own release, or an acquisition by another run
   at or after the expiry the owner last wrote.
   */
  lemma TakeoverNotBeforeExpiry(ws: seq<World>, e: Event, leaseMs: int, key: JobKey)
    requires Behaviour(ws, leaseMs) && Enabled(ws[|ws| - 1], e) && key in ws[|ws| - 1].rows
    requires var w, v := ws[|ws| - 1], Apply(ws[|ws| - 1], e, leaseMs);
             !Owned(v.rows, key, w.rows[key].owner)
    ensures var w := ws[|ws| - 1];
            var owner := w.rows[key].owner;
            && owner in w.jobs && w.jobs[owner].key == key
            && (|| e == ReleaseStatement(owner, e.ReleaseStatement? && e.seen)
                || (e.AcquireStatement? && w.jobs[owner].lastExpiry <= w.clock))
  {
    BehaviourRows(ws, leaseMs);
  }

  /** A replica never has two unfinished runs of one key: the local guard admits one at a time. */
  ghost predicate OnePerReplica(w: World) {
    && (forall t | t in w.jobs && w.jobs[t].phase.Active() :: (w.jobs[t].replica, w.jobs[t].key) in w.held)
    && (forall t, u | t in w.jobs && u in w.jobs && t != u && w.jobs[t].phase.Active() && w.jobs[u].phase.Active() ::
          (w.jobs[t].replica, w.jobs[t].key) != (w.jobs[u].replica, w.jobs[u].key))
  }

  /** An event of one run leaves the others alone, and a run that ends takes its key from the guard. */
  lemma GuardStep(w: World, e: Event, leaseMs: int)
    requires Enabled(w, e) && !e.Tick? && !e.Begin?
    ensures var v := Apply(w, e, leaseMs);
      && e.token in w.jobs && v.jobs.Keys == w.jobs.Keys
      && (forall t | t in w.jobs && t != e.token :: v.jobs[t] == w.jobs[t])
      && var before, after := w.jobs[e.token], v.jobs[e.token];
        && before.phase.Active() && after.key == before.key && after.replica == before.replica
        && v.held == if after.phase.Active() then w.held else w.held - {(before.replica, before.key)}
  {
  }

  lemma OnePerReplicaStep(w: World, e: Event, leaseMs: int)
    requires OnePerReplica(w) && Enabled(w, e)
    ensures OnePerReplica(Apply(w, e, leaseMs))
  {
    var v := Apply(w, e, leaseMs);
    if e.Begin? {
      assert forall t | t in w.jobs :: v.jobs[t] == w.jobs[t];
    } else if !e.Tick? {
      GuardStep(w, e, leaseMs);
    }
  }

  lemma {:induction false} LocalGuardAdmitsOne(ws: seq<World>, leaseMs: int)
    requires Behaviour(ws, leaseMs)
    ensures OnePerReplica(ws[|ws| - 1])
    decreases |ws|
  {
    var n := |ws| - 1;
    if n > 0 {
      assert Behaviour(ws[..n], leaseMs);
      LocalGuardAdmitsOne(ws[..n], leaseMs);
      assert Next(ws[n - 1], ws[n - 1 + 1], leaseMs);
      var e :| Enabled(ws[n - 1], e) && ws[n] == Apply(ws[n - 1], e, leaseMs);
      OnePerReplicaStep(ws[n - 1], e, leaseMs);
    }
  }

  // --- Progress ---

  /** What a seen acquisition does: it takes a row that is free or expired, and leaves any other as it is. */
  lemma ExpiredLeaseIsAcquired(ws: seq<World>, leaseMs: int, token: Token)
    requires Behaviour(ws, leaseMs) && token in ws[|ws| - 1].jobs && ws[|ws| - 1].jobs[token].phase.Acquiring?
    ensures var w := ws[|ws| - 1];
      && Enabled(w, AcquireStatement(token, true))
      && var v, key := Apply(w, AcquireStatement(token, true), leaseMs), w.jobs[token].key;
        && (key !in w.rows || w.rows[key].until <= w.clock ==>
          && v.rows == w.rows[key := Lease(token, w.clock + leaseMs)]
          && v.jobs[token].phase == Working(|ws| - 1, false)
          && v.held == w.held)
        && (key in w.rows && w.clock < w.rows[key].until ==>
          && v.rows == w.rows
          && v.jobs[token].phase == Ended
          && v.held == w.held - {(w.jobs[token].replica, key)})
  {
    BehaviourHistories(ws, leaseMs);
  }

  /** As long as its row is its own, a run keeps working: a seen renewal extends the row and is no failure. */
  lemma OwnerRenews(w: World, leaseMs: int, token: Token)
    requires token in w.jobs && w.jobs[token].phase.Working? && !w.jobs[token].phase.failed
    requires w.jobs[token].key in w.rows && w.rows[w.jobs[token].key].owner == token
    ensures Enabled(w, RenewStatement(token, true))
    ensures var v := Apply(w, RenewStatement(token, true), leaseMs);
      && v.rows == w.rows[w.jobs[token].key := Lease(token, w.clock + leaseMs)]
      && v.jobs[token].phase == w.jobs[token].phase
  {
  }

  lemma BehaviourGrows(ws: seq<World>, leaseMs: int, e: Event) returns (longer: seq<World>)
    requires Behaviour(ws, leaseMs) && Enabled(ws[|ws| - 1], e)
    ensures longer == ws + [Apply(ws[|ws| - 1], e, leaseMs)] && Behaviour(longer, leaseMs)
  {
    longer := ws + [Apply(ws[|ws| - 1], e, leaseMs)];
    forall i | 0 <= i < |longer| - 1 ensures Next(longer[i], longer[i + 1], leaseMs) {
      if i < |ws| - 1 {
        assert Next(ws[i], ws[i + 1], leaseMs);
      }
    }
  }

  lemma RunAcquires(ws: seq<World>, leaseMs: int, token: Token, replica: nat, key: JobKey) returns (longer: seq<World>)
    requires Behaviour(ws, leaseMs)
    requires var w := ws[|ws| - 1];
      token !in w.jobs && (replica, key) !in w.held && (key !in w.rows || w.rows[key].until <= w.clock)
    ensures Behaviour(longer, leaseMs) && |longer| == |ws| + 2 && ws <= longer
    ensures var w, v := ws[|ws| - 1], longer[|longer| - 1];
      && token in v.jobs && v.jobs[token] == Job(replica, key, Working(|ws|, false), w.clock + leaseMs)
      && v.rows == w.rows[key := Lease(token, w.clock + leaseMs)]
      && v.clock == w.clock && v.held == w.held + {(replica, key)}
  {
    var begun := BehaviourGrows(ws, leaseMs, Begin(token, replica, key));
    ExpiredLeaseIsAcquired(begun, leaseMs, token);
    longer := BehaviourGrows(begun, leaseMs, AcquireStatement(token, true));
  }

  /**
   * Work is not blocked for good: in every behaviour, once a key's lease is free or expired, a replica without a run
   * of its own on the key can run the job to success, and leaves the key free.
   */
  lemma ExpiredKeyCanRun(ws: seq<World>, leaseMs: int, token: Token, replica: nat, key: JobKey)
    returns (longer: seq<World>)
    requires Behaviour(ws, leaseMs)
    requires var w := ws[|ws| - 1];
      token !in w.jobs && (replica, key) !in w.held && (key !in w.rows || w.rows[key].until <= w.clock)
    ensures Behaviour(longer, leaseMs) && ws <= longer
    ensures var w, v := ws[|ws| - 1], longer[|longer| - 1];
      && token in v.jobs && v.jobs[token].phase.Succeeded?
      && v.clock == w.clock && v.rows == w.rows - {key} && v.held == w.held
  {
    var acquired := RunAcquires(ws, leaseMs, token, replica, key);
    var finished := BehaviourGrows(acquired, leaseMs, FinishWork(token, true));
    longer := BehaviourGrows(finished, leaseMs, ReleaseStatement(token, true));
  }
}
