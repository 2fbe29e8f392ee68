/**
 The reminder refresh of one shop: a keyset-paged scan of a coarse workset of orders, exact
 classification, upserts that keep a reminder's lifecycle, and resolution of what is no longer due.

 Order ids are compared as the database compares them; here they are numbers. The instants of the
 shop-local day are passed in.
 */
module Reminders {
  import opened Options

  type ShopId = string
  type OrderId = nat

  datatype RentalStatus = DRAFT | RESERVED | CONFIRMED | ACTIVE | RETURNED | COMPLETED | CANCELLED
  datatype PaymentStatus = UNPAID | PARTIALLY_PAID | PAID | REFUNDED | PARTIALLY_REFUNDED
  datatype DepositStatus = NOT_REQUIRED | DEPOSIT_PENDING | PARTIALLY_HELD | HELD | PARTIALLY_RETURNED | RETURNED_ALL | FORFEITED

  datatype Order = Order(
    shop: ShopId,
    number: string,
    customer: string,
    customerName: string,
    customerPhone: string,
    status: RentalStatus,
    payment: PaymentStatus,
    deposit: DepositStatus,
    depositRequired: int,
    start: int,
    end: int)

  datatype Kind = PICKUP_TODAY | RETURN_TODAY | RETURN_SOON | OVERDUE | PAYMENT_DUE | DEPOSIT_DUE | UNMANAGED(name: string)

  datatype ReminderStatus = PENDING | DISMISSED | RESOLVED

  /** The unique `(shop, dedupeKey)` of a reminder, whose key is `<type>:<order id>:<shop-local day>`. */
  datatype Key = Key(shop: ShopId, kind: Kind, order: OrderId, day: string)

  datatype Reminder = Reminder(
    order: OrderId,
    customer: string,
    kind: Kind,
    scheduledFor: int,
    priority: int,
    title: string,
    content: string,
    status: ReminderStatus,
    processedAt: Option<int>)

  type Orders = map<OrderId, Order>
  type Rows = map<Key, Reminder>

  const DAY_MS: int := 24 * 60 * 60 * 1000

  /** One evaluation: the instant, the shop-local day around it and the name of that day. */
  datatype Window = Window(now: int, dayStart: int, dayEnd: int, day: string) {
    function ReturnSoonEnd(): int { now + DAY_MS }
  }

  // ---------------------------------------------------------------------------------------------
  // Workset and classification
  // ---------------------------------------------------------------------------------------------

  predicate Reschedulable(s: RentalStatus) {
    s == RESERVED || s == CONFIRMED
  }

  predicate Out(s: RentalStatus) {
    s == CONFIRMED || s == ACTIVE
  }

  /** The WHERE clause of the candidate query. */
  predicate Matches(o: Order, shop: ShopId, w: Window) {
    && o.shop == shop
    && (|| (Reschedulable(o.status) && w.dayStart <= o.start < w.dayEnd)
        || (Out(o.status) && o.end <= w.ReturnSoonEnd())
        || (o.status in {RESERVED, CONFIRMED, ACTIVE, COMPLETED} && o.payment != PAID)
        || (Reschedulable(o.status) && o.depositRequired > 0 && o.deposit in {DEPOSIT_PENDING, PARTIALLY_HELD}))
  }

  datatype Draft = Draft(kind: Kind, priority: int, caption: string, scheduledFor: int)

  function When(condition: bool, draft: Draft): seq<Draft> {
    if condition then [draft] else []
  }

  /** The reminders of an order, in the order in which the service adds them. */
  function Classify(o: Order, w: Window): seq<Draft> {
    When(Reschedulable(o.status) && w.dayStart <= o.start < w.dayEnd,
         Draft(PICKUP_TODAY, 50, "Nhận đồ hôm nay", o.start))
    + (if Out(o.status) && w.dayStart <= o.end < w.dayEnd
       then [Draft(RETURN_TODAY, 60, "Trả đồ hôm nay", o.end)]
       else When(Out(o.status) && w.now < o.end <= w.ReturnSoonEnd(),
                 Draft(RETURN_SOON, 40, "Sắp tới hạn trả", o.end)))
    + When(Out(o.status) && o.end < w.now, Draft(OVERDUE, 100, "Quá hạn", w.now))
    + When(o.payment != PAID && o.status != CANCELLED, Draft(PAYMENT_DUE, 70, "Còn thiếu tiền", w.now))
    + When(o.depositRequired > 0 && o.deposit in {DEPOSIT_PENDING, PARTIALLY_HELD} && Reschedulable(o.status),
           Draft(DEPOSIT_DUE, 80, "Chưa đủ cọc", w.now))
  }

  predicate Managed(k: Kind) {
    !k.UNMANAGED?
  }

  /**
   The workset loses a classified order exactly when its status is DRAFT or RETURNED, or when it is due
   back later on a local day that reaches more than a day past now and nothing else makes it a candidate.
   */
  lemma WorksetIsLossless(o: Order, w: Window)
    requires w.dayStart <= w.now < w.dayEnd
    requires Classify(o, w) != []
    ensures !Matches(o, o.shop, w) <==>
      || o.status in {DRAFT, RETURNED}
      || (Out(o.status) && o.payment == PAID && w.ReturnSoonEnd() < o.end < w.dayEnd
          && !(o.status == CONFIRMED && (w.dayStart <= o.start < w.dayEnd
               || (o.depositRequired > 0 && o.deposit in {DEPOSIT_PENDING, PARTIALLY_HELD}))))
  {
  }

  /** For every day of at most 24 hours and the four statuses of the workset, nothing is lost. */
  lemma WorksetCoversOrdinaryDays(o: Order, w: Window)
    requires w.dayStart <= w.now < w.dayEnd <= w.dayStart + DAY_MS
    requires o.status in {RESERVED, CONFIRMED, ACTIVE, COMPLETED}
    requires Classify(o, w) != []
    ensures Matches(o, o.shop, w)
  {
    WorksetIsLossless(o, w);
  }

  /** Nothing is read in vain: every candidate of a shop gets a reminder. */
  lemma CandidatesAreReminded(o: Order, shop: ShopId, w: Window)
    requires w.dayStart <= w.now < w.dayEnd && Matches(o, shop, w)
    ensures Classify(o, w) != []
  {
  }

  /** On a local day of 25 hours, an order due back in its last hour escapes a scan in its first hour. */
  lemma LongDayLosesAReturn(o: Order, w: Window)
    requires w == Window(0, 0, DAY_MS + 60 * 60 * 1000, "2026-10-25")
    requires o == Order("s", "RT-1", "c-1", "A", "1", ACTIVE, PAID, HELD, 0, 0, DAY_MS + 1)
    ensures Classify(o, w) != [] && !Matches(o, o.shop, w)
  {
    assert Classify(o, w) == [Draft(RETURN_TODAY, 60, "Trả đồ hôm nay", o.end)];
  }

  /** A returned order that still owes money is classified but never read. */
  lemma ReturnedOrderIsNotRead(o: Order, w: Window)
    requires o.status == RETURNED && o.payment != PAID
    ensures Classify(o, w) == [Draft(PAYMENT_DUE, 70, "Còn thiếu tiền", w.now)]
    ensures !Matches(o, o.shop, w)
  {
  }

  // ---------------------------------------------------------------------------------------------
  // Reconciliation
  // ---------------------------------------------------------------------------------------------

  function Separator(): string { " · " }

  /** `upsert`: the update leaves every lifecycle column as it is. */
  function Upserted(row: Option<Reminder>, id: OrderId, o: Order, d: Draft): Reminder {
    var title, content := d.caption + Separator() + o.number, o.customerName + Separator() + o.customerPhone;
    match row
    case None => Reminder(id, o.customer, d.kind, d.scheduledFor, d.priority, title, content, PENDING, None)
    case Some(r) => r.(kind := d.kind, scheduledFor := d.scheduledFor, priority := d.priority, title := title, content := content)
  }

  function Find(rows: Rows, k: Key): Option<Reminder> {
    if k in rows then Some(rows[k]) else None
  }

  function Upsert(rows: Rows, k: Key, id: OrderId, o: Order, d: Draft): Rows {
    rows[k := Upserted(Find(rows, k), id, o, d)]
  }

  predicate Stale(k: Key, r: Reminder, shop: ShopId, active: set<Key>) {
    k.shop == shop && r.status == PENDING && Managed(r.kind) && k !in active
  }

  function ResolveMissing(rows: Rows, shop: ShopId, active: set<Key>, at: int): Rows {
    map k | k in rows :: if Stale(k, rows[k], shop, active) then rows[k].(status := RESOLVED, processedAt := Some(at)) else rows[k]
  }

  function Candidates(orders: Orders, shop: ShopId, w: Window): set<OrderId> {
    set id | id in orders && Matches(orders[id], shop, w)
  }

  function DraftKey(shop: ShopId, id: OrderId, d: Draft, w: Window): Key {
    Key(shop, d.kind, id, w.day)
  }

  /** `k` names a reminder that the classification of a candidate of `shop` asks for. */
  ghost predicate Due(orders: Orders, shop: ShopId, w: Window, k: Key) {
    && k.shop == shop && k.day == w.day && k.order in orders && Matches(orders[k.order], shop, w)
    && exists i :: 0 <= i < |Classify(orders[k.order], w)| && Classify(orders[k.order], w)[i].kind == k.kind
  }

  lemma KindsDiffer(o: Order, w: Window, i: int, j: int)
    requires 0 <= i < j < |Classify(o, w)|
    ensures Classify(o, w)[i].kind != Classify(o, w)[j].kind
  {
  }

  ghost function DueDraft(orders: Orders, shop: ShopId, w: Window, k: Key): (d: Draft)
    requires Due(orders, shop, w, k)
    ensures d in Classify(orders[k.order], w) && d.kind == k.kind
  {
    var i :| 0 <= i < |Classify(orders[k.order], w)| && Classify(orders[k.order], w)[i].kind == k.kind;
    Classify(orders[k.order], w)[i]
  }

  lemma DueDraftIs(orders: Orders, shop: ShopId, w: Window, id: OrderId, i: int)
    requires id in orders && Matches(orders[id], shop, w) && 0 <= i < |Classify(orders[id], w)|
    ensures var k := DraftKey(shop, id, Classify(orders[id], w)[i], w);
            Due(orders, shop, w, k) && DueDraft(orders, shop, w, k) == Classify(orders[id], w)[i]
  {
    var c := Classify(orders[id], w);
    var k := DraftKey(shop, id, c[i], w);
    assert Due(orders, shop, w, k);
    var j :| 0 <= j < |c| && c[j].kind == k.kind && c[j] == DueDraft(orders, shop, w, k);
    if i < j {
      KindsDiffer(orders[id], w, i, j);
    } else if j < i {
      KindsDiffer(orders[id], w, j, i);
    }
  }

  /** The rows after the reminders named in `done` have been written and nothing resolved yet. */
  ghost predicate Written(before: Rows, after: Rows, orders: Orders, shop: ShopId, w: Window, done: set<Key>) {
    && (forall k | k in done :: Due(orders, shop, w, k))
    && after.Keys == before.Keys + done
    && forall k | k in after ::
         after[k] == if k in done then Upserted(Find(before, k), k.order, orders[k.order], DueDraft(orders, shop, w, k)) else before[k]
  }

  /** What a completed refresh leaves, row by row. */
  ghost predicate Reconciled(before: Rows, after: Rows, orders: Orders, shop: ShopId, w: Window, at: int) {
    && (forall k :: k in after <==> k in before || Due(orders, shop, w, k))
    && forall k | k in after ::
         if Due(orders, shop, w, k) then
           after[k] == Upserted(Find(before, k), k.order, orders[k.order], DueDraft(orders, shop, w, k))
         else if k.shop == shop && before[k].status == PENDING && Managed(before[k].kind) then
           after[k] == before[k].(status := RESOLVED, processedAt := Some(at))
         else after[k] == before[k]
  }

  lemma UpsertWrites(before: Rows, after: Rows, orders: Orders, shop: ShopId, w: Window, done: set<Key>,
      id: OrderId, d: Draft)
    requires Written(before, after, orders, shop, w, done)
    requires id in orders && Matches(orders[id], shop, w) && d in Classify(orders[id], w)
    ensures var k := DraftKey(shop, id, d, w);
            Written(before, Upsert(after, k, id, orders[id], d), orders, shop, w, done + {k})
  {
    AskedIsDue(orders, shop, w, id, d);
    RowWritten(before, after, orders, shop, w, done, DraftKey(shop, id, d, w), d);
  }

  lemma RowWritten(before: Rows, after: Rows, orders: Orders, shop: ShopId, w: Window, done: set<Key>, k: Key, d: Draft)
    requires Written(before, after, orders, shop, w, done)
    requires Due(orders, shop, w, k) && DueDraft(orders, shop, w, k) == d
    ensures Written(before, Upsert(after, k, k.order, orders[k.order], d), orders, shop, w, done + {k})
  {
    var more := Upsert(after, k, k.order, orders[k.order], d);
    assert more[k] == Upserted(Find(before, k), k.order, orders[k.order], d) by {
      if k in done {
        assert after[k] == Upserted(Find(before, k), k.order, orders[k.order], d);
      }
    }
  }

  lemma AskedIsDue(orders: Orders, shop: ShopId, w: Window, id: OrderId, d: Draft)
    requires id in orders && Matches(orders[id], shop, w) && d in Classify(orders[id], w)
    ensures Due(orders, shop, w, DraftKey(shop, id, d, w)) && DueDraft(orders, shop, w, DraftKey(shop, id, d, w)) == d
  {
    var i :| 0 <= i < |Classify(orders[id], w)| && Classify(orders[id], w)[i] == d;
    DueDraftIs(orders, shop, w, id, i);
  }

  lemma ResolveReconciles(before: Rows, after: Rows, orders: Orders, shop: ShopId, w: Window, done: set<Key>, at: int)
    requires Written(before, after, orders, shop, w, done)
    requires forall k :: Due(orders, shop, w, k) ==> k in done
    ensures Reconciled(before, ResolveMissing(after, shop, done, at), orders, shop, w, at)
  {
  }

  ghost predicate Asked(orders: Orders, shop: ShopId, w: Window, id: OrderId, d: Draft) {
    id in orders && Matches(orders[id], shop, w) && d in Classify(orders[id], w)
  }

  class ReminderService {
    const orders: Orders
    var rows: Rows

    constructor (orders: Orders, rows: Rows)
      ensures this.orders == orders && this.rows == rows
    {
      this.orders := orders;
      this.rows := rows;
    }

    /** The least id of a non-empty set, as `ORDER BY id ASC` puts it first. */
    static method First(ids: set<OrderId>) returns (first: OrderId)
      requires ids != {}
      ensures first in ids && forall id | id in ids :: first <= id
    {
      first :| first in ids;
      var rest := ids - {first};
      while rest != {}
        invariant first in ids && rest <= ids
        invariant forall id | id in ids && id !in rest :: first <= id
        decreases rest
      {
        var id :| id in rest;
        rest := rest - {id};
        if id < first {
          first := id;
        }
      }
    }

    /** The first `limit` candidates behind the cursor, and a next cursor exactly when there are more. */
    method CandidatePage(shop: ShopId, w: Window, cursor: Option<OrderId>, limit: nat)
      returns (items: seq<OrderId>, next: Option<OrderId>)
      requires limit > 0
      ensures |items| <= limit
      ensures forall i | 0 <= i < |items| :: items[i] in Candidates(orders, shop, w) && Behind(cursor, items[i])
      ensures forall i, j | 0 <= i < j < |items| :: items[i] < items[j]
      ensures next.Some? ==> items != [] && next.value == items[|items| - 1]
      ensures forall id | id in Candidates(orders, shop, w) && Behind(cursor, id) && id !in items ::
        next.Some? && next.value < id
      ensures next.Some? ==> exists id :: id in Candidates(orders, shop, w) && next.value < id
    {
      var rest := set id | id in orders && Matches(orders[id], shop, w) && Behind(cursor, id);
      items := [];
      while |items| < limit && rest != {}
        invariant |items| <= limit
        invariant forall id :: id in rest <==> id in Candidates(orders, shop, w) && Behind(cursor, id) && id !in items
        invariant forall i | 0 <= i < |items| :: items[i] in Candidates(orders, shop, w) && Behind(cursor, items[i])
        invariant forall i, j | 0 <= i < j < |items| :: items[i] < items[j]
        invariant items != [] ==> forall id | id in rest :: items[|items| - 1] < id
        decreases rest
      {
        var first := First(rest);
        items := items + [first];
        rest := rest - {first};
      }
      if rest != {} {
        next := Some(items[|items| - 1]);
        var more :| more in rest;
        assert next.value < more;
      } else {
        next := None;
      }
    }

    /** The closure `add`: records the key as active and upserts its row. */
    method Add(shop: ShopId, w: Window, id: OrderId, d: Draft, keys: set<Key>, ghost before: Rows)
      returns (activeKeys: set<Key>)
      requires Asked(orders, shop, w, id, d)
      requires Written(before, rows, orders, shop, w, keys)
      modifies this
      ensures Written(before, rows, orders, shop, w, activeKeys)
      ensures activeKeys == keys + {DraftKey(shop, id, d, w)}
    {
      var key := DraftKey(shop, id, d, w);
      UpsertWrites(before, rows, orders, shop, w, keys, id, d);
      activeKeys := keys + {key};
      rows := Upsert(rows, key, id, orders[id], d);
    }

    /** Writes the reminders of one order; `lost` when a lease check fails before a write. */
    method AddReminders(shop: ShopId, w: Window, id: OrderId, drafts: seq<Draft>, checks: nat,
        keys: set<Key>, ghost before: Rows)
      returns (remaining: nat, lost: bool, activeKeys: set<Key>)
      requires id in orders && forall d | d in drafts :: Asked(orders, shop, w, id, d)
      requires Written(before, rows, orders, shop, w, keys)
      modifies this
      ensures Written(before, rows, orders, shop, w, activeKeys)
      ensures !lost ==> AddedUpTo(keys, activeKeys, shop, w, id, drafts, |drafts|)
    {
      remaining, lost, activeKeys := checks, false, keys;
      var i := 0;
      while i < |drafts|
        invariant 0 <= i <= |drafts|
        invariant Written(before, rows, orders, shop, w, activeKeys)
        invariant AddedUpTo(keys, activeKeys, shop, w, id, drafts, i)
      {
        if remaining == 0 {
          lost := true;
          return;
        }
        remaining := remaining - 1;
        AddedStep(keys, activeKeys, shop, w, id, drafts, i);
        activeKeys := Add(shop, w, id, drafts[i], activeKeys, before);
        i := i + 1;
      }
    }

    method AddPage(shop: ShopId, w: Window, items: seq<OrderId>, checks: nat, keys: set<Key>,
        ghost before: Rows, ghost seen: set<OrderId>)
      returns (remaining: nat, lost: bool, activeKeys: set<Key>)
      requires forall id | id in items :: id in Candidates(orders, shop, w)
      requires Written(before, rows, orders, shop, w, keys) && Covers(keys, orders, shop, w, seen)
      modifies this
      ensures Written(before, rows, orders, shop, w, activeKeys)
      ensures !lost ==> Covers(activeKeys, orders, shop, w, seen + set id | id in items)
    {
      remaining, lost, activeKeys := checks, false, keys;
      var n := 0;
      while n < |items|
        invariant 0 <= n <= |items|
        invariant Written(before, rows, orders, shop, w, activeKeys)
        invariant Covers(activeKeys, orders, shop, w, seen + set id | id in items[..n])
      {
        assert items[n] in items;
        ghost var earlier := activeKeys;
        remaining, lost, activeKeys :=
          AddReminders(shop, w, items[n], Classify(orders[items[n]], w), remaining, activeKeys, before);
        if lost {
          return;
        }
        AddedAll(earlier, activeKeys, orders, shop, w, items[n]);
        assert items[..n + 1] == items[..n] + [items[n]];
        n := n + 1;
      }
      assert items[..n] == items;
    }

    /**
     `refreshShopOwned`. The lease is checked before each page, each write and the final resolution; it
     holds for the first `checks` checks. `visited` lists the orders in the order in which they were read.
     */
    method RefreshShopOwned(shop: ShopId, w: Window, limit: nat, checks: nat, at: int)
      returns (completed: bool, ghost visited: seq<OrderId>, ghost active: set<Key>)
      requires limit > 0
      modifies this
      ensures completed ==> Reconciled(old(rows), rows, orders, shop, w, at)
      ensures completed ==> Ascending(visited) && (set id | id in visited) == Candidates(orders, shop, w)
      ensures !completed ==> Written(old(rows), rows, orders, shop, w, active)
    {
      var remaining, lost := checks, false;
      var activeKeys: set<Key> := {};
      var cursor: Option<OrderId> := None;
      var more := true;
      visited, active, completed := [], {}, false;
      while more
        invariant active == activeKeys && Written(old(rows), rows, orders, shop, w, activeKeys)
        invariant Covers(activeKeys, orders, shop, w, set id | id in visited)
        invariant ScanState(orders, shop, w, visited, cursor, more)
        decreases Candidates(orders, shop, w) - (set id | id in visited), more
      {
        if remaining == 0 {
          return;
        }
        remaining := remaining - 1;
        var items, next := CandidatePage(shop, w, cursor, limit);
        remaining, lost, activeKeys := AddPage(shop, w, items, remaining, activeKeys, old(rows), set id | id in visited);
        active := activeKeys;
        if lost {
          return;
        }
        ScanAdvances(orders, shop, w, visited, cursor, items, next);
        visited := visited + items;
        cursor := next;
        more := next.Some?;
      }
      if remaining == 0 {
        return;
      }
      ResolveReconciles(old(rows), rows, orders, shop, w, activeKeys, at);
      rows := ResolveMissing(rows, shop, activeKeys, at);
      completed := true;
    }
  }

  /** The keys of the first `n` drafts have joined `keys`. */
  ghost predicate AddedUpTo(keys: set<Key>, added: set<Key>, shop: ShopId, w: Window, id: OrderId,
      drafts: seq<Draft>, n: nat)
    requires n <= |drafts|
  {
    added == keys + set j | 0 <= j < n :: DraftKey(shop, id, drafts[j], w)
  }

  lemma AddedStep(keys: set<Key>, added: set<Key>, shop: ShopId, w: Window, id: OrderId, drafts: seq<Draft>, i: nat)
    requires i < |drafts| && AddedUpTo(keys, added, shop, w, id, drafts, i)
    ensures AddedUpTo(keys, added + {DraftKey(shop, id, drafts[i], w)}, shop, w, id, drafts, i + 1)
  {
    var next := set j | 0 <= j < i + 1 :: DraftKey(shop, id, drafts[j], w);
    forall k | k in next ensures k in added + {DraftKey(shop, id, drafts[i], w)} {
      var j :| 0 <= j < i + 1 && k == DraftKey(shop, id, drafts[j], w);
      assert j < i || j == i;
    }
  }

  lemma AddedAll(keys: set<Key>, added: set<Key>, orders: Orders, shop: ShopId, w: Window, id: OrderId)
    requires id in orders && Matches(orders[id], shop, w)
    requires AddedUpTo(keys, added, shop, w, id, Classify(orders[id], w), |Classify(orders[id], w)|)
    ensures forall k :: k in added <==> k in keys || (Due(orders, shop, w, k) && k.order == id)
  {
    var drafts := Classify(orders[id], w);
    forall j | 0 <= j < |drafts| ensures Due(orders, shop, w, DraftKey(shop, id, drafts[j], w)) {
      DueDraftIs(orders, shop, w, id, j);
    }
    forall k ensures k in added <==> k in keys || (Due(orders, shop, w, k) && k.order == id) {
      if Due(orders, shop, w, k) && k.order == id {
        var i :| 0 <= i < |drafts| && drafts[i].kind == k.kind;
        assert k == DraftKey(shop, id, drafts[i], w);
      }
    }
  }

  ghost predicate Covers(keys: set<Key>, orders: Orders, shop: ShopId, w: Window, seen: set<OrderId>) {
    forall k :: k in keys <==> Due(orders, shop, w, k) && k.order in seen
  }

  /** The keyset scan: what was read lies up to the cursor, what was not lies behind it. */
  ghost predicate ScanState(orders: Orders, shop: ShopId, w: Window, visited: seq<OrderId>,
      cursor: Option<OrderId>, more: bool) {
    && Ascending(visited)
    && (forall id | id in visited :: id in Candidates(orders, shop, w))
    && (forall id | id in Candidates(orders, shop, w) && id !in visited :: more && Behind(cursor, id))
    && (more ==> forall id | id in visited :: cursor.Some? && id <= cursor.value)
  }

  lemma ScanAdvances(orders: Orders, shop: ShopId, w: Window, visited: seq<OrderId>, cursor: Option<OrderId>,
                     items: seq<OrderId>, next: Option<OrderId>)
    requires ScanState(orders, shop, w, visited, cursor, true)
    requires forall i | 0 <= i < |items| :: items[i] in Candidates(orders, shop, w) && Behind(cursor, items[i])
    requires Ascending(items)
    requires next.Some? ==> items != [] && next.value == items[|items| - 1]
    requires forall id | id in Candidates(orders, shop, w) && Behind(cursor, id) && id !in items :: next.Some? && next.value < id
    ensures ScanState(orders, shop, w, visited + items, next, next.Some?)
    ensures (set id | id in visited + items) == (set id | id in visited) + (set id | id in items)
    ensures items != [] ==>
      Candidates(orders, shop, w) - (set id | id in visited + items) < Candidates(orders, shop, w) - (set id | id in visited)
  {
    if items != [] {
      assert items[0] in Candidates(orders, shop, w) && items[0] !in visited && items[0] in visited + items;
      var left := Candidates(orders, shop, w) - set id | id in visited;
      assert items[0] in left && items[0] !in Candidates(orders, shop, w) - (set id | id in visited + items);
    }
    forall i, j | 0 <= i < j < |visited + items| ensures (visited + items)[i] < (visited + items)[j] {
      if i < |visited| && j >= |visited| {
        assert visited[i] in visited && Behind(cursor, items[j - |visited|]);
      }
    }
  }

  predicate Behind(cursor: Option<OrderId>, id: OrderId) {
    cursor.Some? ==> cursor.value < id
  }

  predicate Ascending(ids: seq<OrderId>) {
    forall i, j | 0 <= i < j < |ids| :: ids[i] < ids[j]
  }

  // ---------------------------------------------------------------------------------------------
  // What a completed refresh guarantees
  // ---------------------------------------------------------------------------------------------

  /**
   Every reminder asked for has a row with today's content; every pending row of a managed kind is one
   that is asked for, today; nothing that was dismissed or resolved is pending again.
   */
  lemma RefreshReconciles(before: Rows, after: Rows, orders: Orders, shop: ShopId, w: Window, at: int)
    requires Reconciled(before, after, orders, shop, w, at)
    requires forall k | k in before && k.shop == shop && !before[k].kind.UNMANAGED? :: before[k].kind == k.kind
    ensures forall k :: Due(orders, shop, w, k) ==>
      k in after && after[k].kind == k.kind && after[k].status == if k in before then before[k].status else PENDING
    ensures forall k | k in after && k.shop == shop && !after[k].kind.UNMANAGED? && after[k].status == PENDING ::
      Due(orders, shop, w, k) && k.day == w.day
    ensures forall k | k in before && before[k].status != PENDING :: k in after && after[k].status == before[k].status
    ensures forall k | k in before && k.shop != shop :: k in after && after[k] == before[k]
  {
    forall k | Due(orders, shop, w, k) ensures k in after && after[k].kind == k.kind {
      DueDraftKind(orders, shop, w, k);
    }
  }

  /** The row of a reminder that is due: today's content, and the lifecycle of the row that was there, if any. */
  predicate Shown(before: Rows, after: Rows, k: Key, o: Order, priority: int, scheduledFor: int, caption: string) {
    && k in after
    && after[k] == Reminder(
        if k in before then before[k].order else k.order,
        if k in before then before[k].customer else o.customer,
        k.kind, scheduledFor, priority,
        caption + " · " + o.number,
        o.customerName + " · " + o.customerPhone,
        if k in before then before[k].status else PENDING,
        if k in before then before[k].processedAt else None)
  }

  /** No reminder: there is no row of the key, or one that was there before and is not pending for a managed kind. */
  predicate Absent(before: Rows, after: Rows, k: Key) {
    k in after ==> k in before && (after[k].status == PENDING ==> after[k].kind.UNMANAGED?)
  }

  /** The drafts of an order, on its columns. */
  lemma ClassifiesExactly(o: Order, w: Window, d: Draft)
    ensures d in Classify(o, w) <==>
      || (d == Draft(PICKUP_TODAY, 50, "Nhận đồ hôm nay", o.start)
          && (o.status == RESERVED || o.status == CONFIRMED) && w.dayStart <= o.start < w.dayEnd)
      || (d == Draft(RETURN_TODAY, 60, "Trả đồ hôm nay", o.end)
          && (o.status == CONFIRMED || o.status == ACTIVE) && w.dayStart <= o.end < w.dayEnd)
      || (d == Draft(RETURN_SOON, 40, "Sắp tới hạn trả", o.end)
          && (o.status == CONFIRMED || o.status == ACTIVE) && !(w.dayStart <= o.end < w.dayEnd)
          && w.now < o.end <= w.now + DAY_MS)
      || (d == Draft(OVERDUE, 100, "Quá hạn", w.now) && (o.status == CONFIRMED || o.status == ACTIVE) && o.end < w.now)
      || (d == Draft(PAYMENT_DUE, 70, "Còn thiếu tiền", w.now) && o.payment != PAID && o.status != CANCELLED)
      || (d == Draft(DEPOSIT_DUE, 80, "Chưa đủ cọc", w.now)
          && (o.status == RESERVED || o.status == CONFIRMED)
          && o.depositRequired > 0 && (o.deposit == DEPOSIT_PENDING || o.deposit == PARTIALLY_HELD))
  {
  }

  /** Whether the draft `d` is asked for decides the row of its kind, as no other draft of that kind can be. */
  lemma KindRows(before: Rows, after: Rows, orders: Orders, shop: ShopId, w: Window, at: int, id: OrderId, d: Draft)
    requires Reconciled(before, after, orders, shop, w, at) && id in orders && !d.kind.UNMANAGED?
    requires forall e | e in Classify(orders[id], w) && e.kind == d.kind :: e == d
    ensures var k := Key(shop, d.kind, id, w.day);
      if Matches(orders[id], shop, w) && d in Classify(orders[id], w)
      then Shown(before, after, k, orders[id], d.priority, d.scheduledFor, d.caption) else Absent(before, after, k)
  {
    var k := Key(shop, d.kind, id, w.day);
    if Matches(orders[id], shop, w) && d in Classify(orders[id], w) {
      AskedIsDue(orders, shop, w, id, d);
    } else {
      assert !Due(orders, shop, w, k);
    }
  }

  lemma OneDraftOfKind(o: Order, w: Window, d: Draft)
    requires d in [
      Draft(PICKUP_TODAY, 50, "Nhận đồ hôm nay", o.start), Draft(RETURN_TODAY, 60, "Trả đồ hôm nay", o.end),
      Draft(RETURN_SOON, 40, "Sắp tới hạn trả", o.end), Draft(OVERDUE, 100, "Quá hạn", w.now),
      Draft(PAYMENT_DUE, 70, "Còn thiếu tiền", w.now), Draft(DEPOSIT_DUE, 80, "Chưa đủ cọc", w.now)]
    ensures forall e | e in Classify(o, w) && e.kind == d.kind :: e == d
  {
    forall e | e in Classify(o, w) && e.kind == d.kind ensures e == d {
      ClassifiesExactly(o, w, e);
    }
  }

  // What a completed refresh leaves for each order of the shop, kind by kind.

  lemma PickupRows(before: Rows, after: Rows, orders: Orders, shop: ShopId, w: Window, at: int, id: OrderId)
    requires Reconciled(before, after, orders, shop, w, at) && id in orders && orders[id].shop == shop
    ensures var o, k := orders[id], Key(shop, PICKUP_TODAY, id, w.day);
      if (o.status == RESERVED || o.status == CONFIRMED) && w.dayStart <= o.start < w.dayEnd
      then Shown(before, after, k, o, 50, o.start, "Nhận đồ hôm nay") else Absent(before, after, k)
  {
    var o := orders[id];
    var d := Draft(PICKUP_TODAY, 50, "Nhận đồ hôm nay", o.start);
    ClassifiesExactly(o, w, d);
    OneDraftOfKind(o, w, d);
    KindRows(before, after, orders, shop, w, at, id, d);
  }

  /** An order due back today, but more than a day ahead, is seen only if something else makes it a candidate. */
  lemma ReturnTodayRows(before: Rows, after: Rows, orders: Orders, shop: ShopId, w: Window, at: int, id: OrderId)
    requires Reconciled(before, after, orders, shop, w, at) && id in orders && orders[id].shop == shop
    ensures var o, k := orders[id], Key(shop, RETURN_TODAY, id, w.day);
      if (o.status == CONFIRMED || o.status == ACTIVE) && w.dayStart <= o.end < w.dayEnd
        && (o.end <= w.now + DAY_MS || o.payment != PAID
            || (o.status == CONFIRMED
                && (w.dayStart <= o.start < w.dayEnd
                    || (o.depositRequired > 0 && (o.deposit == DEPOSIT_PENDING || o.deposit == PARTIALLY_HELD)))))
      then Shown(before, after, k, o, 60, o.end, "Trả đồ hôm nay") else Absent(before, after, k)
  {
    var o := orders[id];
    var d := Draft(RETURN_TODAY, 60, "Trả đồ hôm nay", o.end);
    ClassifiesExactly(o, w, d);
    OneDraftOfKind(o, w, d);
    KindRows(before, after, orders, shop, w, at, id, d);
  }

  lemma ReturnSoonRows(before: Rows, after: Rows, orders: Orders, shop: ShopId, w: Window, at: int, id: OrderId)
    requires Reconciled(before, after, orders, shop, w, at) && id in orders && orders[id].shop == shop
    ensures var o, k := orders[id], Key(shop, RETURN_SOON, id, w.day);
      if (o.status == CONFIRMED || o.status == ACTIVE) && w.now < o.end <= w.now + DAY_MS
        && !(w.dayStart <= o.end < w.dayEnd)
      then Shown(before, after, k, o, 40, o.end, "Sắp tới hạn trả") else Absent(before, after, k)
  {
    var o := orders[id];
    var d := Draft(RETURN_SOON, 40, "Sắp tới hạn trả", o.end);
    ClassifiesExactly(o, w, d);
    OneDraftOfKind(o, w, d);
    KindRows(before, after, orders, shop, w, at, id, d);
  }

  lemma OverdueRows(before: Rows, after: Rows, orders: Orders, shop: ShopId, w: Window, at: int, id: OrderId)
    requires Reconciled(before, after, orders, shop, w, at) && id in orders && orders[id].shop == shop
    ensures var o, k := orders[id], Key(shop, OVERDUE, id, w.day);
      if (o.status == CONFIRMED || o.status == ACTIVE) && o.end < w.now
      then Shown(before, after, k, o, 100, w.now, "Quá hạn") else Absent(before, after, k)
  {
    var o := orders[id];
    var d := Draft(OVERDUE, 100, "Quá hạn", w.now);
    ClassifiesExactly(o, w, d);
    OneDraftOfKind(o, w, d);
    KindRows(before, after, orders, shop, w, at, id, d);
  }

  lemma PaymentRows(before: Rows, after: Rows, orders: Orders, shop: ShopId, w: Window, at: int, id: OrderId)
    requires Reconciled(before, after, orders, shop, w, at) && id in orders && orders[id].shop == shop
    ensures var o, k := orders[id], Key(shop, PAYMENT_DUE, id, w.day);
      if o.payment != PAID
        && (o.status == RESERVED || o.status == CONFIRMED || o.status == ACTIVE || o.status == COMPLETED)
      then Shown(before, after, k, o, 70, w.now, "Còn thiếu tiền") else Absent(before, after, k)
  {
    var o := orders[id];
    var d := Draft(PAYMENT_DUE, 70, "Còn thiếu tiền", w.now);
    ClassifiesExactly(o, w, d);
    OneDraftOfKind(o, w, d);
    KindRows(before, after, orders, shop, w, at, id, d);
  }

  lemma DepositRows(before: Rows, after: Rows, orders: Orders, shop: ShopId, w: Window, at: int, id: OrderId)
    requires Reconciled(before, after, orders, shop, w, at) && id in orders && orders[id].shop == shop
    ensures var o, k := orders[id], Key(shop, DEPOSIT_DUE, id, w.day);
      if (o.status == RESERVED || o.status == CONFIRMED) && o.depositRequired > 0
        && (o.deposit == DEPOSIT_PENDING || o.deposit == PARTIALLY_HELD)
      then Shown(before, after, k, o, 80, w.now, "Chưa đủ cọc") else Absent(before, after, k)
  {
    var o := orders[id];
    var d := Draft(DEPOSIT_DUE, 80, "Chưa đủ cọc", w.now);
    ClassifiesExactly(o, w, d);
    OneDraftOfKind(o, w, d);
    KindRows(before, after, orders, shop, w, at, id, d);
  }

  /** An order is never both due today and due soon after a refresh; it is one of them whenever it is due within a day. */
  lemma ReturnKindsExclude(before: Rows, after: Rows, orders: Orders, shop: ShopId, w: Window, at: int, id: OrderId)
    requires w.dayStart <= w.now < w.dayEnd
    requires Reconciled(before, after, orders, shop, w, at) && id in orders && orders[id].shop == shop
    ensures var today, soon := Key(shop, RETURN_TODAY, id, w.day), Key(shop, RETURN_SOON, id, w.day);
      && (Absent(before, after, today) || Absent(before, after, soon))
      && ((orders[id].status == CONFIRMED || orders[id].status == ACTIVE) && w.now <= orders[id].end <= w.now + DAY_MS ==>
        today in after || soon in after)
  {
    ReturnTodayRows(before, after, orders, shop, w, at, id);
    ReturnSoonRows(before, after, orders, shop, w, at, id);
  }

  lemma DraftsAreManaged(o: Order, w: Window)
    ensures forall d :: d in Classify(o, w) ==> Managed(d.kind)
  {
  }

  lemma DueDraftKind(orders: Orders, shop: ShopId, w: Window, k: Key)
    requires Due(orders, shop, w, k)
    ensures DueDraft(orders, shop, w, k).kind == k.kind
    ensures Managed(k.kind)
  {
    DraftsAreManaged(orders[k.order], w);
  }

  /** A second refresh at the same instant changes nothing, not even the time of resolution. */
  lemma SecondRefreshChangesNothing(before: Rows, once: Rows, twice: Rows, orders: Orders, shop: ShopId,
      w: Window, at: int, later: int)
    requires Reconciled(before, once, orders, shop, w, at)
    requires Reconciled(once, twice, orders, shop, w, later)
    ensures twice == once
  {
    assert twice.Keys == once.Keys;
    forall k | k in once ensures twice[k] == once[k] {
      if !Due(orders, shop, w, k) {
        assert k in before;
      }
    }
  }

  /** A refresh that lost its lease has resolved nothing: every old row keeps its lifecycle. */
  lemma InterruptedRefreshResolvesNothing(before: Rows, after: Rows, orders: Orders, shop: ShopId, w: Window,
      done: set<Key>)
    requires Written(before, after, orders, shop, w, done)
    ensures forall k | k in before :: k in after && after[k].status == before[k].status && after[k].processedAt == before[k].processedAt
    ensures forall k | k in after && k !in before :: Due(orders, shop, w, k) && after[k].status == PENDING
  {
  }

  /** Rerunning after an interruption ends where an undisturbed refresh ends. */
  lemma InterruptionIsRecovered(before: Rows, partial: Rows, after: Rows, direct: Rows, orders: Orders, shop: ShopId,
                                w: Window, done: set<Key>, at: int)
    requires Written(before, partial, orders, shop, w, done)
    requires Reconciled(partial, after, orders, shop, w, at)
    requires Reconciled(before, direct, orders, shop, w, at)
    ensures after == direct
  {
    assert after.Keys == direct.Keys;
    forall k | k in after ensures after[k] == direct[k] {
      if Due(orders, shop, w, k) {
        assert k in done ==> partial[k] == Upserted(Find(before, k), k.order, orders[k.order], DueDraft(orders, shop, w, k));
      }
    }
  }

  /** `dismiss` marks the row whatever its state; a later refresh keeps the mark. */
  function Dismiss(rows: Rows, k: Key): Rows
    requires k in rows
  {
    rows[k := rows[k].(status := DISMISSED)]
  }

  lemma DismissalSurvivesRefresh(before: Rows, k: Key, after: Rows, orders: Orders, shop: ShopId, w: Window, at: int)
    requires k in before && Reconciled(Dismiss(before, k), after, orders, shop, w, at)
    ensures k in after && after[k].status == DISMISSED
  {
  }
}
