/** Operational status of physical items: what staff may change, what is shown to them, and the recorded history. */
module InventoryStatus {
  import opened Options

  /** The six operational statuses, the two occupancy words and any other text a caller may send. */
  datatype Status =
    | Available | Cleaning | Repairing | Damaged | Lost | Retired | Reserved | Rented | Unrecognised(text: string)

  predicate Operational(s: Status) {
    s in {Available, Cleaning, Repairing, Damaged, Lost, Retired}
  }

  datatype AllocationStatus = Held | Confirmed | Active | Returned | Cancelled

  datatype Allocation = Allocation(item: nat, status: AllocationStatus, released: bool)

  datatype StatusError = ManualOccupancy | Occupied | ActiveAllocation | NoOp | InvalidTransition | ReasonRequired

  datatype Occupancy = Occupancy(hasAllocation: bool, hasRental: bool)

  // --- Policy ---

  function AllowedTransitions(current: Status, o: Occupancy): seq<Status> {
    if o.hasRental || current == Reserved || current == Rented then []
    else if o.hasAllocation then (if current == Cleaning || current == Repairing then [Available] else [])
    else
      match current
      case Available => [Cleaning, Repairing, Damaged, Lost, Retired]
      case Cleaning => [Available, Repairing, Damaged, Retired]
      case Repairing => [Available, Cleaning, Damaged, Retired]
      case Damaged => [Repairing, Retired]
      case Lost => [Available]
      case Retired => [Available]
      case _ => []
  }

  /** The white space and line terminators that `String.prototype.trim` removes. */
  predicate IsSpace(c: char) {
    var u := c as int;
    9 <= u <= 13 || u in {0x20, 0xA0, 0x1680, 0x2028, 0x2029, 0x202F, 0x205F, 0x3000, 0xFEFF} || 0x2000 <= u <= 0x200A
  }

  /** A reason that is more than white space. */
  predicate Given(reason: Option<string>) {
    reason.Some? && exists i :: 0 <= i < |reason.value| && !IsSpace(reason.value[i])
  }

  function TrimStart(s: string): string {
    if s != "" && IsSpace(s[0]) then TrimStart(s[1..]) else s
  }

  function TrimEnd(s: string): string {
    if s != "" && IsSpace(s[|s| - 1]) then TrimEnd(s[..|s| - 1]) else s
  }

  /** The trimmed reason; an absent one is empty. */
  function CleanReason(reason: Option<string>): string {
    match reason
    case Some(text) => TrimEnd(TrimStart(text))
    case None => ""
  }

  lemma {:induction false} TrimStartKeepsInk(s: string)
    ensures (exists i :: 0 <= i < |s| && !IsSpace(s[i])) <==> TrimStart(s) != ""
    ensures TrimStart(s) != "" ==> !IsSpace(TrimStart(s)[0])
  {
    if s != "" && IsSpace(s[0]) {
      TrimStartKeepsInk(s[1..]);
      assert forall i :: 1 <= i < |s| ==> s[i] == s[1..][i - 1];
    }
  }

  lemma {:induction false} TrimEndKeepsInk(s: string)
    requires s != "" && !IsSpace(s[0])
    ensures TrimEnd(s) != ""
  {
    if IsSpace(s[|s| - 1]) { TrimEndKeepsInk(s[..|s| - 1]); }
  }

  /** Trimming leaves nothing of exactly the reasons that are white space. */
  lemma BlankReasons(reason: Option<string>)
    ensures CleanReason(reason) != "" <==> Given(reason)
  {
    if reason.Some? {
      TrimStartKeepsInk(reason.value);
      if TrimStart(reason.value) != "" { TrimEndKeepsInk(TrimStart(reason.value)); }
    }
  }

  function Validate(current: Status, target: Status, o: Occupancy, reason: Option<string>): Option<StatusError> {
    if target == Reserved || target == Rented then Some(ManualOccupancy)
    else if current == Reserved || current == Rented then Some(Occupied)
    else if o.hasRental || (o.hasAllocation && !(target == Available && (current == Cleaning || current == Repairing)))
      then Some(ActiveAllocation)
    else if current == target then Some(NoOp)
    else if target !in AllowedTransitions(current, Occupancy(false, false)) then Some(InvalidTransition)
    else if target in {Damaged, Lost, Repairing, Retired} && CleanReason(reason) == "" then Some(ReasonRequired)
    else if current == Lost && target == Available && CleanReason(reason) == "" then Some(ReasonRequired)
    else if current == Retired && target == Available && CleanReason(reason) == "" then Some(ReasonRequired)
    else None
  }

  predicate NeedsReason(current: Status, target: Status) {
    target in {Damaged, Lost, Repairing, Retired} || ((current == Lost || current == Retired) && target == Available)
  }

  predicate Blocking(a: Allocation) {
    !a.released && a.status in {Held, Confirmed, Active}
  }

  function Rank(s: AllocationStatus): nat {
    match s
    case Active => 0
    case Confirmed => 1
    case Held => 2
    case _ => 3
  }

  /** A row the database may return first when it orders an item's blocking allocations by status. */
  predicate ComesFirst(allocations: seq<Allocation>, item: nat, first: Option<Allocation>) {
    match first
    case None => forall i :: 0 <= i < |allocations| && allocations[i].item == item ==> !Blocking(allocations[i])
    case Some(a) =>
      && a in allocations && a.item == item && Blocking(a)
      && forall i :: 0 <= i < |allocations| && allocations[i].item == item && Blocking(allocations[i]) ==>
        Rank(a.status) <= Rank(allocations[i].status)
  }

  function DeriveOccupancy(first: Option<Allocation>): Occupancy {
    match first
    case None => Occupancy(false, false)
    case Some(a) => Occupancy(true, a.status == Active)
  }

  predicate RentedOut(allocations: seq<Allocation>, item: nat) {
    exists i :: 0 <= i < |allocations| && allocations[i] == Allocation(item, Active, false)
  }

  /** Ties make no difference: whichever allocation comes first, the occupancy read from it is the true one. */
  lemma OccupancyIsTrue(allocations: seq<Allocation>, item: nat, first: Option<Allocation>)
    requires ComesFirst(allocations, item, first)
    ensures DeriveOccupancy(first).hasAllocation <==>
      exists i :: 0 <= i < |allocations| && allocations[i].item == item && !allocations[i].released
        && (allocations[i].status == Held || allocations[i].status == Confirmed || allocations[i].status == Active)
    ensures DeriveOccupancy(first).hasRental <==> RentedOut(allocations, item)
  {
    if first.Some? {
      var k :| 0 <= k < |allocations| && allocations[k] == first.value;
      if first.value.status == Active {
        assert allocations[k] == Allocation(item, Active, false);
      }
      assert Blocking(allocations[k]);
      if i :| 0 <= i < |allocations| && allocations[i] == Allocation(item, Active, false) {
        assert Blocking(allocations[i]);
      }
    }
  }

  /**
   * What staff are shown is what they can do: the update command accepts a target exactly when the list shows it and,
   * where one is asked for, a reason is given. The list and the command may read different allocations first.
   */
  lemma ShownIsAccepted(allocations: seq<Allocation>, item: nat, listed: Option<Allocation>, read: Option<Allocation>,
      current: Status, target: Status, reason: Option<string>)
    requires ComesFirst(allocations, item, listed) && ComesFirst(allocations, item, read)
    ensures Validate(current, target, DeriveOccupancy(read), reason) == None <==>
      && target in AllowedTransitions(current, DeriveOccupancy(listed))
      && (target in {Damaged, Lost, Repairing, Retired} || ((current == Lost || current == Retired) && target == Available)
          ==> Given(reason))
  {
    OccupancyIsTrue(allocations, item, listed);
    OccupancyIsTrue(allocations, item, read);
    AcceptedIffAllowed(current, target, DeriveOccupancy(read), reason);
  }

  lemma AcceptedIffAllowed(current: Status, target: Status, o: Occupancy, reason: Option<string>)
    requires o.hasRental ==> o.hasAllocation
    ensures Validate(current, target, o, reason) == None <==>
      target in AllowedTransitions(current, o) && (NeedsReason(current, target) ==> Given(reason))
  {
    BlankReasons(reason);
    match current
    case Available =>
    case Cleaning =>
    case Repairing =>
    case Damaged =>
    case Lost =>
    case Retired =>
    case _ =>
  }

  /** Otherwise the error is that of the first obstacle, in this order. */
  lemma FirstObstacleDecides(current: Status, target: Status, o: Occupancy, reason: Option<string>)
    ensures var error := Validate(current, target, o, reason);
      var occupied := current == Reserved || current == Rented;
      var blocked := o.hasRental
        || (o.hasAllocation && !(target == Available && (current == Cleaning || current == Repairing)));
      if target == Reserved || target == Rented then error == Some(ManualOccupancy)
      else if occupied then error == Some(Occupied)
      else if blocked then error == Some(ActiveAllocation)
      else if current == target then error == Some(NoOp)
      else if !CanMove(current, target) then error == Some(InvalidTransition)
      else error == None || error == Some(ReasonRequired)
  {
  }

  // --- Laws of the table ---

  const FREE := Occupancy(false, false)

  predicate CanMove(current: Status, target: Status) {
    target in AllowedTransitions(current, FREE)
  }

  /** A chain of allowed moves. */
  predicate Route(statuses: seq<Status>) {
    forall i :: 0 <= i < |statuses| - 1 ==> CanMove(statuses[i], statuses[i + 1])
  }

  /** Whatever its status, an item that is not occupied can be brought back into the stock in at most two moves. */
  lemma EveryStatusLeadsBack(s: Status) returns (route: seq<Status>)
    requires Operational(s)
    ensures Route(route) && 1 <= |route| <= 3 && route[0] == s && route[|route| - 1] == Available
  {
    route := if s == Available then [s] else if s == Damaged then [s, Repairing, Available] else [s, Available];
  }

  /** A damaged item comes back only by way of a repair or of its retirement. */
  lemma DamagedComesBackThroughRepair(route: seq<Status>, i: nat, j: nat)
    requires Route(route) && i < j < |route| && route[i] == Damaged && route[j] != Damaged
    ensures exists k :: i < k <= j && (route[k] == Repairing || route[k] == Retired)
  {
    assert CanMove(route[i], route[i + 1]);
    assert route[i + 1] == Repairing || route[i + 1] == Retired;
  }

  /**
   * Which moves there are: none from or to an occupancy word or to the same status; between the three statuses of an
   * item in service all; into DAMAGED from those three; into LOST from AVAILABLE only; into RETIRED from everywhere but
   * LOST; out of DAMAGED by repair or retirement; out of LOST and RETIRED to AVAILABLE.
   */
  lemma MovesExactly(current: Status, target: Status)
    ensures var inService := current == Available || current == Cleaning || current == Repairing;
      CanMove(current, target) <==>
        && current != target
        && match target
           case Available => inService || current == Lost || current == Retired
           case Cleaning => inService
           case Repairing => inService || current == Damaged
           case Damaged => inService
           case Lost => current == Available
           case Retired => inService || current == Damaged
           case _ => false
  {
  }

  /** A rental forbids every move; any other blocking allocation all but the end of cleaning or repair. */
  lemma OccupancyRestricts(current: Status, target: Status, o: Occupancy)
    ensures target in AllowedTransitions(current, o) <==>
      && !o.hasRental
      && (o.hasAllocation ==> target == Available && (current == Cleaning || current == Repairing))
      && CanMove(current, target)
  {
  }

  // --- Stored rows ---

  datatype Item = Item(
    status: Status, condition: string, notes: Option<string>, active: bool, archived: bool, rentals: nat)

  datatype Origin = Creation | Manual | Archive | Inspection

  datatype Entry = Entry(
    item: nat, from: Option<Status>, to: Status, reason: Option<string>, notes: Option<string>,
    changedBy: Option<string>, origin: Origin)

  /** The input of a manual change; an absent condition or note leaves the row's own. */
  datatype Change = Change(
    target: Status, expected: Option<Status>, reason: Option<string>, condition: Option<string>,
    notes: Option<string>, changedBy: Option<string>)

  /** `bulk` remembers the items that were created together with their variant. */
  datatype Store = Store(items: map<nat, Item>, history: seq<Entry>, allocations: seq<Allocation>, bulk: set<nat>)

  datatype Outcome = Done | NotFound | StatusMismatch | Rejected(error: StatusError)

  function NewItem(condition: string, notes: Option<string>): Item {
    Item(Available, condition, notes, true, false, 0)
  }

  function CreationEntry(id: nat): Entry {
    Entry(id, None, Available, Some("Khởi tạo món đồ mới trong kho"), None, None, Creation)
  }

  function Added(s: Store, id: nat, notes: Option<string>): Store {
    s.(items := s.items[id := NewItem("GOOD", notes)], history := s.history + [CreationEntry(id)])
  }

  /** Items created with a variant start available, in the condition the column defaults to, without an entry. */
  function BulkAdded(s: Store, id: nat, condition: string): Store {
    s.(items := s.items[id := NewItem(condition, None)], bulk := s.bulk + {id})
  }

  /** An absent or empty text gives way to the default. */
  function OrDefault(x: Option<string>, default: string): string {
    if x.Some? && x.value != "" then x.value else default
  }

  function Changed(item: Item, c: Change): Item {
    item.(status := c.target,
      condition := OrDefault(c.condition, item.condition),
      notes := if c.notes.Some? then c.notes else item.notes)
  }

  function Updated(s: Store, id: nat, c: Change, first: Option<Allocation>): (Store, Outcome) {
    if id !in s.items || s.items[id].archived then (s, NotFound)
    else if c.expected.Some? && s.items[id].status != c.expected.value then (s, StatusMismatch)
    else
      var error := Validate(s.items[id].status, c.target, DeriveOccupancy(first), c.reason);
      if error.Some? then (s, Rejected(error.value))
      else
        (s.(items := s.items[id := Changed(s.items[id], c)],
            history := s.history + [ManualEntry(id, s.items[id].status, c)]), Done)
  }

  function ManualEntry(id: nat, current: Status, c: Change): Entry {
    Entry(id, Some(current), c.target, c.reason, c.notes, c.changedBy, Manual)
  }

  function ArchiveEntry(id: nat, current: Status, reason: Option<string>, changedBy: Option<string>): Entry {
    Entry(id, Some(current), Retired, Some(OrDefault(reason, "Ngừng sử dụng món đồ")), None,
      Some(OrDefault(changedBy, "ADMIN")), Archive)
  }

  function Archived(s: Store, id: nat, reason: Option<string>, changedBy: Option<string>, first: Option<Allocation>)
    : (Store, Outcome)
  {
    if id !in s.items || s.items[id].archived then (s, NotFound)
    else if first.Some? then (s, Rejected(ActiveAllocation))
    else
      (s.(items := s.items[id := s.items[id].(status := Retired, active := false, archived := true)],
          history := s.history + [ArchiveEntry(id, s.items[id].status, reason, changedBy)]), Done)
  }

  /** What the inspection of a returned item reports. */
  datatype Report = Report(found: Status, reason: string, notes: Option<string>, changedBy: Option<string>)

  function InspectionEntry(id: nat, current: Status, r: Report): Entry {
    Entry(id, Some(current), r.found, Some(r.reason), r.notes, r.changedBy, Inspection)
  }

  function Inspected(s: Store, id: nat, r: Report): Store
    requires id in s.items
  {
    var item := s.items[id];
    s.(items := s.items[id := item.(status := r.found, rentals := item.rentals + 1)],
       history := s.history + [InspectionEntry(id, item.status, r)])
  }

  class InventoryStore {
    var items: map<nat, Item>
    var history: seq<Entry>
    var allocations: seq<Allocation>
    ghost var bulk: set<nat>

    ghost function Value(): Store
      reads this
    {
      Store(items, history, allocations, bulk)
    }

    method AddInventoryItem(id: nat, notes: Option<string>)
      requires id !in items
      modifies this`items, this`history
      ensures Value() == Added(old(Value()), id, notes)
    {
      items := items[id := Item(Available, "GOOD", notes, true, false, 0)];
      history := history + [Entry(id, None, Available, Some("Khởi tạo món đồ mới trong kho"), None, None, Creation)];
    }

    /** `condition` is what the column defaults to. */
    method CreateVariantItems(ids: seq<nat>, condition: string)
      requires forall i :: 0 <= i < |ids| ==> ids[i] !in items
      modifies this`items, this`bulk
      ensures items.Keys == old(items.Keys) + set id | id in ids
      ensures forall id :: id in old(items) ==> items[id] == old(items)[id]
      ensures forall id :: id in ids ==> items[id] == NewItem(condition, None)
      ensures bulk == old(bulk) + set id | id in ids
    {
      for i := 0 to |ids|
        invariant items.Keys == old(items.Keys) + set id | id in ids[..i]
        invariant forall id :: id in old(items) ==> items[id] == old(items)[id]
        invariant forall id :: id in ids[..i] ==> items[id] == NewItem(condition, None)
        invariant bulk == old(bulk) + set id | id in ids[..i]
      {
        assert ids[..i + 1] == ids[..i] + [ids[i]];
        items := items[ids[i] := Item(Available, condition, None, true, false, 0)];
        bulk := bulk + {ids[i]};
      }
      assert ids[..|ids|] == ids;
    }

    /** The first blocking allocation by status; the first listed among equals. */
    method FirstBlocking(id: nat) returns (first: Option<Allocation>)
      ensures ComesFirst(allocations, id, first)
    {
      first := None;
      for i := 0 to |allocations|
        invariant ComesFirst(allocations[..i], id, first)
      {
        var a := allocations[i];
        assert allocations[..i + 1] == allocations[..i] + [a];
        if a.item == id && !a.released && (a.status == Held || a.status == Confirmed || a.status == Active) {
          if first == None || Rank(a.status) < Rank(first.value.status) {
            first := Some(a);
          }
        }
      }
      assert allocations[..|allocations|] == allocations;
    }

    method UpdateInventoryStatus(id: nat, c: Change) returns (r: Outcome, ghost first: Option<Allocation>)
      modifies this`items, this`history
      ensures ComesFirst(allocations, id, first)
      ensures (Value(), r) == Updated(old(Value()), id, c, first)
      ensures r == NotFound <==> id !in old(items) || old(items)[id].archived
      ensures r == StatusMismatch <==>
        id in old(items) && !old(items)[id].archived && c.expected.Some? && c.expected.value != old(items)[id].status
      ensures r != Done ==> items == old(items) && history == old(history)
      ensures r == Done ==>
        && items.Keys == old(items).Keys && items[id].status == c.target
        && (forall k :: k in items && k != id ==> items[k] == old(items)[k])
        && history == old(history) +
          [Entry(id, Some(old(items)[id].status), c.target, c.reason, c.notes, c.changedBy, Manual)]
    {
      var allocation := FirstBlocking(id);
      first := allocation;
      if id !in items || items[id].archived {
        return NotFound, first;
      }
      var existing := items[id];
      if c.expected.Some? && existing.status != c.expected.value {
        return StatusMismatch, first;
      }
      var error := Validate(existing.status, c.target, DeriveOccupancy(allocation), c.reason);
      if error.Some? {
        return Rejected(error.value), first;
      }
      var updated := existing.(status := c.target);
      if c.condition.Some? && c.condition.value != "" {
        updated := updated.(condition := c.condition.value);
      }
      if c.notes.Some? {
        updated := updated.(notes := c.notes);
      }
      items := items[id := updated];
      history := history + [Entry(id, Some(existing.status), c.target, c.reason, c.notes, c.changedBy, Manual)];
      r := Done;
    }

    method ArchiveInventoryItem(id: nat, reason: Option<string>, changedBy: Option<string>)
      returns (r: Outcome, ghost first: Option<Allocation>)
      modifies this`items, this`history
      ensures ComesFirst(allocations, id, first)
      ensures (Value(), r) == Archived(old(Value()), id, reason, changedBy, first)
      ensures r == NotFound <==> id !in old(items) || old(items)[id].archived
      ensures r == Done <==> id in old(items) && !old(items)[id].archived && first == None
      ensures r == Done ==>
        items == old(items)[id := old(items)[id].(status := Retired, active := false, archived := true)]
    {
      var allocation := FirstBlocking(id);
      first := allocation;
      if id !in items || items[id].archived {
        return NotFound, first;
      }
      if allocation.Some? {
        return Rejected(ActiveAllocation), first;
      }
      var existing := items[id];
      items := items[id := existing.(active := false, status := Retired, archived := true)];
      var why := if reason.Some? && reason.value != "" then reason.value else "Ngừng sử dụng món đồ";
      var who := if changedBy.Some? && changedBy.value != "" then changedBy.value else "ADMIN";
      history := history + [Entry(id, Some(existing.status), Retired, Some(why), None, Some(who), Archive)];
      r := Done;
    }

    method RecordRentalReturnInspection(id: nat, report: Report)
      requires id in items
      modifies this`items, this`history
      ensures Value() == Inspected(old(Value()), id, report)
    {
      var item := items[id];
      items := items[id := item.(status := report.found, rentals := item.rentals + 1)];
      history := history +
        [Entry(id, Some(item.status), report.found, Some(report.reason), report.notes, report.changedBy, Inspection)];
    }
  }

  // --- Runs ---

  datatype Op =
    | Add(id: nat, notes: Option<string>)
    | BulkAdd(id: nat, condition: string)
    | Update(id: nat, change: Change, first: Option<Allocation>)
    | ArchiveItem(id: nat, reason: Option<string>, changedBy: Option<string>, first: Option<Allocation>)
    | Inspect(id: nat, report: Report)
    | Rentals(allocations: seq<Allocation>)

  /** New ids are new, reads see a row that may come first, and inspections report an operational status. */
  predicate Enabled(s: Store, op: Op) {
    match op
    case Add(id, _) => id !in s.items
    case BulkAdd(id, _) => id !in s.items
    case Update(id, _, first) => ComesFirst(s.allocations, id, first)
    case ArchiveItem(id, _, _, first) => ComesFirst(s.allocations, id, first)
    case Inspect(id, report) => id in s.items && Operational(report.found)
    case Rentals(_) => true
  }

  function Apply(s: Store, op: Op): Store
    requires Enabled(s, op)
  {
    match op
    case Add(id, notes) => Added(s, id, notes)
    case BulkAdd(id, condition) => BulkAdded(s, id, condition)
    case Update(id, change, first) => Updated(s, id, change, first).0
    case ArchiveItem(id, reason, changedBy, first) => Archived(s, id, reason, changedBy, first).0
    case Inspect(id, report) => Inspected(s, id, report)
    case Rentals(allocations) => s.(allocations := allocations)
  }

  predicate Run(states: seq<Store>, ops: seq<Op>) {
    && |states| == |ops| + 1
    && forall i :: 0 <= i < |ops| ==> Enabled(states[i], ops[i]) && states[i + 1] == Apply(states[i], ops[i])
  }

  predicate Empty(s: Store) {
    s.items == map[] && s.history == [] && s.bulk == {}
  }

  /** Replaying an item's entries one after the other; `None` where an entry does not continue the one before. */
  function Replay(history: seq<Entry>, id: nat, start: Option<Status>): Option<Option<Status>> {
    if history == [] then Some(start)
    else
      var earlier := Replay(history[..|history| - 1], id, start);
      var e := history[|history| - 1];
      if e.item != id then earlier
      else if earlier == Some(e.from) then Some(Some(e.to))
      else None
  }

  /** Items added one by one start from nothing, items created in bulk start available. */
  function Start(s: Store, id: nat): Option<Status> {
    if id in s.bulk then Some(Available) else None
  }

  /** Replaying the history gives the current status of every item, and nothing for ids that name no item. */
  predicate HistoryReplays(s: Store) {
    && (forall id :: id in s.items ==> Replay(s.history, id, Start(s, id)) == Some(Some(s.items[id].status)))
    && (forall i :: 0 <= i < |s.history| ==> s.history[i].item in s.items)
    && s.bulk <= s.items.Keys
  }

  lemma ReplayStep(history: seq<Entry>, e: Entry, id: nat, start: Option<Status>)
    ensures Replay(history + [e], id, start) ==
      if e.item != id then Replay(history, id, start)
      else if Replay(history, id, start) == Some(e.from) then Some(Some(e.to)) else None
  {
    assert (history + [e])[..|history|] == history;
  }

  lemma {:induction false} ReplayOfOthers(history: seq<Entry>, id: nat, start: Option<Status>)
    requires forall i :: 0 <= i < |history| ==> history[i].item != id
    ensures Replay(history, id, start) == Some(start)
  {
    if history != [] { ReplayOfOthers(history[..|history| - 1], id, start); }
  }

  /** One more entry for an item, continuing from its current status, keeps every history replaying. */
  lemma EntryKeepsReplay(s: Store, after: Store, e: Entry)
    requires HistoryReplays(s) && e.item in s.items && e.from == Some(s.items[e.item].status)
    requires after.history == s.history + [e] && after.bulk == s.bulk
    requires after.items.Keys == s.items.Keys && after.items[e.item].status == e.to
    requires forall id :: id in s.items && id != e.item ==> after.items[id] == s.items[id]
    ensures HistoryReplays(after)
  {
    forall id | id in after.items
      ensures Replay(after.history, id, Start(after, id)) == Some(Some(after.items[id].status))
    {
      ReplayStep(s.history, e, id, Start(s, id));
    }
  }

  lemma AdditionKeepsReplay(s: Store, id: nat, notes: Option<string>)
    requires HistoryReplays(s) && id !in s.items
    ensures HistoryReplays(Added(s, id, notes))
  {
    var e, after := CreationEntry(id), Added(s, id, notes);
    ReplayOfOthers(s.history, id, None);
    forall k | k in after.items ensures Replay(s.history + [e], k, Start(s, k)) == Some(Some(after.items[k].status)) {
      ReplayStep(s.history, e, k, Start(s, k));
    }
  }

  lemma BulkAdditionKeepsReplay(s: Store, id: nat, condition: string)
    requires HistoryReplays(s) && id !in s.items
    ensures HistoryReplays(BulkAdded(s, id, condition))
  {
    var after := BulkAdded(s, id, condition);
    ReplayOfOthers(s.history, id, Some(Available));
    forall k | k in after.items ensures Replay(s.history, k, Start(after, k)) == Some(Some(after.items[k].status)) {
      if k != id { assert Start(after, k) == Start(s, k); }
    }
  }

  lemma StepKeepsReplay(s: Store, op: Op)
    requires HistoryReplays(s) && Enabled(s, op)
    ensures HistoryReplays(Apply(s, op))
  {
    match op
    case Add(id, notes) => AdditionKeepsReplay(s, id, notes);
    case BulkAdd(id, condition) => BulkAdditionKeepsReplay(s, id, condition);
    case Update(id, change, first) =>
      if Updated(s, id, change, first).1 == Done {
        EntryKeepsReplay(s, Apply(s, op), ManualEntry(id, s.items[id].status, change));
      }
    case ArchiveItem(id, reason, changedBy, first) =>
      if Archived(s, id, reason, changedBy, first).1 == Done {
        EntryKeepsReplay(s, Apply(s, op), ArchiveEntry(id, s.items[id].status, reason, changedBy));
      }
    case Inspect(id, report) =>
      EntryKeepsReplay(s, Apply(s, op), InspectionEntry(id, s.items[id].status, report));
    case Rentals(_) =>
  }

  /** In every state of every run, each item's history is one contiguous chain that ends in its current status. */
  lemma {:induction false} HistoryAlwaysReplays(states: seq<Store>, ops: seq<Op>, i: nat)
    requires Run(states, ops) && Empty(states[0]) && i < |states|
    ensures HistoryReplays(states[i])
  {
    if i > 0 {
      HistoryAlwaysReplays(states, ops, i - 1);
      StepKeepsReplay(states[i - 1], ops[i - 1]);
      assert states[i - 1 + 1] == Apply(states[i - 1], ops[i - 1]);
    }
  }

  /** What each kind of entry may record. */
  predicate Permitted(e: Entry) {
    && Operational(e.to)
    && match e.origin
       case Creation => e.from == None && e.to == Available
       case Manual =>
         && e.from.Some? && e.to in AllowedTransitions(e.from.value, Occupancy(false, false))
         && (NeedsReason(e.from.value, e.to) ==> Given(e.reason))
       case Archive => e.from.Some? && e.to == Retired
       case Inspection => e.from.Some?
  }

  predicate Lawful(s: Store) {
    && (forall i :: 0 <= i < |s.history| ==> Permitted(s.history[i]))
    && (forall id :: id in s.items ==> Operational(s.items[id].status))
  }

  lemma StepKeepsLaw(s: Store, op: Op)
    requires Lawful(s) && Enabled(s, op)
    ensures Lawful(Apply(s, op))
  {
    match op
    case Update(id, change, first) =>
      if Updated(s, id, change, first).1 == Done {
        ManualIsPermitted(s.items[id].status, change.target, DeriveOccupancy(first), change.reason);
      }
    case _ =>
  }

  lemma ManualIsPermitted(current: Status, target: Status, o: Occupancy, reason: Option<string>)
    requires Validate(current, target, o, reason) == None
    ensures target in AllowedTransitions(current, Occupancy(false, false)) && Operational(target)
    ensures NeedsReason(current, target) ==> Given(reason)
  {
    BlankReasons(reason);
  }

  /**
   * In every state of every run, the occupancy words never become a stored status, and every manual entry follows the
   * table of transitions with the reason it needs.
   */
  lemma {:induction false} HistoryIsAlwaysLawful(states: seq<Store>, ops: seq<Op>, i: nat)
    requires Run(states, ops) && Empty(states[0]) && i < |states|
    ensures Lawful(states[i])
  {
    if i > 0 {
      HistoryIsAlwaysLawful(states, ops, i - 1);
      StepKeepsLaw(states[i - 1], ops[i - 1]);
      assert states[i - 1 + 1] == Apply(states[i - 1], ops[i - 1]);
    }
  }

  /** While an item is rented out, no manual change and no archiving commits. */
  lemma NoManualChangeDuringRental(s: Store, op: Op)
    requires Enabled(s, op) && (op.Update? || op.ArchiveItem?) && RentedOut(s.allocations, op.id)
    ensures Apply(s, op) == s
  {
    OccupancyIsTrue(s.allocations, op.id, op.first);
  }

  /** Nothing but a return inspection changes the status of a rented item in a run. */
  lemma RentedStatusChangesOnlyByInspection(states: seq<Store>, ops: seq<Op>, i: nat, id: nat)
    requires Run(states, ops) && i < |ops|
    requires id in states[i].items && RentedOut(states[i].allocations, id)
    ensures id in states[i + 1].items
    ensures states[i + 1].items[id].status != states[i].items[id].status ==> ops[i].Inspect? && ops[i].id == id
  {
    var s, op := states[i], ops[i];
    assert states[i + 1] == Apply(s, op);
    if (op.Update? || op.ArchiveItem?) && op.id == id {
      NoManualChangeDuringRental(s, op);
    }
  }

  /** In any run, a manual change takes a damaged item to repair or retirement and nowhere else. */
  lemma DamagedIsRepairedOrRetired(states: seq<Store>, ops: seq<Op>, i: nat, id: nat)
    requires Run(states, ops) && i < |ops| && ops[i].Update?
    requires id in states[i].items && states[i].items[id].status == Damaged
    ensures id in states[i + 1].items
    ensures var next := states[i + 1].items[id].status;
      next == Damaged || next == Repairing || next == Retired
  {
    assert states[i + 1] == Apply(states[i], ops[i]);
    if Updated(states[i], ops[i].id, ops[i].change, ops[i].first).1 == Done {
      ManualIsPermitted(states[i].items[ops[i].id].status, ops[i].change.target, DeriveOccupancy(ops[i].first),
        ops[i].change.reason);
      MovesExactly(states[i].items[ops[i].id].status, ops[i].change.target);
    }
  }
}
