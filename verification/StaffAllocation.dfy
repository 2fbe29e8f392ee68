/** Choosing inventory for an order taken by staff: items named one by one, or the first ones free. */
module StaffAllocation {
  import opened Options
  import opened RentalAccessories
  import opened RentalAllocation
  import opened RentalSelection

  /**
   * A line of the order with the reader's answer for its variant and whether its price can be resolved; no chosen ids
   * means automatic choice.
   */
  datatype Item = Item(variant: Option<Variant>, quantity: int, role: RawRole, priced: bool, chosen: seq<string>)

  datatype Error = VariantNotFound | UnknownBillingRole | AccessoryNotAllowed | PriceRejected | WrongCount | Conflict
    | Duplicate

  datatype Choice = Chosen(ids: seq<string>) | Failed(error: Error)

  datatype Allocation = Lines(lines: seq<seq<string>>) | Stopped(at: nat, error: Error)

  /** The billable-quantity check that runs first has accepted every quantity. */
  predicate Counted(items: seq<Item>) {
    forall i :: 0 <= i < |items| ==> items[i].quantity >= 1
  }

  /** Why no items can be chosen for a line, given what earlier lines took. */
  function ChoiceError(item: Item, taken: set<string>): Option<Error>
    requires item.quantity >= 1
  {
    if item.variant == None then Some(VariantNotFound)
    else if item.role == Unknown then Some(UnknownBillingRole)
    else if BillingRole(item.role) == FreeAccessory && !item.variant.value.allowFreeAccessory then Some(AccessoryNotAllowed)
    else if !item.priced then Some(PriceRejected)
    else
      var inventory := item.variant.value.inventory;
      if item.chosen != [] then
        if |item.chosen| != item.quantity then Some(WrongCount)
        else if exists x :: x in item.chosen && (x !in inventory || x in taken) then Some(Conflict)
        else if !NoDuplicates(item.chosen) then Some(Duplicate)
        else None
      else
        var free := Unallocated(inventory, taken);
        if |free| < item.quantity then Some(Conflict)
        else if !NoDuplicates(free[..item.quantity]) then Some(Duplicate)
        else None
  }

  function Choose(item: Item, taken: set<string>): Choice
    requires item.quantity >= 1
  {
    var error := ChoiceError(item, taken);
    if error.Some? then Failed(error.value)
    else if item.chosen != [] then Chosen(item.chosen)
    else Chosen(Unallocated(item.variant.value.inventory, taken)[..item.quantity])
  }

  method LookUpChosen(chosen: seq<string>, available: seq<string>) returns (ok: bool)
    ensures ok <==> forall x :: x in chosen ==> x in available
  {
    for i := 0 to |chosen|
      invariant forall j :: 0 <= j < i ==> chosen[j] in available
    {
      if chosen[i] !in available {
        return false;
      }
    }
    ok := true;
  }

  lemma DuplicatesStep(s: seq<string>)
    requires s != []
    ensures NoDuplicates(s) <==> s[0] !in s[1..] && NoDuplicates(s[1..])
  {
    if s[0] !in s[1..] && NoDuplicates(s[1..]) {
      forall i, j | 0 <= i < j < |s| ensures s[i] != s[j] {
        assert s[j] == s[1..][j - 1] && (i > 0 ==> s[i] == s[1..][i - 1]);
      }
    }
    if NoDuplicates(s) {
      forall i, j | 0 <= i < j < |s[1..]| ensures s[1..][i] != s[1..][j] {
        assert s[1..][i] == s[i + 1] && s[1..][j] == s[j + 1];
      }
    }
  }

  lemma {:induction false} SetSize(s: seq<string>)
    ensures |Elements(s)| <= |s|
    ensures |Elements(s)| == |s| <==> NoDuplicates(s)
  {
    if s != [] {
      SetSize(s[1..]);
      DuplicatesStep(s);
      assert Elements(s) == Elements(s[1..]) + {s[0]};
    }
  }

  method ChooseItems(item: Item, taken: set<string>) returns (c: Choice)
    requires item.quantity >= 1
    ensures c == Choose(item, taken)
  {
    if item.variant == None {
      return Failed(VariantNotFound);
    }
    var variant := item.variant.value;
    if item.role == Unknown {
      return Failed(UnknownBillingRole);
    }
    if BillingRole(item.role) == FreeAccessory && !variant.allowFreeAccessory {
      return Failed(AccessoryNotAllowed);
    }
    if !item.priced {
      return Failed(PriceRejected);
    }
    var available := Unallocated(variant.inventory, taken);
    var selected;
    if item.chosen != [] {
      if |item.chosen| != item.quantity {
        return Failed(WrongCount);
      }
      var found := LookUpChosen(item.chosen, available);
      if !found {
        return Failed(Conflict);
      }
      selected := item.chosen;
    } else {
      selected := if |available| < item.quantity then available else available[..item.quantity];
    }
    if |selected| < item.quantity {
      return Failed(Conflict);
    }
    SetSize(selected);
    if |Elements(selected)| != |selected| {
      return Failed(Duplicate);
    }
    c := Chosen(selected);
  }

  /** What the first lines of an order take, when all of them can be served. */
  function TakenBy(lines: seq<seq<string>>): set<string> {
    if lines == [] then {} else TakenBy(lines[..|lines| - 1]) + Elements(lines[|lines| - 1])
  }

  /** Lines chosen one after the other, each from what the earlier ones left. */
  predicate ServedInTurn(items: seq<Item>, lines: seq<seq<string>>)
    requires Counted(items)
  {
    && |lines| <= |items|
    && forall i :: 0 <= i < |lines| ==> Choose(items[i], TakenBy(lines[..i])) == Chosen(lines[i])
  }

  method AllocateLines(items: seq<Item>) returns (r: Allocation)
    requires Counted(items)
    ensures r.Lines? ==> |r.lines| == |items| && ServedInTurn(items, r.lines)
    ensures r.Stopped? ==> r.at < |items| && exists lines ::
      |lines| == r.at && ServedInTurn(items, lines) && Choose(items[r.at], TakenBy(lines)) == Failed(r.error)
  {
    var lines, taken := [], {};
    for i := 0 to |items|
      invariant |lines| == i && ServedInTurn(items, lines) && taken == TakenBy(lines)
    {
      var c := ChooseItems(items[i], taken);
      if c.Failed? {
        return Stopped(i, c.error);
      }
      ServeNext(items, lines, c.ids);
      taken := taken + Elements(c.ids);
      lines := lines + [c.ids];
    }
    r := Lines(lines);
  }

  lemma ServeNext(items: seq<Item>, lines: seq<seq<string>>, ids: seq<string>)
    requires Counted(items) && ServedInTurn(items, lines) && |lines| < |items|
    requires Choose(items[|lines|], TakenBy(lines)) == Chosen(ids)
    ensures ServedInTurn(items, lines + [ids]) && TakenBy(lines + [ids]) == TakenBy(lines) + Elements(ids)
  {
    var all := lines + [ids];
    assert all[..|lines|] == lines;
    forall i | 0 <= i < |all| ensures Choose(items[i], TakenBy(all[..i])) == Chosen(all[i]) {
      EarlierLines(lines, ids, i);
    }
  }

  lemma EarlierLines(lines: seq<seq<string>>, ids: seq<string>, i: nat)
    requires i <= |lines|
    ensures (lines + [ids])[..i] == lines[..i]
  {
  }

  lemma {:induction false} TakenContains(lines: seq<seq<string>>, i: nat)
    requires i < |lines|
    ensures forall x :: x in lines[i] ==> x in TakenBy(lines)
  {
    if i < |lines| - 1 { TakenContains(lines[..|lines| - 1], i); }
  }

  lemma ChosenIsSound(item: Item, taken: set<string>)
    requires item.quantity >= 1 && Choose(item, taken).Chosen?
    ensures var ids := Choose(item, taken).ids;
      && item.variant.Some?
      && |ids| == item.quantity && NoDuplicates(ids)
      && (item.chosen != [] ==> ids == item.chosen)
      && forall x :: x in ids ==> x in item.variant.value.inventory && x !in taken
  {
    if item.chosen == [] {
      var free := Unallocated(item.variant.value.inventory, taken);
      assert forall x :: x in free[..item.quantity] ==> x in free;
    }
  }

  /** The items named for a line are given to it exactly when nothing stands against them. */
  lemma NamedItemsAreGiven(item: Item, taken: set<string>)
    requires item.quantity >= 1 && item.chosen != []
    ensures Choose(item, taken) == Chosen(item.chosen) <==>
      && item.variant.Some?
      && (item.role == Unspecified || item.role == Named(Paid)
          || (item.role == Named(FreeAccessory) && item.variant.value.allowFreeAccessory))
      && item.priced
      && |item.chosen| == item.quantity
      && (forall x :: x in item.chosen ==> x in item.variant.value.inventory && x !in taken)
      && (forall i, j :: 0 <= i < j < |item.chosen| ==> item.chosen[i] != item.chosen[j])
  {
    match item.role
    case Unspecified =>
    case Unknown =>
    case Named(role) =>
      match role
      case Paid =>
      case FreeAccessory =>
  }

  /**
   * Whatever the readers answered for the lines: an allocated order gives each line exactly its quantity of its own
   * variant's items, the named ones where items were named, and no item is given out twice.
   */
  lemma StaffOrderGivesOnce(items: seq<Item>, lines: seq<seq<string>>)
    requires Counted(items) && |lines| == |items| && ServedInTurn(items, lines)
    ensures GivenOnce(lines, {})
    ensures forall i :: 0 <= i < |items| ==>
      && |lines[i]| == items[i].quantity
      && (items[i].chosen != [] ==> lines[i] == items[i].chosen)
      && items[i].variant.Some? && forall x :: x in lines[i] ==> x in items[i].variant.value.inventory
  {
    forall i | 0 <= i < |items| ensures Choose(items[i], TakenBy(lines[..i])) == Chosen(lines[i]) {}
    forall i | 0 <= i < |items|
      ensures |lines[i]| == items[i].quantity && NoDuplicates(lines[i])
      ensures items[i].chosen != [] ==> lines[i] == items[i].chosen
      ensures items[i].variant.Some? && forall x :: x in lines[i] ==> x in items[i].variant.value.inventory
    {
      ChosenIsSound(items[i], TakenBy(lines[..i]));
    }
    forall i, j | 0 <= i < j < |lines| ensures Disjoint(lines[i], lines[j]) {
      ChosenIsSound(items[j], TakenBy(lines[..j]));
      TakenContains(lines[..j], i);
    }
  }

  /** The web demand of a line whose items are left to the system. */
  function DemandOf(item: Item): Demand
    requires item.variant.Some? && Known(item.role)
  {
    Demand(item.variant.value, item.quantity, BillingRole(item.role))
  }

  predicate Automatic(item: Item) {
    && item.chosen == [] && item.quantity >= 1 && item.variant.Some? && Known(item.role) && item.priced
    && (BillingRole(item.role) == FreeAccessory ==> item.variant.value.allowFreeAccessory)
    && NoDuplicates(item.variant.value.inventory)
  }

  /** Left to the system, a staff line is given what the web's greedy loop would give the same demand. */
  lemma AutomaticChoiceIsGreedy(item: Item, taken: set<string>)
    requires Automatic(item)
    ensures Greedy([DemandOf(item)], taken) ==
      match Choose(item, taken) case Chosen(ids) => Some([ids]) case Failed(_) => None
    ensures Choose(item, taken).Failed? ==> Choose(item, taken).error == Conflict
  {
    var d := DemandOf(item);
    var free := Unallocated(d.variant.inventory, taken);
    UnallocatedNoDuplicates(d.variant.inventory, taken);
    assert [d][1..] == [];
    if |free| >= d.quantity {
      var chosen := free[..d.quantity];
      assert Greedy([], taken + Elements(chosen)) == Some([]);
      assert [chosen] + [] == [chosen];
    }
  }
}
