/** Choosing inventory items for order lines, on the web and by staff, and how it agrees with the web quote. */
module RentalAllocation {
  import opened Options
  import opened RentalAccessories
  import opened RentalSelection

  /** Inventory not yet given to an earlier line, in the order offered. */
  function Unallocated(inventory: seq<string>, taken: set<string>): (r: seq<string>)
    ensures forall x :: x in r <==> x in inventory && x !in taken
  {
    if inventory == [] then []
    else
      assert forall x :: x in inventory <==> x == inventory[0] || x in inventory[1..];
      (if inventory[0] in taken then [] else [inventory[0]]) + Unallocated(inventory[1..], taken)
  }

  predicate NoDuplicates(s: seq<string>) {
    forall i, j :: 0 <= i < j < |s| ==> s[i] != s[j]
  }

  lemma {:induction false} UnallocatedNoDuplicates(inventory: seq<string>, taken: set<string>)
    requires NoDuplicates(inventory)
    ensures NoDuplicates(Unallocated(inventory, taken))
  {
    if inventory != [] {
      UnallocatedNoDuplicates(inventory[1..], taken);
      assert inventory[0] !in inventory[1..];
    }
  }

  function Elements(s: seq<string>): set<string> { set x | x in s }

  // --- Web orders: the greedy loop ---

  predicate Orderable(demands: seq<Demand>) {
    forall i :: 0 <= i < |demands| ==> demands[i].quantity >= 1
  }

  /** The chosen items per demand, or `None` when a demand finds fewer free items than it asks for. */
  function Greedy(demands: seq<Demand>, taken: set<string>): Option<seq<seq<string>>>
    requires Orderable(demands)
  {
    if demands == [] then Some([])
    else
      var free := Unallocated(demands[0].variant.inventory, taken);
      if |free| < demands[0].quantity then None
      else
        var chosen := free[..demands[0].quantity];
        match Greedy(demands[1..], taken + Elements(chosen))
        case Some(rest) => Some([chosen] + rest)
        case None => None
  }

  function Prepend(lines: seq<seq<string>>, rest: Option<seq<seq<string>>>): Option<seq<seq<string>>> {
    match rest
    case Some(r) => Some(lines + r)
    case None => None
  }

  method AllocateInventory(demands: seq<Demand>) returns (r: Option<seq<seq<string>>>)
    requires Orderable(demands)
    ensures r == Greedy(demands, {})
  {
    var lines, taken := [], {};
    assert demands[0..] == demands;
    PrependNothing(Greedy(demands, {}));
    for i := 0 to |demands|
      invariant Prepend(lines, Greedy(demands[i..], taken)) == Greedy(demands, {})
    {
      var available := Unallocated(demands[i].variant.inventory, taken);
      assert demands[i..][1..] == demands[i + 1..] && demands[i..][0] == demands[i];
      if |available| < demands[i].quantity {
        return None;
      }
      var selected := available[..demands[i].quantity];
      ghost var rest := Greedy(demands[i + 1..], taken + Elements(selected));
      if rest.Some? {
        assert lines + ([selected] + rest.value) == lines + [selected] + rest.value;
      }
      taken := taken + Elements(selected);
      lines := lines + [selected];
    }
    assert lines + [] == lines;
    r := Some(lines);
  }

  lemma PrependNothing(rest: Option<seq<seq<string>>>)
    ensures Prepend([], rest) == rest
  {
    if rest.Some? { assert [] + rest.value == rest.value; }
  }

  // --- What one availability snapshot allows ---

  predicate Disjoint(a: seq<string>, b: seq<string>) {
    forall x :: x in a ==> x !in b
  }

  /** Demands on one snapshot: an id names one variant, no item is listed twice or under two variants. */
  predicate Snapshot(demands: seq<Demand>) {
    && Orderable(demands)
    && (forall i :: 0 <= i < |demands| ==> NoDuplicates(demands[i].variant.inventory))
    && (forall i, j :: 0 <= i < |demands| && 0 <= j < |demands| ==>
      if demands[i].variant.id == demands[j].variant.id then demands[i].variant == demands[j].variant
      else Disjoint(demands[i].variant.inventory, demands[j].variant.inventory))
  }

  function DemandFor(demands: seq<Demand>, id: string): int {
    if demands == [] then 0
    else
      var d := demands[|demands| - 1];
      DemandFor(demands[..|demands| - 1], id) + (if d.variant.id == id then d.quantity else 0)
  }

  lemma DemandForStep(demands: seq<Demand>, k: nat, id: string)
    requires k < |demands|
    ensures DemandFor(demands[..k + 1], id) ==
      DemandFor(demands[..k], id) + (if demands[k].variant.id == id then demands[k].quantity else 0)
  {
    assert demands[..k + 1][..k] == demands[..k];
  }

  lemma {:induction false} DemandForGrows(demands: seq<Demand>, k: nat, n: nat, id: string)
    requires k <= n <= |demands| && Orderable(demands)
    ensures 0 <= DemandFor(demands[..k], id) <= DemandFor(demands[..n], id)
    decreases n
  {
    if k < n {
      DemandForGrows(demands, k, n - 1, id);
      DemandForStep(demands, n - 1, id);
    } else if k > 0 {
      DemandForGrows(demands, k - 1, n - 1, id);
      DemandForStep(demands, n - 1, id);
    }
  }

  predicate Covered(demands: seq<Demand>) {
    forall i :: 0 <= i < |demands| ==> DemandFor(demands, demands[i].variant.id) <= |demands[i].variant.inventory|
  }

  /** Of each variant's inventory, exactly the items asked for by the first `k` demands are taken. */
  predicate TakenInOrder(demands: seq<Demand>, k: nat, taken: set<string>)
    requires k <= |demands|
  {
    forall i, j :: 0 <= i < |demands| && 0 <= j < |demands[i].variant.inventory| ==>
      (demands[i].variant.inventory[j] in taken <==> j < DemandFor(demands[..k], demands[i].variant.id))
  }

  lemma {:induction false} NothingTaken(inventory: seq<string>, taken: set<string>)
    requires forall x :: x in inventory ==> x !in taken
    ensures Unallocated(inventory, taken) == inventory
  {
    if inventory != [] {
      NothingTaken(inventory[1..], taken);
    }
  }

  lemma {:induction false} UnallocatedSuffix(inventory: seq<string>, taken: set<string>, used: nat)
    requires used <= |inventory|
    requires forall j :: 0 <= j < |inventory| ==> (inventory[j] in taken <==> j < used)
    ensures Unallocated(inventory, taken) == inventory[used..]
  {
    if used == 0 {
      NothingTaken(inventory, taken);
    } else {
      var rest := inventory[1..];
      forall j | 0 <= j < |rest| ensures rest[j] in taken <==> j < used - 1 {
        assert rest[j] == inventory[j + 1];
      }
      UnallocatedSuffix(rest, taken, used - 1);
      assert inventory[0] in taken;
    }
  }

  lemma TakenStep(demands: seq<Demand>, k: nat, taken: set<string>, used: nat)
    requires Snapshot(demands) && k < |demands| && TakenInOrder(demands, k, taken)
    requires used == DemandFor(demands[..k], demands[k].variant.id)
    requires used + demands[k].quantity <= |demands[k].variant.inventory|
    ensures TakenInOrder(demands, k + 1,
      taken + Elements(demands[k].variant.inventory[used..used + demands[k].quantity]))
  {
    var d := demands[k];
    var chosen := d.variant.inventory[used..used + d.quantity];
    forall i, j | 0 <= i < |demands| && 0 <= j < |demands[i].variant.inventory|
      ensures demands[i].variant.inventory[j] in taken + Elements(chosen)
        <==> j < DemandFor(demands[..k + 1], demands[i].variant.id)
    {
      var v := demands[i].variant;
      DemandForStep(demands, k, v.id);
      if v.id == d.variant.id {
        assert v.inventory[j] in chosen <==> used <= j < used + d.quantity by {
          if used <= j < used + d.quantity { assert chosen[j - used] == v.inventory[j]; }
          if m :| 0 <= m < |chosen| && chosen[m] == v.inventory[j] {
            assert v.inventory[used + m] == v.inventory[j];
          }
        }
      } else {
        assert v.inventory[j] in v.inventory;
        assert forall m :: 0 <= m < |chosen| ==> chosen[m] in d.variant.inventory;
      }
    }
  }

  /** Where demand `k` starts in its variant's inventory. */
  function Start(demands: seq<Demand>, k: nat): int
    requires k < |demands|
  {
    DemandFor(demands[..k], demands[k].variant.id)
  }

  predicate SlicesFrom(demands: seq<Demand>, k: nat, lines: seq<seq<string>>) {
    && k + |lines| == |demands|
    && forall i :: k <= i < |demands| ==>
      && 0 <= Start(demands, i) <= Start(demands, i) + demands[i].quantity <= |demands[i].variant.inventory|
      && lines[i - k] == demands[i].variant.inventory[Start(demands, i)..Start(demands, i) + demands[i].quantity]
  }

  /** What the next demand finds: the items of its variant after those already taken. */
  lemma FreeItems(demands: seq<Demand>, k: nat, taken: set<string>)
    requires k < |demands| && TakenInOrder(demands, k, taken)
    requires 0 <= Start(demands, k) <= |demands[k].variant.inventory|
    ensures Unallocated(demands[k].variant.inventory, taken) == demands[k].variant.inventory[Start(demands, k)..]
  {
    UnallocatedSuffix(demands[k].variant.inventory, taken, Start(demands, k));
  }

  /** So far no variant has been asked for more than it has. */
  predicate CoveredSoFar(demands: seq<Demand>, k: nat)
    requires k <= |demands|
  {
    forall i :: 0 <= i < |demands| ==>
      0 <= DemandFor(demands[..k], demands[i].variant.id) <= |demands[i].variant.inventory|
  }

  lemma CoveredStep(demands: seq<Demand>, k: nat)
    requires Snapshot(demands) && k < |demands| && CoveredSoFar(demands, k)
    requires Start(demands, k) + demands[k].quantity <= |demands[k].variant.inventory|
    ensures CoveredSoFar(demands, k + 1)
  {
    forall i | 0 <= i < |demands|
      ensures 0 <= DemandFor(demands[..k + 1], demands[i].variant.id) <= |demands[i].variant.inventory|
    {
      DemandForStep(demands, k, demands[i].variant.id);
    }
  }

  lemma NotCovered(demands: seq<Demand>, k: nat)
    requires Snapshot(demands) && k < |demands|
    requires Start(demands, k) + demands[k].quantity > |demands[k].variant.inventory|
    ensures !Covered(demands)
  {
    var id := demands[k].variant.id;
    DemandForStep(demands, k, id);
    DemandForGrows(demands, k + 1, |demands|, id);
    assert demands[..|demands|] == demands;
    assert DemandFor(demands, id) > |demands[k].variant.inventory|;
  }

  /** What is known before demand `k` is served. */
  predicate Progress(demands: seq<Demand>, k: nat, taken: set<string>) {
    k <= |demands| && Snapshot(demands) && TakenInOrder(demands, k, taken) && CoveredSoFar(demands, k)
  }

  /** What the loop makes of the demands from `k` on. */
  predicate Served(demands: seq<Demand>, k: nat, r: Option<seq<seq<string>>>) {
    && (r.Some? <==> Covered(demands))
    && (r.Some? ==> SlicesFrom(demands, k, r.value))
  }

  predicate Fits(demands: seq<Demand>, k: nat)
    requires k < |demands|
  {
    0 <= Start(demands, k) && Start(demands, k) + demands[k].quantity <= |demands[k].variant.inventory|
  }

  function Slice(demands: seq<Demand>, k: nat): seq<string>
    requires Orderable(demands) && k < |demands| && Fits(demands, k)
  {
    demands[k].variant.inventory[Start(demands, k)..Start(demands, k) + demands[k].quantity]
  }

  lemma Refuse(demands: seq<Demand>, k: nat, taken: set<string>)
    requires Progress(demands, k, taken) && k < |demands| && !Fits(demands, k)
    ensures Served(demands, k, Greedy(demands[k..], taken))
  {
    FreeItems(demands, k, taken);
    NotCovered(demands, k);
    assert demands[k..][0] == demands[k];
  }

  lemma Progresses(demands: seq<Demand>, k: nat, taken: set<string>)
    requires Progress(demands, k, taken) && k < |demands| && Fits(demands, k)
    ensures Progress(demands, k + 1, taken + Elements(Slice(demands, k)))
  {
    TakenStep(demands, k, taken, Start(demands, k));
    CoveredStep(demands, k);
  }

  lemma ServeOne(demands: seq<Demand>, k: nat, taken: set<string>)
    requires k < |demands| && Orderable(demands) && Fits(demands, k)
    requires Unallocated(demands[k].variant.inventory, taken) == demands[k].variant.inventory[Start(demands, k)..]
    ensures var chosen := Slice(demands, k);
      Greedy(demands[k..], taken) == Prepend([chosen], Greedy(demands[k + 1..], taken + Elements(chosen)))
  {
    var d, used := demands[k], Start(demands, k);
    assert demands[k..][1..] == demands[k + 1..] && demands[k..][0] == d;
    assert d.variant.inventory[used..][..d.quantity] == Slice(demands, k);
  }

  lemma ServedStep(demands: seq<Demand>, k: nat, rest: Option<seq<seq<string>>>)
    requires k < |demands| && Orderable(demands) && Fits(demands, k) && Served(demands, k + 1, rest)
    ensures Served(demands, k, Prepend([Slice(demands, k)], rest))
  {
  }

  lemma ServedAll(demands: seq<Demand>, taken: set<string>)
    requires Progress(demands, |demands|, taken)
    ensures Served(demands, |demands|, Greedy(demands[|demands|..], taken))
  {
    assert demands[..|demands|] == demands;
  }

  lemma {:induction false} GreedyFrom(demands: seq<Demand>, k: nat, taken: set<string>)
    requires Progress(demands, k, taken)
    ensures Served(demands, k, Greedy(demands[k..], taken))
    decreases |demands| - k
  {
    if k == |demands| {
      ServedAll(demands, taken);
    } else if Fits(demands, k) {
      FreeItems(demands, k, taken);
      ServeOne(demands, k, taken);
      Progresses(demands, k, taken);
      GreedyFrom(demands, k + 1, taken + Elements(Slice(demands, k)));
      ServedStep(demands, k, Greedy(demands[k + 1..], taken + Elements(Slice(demands, k))));
    } else {
      Refuse(demands, k, taken);
    }
  }

  /**
   * On one snapshot the greedy loop succeeds exactly when no variant is asked for more items than it has. Each line
   * then gets consecutive items of its own variant, starting after those of the earlier lines on that variant.
   */
  lemma GreedySucceedsIffCovered(demands: seq<Demand>)
    requires Snapshot(demands)
    ensures Greedy(demands, {}).Some? <==> Covered(demands)
    ensures Greedy(demands, {}).Some? ==> SlicesFrom(demands, 0, Greedy(demands, {}).value)
  {
    assert demands[0..] == demands && demands[..0] == [];
    GreedyFrom(demands, 0, {});
  }

  // --- No item is given out twice ---

  predicate GivenOnce(lines: seq<seq<string>>, taken: set<string>) {
    && (forall i :: 0 <= i < |lines| ==> NoDuplicates(lines[i]) && forall x :: x in lines[i] ==> x !in taken)
    && (forall i, j :: 0 <= i < j < |lines| ==> Disjoint(lines[i], lines[j]))
  }

  lemma PrependGivenOnce(line: seq<string>, rest: seq<seq<string>>, taken: set<string>)
    requires NoDuplicates(line) && (forall x :: x in line ==> x !in taken)
    requires GivenOnce(rest, taken + Elements(line))
    ensures GivenOnce([line] + rest, taken)
  {
    var all := [line] + rest;
    assert forall i :: 0 < i < |all| ==> all[i] == rest[i - 1];
    forall i, j | 0 <= i < j < |all| ensures Disjoint(all[i], all[j]) {
      if i == 0 {
        forall x | x in line ensures x !in all[j] { assert x in taken + Elements(line); }
      }
    }
  }

  /** For any demands at all: each line gets exactly its quantity of its own variant's items, and no item twice. */
  lemma {:induction false} GreedyGivesOnce(demands: seq<Demand>, taken: set<string>)
    requires Orderable(demands)
    requires forall i :: 0 <= i < |demands| ==> NoDuplicates(demands[i].variant.inventory)
    requires Greedy(demands, taken).Some?
    ensures var lines := Greedy(demands, taken).value;
      && |lines| == |demands| && GivenOnce(lines, taken)
      && forall i :: 0 <= i < |lines| ==>
        |lines[i]| == demands[i].quantity && forall x :: x in lines[i] ==> x in demands[i].variant.inventory
  {
    if demands != [] {
      var d := demands[0];
      var free := Unallocated(d.variant.inventory, taken);
      UnallocatedNoDuplicates(d.variant.inventory, taken);
      var chosen := free[..d.quantity];
      assert forall x :: x in chosen ==> x in free;
      GreedyGivesOnce(demands[1..], taken + Elements(chosen));
      PrependGivenOnce(chosen, Greedy(demands[1..], taken + Elements(chosen)).value, taken);
    }
  }
}
