/** Billing roles of rental lines and the allowance of free accessories. */
module RentalAccessories {
  const MAX_SAFE := 0x1F_FFFF_FFFF_FFFF

  type SafeInt = n: int | -MAX_SAFE <= n <= MAX_SAFE

  /** A JavaScript number: a safe integer, or anything else. */
  datatype Quantity = Safe(n: SafeInt) | NotSafe

  datatype Role = Paid | FreeAccessory

  datatype RawRole = Unspecified | Named(role: Role) | Unknown

  datatype Portion = Portion(quantity: Quantity, role: RawRole)

  datatype AllowanceError = InvalidRole | InvalidQuantity | PaidItemRequired | AllowanceExceeded

  datatype Allowance = Allowance(billable: int, free: int, remaining: int)

  datatype AllowanceResult = Granted(allowance: Allowance) | Refused(error: AllowanceError)

  predicate Known(role: RawRole) { role != Unknown }

  function BillingRole(role: RawRole): Role
    requires Known(role)
  {
    if role.Named? then role.role else Paid
  }

  predicate Counted(p: Portion) {
    p.quantity.Safe? && p.quantity.n >= 1 && Known(p.role)
  }

  predicate AllCounted(ps: seq<Portion>) {
    forall i :: 0 <= i < |ps| ==> Counted(ps[i])
  }

  /** Units of one role among portions that all count. */
  function Units(ps: seq<Portion>, role: Role): (n: int)
    requires AllCounted(ps)
    ensures n >= 0
  {
    if ps == [] then 0
    else
      var p := ps[|ps| - 1];
      Units(ps[..|ps| - 1], role) + (if BillingRole(p.role) == role then p.quantity.n else 0)
  }

  lemma UnitsStep(ps: seq<Portion>, i: nat, role: Role)
    requires i < |ps| && AllCounted(ps[..i + 1])
    ensures AllCounted(ps[..i])
    ensures Units(ps[..i + 1], role) ==
      Units(ps[..i], role) + (if BillingRole(ps[i].role) == role then ps[i].quantity.n else 0)
  {
    assert ps[..i + 1][..i] == ps[..i];
    assert forall k :: 0 <= k < i ==> ps[..i][k] == ps[..i + 1][k];
  }

  /** The verdict on a whole list of portions that all count. */
  function Verdict(billable: int, free: int): AllowanceResult {
    if billable + free > MAX_SAFE then Refused(InvalidQuantity)
    else if billable < 1 then Refused(PaidItemRequired)
    else if free > billable then Refused(AllowanceExceeded)
    else Granted(Allowance(billable, free, billable - free))
  }

  /** The first portion that does not count decides the error. */
  method RentalAccessoryAllowance(items: seq<Portion>) returns (r: AllowanceResult)
    ensures AllCounted(items) ==> r == Verdict(Units(items, Paid), Units(items, FreeAccessory))
    ensures !AllCounted(items) ==>
      exists i :: 0 <= i < |items| && AllCounted(items[..i]) && !Counted(items[i])
        && r == Refused(if items[i].quantity.Safe? && items[i].quantity.n >= 1 then InvalidRole else InvalidQuantity)
  {
    var billable, free := 0, 0;
    for i := 0 to |items|
      invariant AllCounted(items[..i])
      invariant billable == Units(items[..i], Paid) && free == Units(items[..i], FreeAccessory)
    {
      var item := items[i];
      if item.quantity.NotSafe? || item.quantity.n < 1 {
        return Refused(InvalidQuantity);
      }
      if item.role == Unknown {
        return Refused(InvalidRole);
      }
      if BillingRole(item.role) == FreeAccessory {
        free := free + item.quantity.n;
      } else {
        billable := billable + item.quantity.n;
      }
      assert forall k :: 0 <= k < i ==> items[..i + 1][k] == items[..i][k];
      UnitsStep(items, i, Paid);
      UnitsStep(items, i, FreeAccessory);
    }
    assert items[..|items|] == items;
    if billable > MAX_SAFE || free > MAX_SAFE || billable + free > MAX_SAFE {
      return Refused(InvalidQuantity);
    }
    if billable < 1 {
      return Refused(PaidItemRequired);
    }
    if free > billable {
      return Refused(AllowanceExceeded);
    }
    r := Granted(Allowance(billable, free, billable - free));
  }

  function RoleName(role: Role): string {
    match role
    case Paid => "PAID"
    case FreeAccessory => "FREE_ACCESSORY"
  }

  function SelectionKey(variantId: string, role: Role): string {
    variantId + ":" + RoleName(role)
  }

  /** Whatever characters an id contains, the key tells variant and role apart. */
  lemma SelectionKeyInjective(v: string, r: Role, w: string, s: Role)
    ensures SelectionKey(v, r) == SelectionKey(w, s) <==> v == w && r == s
  {
    var a, b := SelectionKey(v, r), SelectionKey(w, s);
    assert a[|a| - 1] == RoleName(r)[|RoleName(r)| - 1];
    assert b[|b| - 1] == RoleName(s)[|RoleName(s)| - 1];
    if a == b {
      assert r == s;
      assert a[..|v|] == v && b[..|w|] == w;
    }
  }
}
