/** The texts hashed for the idempotency records of web orders and of manual payments. */
module CommandFingerprints {
  import opened Json
  import opened JsonRecords
  import opened JsNumbers
  import opened Options
  import opened StableJson

  // --- Web orders ---

  datatype BillingRole = Paid | FreeAccessory

  datatype Item = Item(
    productId: Option<Text>, variantId: Option<Text>, quantity: Number, billingRole: Option<BillingRole>)

  datatype Collateral = Collateral(form: Option<Text>, documentType: Option<Text>)

  datatype WebOrder = WebOrder(
    name: Text, phone: Text, note: Option<Text>,
    pickupDate: Text, returnDate: Text,
    items: seq<Item>,
    deliveryMethod: Text, address: Option<Text>,
    paymentMethod: Text,
    collateral: Option<Collateral>,
    loyaltyRewardId: Option<Text>)

  /** Item validation has already run: every quantity is a positive integer. */
  predicate Validated(req: WebOrder) {
    forall i :: 0 <= i < |req.items| ==> req.items[i].quantity.Finite? && ValidNumber(req.items[i].quantity)
  }

  /** An absent or empty optional text is falsy. */
  function Truthy(x: Option<Text>): Option<Text> {
    if x == Some([]) then None else x
  }

  function OwnerScope(webAccountId: Option<Text>): Text {
    match Truthy(webAccountId)
    case Some(id) => Ascii("web-account:") + id
    case None => Ascii("guest")
  }

  function ItemKeys(): seq<Text> {
    [Ascii("productId"), Ascii("variantId"), Ascii("quantity"), Ascii("billingRole")]
  }

  function ItemValues(item: Item): seq<Value> {
    [OrNull(item.productId), OrNull(item.variantId), Num(item.quantity),
     if item.billingRole == Some(FreeAccessory) then Str(Ascii("FREE_ACCESSORY")) else Undefined]
  }

  function ItemIdentity(item: Item): Value {
    Obj(Record(ItemKeys(), ItemValues(item)))
  }

  function ItemIdentities(items: seq<Item>): Value {
    Arr(seq(|items|, i requires 0 <= i < |items| => ItemIdentity(items[i])))
  }

  function CustomerKeys(): seq<Text> { [Ascii("name"), Ascii("phone"), Ascii("note")] }

  function DeliveryKeys(): seq<Text> { [Ascii("method"), Ascii("address")] }

  function CollateralKeys(): seq<Text> { [Ascii("method"), Ascii("documentType")] }

  function CollateralMethod(req: WebOrder): Text {
    match req.collateral
    case Some(c) => c.form.GetOr(Ascii("CASH"))
    case None => Ascii("CASH")
  }

  function DocumentType(req: WebOrder): Option<Text> {
    match req.collateral
    case Some(c) => c.documentType
    case None => None
  }

  function CommandKeys(): seq<Text> {
    [Ascii("customer"), Ascii("pickupDate"), Ascii("returnDate"), Ascii("items"), Ascii("delivery"),
     Ascii("paymentMethod"), Ascii("collateral"), Ascii("loyaltyRewardId")]
  }

  function CustomerValues(req: WebOrder): seq<Value> { [Str(req.name), Str(req.phone), OrNull(req.note)] }

  function DeliveryValues(req: WebOrder): seq<Value> { [Str(req.deliveryMethod), OrNull(req.address)] }

  function CollateralValues(req: WebOrder): seq<Value> { [Str(CollateralMethod(req)), OrNull(DocumentType(req))] }

  function CommandValues(req: WebOrder): seq<Value> {
    [Obj(Record(CustomerKeys(), CustomerValues(req))),
     Str(req.pickupDate),
     Str(req.returnDate),
     ItemIdentities(req.items),
     Obj(Record(DeliveryKeys(), DeliveryValues(req))),
     Str(req.paymentMethod),
     Obj(Record(CollateralKeys(), CollateralValues(req))),
     match Truthy(req.loyaltyRewardId) case Some(id) => Str(id) case None => Undefined]
  }

  function IdentityKeys(): seq<Text> { [Ascii("version"), Ascii("command")] }

  function IdentityValues(req: WebOrder): seq<Value> {
    [Num(Finite(false, [2], 1)), Obj(Record(CommandKeys(), CommandValues(req)))]
  }

  function RequestKeys(): seq<Text> { [Ascii("ownerScope"), Ascii("command")] }

  function RequestValues(owner: Option<Text>, req: WebOrder): seq<Value> {
    [Str(OwnerScope(owner)), Obj(Record(IdentityKeys(), IdentityValues(req)))]
  }

  function WebRequest(owner: Option<Text>, req: WebOrder): Value {
    Obj(Record(RequestKeys(), RequestValues(owner, req)))
  }

  // --- What a web order asks for, without the differences that do not matter ---

  datatype NormalItem = NormalItem(productId: Option<Text>, variantId: Option<Text>, quantity: Number, free: bool)

  datatype NormalOrder = NormalOrder(
    name: Text, phone: Text, note: Option<Text>,
    pickupDate: Text, returnDate: Text,
    items: seq<NormalItem>,
    deliveryMethod: Text, address: Option<Text>,
    paymentMethod: Text,
    collateralMethod: Text, documentType: Option<Text>,
    loyaltyRewardId: Option<Text>)

  /** An absent role means PAID. */
  function NormalizeItem(item: Item): NormalItem {
    NormalItem(item.productId, item.variantId, item.quantity, item.billingRole == Some(FreeAccessory))
  }

  /** Without a collateral or without its method, the method is CASH; an empty reward id is none. */
  function Normalize(req: WebOrder): NormalOrder {
    NormalOrder(
      req.name, req.phone, req.note, req.pickupDate, req.returnDate,
      seq(|req.items|, i requires 0 <= i < |req.items| => NormalizeItem(req.items[i])),
      req.deliveryMethod, req.address, req.paymentMethod,
      if req.collateral.Some? && req.collateral.value.form.Some? then req.collateral.value.form.value else Ascii("CASH"),
      if req.collateral.Some? then req.collateral.value.documentType else None,
      if req.loyaltyRewardId.Some? && |req.loyaltyRewardId.value| > 0 then req.loyaltyRewardId else None)
  }

  /** Without an account, or with an empty account id, the owner is the guest. */
  predicate SameOwners(a: Option<Text>, b: Option<Text>) {
    a == b || ((a == None || a.value == []) && (b == None || b.value == []))
  }

  lemma KeysDistinct()
    ensures Distinct(ItemKeys()) && Distinct(CustomerKeys()) && Distinct(DeliveryKeys())
    ensures Distinct(CollateralKeys()) && Distinct(IdentityKeys()) && Distinct(RequestKeys())
    ensures Distinct(CommandKeys())
  {
    Differ("productId", "variantId", 0);
    Differ("name", "note", 1);
    Differ("version", "command", 0);
    Differ("customer", "delivery", 0);
    Differ("pickupDate", "returnDate", 0);
    Differ("pickupDate", "collateral", 0);
    Differ("returnDate", "collateral", 0);
  }

  lemma SameOptions(x: Option<Text>, y: Option<Text>)
    ensures SameJson(OrNull(x), OrNull(y)) <==> x == y
    ensures WellFormed(OrNull(x)) && Plain(OrNull(x))
  {
  }

  lemma ItemValuesAgree(a: Item, b: Item)
    requires a.quantity.Finite? && b.quantity.Finite?
    ensures (forall i :: 0 <= i < 4 ==> SameJson(ItemValues(a)[i], ItemValues(b)[i]))
       <==> NormalizeItem(a) == NormalizeItem(b)
  {
    SameOptions(a.productId, b.productId);
    SameOptions(a.variantId, b.variantId);
    var v, w := ItemValues(a), ItemValues(b);
    assert (forall i :: 0 <= i < 4 ==> SameJson(v[i], w[i])) <==>
      SameJson(v[0], w[0]) && SameJson(v[1], w[1]) && SameJson(v[2], w[2]) && SameJson(v[3], w[3]);
  }

  lemma SameItem(a: Item, b: Item)
    requires a.quantity.Finite? && b.quantity.Finite?
    ensures SameJson(ItemIdentity(a), ItemIdentity(b)) <==> NormalizeItem(a) == NormalizeItem(b)
  {
    KeysDistinct();
    RecordsCompare(ItemKeys(), ItemValues(a), ItemValues(b));
    ItemValuesAgree(a, b);
  }

  lemma ItemIsPlain(a: Item)
    requires a.quantity.Finite? && ValidNumber(a.quantity)
    ensures WellFormed(ItemIdentity(a)) && Plain(ItemIdentity(a))
  {
    KeysDistinct();
    SameOptions(a.productId, a.productId);
    SameOptions(a.variantId, a.variantId);
    RecordIsPlain(ItemKeys(), ItemValues(a));
  }

  lemma ItemsArePlain(req: WebOrder)
    requires Validated(req)
    ensures WellFormed(ItemIdentities(req.items)) && Plain(ItemIdentities(req.items))
  {
    forall i | 0 <= i < |req.items|
      ensures WellFormed(ItemIdentity(req.items[i])) && Plain(ItemIdentity(req.items[i]))
    {
      ItemIsPlain(req.items[i]);
    }
  }

  lemma SameItems(a: WebOrder, b: WebOrder)
    requires Validated(a) && Validated(b)
    ensures SameJson(ItemIdentities(a.items), ItemIdentities(b.items)) <==> Normalize(a).items == Normalize(b).items
  {
    var x, y := ItemIdentities(a.items).items, ItemIdentities(b.items).items;
    var m, n := Normalize(a).items, Normalize(b).items;
    if |a.items| == |b.items| {
      forall i | 0 <= i < |a.items| ensures SameJson(x[i], y[i]) <==> m[i] == n[i] {
        SameItem(a.items[i], b.items[i]);
      }
    }
  }

  lemma SameCustomer(a: WebOrder, b: WebOrder)
    ensures SameJson(Obj(Record(CustomerKeys(), CustomerValues(a))), Obj(Record(CustomerKeys(), CustomerValues(b))))
       <==> a.name == b.name && a.phone == b.phone && a.note == b.note
  {
    KeysDistinct();
    SameOptions(a.note, b.note);
    RecordsCompare(CustomerKeys(), CustomerValues(a), CustomerValues(b));
    Pairwise3(CustomerValues(a), CustomerValues(b));
  }

  lemma SameDelivery(a: WebOrder, b: WebOrder)
    ensures SameJson(Obj(Record(DeliveryKeys(), DeliveryValues(a))), Obj(Record(DeliveryKeys(), DeliveryValues(b))))
       <==> a.deliveryMethod == b.deliveryMethod && a.address == b.address
  {
    KeysDistinct();
    SameOptions(a.address, b.address);
    RecordsCompare(DeliveryKeys(), DeliveryValues(a), DeliveryValues(b));
    Pairwise2(DeliveryValues(a), DeliveryValues(b));
  }

  lemma SameCollateral(a: WebOrder, b: WebOrder)
    ensures SameJson(Obj(Record(CollateralKeys(), CollateralValues(a))), Obj(Record(CollateralKeys(), CollateralValues(b))))
       <==> CollateralMethod(a) == CollateralMethod(b) && DocumentType(a) == DocumentType(b)
  {
    KeysDistinct();
    SameOptions(DocumentType(a), DocumentType(b));
    RecordsCompare(CollateralKeys(), CollateralValues(a), CollateralValues(b));
    Pairwise2(CollateralValues(a), CollateralValues(b));
  }

  lemma Pairwise2(v: seq<Value>, w: seq<Value>)
    requires |v| == |w| == 2
    ensures (forall i :: 0 <= i < 2 ==> SameJson(v[i], w[i])) <==> SameJson(v[0], w[0]) && SameJson(v[1], w[1])
  {
  }

  lemma Pairwise3(v: seq<Value>, w: seq<Value>)
    requires |v| == |w| == 3
    ensures (forall i :: 0 <= i < 3 ==> SameJson(v[i], w[i]))
       <==> SameJson(v[0], w[0]) && SameJson(v[1], w[1]) && SameJson(v[2], w[2])
  {
  }

  lemma Eightfold(v: seq<Value>, w: seq<Value>)
    requires |v| == |w| == 8
    ensures (forall i :: 0 <= i < 8 ==> SameJson(v[i], w[i])) <==>
      SameJson(v[0], w[0]) && SameJson(v[1], w[1]) && SameJson(v[2], w[2]) && SameJson(v[3], w[3]) &&
      SameJson(v[4], w[4]) && SameJson(v[5], w[5]) && SameJson(v[6], w[6]) && SameJson(v[7], w[7])
  {
  }

  lemma CommandValuesAgree(a: WebOrder, b: WebOrder)
    requires Validated(a) && Validated(b)
    ensures (forall i :: 0 <= i < 8 ==> SameJson(CommandValues(a)[i], CommandValues(b)[i]))
       <==> Normalize(a) == Normalize(b)
  {
    SameCustomer(a, b);
    SameDelivery(a, b);
    SameCollateral(a, b);
    SameItems(a, b);
    Eightfold(CommandValues(a), CommandValues(b));
  }

  lemma SameCommand(a: WebOrder, b: WebOrder)
    requires Validated(a) && Validated(b)
    ensures SameJson(Obj(Record(CommandKeys(), CommandValues(a))), Obj(Record(CommandKeys(), CommandValues(b))))
       <==> Normalize(a) == Normalize(b)
  {
    KeysDistinct();
    CommandValuesAgree(a, b);
    RecordsCompare(CommandKeys(), CommandValues(a), CommandValues(b));
  }

  lemma SameOwner(a: Option<Text>, b: Option<Text>)
    ensures OwnerScope(a) == OwnerScope(b) <==> SameOwners(a, b)
  {
    var prefix := Ascii("web-account:");
    match (Truthy(a), Truthy(b))
    case (Some(x), Some(y)) => assert (prefix + x)[|prefix|..] == x && (prefix + y)[|prefix|..] == y;
    case (Some(x), None) => assert |prefix + x| > |Ascii("guest")|;
    case (None, Some(y)) => assert |prefix + y| > |Ascii("guest")|;
    case (None, None) =>
  }

  lemma CommandIsPlain(req: WebOrder)
    requires Validated(req)
    ensures WellFormed(Obj(Record(CommandKeys(), CommandValues(req))))
    ensures Plain(Obj(Record(CommandKeys(), CommandValues(req))))
  {
    KeysDistinct();
    ItemsArePlain(req);
    RecordIsPlain(CustomerKeys(), CustomerValues(req));
    RecordIsPlain(DeliveryKeys(), DeliveryValues(req));
    RecordIsPlain(CollateralKeys(), CollateralValues(req));
    RecordIsPlain(CommandKeys(), CommandValues(req));
  }

  lemma WebRequestIsPlain(owner: Option<Text>, req: WebOrder)
    requires Validated(req)
    ensures WellFormed(WebRequest(owner, req)) && Plain(WebRequest(owner, req))
  {
    KeysDistinct();
    CommandIsPlain(req);
    RecordIsPlain(IdentityKeys(), IdentityValues(req));
    RecordIsPlain(RequestKeys(), RequestValues(owner, req));
  }

  lemma SameIdentity(a: WebOrder, b: WebOrder)
    requires Validated(a) && Validated(b)
    ensures SameJson(Obj(Record(IdentityKeys(), IdentityValues(a))), Obj(Record(IdentityKeys(), IdentityValues(b))))
       <==> Normalize(a) == Normalize(b)
  {
    KeysDistinct();
    SameCommand(a, b);
    RecordsCompare(IdentityKeys(), IdentityValues(a), IdentityValues(b));
    Pairwise2(IdentityValues(a), IdentityValues(b));
  }

  lemma SameRequest(o1: Option<Text>, r1: WebOrder, o2: Option<Text>, r2: WebOrder)
    requires Validated(r1) && Validated(r2)
    ensures SameJson(WebRequest(o1, r1), WebRequest(o2, r2)) <==> SameOwners(o1, o2) && Normalize(r1) == Normalize(r2)
  {
    KeysDistinct();
    RecordsCompare(RequestKeys(), RequestValues(o1, r1), RequestValues(o2, r2));
    Pairwise2(RequestValues(o1, r1), RequestValues(o2, r2));
    SameIdentity(r1, r2);
    SameOwner(o1, o2);
  }

  /** The hashed text. */
  ghost function WebFingerprint(owner: Option<Text>, req: WebOrder): Text
    requires Validated(req)
  {
    WebRequestIsPlain(owner, req);
    Print(WebRequest(owner, req))
  }

  /**
   * The hashed texts of two web orders are equal exactly when the same owner asks for the same thing: field order,
   * absent optional fields, an absent role and an absent collateral make no difference; everything else does.
   */
  lemma WebFingerprintIsFaithful(o1: Option<Text>, r1: WebOrder, o2: Option<Text>, r2: WebOrder)
    requires Validated(r1) && Validated(r2)
    ensures WebFingerprint(o1, r1) == WebFingerprint(o2, r2)
       <==> SameOwners(o1, o2) && Normalize(r1) == Normalize(r2)
  {
    WebRequestIsPlain(o1, r1);
    WebRequestIsPlain(o2, r2);
    EqualPrintsMeanEqualJson(WebRequest(o1, r1), WebRequest(o2, r2));
    SameRequest(o1, r1, o2, r2);
  }

  // --- What each default stands for ---

  /** An order without collateral is the same as one with a collateral of CASH and no document, and no other. */
  lemma AbsentCollateralIsCash(o: Option<Text>, r: WebOrder, form: Option<Text>, document: Option<Text>)
    requires Validated(r) && r.collateral == None
    ensures WebFingerprint(o, r) == WebFingerprint(o, r.(collateral := Some(Collateral(form, document))))
       <==> (form == None || form == Some(Ascii("CASH"))) && document == None
  {
    WebFingerprintIsFaithful(o, r, o, r.(collateral := Some(Collateral(form, document))));
  }

  /** A collateral without a method is one of CASH, with the same document. */
  lemma AbsentMethodIsCash(o: Option<Text>, r: WebOrder, document: Option<Text>, form: Option<Text>, other: Option<Text>)
    requires Validated(r) && r.collateral == Some(Collateral(None, document))
    ensures WebFingerprint(o, r) == WebFingerprint(o, r.(collateral := Some(Collateral(form, other))))
       <==> (form == None || form == Some(Ascii("CASH"))) && other == document
  {
    WebFingerprintIsFaithful(o, r, o, r.(collateral := Some(Collateral(form, other))));
  }

  function WithRole(r: WebOrder, i: nat, role: Option<BillingRole>): WebOrder
    requires i < |r.items|
    ensures Validated(r) ==> Validated(WithRole(r, i, role))
  {
    r.(items := r.items[i := r.items[i].(billingRole := role)])
  }

  lemma RoleNormalizes(r: WebOrder, i: nat, role: Option<BillingRole>)
    requires i < |r.items| && r.items[i].billingRole == None
    ensures Normalize(r) == Normalize(WithRole(r, i, role)) <==> role == None || role == Some(Paid)
  {
    var a, b := Normalize(r).items, Normalize(WithRole(r, i, role)).items;
    assert forall j | 0 <= j < |a| && j != i :: a[j] == b[j];
    if role == Some(FreeAccessory) {
      assert a[i] != b[i];
    } else {
      assert role.Some? ==> role.value.Paid?;
      assert a == b;
    }
  }

  /** A line without a role is the line with the role PAID. */
  lemma AbsentRoleIsPaid(o: Option<Text>, r: WebOrder, i: nat, role: Option<BillingRole>)
    requires Validated(r) && i < |r.items| && r.items[i].billingRole == None
    ensures WebFingerprint(o, r) == WebFingerprint(o, WithRole(r, i, role)) <==> role == None || role == Some(Paid)
  {
    WebFingerprintIsFaithful(o, r, o, WithRole(r, i, role));
    RoleNormalizes(r, i, role);
  }

  /** An empty reward id is the absent one. */
  lemma EmptyRewardIsNone(o: Option<Text>, r: WebOrder, id: Option<Text>)
    requires Validated(r) && r.loyaltyRewardId == None
    ensures WebFingerprint(o, r) == WebFingerprint(o, r.(loyaltyRewardId := id)) <==> id == None || id == Some([])
  {
    WebFingerprintIsFaithful(o, r, o, r.(loyaltyRewardId := id));
  }

  /** An empty account id is a guest; two accounts are never the same owner. */
  lemma EmptyAccountIsGuest(a: Option<Text>, b: Option<Text>, r: WebOrder)
    requires Validated(r)
    ensures WebFingerprint(a, r) == WebFingerprint(b, r)
       <==> a == b || ((a == None || a == Some([])) && (b == None || b == Some([])))
  {
    WebFingerprintIsFaithful(a, r, b, r);
  }

  // --- Manual payments ---

  datatype PaymentCommand = PaymentCommand(
    orderId: Text, direction: Text, purpose: Text, paymentMethod: Text, amount: Number,
    externalReference: Option<Text>, bankReference: Option<Text>, note: Option<Text>, paidAt: Option<Text>)

  function PaymentKeys(): seq<Text> {
    [Ascii("version"), Ascii("orderId"), Ascii("direction"), Ascii("purpose"), Ascii("paymentMethod"),
     Ascii("amount"), Ascii("externalReference"), Ascii("bankReference"), Ascii("note"), Ascii("paidAt")]
  }

  function PaymentValues(c: PaymentCommand): seq<Value> {
    [Num(Finite(false, [1], 1)), Str(c.orderId), Str(c.direction), Str(c.purpose), Str(c.paymentMethod),
     Num(c.amount), OrNull(c.externalReference), OrNull(c.bankReference), OrNull(c.note), OrNull(c.paidAt)]
  }

  function PaymentFields(c: PaymentCommand): seq<Field> {
    Record(PaymentKeys(), PaymentValues(c))
  }

  lemma PaymentKeysDistinct()
    ensures Distinct(PaymentKeys())
  {
    Differ("version", "orderId", 0);
    Differ("version", "purpose", 0);
    Differ("orderId", "purpose", 0);
    Differ("paymentMethod", "bankReference", 0);
    Differ("amount", "paidAt", 0);
  }

  lemma PaymentValuesTellApart(a: PaymentCommand, b: PaymentCommand)
    requires forall i :: 0 <= i < 10 ==> SameJson(PaymentValues(a)[i], PaymentValues(b)[i])
    requires a.amount.Finite? && b.amount.Finite?
    ensures a == b
  {
    var v, w := PaymentValues(a), PaymentValues(b);
    assert SameJson(v[1], w[1]) && SameJson(v[2], w[2]) && SameJson(v[3], w[3]) && SameJson(v[4], w[4]);
    assert SameJson(v[5], w[5]) && SameJson(v[6], w[6]) && SameJson(v[7], w[7]);
    assert SameJson(v[8], w[8]) && SameJson(v[9], w[9]);
  }

  lemma SamePayment(a: PaymentCommand, b: PaymentCommand)
    requires a.amount.Finite? && ValidNumber(a.amount) && b.amount.Finite?
    ensures SameJson(Obj(PaymentFields(a)), Obj(PaymentFields(b))) <==> a == b
  {
    PaymentKeysDistinct();
    RecordsCompare(PaymentKeys(), PaymentValues(a), PaymentValues(b));
    if SameJson(Obj(PaymentFields(a)), Obj(PaymentFields(b))) {
      PaymentValuesTellApart(a, b);
    }
    if a == b {
      PaymentIsPlain(a);
      SameAsItself(Obj(PaymentFields(a)));
    }
  }

  lemma PaymentIsPlain(c: PaymentCommand)
    requires c.amount.Finite? && ValidNumber(c.amount)
    ensures WellFormed(Obj(PaymentFields(c))) && Plain(Obj(PaymentFields(c)))
    ensures forall k :: k in PaymentKeys() <==> Has(PaymentFields(c), k)
  {
    PaymentKeysDistinct();
    PaymentValuesPlain(c);
    RecordIsPlain(PaymentKeys(), PaymentValues(c));
    RecordKeys(PaymentKeys(), PaymentValues(c));
  }

  lemma PaymentValuesPlain(c: PaymentCommand)
    requires c.amount.Finite? && ValidNumber(c.amount)
    ensures Undefined !in PaymentValues(c)
    ensures forall i :: 0 <= i < 10 ==> WellFormed(PaymentValues(c)[i]) && Plain(PaymentValues(c)[i])
  {
  }

  /**
   * The finance printer sorts keys by locale, so `order` is any fixed arrangement of the keys of the command.
   * The hashed texts of two manual payments are equal exactly when the commands are.
   */
  lemma PaymentFingerprintIsFaithful(order: seq<Text>, a: PaymentCommand, b: PaymentCommand)
    requires a.amount.Finite? && ValidNumber(a.amount) && b.amount.Finite? && ValidNumber(b.amount)
    requires forall k :: k in order <==> k in PaymentKeys()
    ensures WellFormed(Obj(PaymentFields(a))) && WellFormed(Obj(PaymentFields(b)))
    ensures forall k :: k in order ==> Has(PaymentFields(a), k) && Has(PaymentFields(b), k)
    ensures Join(PrintMembers(PaymentFields(a), order)) == Join(PrintMembers(PaymentFields(b), order)) <==> a == b
  {
    PaymentIsPlain(a);
    PaymentIsPlain(b);
    SamePayment(a, b);
    FixedOrderIsFaithful(PaymentFields(a), PaymentFields(b), order);
  }
}
