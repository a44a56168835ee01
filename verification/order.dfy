/** The order document of Order.js: enum domains, bounds, defaults and setters. */
module Orders {
  import opened Results
  import opened Text
  import Products

  datatype Status = Pending | Confirmed | Shipped | Delivered | Cancelled

  function StatusName(s: Status): string
  {
    match s
    case Pending => "pending"
    case Confirmed => "confirmed"
    case Shipped => "shipped"
    case Delivered => "delivered"
    case Cancelled => "cancelled"
  }

  /** Membership in the five accepted status names. */
  function ParseStatus(s: string): (r: Option<Status>)
    ensures r.Some? ==> StatusName(r.value) == s
    ensures r.None? ==> forall st: Status :: StatusName(st) != s
  {
    if s == "pending" then Some(Pending)
    else if s == "confirmed" then Some(Confirmed)
    else if s == "shipped" then Some(Shipped)
    else if s == "delivered" then Some(Delivered)
    else if s == "cancelled" then Some(Cancelled)
    else None
  }

  lemma StatusRoundTrip(st: Status)
    ensures ParseStatus(StatusName(st)) == Some(st)
  {
    if st == Cancelled {
      assert "cancelled"[1] != "confirmed"[1] && "cancelled"[0] != "delivered"[0];
    } else if st == Delivered {
      assert "delivered"[0] != "confirmed"[0];
    }
  }

  datatype DeliveryType = Domicile | Agence

  function DeliveryName(d: DeliveryType): string
  {
    match d
    case Domicile => "domicile"
    case Agence => "agence"
  }

  /** The `deliveryType` enum validator. */
  function ParseDelivery(s: string): (r: Option<DeliveryType>)
    ensures r.Some? ==> DeliveryName(r.value) == s
    ensures r.None? ==> forall d: DeliveryType :: DeliveryName(d) != s
  {
    if s == "domicile" then Some(Domicile)
    else if s == "agence" then Some(Agence)
    else None
  }

  datatype Order = Order(
    product: Products.Id,
    variantSku: string,
    quantity: int,
    unitPrice: int,
    shippingFee: int,
    totalPrice: int,
    customerName: string,
    customerPhone: string,
    customerEmail: string,
    wilaya: string,
    deliveryType: DeliveryType,
    address: string,
    note: string,
    status: Status)

  /** The validators `save` runs: the required fields are present, `quantity` is at least
      1 and the three prices are at least 0. The enums are the types of `deliveryType` and
      `status`. */
  predicate PassesOrderValidators(o: Order)
  {
    && o.product != "" && o.variantSku != ""
    && o.quantity >= 1
    && o.unitPrice >= 0 && o.shippingFee >= 0 && o.totalPrice >= 0
    && o.customerName != "" && o.customerPhone != "" && o.wilaya != ""
  }

  /** What the setters guarantee: names, phone, e-mail, address and note trimmed, e-mail
      lowercase, wilaya uppercase. */
  predicate OrderNormalised(o: Order)
  {
    && IsTrimmed(o.customerName) && IsTrimmed(o.customerPhone)
    && IsTrimmed(o.customerEmail) && NoUpper(o.customerEmail)
    && NoLower(o.wilaya)
    && IsTrimmed(o.address) && IsTrimmed(o.note)
  }

  /** What every stored order satisfies. */
  predicate ValidOrder(o: Order)
  {
    PassesOrderValidators(o) && OrderNormalised(o)
  }

  /** The values handed to `new Order({...})`; `None` is an absent key. */
  datatype OrderDraft = OrderDraft(
    product: Products.Id,
    variantSku: string,
    quantity: Option<int>,
    unitPrice: int,
    shippingFee: int,
    totalPrice: int,
    customerName: string,
    customerPhone: string,
    customerEmail: Option<string>,
    wilaya: string,
    deliveryType: string,
    address: Option<string>,
    note: Option<string>)

  /** Building and validating the document: defaults for absent keys (`quantity` 1, the
      optional strings empty, `status` pending), then the setters, then the validators.
      `None` is a failed validation. */
  function NewOrder(d: OrderDraft): (r: Option<Order>)
    ensures r.Some? ==> ValidOrder(r.value) && r.value.status == Pending
    ensures r.Some? ==> r.value.quantity == d.quantity.GetOr(1)
    ensures r.Some? ==> ParseDelivery(d.deliveryType) == Some(r.value.deliveryType)
    ensures r.Some? ==> && r.value.product == d.product && r.value.variantSku == d.variantSku
                        && r.value.unitPrice == d.unitPrice && r.value.shippingFee == d.shippingFee
                        && r.value.totalPrice == d.totalPrice
    ensures r.Some? ==> && r.value.customerName == Trim(d.customerName)
                        && r.value.customerPhone == Trim(d.customerPhone)
                        && r.value.customerEmail == Lower(Trim(d.customerEmail.GetOr("")))
                        && r.value.wilaya == Upper(d.wilaya)
                        && r.value.address == Trim(d.address.GetOr(""))
                        && r.value.note == Trim(d.note.GetOr(""))
    ensures r.Some? && d.customerEmail.None? ==> r.value.customerEmail == ""
    ensures r.Some? && d.address.None? ==> r.value.address == ""
    ensures r.Some? && d.note.None? ==> r.value.note == ""
    ensures r.None? <==> ParseDelivery(d.deliveryType).None?
                         || !PassesOrderValidators(Defaulted(d, ParseDelivery(d.deliveryType).value))
  {
    match ParseDelivery(d.deliveryType)
    case None => None
    case Some(dt) =>
      var o := Defaulted(d, dt);
      if PassesOrderValidators(o) then
        DefaultedIsNormalised(d, dt);
        Some(o)
      else
        None
  }

  /** The document before validation, with defaults and setters applied. */
  function Defaulted(d: OrderDraft, dt: DeliveryType): Order
  {
    Order(d.product, d.variantSku, d.quantity.GetOr(1), d.unitPrice, d.shippingFee, d.totalPrice,
          Trim(d.customerName), Trim(d.customerPhone), Lower(Trim(d.customerEmail.GetOr(""))),
          Upper(d.wilaya), dt, Trim(d.address.GetOr("")), Trim(d.note.GetOr("")), Pending)
  }

  /** The setters are what makes a stored order satisfy its normal form: applying them to
      any draft gives trimmed, lowercase and uppercase fields where the schema says so. */
  lemma DefaultedIsNormalised(d: OrderDraft, dt: DeliveryType)
    ensures OrderNormalised(Defaulted(d, dt)) && Defaulted(d, dt).status == Pending
    ensures var o := Defaulted(d, dt);
      && (d.quantity.None? ==> o.quantity == 1)
      && (d.customerEmail.None? ==> o.customerEmail == "")
      && (d.address.None? ==> o.address == "")
      && (d.note.None? ==> o.note == "")
    ensures var o := Defaulted(d, dt);
      && (d.quantity.Some? ==> o.quantity == d.quantity.value)
      && (d.customerEmail.Some? ==> o.customerEmail == Lower(Trim(d.customerEmail.value)))
      && (d.address.Some? ==> o.address == Trim(d.address.value))
      && (d.note.Some? ==> o.note == Trim(d.note.value))
      && o.customerName == Trim(d.customerName) && o.wilaya == Upper(d.wilaya)
  {
    var o := Defaulted(d, dt);
    var e := Trim(d.customerEmail.GetOr(""));
    assert IsTrimmed(o.customerName) && IsTrimmed(o.customerPhone);
    assert IsTrimmed(o.address) && IsTrimmed(o.note);
    LowerKeepsTrimmed(e);
    assert IsTrimmed(o.customerEmail);
    assert NoUpper(o.customerEmail);
    assert NoLower(o.wilaya);
  }

  /** The normal form is what the setters leave alone: a normalised order is a fixed
      point of trimming, lowercasing the e-mail and uppercasing the wilaya. */
  lemma NormalisedIsSetterFixedPoint(o: Order)
    ensures OrderNormalised(o) <==>
      && Trim(o.customerName) == o.customerName && Trim(o.customerPhone) == o.customerPhone
      && Lower(Trim(o.customerEmail)) == o.customerEmail
      && Upper(o.wilaya) == o.wilaya
      && Trim(o.address) == o.address && Trim(o.note) == o.note
  {
    TrimFixedPoint(o.customerName);
    TrimFixedPoint(o.customerPhone);
    TrimFixedPoint(o.customerEmail);
    TrimFixedPoint(o.address);
    TrimFixedPoint(o.note);
    LowerFixedPoint(o.customerEmail);
    UpperFixedPoint(o.wilaya);
    var e := Trim(o.customerEmail);
    if Lower(e) == o.customerEmail {
      LowerFixedPoint(Lower(e));
      LowerIdempotent(e);
      assert |e| == |o.customerEmail|;
      assert e == o.customerEmail by {
        TrimFixedPoint(e);
        assert IsTrimmed(Lower(e));
      }
    }
  }

  /** A status write keeps an order valid and changes nothing but its status. */
  lemma StatusWriteKeepsValid(o: Order, st: Status)
    requires ValidOrder(o)
    ensures ValidOrder(o.(status := st)) && o.(status := st).status == st
  {
  }
}
