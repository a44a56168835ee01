/** Order placement (POST of order.routes.js): required fields, phone check, variant
    lookup by SKU, price snapshot and shipping fee. */
module Placement {
  import opened Results
  import opened Products
  import opened Orders
  import opened Phones
  import opened Text

  /** The request body; `None` is an absent key. */
  datatype OrderRequest = OrderRequest(
    productId: Option<string>,
    variantSku: Option<string>,
    quantity: Option<int>,
    customerName: Option<string>,
    customerPhone: Option<string>,
    customerEmail: Option<string>,
    wilaya: Option<string>,
    deliveryType: Option<string>,
    address: Option<string>,
    note: Option<string>)

  /** A string key that is present and truthy. */
  predicate Filled(s: Option<string>) { s.Some? && s.value != "" }

  /** None of the eight required keys is absent or falsy. */
  predicate RequiredPresent(req: OrderRequest)
  {
    && Filled(req.productId) && Filled(req.variantSku)
    && req.quantity.Some? && req.quantity.value != 0
    && Filled(req.customerName) && Filled(req.customerPhone) && Filled(req.wilaya)
    && Filled(req.deliveryType) && Filled(req.address)
  }

  datatype PlaceError = MissingFields | InvalidPhone | ProductNotFound | VariantNotFound | UnknownWilaya | ValidationFailed

  /** The two fees of a wilaya (the shipping reference data). */
  datatype Rates = Rates(prixDomicile: int, prixAgence: int)

  const FreeShippingThreshold := 20000

  /** The fee for the requested delivery: home delivery for `domicile`, and the agency fee
      for any other value. */
  function ChosenFee(deliveryType: string, rates: Rates): int
  {
    if deliveryType == "domicile" then rates.prixDomicile else rates.prixAgence
  }

  datatype Quote = Quote(subtotal: int, shippingFee: int, totalPrice: int)

  function QuoteFor(unitPrice: int, quantity: int, deliveryType: string, rates: Rates): Quote
  {
    var subtotal := unitPrice * quantity;
    var fee := if subtotal >= FreeShippingThreshold then 0 else ChosenFee(deliveryType, rates);
    Quote(subtotal, fee, subtotal + fee)
  }

  /** At or above the threshold shipping is free whatever the wilaya and delivery type;
      below it the fee is the wilaya's fee for the delivery type; the total is always the
      subtotal plus the fee. */
  lemma ShippingRule(unitPrice: int, quantity: int, deliveryType: string, rates: Rates)
    ensures var q := QuoteFor(unitPrice, quantity, deliveryType, rates);
      && q.subtotal == unitPrice * quantity
      && (q.subtotal >= FreeShippingThreshold ==> q.shippingFee == 0)
      && (q.subtotal < FreeShippingThreshold && deliveryType == "domicile" ==> q.shippingFee == rates.prixDomicile)
      && (q.subtotal < FreeShippingThreshold && deliveryType != "domicile" ==> q.shippingFee == rates.prixAgence)
      && q.totalPrice == q.subtotal + q.shippingFee
  {
  }

  /** A variant at 5000 bought three times, home delivery at 500: 15000 + 500. */
  lemma QuoteExample()
    ensures QuoteFor(5000, 3, "domicile", Rates(500, 400)) == Quote(15000, 500, 15500)
    ensures QuoteFor(5000, 4, "agence", Rates(500, 400)) == Quote(20000, 0, 20000)
  {
  }

  /** The fee of a stored delivery type. */
  function FeeFor(dt: DeliveryType, rates: Rates): int
  {
    match dt
    case Domicile => rates.prixDomicile
    case Agence => rates.prixAgence
  }

  /** The price snapshot of an order against the variant list and fees it was priced from. */
  predicate PricedFrom(o: Order, variants: seq<Variant>, rates: Rates)
  {
    var found := FindSku(variants, o.variantSku);
    var subtotal := o.unitPrice * o.quantity;
    && found.Some? && o.unitPrice == variants[found.value].price
    && o.shippingFee == (if subtotal >= FreeShippingThreshold then 0 else FeeFor(o.deliveryType, rates))
    && o.totalPrice == subtotal + o.shippingFee
  }

  /** The request's customer fields as the order's setters store them: trimmed, the
      e-mail lowercase, the wilaya uppercase, and `''` for an absent e-mail or note. */
  predicate CustomerFieldsFrom(o: Order, req: OrderRequest)
    requires RequiredPresent(req)
  {
    && o.customerName == Trim(req.customerName.value)
    && o.customerPhone == Trim(req.customerPhone.value)
    && o.customerEmail == Lower(Trim(req.customerEmail.GetOr("")))
    && o.wilaya == Upper(req.wilaya.value)
    && o.address == Trim(req.address.value)
    && o.note == Trim(req.note.GetOr(""))
  }

  /** When the priced document passes the order validators, in terms of the request: a
      delivery type in the enum, a quantity of at least 1, prices that are not negative
      and a customer name that is not blank. The other required fields are already known
      to be filled. */
  predicate Admissible(req: OrderRequest, unitPrice: int, rates: Rates)
    requires RequiredPresent(req)
  {
    var q := QuoteFor(unitPrice, req.quantity.value, req.deliveryType.value, rates);
    && ParseDelivery(req.deliveryType.value).Some?
    && req.quantity.value >= 1
    && unitPrice >= 0 && q.shippingFee >= 0 && q.totalPrice >= 0
    && Trim(req.customerName.value) != ""
  }

  /** A valid phone is not blank once trimmed. */
  lemma ValidPhoneNotBlank(phone: string)
    requires ValidAlgerianPhone(phone)
    ensures Trim(phone) != ""
  {
    TrimKeepsValid(phone);
    assert Clean(Trim(phone)) != "";
  }

  /** Pricing against the found variant and the wilaya's fees, then building and
      validating the order document. */
  function PriceAndBuild(req: OrderRequest, variants: seq<Variant>, i: nat, rates: Rates): (r: Option<Order>)
    requires RequiredPresent(req) && ValidAlgerianPhone(req.customerPhone.value)
    requires FindSku(variants, req.variantSku.value) == Some(i)
    ensures r.Some? <==> Admissible(req, variants[i].price, rates)
    ensures r.Some? ==>
      && ValidOrder(r.value) && r.value.status == Pending
      && ValidAlgerianPhone(r.value.customerPhone)
      && r.value.product == req.productId.value && r.value.variantSku == req.variantSku.value
      && r.value.quantity == req.quantity.value
      && DeliveryName(r.value.deliveryType) == req.deliveryType.value
      && PricedFrom(r.value, variants, rates)
      && CustomerFieldsFrom(r.value, req)
  {
    var quantity := req.quantity.value;
    var q := QuoteFor(variants[i].price, quantity, req.deliveryType.value, rates);
    var draft := OrderDraft(
      req.productId.value, req.variantSku.value, Some(quantity), variants[i].price,
      q.shippingFee, q.totalPrice, req.customerName.value, req.customerPhone.value,
      Some(req.customerEmail.GetOr("")), req.wilaya.value, req.deliveryType.value,
      Some(req.address.value), Some(req.note.GetOr("")));
    var r := NewOrder(draft);
    ValidPhoneNotBlank(req.customerPhone.value);
    assert ParseDelivery(req.deliveryType.value).Some? ==>
      var o := Defaulted(draft, ParseDelivery(req.deliveryType.value).value);
      PassesOrderValidators(o) == Admissible(req, variants[i].price, rates);
    if r.Some? then
      var o := r.value;
      TrimKeepsValid(req.customerPhone.value);
      assert o.unitPrice == variants[i].price && o.quantity == quantity && o.variantSku == req.variantSku.value;
      assert o.unitPrice * o.quantity == q.subtotal;
      assert ChosenFee(req.deliveryType.value, rates) == FeeFor(o.deliveryType, rates);
      assert PricedFrom(o, variants, rates);
      r
    else
      r
  }

  /** The handler, up to the save: `wilayas` is the shipping lookup, keyed by the requested
      wilaya name. The checks come in the route's order: required fields, phone, product,
      variant, wilaya, then the order validators. */
  function PlaceOrder(req: OrderRequest, products: map<Id, ProductDoc>, wilayas: map<string, Rates>): (r: Result<Order, PlaceError>)
    ensures !RequiredPresent(req) ==> r == Failure(MissingFields)
    ensures RequiredPresent(req) && !ValidAlgerianPhone(req.customerPhone.value) ==> r == Failure(InvalidPhone)
    ensures r == Failure(ProductNotFound) <==>
      && RequiredPresent(req) && ValidAlgerianPhone(req.customerPhone.value)
      && req.productId.value !in products
    ensures r == Failure(VariantNotFound) <==>
      && RequiredPresent(req) && ValidAlgerianPhone(req.customerPhone.value) && req.productId.value in products
      && FindSku(products[req.productId.value].variants, req.variantSku.value).None?
    ensures r == Failure(UnknownWilaya) <==>
      && RequiredPresent(req) && ValidAlgerianPhone(req.customerPhone.value) && req.productId.value in products
      && FindSku(products[req.productId.value].variants, req.variantSku.value).Some?
      && req.wilaya.value !in wilayas
    ensures r == Failure(ValidationFailed) <==>
      && RequiredPresent(req) && ValidAlgerianPhone(req.customerPhone.value) && req.productId.value in products
      && FindSku(products[req.productId.value].variants, req.variantSku.value).Some?
      && req.wilaya.value in wilayas
      && !Admissible(req, products[req.productId.value].variants[FindSku(products[req.productId.value].variants, req.variantSku.value).value].price,
                     wilayas[req.wilaya.value])
    ensures r.Success? <==>
      && RequiredPresent(req) && ValidAlgerianPhone(req.customerPhone.value) && req.productId.value in products
      && FindSku(products[req.productId.value].variants, req.variantSku.value).Some?
      && req.wilaya.value in wilayas
      && Admissible(req, products[req.productId.value].variants[FindSku(products[req.productId.value].variants, req.variantSku.value).value].price,
                    wilayas[req.wilaya.value])
    ensures r.Success? ==>
      && ValidOrder(r.value) && r.value.status == Pending
      && ValidAlgerianPhone(r.value.customerPhone)
      && r.value.product == req.productId.value && r.value.variantSku == req.variantSku.value
      && r.value.quantity == req.quantity.value
      && DeliveryName(r.value.deliveryType) == req.deliveryType.value
      && PricedFrom(r.value, products[req.productId.value].variants, wilayas[req.wilaya.value])
      && CustomerFieldsFrom(r.value, req)
  {
    if !RequiredPresent(req) then Failure(MissingFields)
    else if !ValidAlgerianPhone(req.customerPhone.value) then Failure(InvalidPhone)
    else if req.productId.value !in products then Failure(ProductNotFound)
    else
      var variants := products[req.productId.value].variants;
      match FindSku(variants, req.variantSku.value)
      case None => Failure(VariantNotFound)
      case Some(i) =>
        if req.wilaya.value !in wilayas then Failure(UnknownWilaya)
        else
          match PriceAndBuild(req, variants, i, wilayas[req.wilaya.value])
          case None => Failure(ValidationFailed)
          case Some(o) => Success(o)
  }
}
