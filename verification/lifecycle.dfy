/** The status update of order.routes.js (PUT `/:id/status`) as a function of the stored
    state: which transitions move stock, the checks that abort them, and what is written. */
module Lifecycle {
  import opened Results
  import opened Products
  import opened Orders
  import opened Database

  datatype StatusError =
    | InvalidStatus
    | OrderNotFound
    | ProductNotFound
    | MissingVariantSku
    | VariantNotFound
    | InsufficientStock
    | ProductSaveFailed

  /** What a transition does to the variant's stock. */
  datatype StockEffect = Decrease | Restore | Keep

  /** Every move into `confirmed` takes stock; a move from `confirmed` or `shipped` into
      `cancelled` gives it back; nothing else touches it. No transition graph is enforced. */
  function EffectOf(previous: Status, target: Status): StockEffect
  {
    if target == Confirmed then Decrease
    else if (previous == Confirmed || previous == Shipped) && target == Cancelled then Restore
    else Keep
  }

  /** The stock after the effect, for an order of `quantity`. */
  function Applied(stock: int, e: StockEffect, quantity: int): int
  {
    match e
    case Decrease => stock - quantity
    case Restore => stock + quantity
    case Keep => stock
  }

  /** The product side of a stock-moving transition: find the variant by the order's SKU,
      check the stock for a decrease, move it, refresh `basePrice` (the route, then the
      hook) and save. */
  function AdjustProduct(p: ProductDoc, sku: string, e: StockEffect, quantity: int): (r: Result<ProductDoc, StatusError>)
    requires e != Keep
    ensures r.Success? ==> FindSku(p.variants, sku).Some?
    ensures r.Success? ==>
      var i := FindSku(p.variants, sku).value;
      r.value == AfterPreSave(p.(variants := p.variants[i := p.variants[i].(stock := Applied(p.variants[i].stock, e, quantity))]))
    ensures r == Failure(MissingVariantSku) <==> sku == ""
    ensures r == Failure(VariantNotFound) <==> sku != "" && FindSku(p.variants, sku).None?
    ensures r == Failure(InsufficientStock) <==>
      sku != "" && FindSku(p.variants, sku).Some? && e == Decrease && p.variants[FindSku(p.variants, sku).value].stock < quantity
  {
    if sku == "" then Failure(MissingVariantSku)
    else match FindSku(p.variants, sku)
      case None => Failure(VariantNotFound)
      case Some(i) =>
        var v := p.variants[i];
        if e == Decrease && v.stock < quantity then Failure(InsufficientStock)
        else
          var moved := p.(variants := p.variants[i := v.(stock := Applied(v.stock, e, quantity))]);
          var refreshed := AfterPreSave(moved);
          PreSaveIdempotent(moved);
          match Persisted(refreshed)
          case None => Failure(ProductSaveFailed)
          case Some(saved) => Success(saved)
  }

  /** The outcome of a request and the state it leaves. */
  datatype Step = Step(result: Result<Order, StatusError>, db: Db)

  function Transition(db: Db, orderId: Id, status: string): (s: Step)
    ensures s.result.Failure? ==> s.db == db
    ensures ParseStatus(status).None? ==> s.result == Failure(InvalidStatus)
    ensures s.result.Success? ==>
      && ParseStatus(status).Some? && orderId in db.orders
      && s.result.value == db.orders[orderId].(status := ParseStatus(status).value)
      && s.db.orders == db.orders[orderId := s.result.value]
    ensures s.db.products.Keys == db.products.Keys && s.db.orders.Keys == db.orders.Keys
    ensures ParseStatus(status).Some? && orderId !in db.orders ==> s.result == Failure(OrderNotFound)
    ensures (&& ParseStatus(status).Some? && orderId in db.orders
             && db.orders[orderId].status != ParseStatus(status).value
             && EffectOf(db.orders[orderId].status, ParseStatus(status).value) != Keep
             && db.orders[orderId].product !in db.products)
            ==> s.result == Failure(ProductNotFound)
  {
    match ParseStatus(status)
    case None => Step(Failure(InvalidStatus), db)
    case Some(target) =>
      if orderId !in db.orders then Step(Failure(OrderNotFound), db)
      else
        var order := db.orders[orderId];
        if order.status == target then
          assert db.orders[orderId := order] == db.orders;
          Step(Success(order), db)
        else
          var e := EffectOf(order.status, target);
          var updated := order.(status := target);
          if e == Keep then
            Step(Success(updated), db.(orders := db.orders[orderId := updated]))
          else if order.product !in db.products then
            Step(Failure(ProductNotFound), db)
          else
            match AdjustProduct(db.products[order.product], order.variantSku, e, order.quantity)
            case Failure(err) => Step(Failure(err), db)
            case Success(p) =>
              Step(Success(updated), Db(db.products[order.product := p], db.orders[orderId := updated]))
  }

  /** The product `pid` with the stock of its `i`-th variant moved by `e`, after the
      `basePrice` refresh. */
  function MovedProduct(p: ProductDoc, i: nat, e: StockEffect, quantity: int): ProductDoc
    requires i < |p.variants|
  {
    AfterPreSave(p.(variants := p.variants[i := p.variants[i].(stock := Applied(p.variants[i].stock, e, quantity))]))
  }

  /** A saved stock change never fails on a valid state: the decrease is guarded, so the
      stock stays non-negative, and the refreshed `basePrice` is a variant price. */
  lemma {:induction false} AdjustOnStoredProduct(p: ProductDoc, sku: string, e: StockEffect, quantity: int)
    requires e != Keep && StoredProduct(p) && quantity >= 1
    requires sku != "" && FindSku(p.variants, sku).Some?
    requires e == Decrease ==> p.variants[FindSku(p.variants, sku).value].stock >= quantity
    ensures AdjustProduct(p, sku, e, quantity) == Success(MovedProduct(p, FindSku(p.variants, sku).value, e, quantity))
    ensures StoredProduct(MovedProduct(p, FindSku(p.variants, sku).value, e, quantity))
  {
    var i := FindSku(p.variants, sku).value;
    var v := p.variants[i];
    var moved := p.(variants := p.variants[i := v.(stock := Applied(v.stock, e, quantity))]);
    assert ValidVariant(moved.variants[i]);
    assert forall j :: 0 <= j < |moved.variants| ==> ValidVariant(moved.variants[j]);
    PreSaveKeepsValidity(moved);
    PreSaveKeepsValidity(AfterPreSave(moved));
    PreSaveIdempotent(moved);
    assert Persisted(AfterPreSave(moved)) == Some(AfterPreSave(moved));
  }

  /** Sending the status an order already has returns it unchanged and writes nothing. */
  lemma SameStatusIsNoOp(db: Db, orderId: Id)
    requires orderId in db.orders
    ensures var o := db.orders[orderId];
      Transition(db, orderId, StatusName(o.status)) == Step(Success(o), db)
  {
    StatusRoundTrip(db.orders[orderId].status);
  }

  /** A transition that moves no stock, successful or not, leaves every product as it was. */
  lemma {:induction false} KeepTouchesNoProduct(db: Db, orderId: Id, status: string)
    requires orderId in db.orders && ParseStatus(status).Some?
    requires EffectOf(db.orders[orderId].status, ParseStatus(status).value) == Keep
    ensures Transition(db, orderId, status).db.products == db.products
    ensures Transition(db, orderId, status).result.Success?
  {
  }

  /** A stock-moving transition is decided by the product side alone. */
  lemma MovingStep(db: Db, orderId: Id, status: string, target: Status)
    requires orderId in db.orders && ParseStatus(status) == Some(target)
    requires db.orders[orderId].status != target && EffectOf(db.orders[orderId].status, target) != Keep
    requires db.orders[orderId].product in db.products
    ensures var o := db.orders[orderId];
      var adjusted := AdjustProduct(db.products[o.product], o.variantSku, EffectOf(o.status, target), o.quantity);
      Transition(db, orderId, status) ==
        if adjusted.Failure? then Step(Failure(adjusted.error), db)
        else Step(Success(o.(status := target)), Db(db.products[o.product := adjusted.value], db.orders[orderId := o.(status := target)]))
  {
  }

  /** Confirming an order whose variant holds too little stock fails and writes nothing. */
  lemma {:induction false} ConfirmShortOfStock(db: Db, orderId: Id, status: string)
    requires ParseStatus(status) == Some(Confirmed)
    requires orderId in db.orders
    requires db.orders[orderId].status != Confirmed && db.orders[orderId].variantSku != ""
    requires db.orders[orderId].product in db.products
    requires var p := db.products[db.orders[orderId].product];
      var i := FindSku(p.variants, db.orders[orderId].variantSku);
      i.Some? && p.variants[i.value].stock < db.orders[orderId].quantity
    ensures Transition(db, orderId, status) == Step(Failure(InsufficientStock), db)
  {
    MovingStep(db, orderId, status, Confirmed);
  }

  /** Confirming an order whose variant holds enough stock takes exactly `quantity` from
      that variant, refreshes the product's `basePrice`, leaves every other product alone,
      and sets the order's status. */
  lemma {:induction false} ConfirmTakesStock(db: Db, orderId: Id, status: string)
    requires ParseStatus(status) == Some(Confirmed)
    requires orderId in db.orders && ValidOrder(db.orders[orderId])
    requires db.orders[orderId].status != Confirmed
    requires db.orders[orderId].product in db.products && StoredProduct(db.products[db.orders[orderId].product])
    requires var p := db.products[db.orders[orderId].product];
      var i := FindSku(p.variants, db.orders[orderId].variantSku);
      i.Some? && p.variants[i.value].stock >= db.orders[orderId].quantity
    ensures var o := db.orders[orderId];
      var p := db.products[o.product];
      var i := FindSku(p.variants, o.variantSku).value;
      var s := Transition(db, orderId, status);
      && s.result == Success(o.(status := Confirmed))
      && s.db.products == db.products[o.product := MovedProduct(p, i, Decrease, o.quantity)]
      && s.db.products[o.product].variants[i].stock == p.variants[i].stock - o.quantity
  {
    var o := db.orders[orderId];
    var p := db.products[o.product];
    assert o.quantity >= 1 && o.variantSku != "" by { assert ValidOrder(o); }
    assert StoredProduct(p);
    MovingStep(db, orderId, status, Confirmed);
    AdjustOnStoredProduct(p, o.variantSku, Decrease, o.quantity);
  }

  /** Cancelling a `confirmed` or `shipped` order gives the matched variant its `quantity`
      back. */
  lemma {:induction false} CancelReturnsStock(db: Db, orderId: Id, status: string)
    requires ParseStatus(status) == Some(Cancelled)
    requires orderId in db.orders && ValidOrder(db.orders[orderId])
    requires db.orders[orderId].status in {Confirmed, Shipped}
    requires db.orders[orderId].product in db.products && StoredProduct(db.products[db.orders[orderId].product])
    requires var p := db.products[db.orders[orderId].product];
      FindSku(p.variants, db.orders[orderId].variantSku).Some?
    ensures var o := db.orders[orderId];
      var p := db.products[o.product];
      var i := FindSku(p.variants, o.variantSku).value;
      var s := Transition(db, orderId, status);
      && s.result == Success(o.(status := Cancelled))
      && s.db.products == db.products[o.product := MovedProduct(p, i, Restore, o.quantity)]
      && s.db.products[o.product].variants[i].stock == p.variants[i].stock + o.quantity
  {
    var o := db.orders[orderId];
    var p := db.products[o.product];
    assert EffectOf(o.status, Cancelled) == Restore;
    assert o.quantity >= 1 && o.variantSku != "" by { assert ValidOrder(o); }
    assert StoredProduct(p);
    var i := FindSku(p.variants, o.variantSku).value;
    MovingStep(db, orderId, status, Cancelled);
    AdjustOnStoredProduct(p, o.variantSku, Restore, o.quantity);
    var moved := MovedProduct(p, i, Restore, o.quantity);
    assert Transition(db, orderId, status).db.products == db.products[o.product := moved];
    assert moved.variants[i].stock == p.variants[i].stock + o.quantity;
  }

  /** Moving a variant's stock changes no SKU, price or default mark, so the product
      keeps its SKU lookups and the hook's price: a moved product is the refreshed
      original with one stock changed. */
  lemma MovedProductShape(p: ProductDoc, i: nat, e: StockEffect, quantity: int, sku: string)
    requires i < |p.variants|
    ensures var v := p.variants[i];
      MovedProduct(p, i, e, quantity) == AfterPreSave(p).(variants := p.variants[i := v.(stock := Applied(v.stock, e, quantity))])
    ensures FindSku(MovedProduct(p, i, e, quantity).variants, sku) == FindSku(p.variants, sku)
  {
    var v := p.variants[i];
    var vs := p.variants[i := v.(stock := Applied(v.stock, e, quantity))];
    FindDefaultByMarks(vs, p.variants);
    assert DefaultIndex(vs) == DefaultIndex(p.variants);
    FindSkuBySkus(vs, p.variants, sku);
  }

  /** The product side written back to a valid state leaves it valid: the documents still
      satisfy their schemas and no slug changes. */
  lemma ProductWriteKeepsValid(db: Db, pid: Id, q: ProductDoc, orderId: Id, o: Order)
    requires ValidDb(db) && pid in db.products && orderId in db.orders
    requires StoredProduct(q) && q.slug == db.products[pid].slug && ValidOrder(o)
    ensures ValidDb(Db(db.products[pid := q], db.orders[orderId := o]))
  {
    var ps := db.products[pid := q];
    forall a, b | a in ps && b in ps && ps[a].slug == ps[b].slug
      ensures a == b
    {
      assert ps[a].slug == db.products[a].slug && ps[b].slug == db.products[b].slug;
    }
  }

  /** On a valid state the product save never fails, so `ProductSaveFailed` is unreachable. */
  lemma {:induction false} ValidStateNeverFailsSave(db: Db, orderId: Id, status: string)
    requires ValidDb(db)
    ensures Transition(db, orderId, status).result != Failure(ProductSaveFailed)
  {
    if ParseStatus(status).Some? && orderId in db.orders {
      var target := ParseStatus(status).value;
      var o := db.orders[orderId];
      var e := EffectOf(o.status, target);
      if o.status != target && e != Keep && o.product in db.products {
        var p := db.products[o.product];
        assert o.quantity >= 1 && o.variantSku != "" by { assert ValidOrder(o); }
        assert StoredProduct(p);
        MovingStep(db, orderId, status, target);
        if FindSku(p.variants, o.variantSku).Some? && (e == Decrease ==> p.variants[FindSku(p.variants, o.variantSku).value].stock >= o.quantity) {
          AdjustOnStoredProduct(p, o.variantSku, e, o.quantity);
        }
      }
    }
  }

  /** Every transition maps a valid state to a valid state. */
  lemma {:induction false} TransitionPreservesValidDb(db: Db, orderId: Id, status: string)
    requires ValidDb(db)
    ensures ValidDb(Transition(db, orderId, status).db)
  {
    var s := Transition(db, orderId, status);
    if s.result.Success? {
      var target := ParseStatus(status).value;
      var o := db.orders[orderId];
      assert ValidOrder(o);
      StatusWriteKeepsValid(o, target);
      var e := EffectOf(o.status, target);
      if o.status == target || e == Keep {
        assert s.db == Db(db.products, db.orders[orderId := o.(status := target)]);
      } else {
        var p := db.products[o.product];
        assert o.quantity >= 1 && o.variantSku != "";
        assert StoredProduct(p);
        MovingStep(db, orderId, status, target);
        var i := FindSku(p.variants, o.variantSku).value;
        AdjustOnStoredProduct(p, o.variantSku, e, o.quantity);
        ProductWriteKeepsValid(db, o.product, MovedProduct(p, i, e, o.quantity), orderId, o.(status := target));
      }
    }
  }

  /** A transition writes at most the order's own product, and a product it writes has its
      `basePrice` refreshed from the variants it now holds. */
  lemma {:induction false} TransitionTouchesOneProduct(db: Db, orderId: Id, status: string)
    requires orderId in db.orders
    ensures var s := Transition(db, orderId, status);
      forall id :: id in db.products && id != db.orders[orderId].product ==> s.db.products[id] == db.products[id]
    ensures var s := Transition(db, orderId, status);
      var pid := db.orders[orderId].product;
      pid in db.products && s.db.products[pid] != db.products[pid] ==>
        && s.result.Success?
        && AfterPreSave(s.db.products[pid]) == s.db.products[pid]
        && s.db.products[pid] == s.db.products[pid].(basePrice := DerivedBasePrice(s.db.products[pid].variants, 0))
  {
    var s := Transition(db, orderId, status);
    var o := db.orders[orderId];
    if s.result.Success? && o.product in db.products && s.db.products[o.product] != db.products[o.product] {
      var target := ParseStatus(status).value;
      var e := EffectOf(o.status, target);
      assert o.status != target && e != Keep;
      MovingStep(db, orderId, status, target);
      var q := s.db.products[o.product];
      PreSaveIdempotent(q);
      assert |q.variants| > 0;
    }
  }

  /** On the product alone, restoring what a decrease took gives back the document the
      decrease started from, up to the `basePrice` refresh. */
  lemma RestoreUndoesDecrease(p: ProductDoc, sku: string, i: nat, quantity: int)
    requires StoredProduct(p) && quantity >= 1 && sku != ""
    requires i < |p.variants| && FindSku(p.variants, sku) == Some(i) && p.variants[i].stock >= quantity
    ensures AdjustProduct(MovedProduct(p, i, Decrease, quantity), sku, Restore, quantity) == Success(AfterPreSave(p))
  {
    var p1 := MovedProduct(p, i, Decrease, quantity);
    AdjustOnStoredProduct(p, sku, Decrease, quantity);
    DecreaseThenRestore(p, i, quantity, sku);
    AdjustOnStoredProduct(p1, sku, Restore, quantity);
  }

  /** The two moves cancel out on the variants, and neither changes where the SKU is. */
  lemma DecreaseThenRestore(p: ProductDoc, i: nat, quantity: int, sku: string)
    requires i < |p.variants|
    ensures var p1 := MovedProduct(p, i, Decrease, quantity);
      && FindSku(p1.variants, sku) == FindSku(p.variants, sku)
      && MovedProduct(p1, i, Restore, quantity) == AfterPreSave(p)
  {
    var v := p.variants[i];
    var taken := v.(stock := v.stock - quantity);
    var p1 := MovedProduct(p, i, Decrease, quantity);
    MovedProductShape(p, i, Decrease, quantity, sku);
    assert p1.variants == p.variants[i := taken];
    MovedProductShape(p1, i, Restore, quantity, sku);
    PutBack(p.variants, i, taken);
  }

  lemma PutBack(vs: seq<Variant>, i: nat, w: Variant)
    requires i < |vs|
    ensures vs[i := w][i := vs[i]] == vs
  {
  }

  /** The cancellation half of the round trip: restoring the stock the confirmation took
      gives back the variants the product had before it. */
  lemma {:induction false} CancelUndoesConfirm(db1: Db, orderId: Id, cancel: string, o: Order, p: ProductDoc, i: nat)
    requires ParseStatus(cancel) == Some(Cancelled)
    requires StoredProduct(p) && o.quantity >= 1 && o.variantSku != ""
    requires i < |p.variants| && FindSku(p.variants, o.variantSku) == Some(i) && p.variants[i].stock >= o.quantity
    requires orderId in db1.orders && db1.orders[orderId] == o.(status := Confirmed)
    requires o.product in db1.products && db1.products[o.product] == MovedProduct(p, i, Decrease, o.quantity)
    ensures Transition(db1, orderId, cancel) ==
      Step(Success(o.(status := Cancelled)),
           Db(db1.products[o.product := AfterPreSave(p)], db1.orders[orderId := o.(status := Cancelled)]))
  {
    assert EffectOf(Confirmed, Cancelled) == Restore;
    MovingStep(db1, orderId, cancel, Cancelled);
    RestoreUndoesDecrease(p, o.variantSku, i, o.quantity);
    assert o.(status := Confirmed).(status := Cancelled) == o.(status := Cancelled);
  }

  /** Confirming and then cancelling an order whose variant has the stock gives the
      variant its stock back: the product is the original with only `basePrice` refreshed,
      and the order ends `cancelled`. */
  lemma {:induction false} ConfirmThenCancelRestoresStock(db: Db, orderId: Id, confirm: string, cancel: string)
    requires ParseStatus(confirm) == Some(Confirmed) && ParseStatus(cancel) == Some(Cancelled)
    requires orderId in db.orders && ValidOrder(db.orders[orderId])
    requires db.orders[orderId].status != Confirmed
    requires db.orders[orderId].product in db.products && StoredProduct(db.products[db.orders[orderId].product])
    requires var p := db.products[db.orders[orderId].product];
      var i := FindSku(p.variants, db.orders[orderId].variantSku);
      i.Some? && p.variants[i.value].stock >= db.orders[orderId].quantity
    ensures var o := db.orders[orderId];
      var s1 := Transition(db, orderId, confirm);
      var s2 := Transition(s1.db, orderId, cancel);
      && s1.result.Success? && s2.result == Success(o.(status := Cancelled))
      && s2.db.products == db.products[o.product := AfterPreSave(db.products[o.product])]
      && s2.db.orders == db.orders[orderId := o.(status := Cancelled)]
  {
    var o := db.orders[orderId];
    var p := db.products[o.product];
    var i := FindSku(p.variants, o.variantSku).value;
    var cancelled := o.(status := Cancelled);
    assert o.quantity >= 1 && o.variantSku != "" by {
      assert ValidOrder(o);
    }
    var ps1 := db.products[o.product := MovedProduct(p, i, Decrease, o.quantity)];
    var os1 := db.orders[orderId := o.(status := Confirmed)];
    assert Transition(db, orderId, confirm) == Step(Success(o.(status := Confirmed)), Db(ps1, os1)) by {
      MovingStep(db, orderId, confirm, Confirmed);
      AdjustOnStoredProduct(p, o.variantSku, Decrease, o.quantity);
    }
    CancelUndoesConfirm(Db(ps1, os1), orderId, cancel, o, p, i);
    OverwriteTwice(db.products, o.product, MovedProduct(p, i, Decrease, o.quantity), AfterPreSave(p));
    OverwriteTwice(db.orders, orderId, o.(status := Confirmed), cancelled);
  }

  lemma OverwriteTwice<K, V>(m: map<K, V>, k: K, a: V, b: V)
    ensures m[k := a][k := b] == m[k := b]
  {
  }

  /** The change to a variant's stock that one transition makes, for an order of
      `quantity`; a request for the current status makes none. */
  function StockDelta(previous: Status, target: Status, quantity: int): int
  {
    if previous == target then 0 else Applied(0, EffectOf(previous, target), quantity)
  }

  /** The total change along a sequence of statuses an order is moved through. */
  function NetStockChange(path: seq<Status>, quantity: int): int
  {
    if |path| < 2 then 0 else StockDelta(path[0], path[1], quantity) + NetStockChange(path[1..], quantity)
  }

  /** A hypothetical forward workflow, which the handler does not enforce (it accepts any
      status after any other): pending to confirmed or cancelled, confirmed to shipped or
      cancelled, shipped to delivered or cancelled, or staying put. */
  predicate ForwardMove(previous: Status, target: Status)
  {
    || previous == target
    || (previous == Pending && target in {Confirmed, Cancelled})
    || (previous == Confirmed && target in {Shipped, Cancelled})
    || (previous == Shipped && target in {Delivered, Cancelled})
  }

  /** The statuses at which the order's quantity is out of stock. */
  predicate HoldsStock(st: Status)
  {
    st in {Confirmed, Shipped, Delivered}
  }

  function Held(st: Status, quantity: int): int
  {
    if HoldsStock(st) then quantity else 0
  }

  /** Along forward moves the stock is conserved: an order takes its quantity exactly
      while it is confirmed, shipped or delivered. */
  lemma {:induction false} ForwardPathsConserveStock(path: seq<Status>, quantity: int)
    requires |path| >= 1
    requires forall k :: 0 <= k < |path| - 1 ==> ForwardMove(path[k], path[k + 1])
    ensures NetStockChange(path, quantity) == Held(path[0], quantity) - Held(path[|path| - 1], quantity)
  {
    if |path| >= 2 {
      var rest := path[1..];
      assert forall k :: 0 <= k < |rest| ==> rest[k] == path[k + 1];
      ForwardPathsConserveStock(rest, quantity);
      assert rest[|rest| - 1] == path[|path| - 1];
    }
  }

  /** Outside the forward workflow, which the handler allows, the stock is not conserved: confirming a shipped order
      takes its quantity a second time, and cancelling a delivered order gives nothing
      back. */
  lemma UnrestrictedMovesDoNotConserve(quantity: int)
    ensures NetStockChange([Pending, Confirmed, Shipped, Confirmed], quantity) == -2 * quantity
    ensures NetStockChange([Pending, Confirmed, Shipped, Delivered, Cancelled], quantity) == -quantity
    ensures NetStockChange([Pending, Confirmed, Cancelled, Confirmed, Cancelled], quantity) == 0
  {
    var q := quantity;
    assert NetStockChange([Shipped, Confirmed], q) == -q;
    assert NetStockChange([Confirmed, Shipped, Confirmed], q) == -q by {
      assert [Confirmed, Shipped, Confirmed][1..] == [Shipped, Confirmed];
    }
    assert [Pending, Confirmed, Shipped, Confirmed][1..] == [Confirmed, Shipped, Confirmed];

    assert NetStockChange([Delivered, Cancelled], q) == 0;
    assert NetStockChange([Shipped, Delivered, Cancelled], q) == 0 by {
      assert [Shipped, Delivered, Cancelled][1..] == [Delivered, Cancelled];
    }
    assert NetStockChange([Confirmed, Shipped, Delivered, Cancelled], q) == 0 by {
      assert [Confirmed, Shipped, Delivered, Cancelled][1..] == [Shipped, Delivered, Cancelled];
    }
    assert [Pending, Confirmed, Shipped, Delivered, Cancelled][1..] == [Confirmed, Shipped, Delivered, Cancelled];

    assert NetStockChange([Confirmed, Cancelled], q) == q;
    assert NetStockChange([Cancelled, Confirmed, Cancelled], q) == 0 by {
      assert [Cancelled, Confirmed, Cancelled][1..] == [Confirmed, Cancelled];
    }
    assert NetStockChange([Confirmed, Cancelled, Confirmed, Cancelled], q) == q by {
      assert [Confirmed, Cancelled, Confirmed, Cancelled][1..] == [Cancelled, Confirmed, Cancelled];
    }
    assert [Pending, Confirmed, Cancelled, Confirmed, Cancelled][1..] == [Confirmed, Cancelled, Confirmed, Cancelled];
  }

  /** One successful transition moves the matched variant's stock by exactly the step's
      delta, so a sequence of successful requests moves it by the net change. */
  lemma {:induction false} TransitionMovesStockByDelta(db: Db, orderId: Id, status: string)
    requires orderId in db.orders && ValidOrder(db.orders[orderId])
    requires ParseStatus(status).Some?
    requires db.orders[orderId].product in db.products && StoredProduct(db.products[db.orders[orderId].product])
    requires var p := db.products[db.orders[orderId].product];
      FindSku(p.variants, db.orders[orderId].variantSku).Some?
    requires Transition(db, orderId, status).result.Success?
    ensures var o := db.orders[orderId];
      var p := db.products[o.product];
      var i := FindSku(p.variants, o.variantSku).value;
      var q := Transition(db, orderId, status).db.products[o.product];
      && i < |q.variants|
      && q.variants[i].stock == p.variants[i].stock + StockDelta(o.status, ParseStatus(status).value, o.quantity)
  {
    var o := db.orders[orderId];
    var p := db.products[o.product];
    var target := ParseStatus(status).value;
    var e := EffectOf(o.status, target);
    if o.status != target && e != Keep {
      assert o.quantity >= 1 && o.variantSku != "";
      MovingStep(db, orderId, status, target);
      var i := FindSku(p.variants, o.variantSku).value;
      if e == Decrease {
        assert p.variants[i].stock >= o.quantity;
      }
      AdjustOnStoredProduct(p, o.variantSku, e, o.quantity);
    }
  }
}
