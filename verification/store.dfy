/** The two collections as mutable state, and the route handlers that change them, each
    proved against the function that specifies it. */
module Storefront {
  import opened Results
  import opened Products
  import opened Orders
  import opened Slugs
  import opened Database
  import Placement
  import Lifecycle
  import Catalog

  class Store {
    var products: map<Id, ProductDoc>
    var orders: map<Id, Order>

    function Snapshot(): Db
      reads this
    {
      Db(products, orders)
    }

    ghost predicate Valid()
      reads this
    {
      ValidDb(Snapshot())
    }

    constructor Empty()
      ensures products == map[] && orders == map[]
      ensures Valid()
    {
      products := map[];
      orders := map[];
    }

    /** POST `/api/orders`: a placed order is stored under a fresh identifier. */
    method PlaceOrder(req: Placement.OrderRequest, wilayas: map<string, Placement.Rates>, newId: Id)
      returns (r: Result<Order, Placement.PlaceError>)
      requires newId !in orders
      modifies this`orders
      ensures r == Placement.PlaceOrder(req, old(products), wilayas)
      ensures products == old(products)
      ensures orders == if r.Success? then old(orders)[newId := r.value] else old(orders)
      ensures old(Valid()) ==> Valid()
    {
      r := Placement.PlaceOrder(req, products, wilayas);
      if r.Success? {
        orders := orders[newId := r.value];
      }
    }

    /** PUT `/api/orders/:id/status`: check the status, load the order, and when stock moves
        load the product, find the variant, check and move its stock, refresh `basePrice`
        and save; only then write the order's status. */
    method UpdateStatus(orderId: Id, status: string) returns (r: Result<Order, Lifecycle.StatusError>)
      modifies this
      ensures Lifecycle.Step(r, Snapshot()) == Lifecycle.Transition(old(Snapshot()), orderId, status)
      ensures old(Valid()) ==> Valid()
    {
      ghost var before := Snapshot();
      var target := ParseStatus(status);
      if target.None? {
        return Failure(Lifecycle.InvalidStatus);
      }
      if orderId !in orders {
        return Failure(Lifecycle.OrderNotFound);
      }
      var order := orders[orderId];
      if order.status == target.value {
        assert orders[orderId := order] == orders;
        return Success(order);
      }
      var decreasing := target.value == Confirmed;
      var restoring := (order.status == Confirmed || order.status == Shipped) && target.value == Cancelled;
      if decreasing || restoring {
        var effect := if decreasing then Lifecycle.Decrease else Lifecycle.Restore;
        assert effect == Lifecycle.EffectOf(order.status, target.value);
        if order.product !in products {
          return Failure(Lifecycle.ProductNotFound);
        }
        var stored := products[order.product];
        var product := new Product.Load(stored);
        if order.variantSku == "" {
          return Failure(Lifecycle.MissingVariantSku);
        }
        var found := FindSku(product.variants, order.variantSku);
        if found.None? {
          return Failure(Lifecycle.VariantNotFound);
        }
        var i := found.value;
        var stock := product.variants[i].stock;
        if decreasing {
          if stock < order.quantity {
            return Failure(Lifecycle.InsufficientStock);
          }
          product.SetStock(i, stock - order.quantity);
        } else {
          product.SetStock(i, stock + order.quantity);
        }
        assert product.Doc() == stored.(variants := stored.variants[i := stored.variants[i].(stock := Lifecycle.Applied(stock, effect, order.quantity))]);
        product.RefreshBasePrice();
        var ok := product.Save();
        if !ok {
          return Failure(Lifecycle.ProductSaveFailed);
        }
        assert Lifecycle.AdjustProduct(stored, order.variantSku, effect, order.quantity) == Success(product.Doc());
        products := products[order.product := product.Doc()];
      }
      var updated := order.(status := target.value);
      orders := orders[orderId := updated];
      r := Success(updated);
      if ValidDb(before) {
        Lifecycle.TransitionPreservesValidDb(before, orderId, status);
      }
    }

    /** POST `/api/products`: the required keys, the slug and its collision loop over the
        stored slugs, the name conflict, then the document and `save`. `slug` is the
        candidate the loop settled on. */
    method CreateProduct(req: Catalog.ProductRequest, newId: Id) returns (r: Result<ProductDoc, Catalog.ProductError>, slug: string)
      requires newId !in products
      modifies this`products
      ensures r == Catalog.CreateOutcome(req, old(products), slug)
      ensures Catalog.HasNameAndPrice(req) ==> FirstFreeCandidate(slug, Slugify(req.name.value), SlugsOf(old(products)))
      ensures products == if r.Success? then old(products)[newId := r.value] else old(products)
      ensures orders == old(orders)
      ensures old(Valid()) ==> Valid()
    {
      r, slug := BuildProduct(req, products);
      if r.Success? {
        ghost var before := Snapshot();
        products := products[newId := r.value];
        assert ValidDb(before) ==> Valid() by {
          if ValidDb(before) {
            Catalog.CreateKeepsValid(before, req, slug, newId, r.value);
          }
        }
      }
    }

    /** PUT `/api/products/:id`. */
    method UpdateProduct(id: Id, patch: Catalog.ProductPatch) returns (r: Result<ProductDoc, Catalog.ProductError>)
      modifies this`products
      ensures r == Catalog.UpdateOutcome(old(products), id, patch)
      ensures products == if r.Success? then old(products)[id := r.value] else old(products)
      ensures orders == old(orders)
      ensures old(Valid()) ==> Valid()
    {
      var body := Catalog.WithRegeneratedSlug(patch);
      if !Catalog.PatchValid(body) {
        return Failure(Catalog.ValidationFailed);
      }
      if id !in products {
        return Failure(Catalog.ProductNotFound);
      }
      var updated := Catalog.Merge(products[id], body);
      if Catalog.SlugHeldByOther(products, id, updated.slug) {
        return Failure(Catalog.DuplicateSlug);
      }
      r := Success(updated);
      assert r == Catalog.UpdateOutcome(products, id, patch);
      if ValidDb(Snapshot()) {
        Catalog.UpdateKeepsValid(Snapshot(), id, patch);
      }
      products := products[id := updated];
    }

    /** DELETE `/api/products/:id`. */
    method DeleteProduct(id: Id) returns (r: Result<map<Id, ProductDoc>, Catalog.ProductError>)
      modifies this`products
      ensures r == Catalog.DeleteOutcome(old(products), id)
      ensures products == if r.Success? then r.value else old(products)
      ensures orders == old(orders)
      ensures old(Valid()) ==> Valid()
    {
      r := Catalog.DeleteOutcome(products, id);
      if r.Success? {
        if old(Valid()) {
          Catalog.DeleteKeepsValid(Snapshot(), id);
        }
        products := r.value;
      }
    }
  }

  /** The part of the POST route that reads the catalogue: the required keys, the
      collision loop, the name conflict, then the document built from the request and
      `save` on it. Nothing is written. */
  method BuildProduct(req: Catalog.ProductRequest, products: map<Id, ProductDoc>) returns (r: Result<ProductDoc, Catalog.ProductError>, slug: string)
    ensures r == Catalog.CreateOutcome(req, products, slug)
    ensures Catalog.HasNameAndPrice(req) ==> FirstFreeCandidate(slug, Slugify(req.name.value), SlugsOf(products))
  {
    if !Catalog.HasNameAndPrice(req) {
      return Failure(Catalog.MissingNameOrPrice), "";
    }
    var name := req.name.value;
    slug := FreeSlug(Slugify(name), SlugsOf(products));
    if Catalog.NameTakenIn(products, name) {
      return Failure(Catalog.NameTaken), slug;
    }
    var doc := Catalog.Instantiate(Catalog.DataFor(req, slug));
    if doc.None? {
      return Failure(Catalog.ValidationFailed), slug;
    }
    var product := new Product.Load(doc.value);
    var ok := product.Save();
    if !ok {
      return Failure(Catalog.ValidationFailed), slug;
    }
    r := Success(product.Doc());
  }
}
