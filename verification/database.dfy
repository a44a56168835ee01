/** The two collections the core reads and writes: products and orders by identifier. */
module Database {
  import opened Products
  import opened Orders

  datatype Db = Db(products: map<Id, ProductDoc>, orders: map<Id, Order>)

  /** The slugs in use, which the collision loop must avoid. */
  function SlugsOf(products: map<Id, ProductDoc>): set<string>
  {
    set id | id in products :: products[id].slug
  }

  /** The unique index on `slug`. */
  predicate UniqueSlugs(products: map<Id, ProductDoc>)
  {
    forall a, b :: a in products && b in products && products[a].slug == products[b].slug ==> a == b
  }

  /** What holds of every state the core leaves behind: stored documents satisfy their
      schemas and slugs are unique. */
  predicate ValidDb(db: Db)
  {
    && (forall id :: id in db.products ==> StoredProduct(db.products[id]))
    && UniqueSlugs(db.products)
    && (forall id :: id in db.orders ==> ValidOrder(db.orders[id]))
  }
}
