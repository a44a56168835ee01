/** The product routes of product.routes.js (POST, PUT and DELETE on `/api/products`) as
    functions of the stored catalogue and the request body. */
module Catalog {
  import opened Results
  import opened Text
  import opened Products
  import opened Slugs
  import opened Database

  /** The POST body; `None` is an absent key. `stock`, `specs` and `discount` are read by
      the route but are not paths of the schema. */
  datatype ProductRequest = ProductRequest(
    name: Option<string>,
    description: Option<string>,
    basePrice: Option<int>,
    brand: Option<string>,
    images: Option<seq<string>>,
    variants: Option<seq<VariantInput>>,
    stock: Option<int>,
    specs: Option<map<string, string>>,
    discount: Option<int>,
    isFeatured: Option<bool>)

  datatype ProductError =
    | MissingNameOrPrice
    | NameTaken
    | ValidationFailed
    | ProductNotFound
    | DuplicateSlug

  /** `name` and `basePrice` are present and truthy: a non-empty string and a non-zero
      number. */
  predicate HasNameAndPrice(req: ProductRequest)
  {
    req.name.Some? && req.name.value != "" && req.basePrice.Some? && req.basePrice.value != 0
  }

  /** The object literal handed to `new Product(...)`. */
  datatype ProductData = ProductData(
    name: string,
    slug: string,
    description: Option<string>,
    basePrice: int,
    brand: string,
    images: seq<string>,
    variants: seq<VariantInput>,
    stock: int,
    specs: map<string, string>,
    discount: int,
    isFeatured: bool)

  /** `x || default` on each optional key. For these types the falsy values (`''`, `0`,
      `false`) are the defaults themselves, so an absent key is the only one that changes. */
  function DataFor(req: ProductRequest, slug: string): ProductData
    requires HasNameAndPrice(req)
  {
    ProductData(req.name.value, slug, req.description, req.basePrice.value,
                req.brand.GetOr(""), req.images.GetOr([]), req.variants.GetOr([]),
                req.stock.GetOr(0), req.specs.GetOr(map[]), req.discount.GetOr(0),
                req.isFeatured.GetOr(false))
  }

  /** The defaults of the POST route for absent keys. */
  lemma AbsentKeysTakeDefaults(req: ProductRequest, slug: string)
    requires HasNameAndPrice(req)
    ensures var data := DataFor(req, slug);
      && (req.brand.None? ==> data.brand == "")
      && (req.images.None? ==> data.images == [])
      && (req.variants.None? ==> data.variants == [])
      && (req.stock.None? ==> data.stock == 0)
      && (req.specs.None? ==> data.specs == map[])
      && (req.discount.None? ==> data.discount == 0)
      && (req.isFeatured.None? ==> !data.isFeatured)
    ensures var data := DataFor(req, slug);
      && (req.brand.Some? ==> data.brand == req.brand.value)
      && (req.variants.Some? ==> data.variants == req.variants.value)
      && (req.isFeatured.Some? ==> data.isFeatured == req.isFeatured.value)
      && data.name == req.name.value && data.slug == slug && data.basePrice == req.basePrice.value
  {
  }

  /** `new Product(data)`: cast the variants, apply the `trim` and `lowercase` setters,
      give `tags` its default, and drop the keys that are not schema paths. An absent
      `description` stays unset, which the `required` validator rejects like `''`. */
  function Instantiate(data: ProductData): (r: Option<ProductDoc>)
    ensures r.Some? <==> CastVariants(data.variants).Some?
    ensures r.Some? ==>
      && r.value.name == Trim(data.name) && IsTrimmed(r.value.name)
      && r.value.slug == Lower(data.slug) && NoUpper(r.value.slug)
      && r.value.tags == [] && r.value.basePrice == data.basePrice
      && r.value.brand == data.brand && r.value.images == data.images
      && r.value.isFeatured == data.isFeatured
      && r.value.description == data.description.GetOr("")
      && r.value.variants == CastVariants(data.variants).value
  {
    match CastVariants(data.variants)
    case None => None
    case Some(vs) =>
      LowerFixedPoint(Lower(data.slug));
      LowerIdempotent(data.slug);
      Some(ProductDoc(Trim(data.name), Lower(data.slug), data.description.GetOr(""), data.brand,
                      data.images, [], vs, data.isFeatured, data.basePrice))
  }

  /** Strict mode: `stock`, `specs` and `discount` never reach the document. */
  lemma StrictModeDropsExtras(data: ProductData, stock: int, specs: map<string, string>, discount: int)
    ensures Instantiate(data.(stock := stock, specs := specs, discount := discount)) == Instantiate(data)
  {
  }

  /** `findOne({ name: /^name$/i })`: some stored name equals `name` up to the case of
      ASCII letters. */
  predicate NameTakenIn(products: map<Id, ProductDoc>, name: string)
  {
    exists id :: id in products && Lower(products[id].name) == Lower(name)
  }

  /** The POST route after the collision loop has chosen `slug`: the required-key check,
      the name conflict, the document built from the defaults, and `save`. */
  function CreateOutcome(req: ProductRequest, products: map<Id, ProductDoc>, slug: string): (r: Result<ProductDoc, ProductError>)
    ensures !HasNameAndPrice(req) ==> r == Failure(MissingNameOrPrice)
    ensures HasNameAndPrice(req) && NameTakenIn(products, req.name.value) ==> r == Failure(NameTaken)
    ensures r.Success? ==> HasNameAndPrice(req) && !NameTakenIn(products, req.name.value) && StoredProduct(r.value)
    ensures r.Success? <==>
      && HasNameAndPrice(req) && !NameTakenIn(products, req.name.value)
      && Instantiate(DataFor(req, slug)).Some? && PassesValidators(Instantiate(DataFor(req, slug)).value)
    ensures r.Success? ==> r.value == AfterPreSave(Instantiate(DataFor(req, slug)).value)
  {
    if !HasNameAndPrice(req) then Failure(MissingNameOrPrice)
    else if NameTakenIn(products, req.name.value) then Failure(NameTaken)
    else match Instantiate(DataFor(req, slug))
      case None => Failure(ValidationFailed)
      case Some(doc) =>
        match Persisted(doc)
        case None => Failure(ValidationFailed)
        case Some(saved) =>
          PreSaveKeepsValidity(doc);
          Success(saved)
  }

  /** Past the two checks, creation fails exactly when the variants do not cast or the
      document fails the schema validators. */
  lemma CreateValidationFailure(req: ProductRequest, products: map<Id, ProductDoc>, slug: string)
    ensures CreateOutcome(req, products, slug) == Failure(ValidationFailed) <==>
      && HasNameAndPrice(req) && !NameTakenIn(products, req.name.value)
      && (Instantiate(DataFor(req, slug)).None? || !PassesValidators(Instantiate(DataFor(req, slug)).value))
  {
  }

  /** What a created product holds: the trimmed name, the chosen slug, the defaults for
      absent keys, and the `basePrice` of the hook, which overrides the one in the body as
      soon as there is a variant. */
  lemma CreatedProduct(req: ProductRequest, products: map<Id, ProductDoc>, slug: string)
    requires CreateOutcome(req, products, slug).Success?
    ensures var d := CreateOutcome(req, products, slug).value;
      && d.name == Trim(req.name.value) && d.slug == Lower(slug)
      && d.brand == req.brand.GetOr("") && d.images == req.images.GetOr([])
      && d.isFeatured == req.isFeatured.GetOr(false) && d.tags == []
      && d.basePrice == DerivedBasePrice(d.variants, req.basePrice.value)
      && (req.variants.None? ==> d.variants == [] && d.basePrice == req.basePrice.value)
      && (req.variants.Some? ==> d.variants == CastVariants(req.variants.value).value)
      && d.description == req.description.GetOr("")
  {
  }

  /** A created product takes the first free candidate of its name's slug, so it keeps the
      slugs unique; the stored slug is that candidate unchanged by the `lowercase` setter. */
  lemma {:induction false} CreatedSlugIsFree(req: ProductRequest, products: map<Id, ProductDoc>, slug: string, newId: Id)
    requires HasNameAndPrice(req) && UniqueSlugs(products) && newId !in products
    requires FirstFreeCandidate(slug, Slugify(req.name.value), SlugsOf(products))
    requires CreateOutcome(req, products, slug).Success?
    ensures CreateOutcome(req, products, slug).value.slug == slug
    ensures UniqueSlugs(products[newId := CreateOutcome(req, products, slug).value])
  {
    var base := Slugify(req.name.value);
    var n: nat :| slug == Candidate(base, n) && forall j: nat :: j < n ==> Candidate(base, j) in SlugsOf(products);
    SlugifyIsSlug(req.name.value);
    CandidateChars(base, n);
    SlugIsLowercase(slug);
  }

  /** A successful creation keeps the whole state valid. */
  lemma CreateKeepsValid(db: Db, req: ProductRequest, slug: string, newId: Id, d: ProductDoc)
    requires ValidDb(db) && newId !in db.products && HasNameAndPrice(req)
    requires FirstFreeCandidate(slug, Slugify(req.name.value), SlugsOf(db.products))
    requires CreateOutcome(req, db.products, slug) == Success(d)
    ensures ValidDb(Db(db.products[newId := d], db.orders))
  {
    var ps := db.products[newId := d];
    assert UniqueSlugs(ps) by {
      CreatedSlugIsFree(req, db.products, slug, newId);
    }
    assert forall id :: id in ps ==> StoredProduct(ps[id]) by {
      assert StoredProduct(d);
    }
  }

  /** The PUT body, restricted to the schema paths; `None` is an absent key. */
  datatype ProductPatch = ProductPatch(
    name: Option<string>,
    slug: Option<string>,
    description: Option<string>,
    basePrice: Option<int>,
    brand: Option<string>,
    images: Option<seq<string>>,
    tags: Option<seq<string>>,
    variants: Option<seq<VariantInput>>,
    isFeatured: Option<bool>)

  /** `if (productData.name) productData.slug = slugify(name)`: a truthy name replaces any
      slug in the body; otherwise the body is left as it is. */
  function WithRegeneratedSlug(patch: ProductPatch): (r: ProductPatch)
    ensures patch.name.Some? && patch.name.value != "" ==> r.slug == Some(Slugify(patch.name.value))
    ensures patch.name.None? || patch.name.value == "" ==> r == patch
    ensures r.(slug := patch.slug) == patch
  {
    if patch.name.Some? && patch.name.value != "" then patch.(slug := Some(Slugify(patch.name.value)))
    else patch
  }

  /** The update validators (`runValidators`), which run only on the paths in the body:
      `required` strings stay non-empty after their setters, `basePrice` is at least 0 and
      every variant casts and validates. */
  predicate PatchValid(patch: ProductPatch)
  {
    && (patch.name.Some? ==> Trim(patch.name.value) != "")
    && (patch.slug.Some? ==> patch.slug.value != "")
    && (patch.description.Some? ==> patch.description.value != "")
    && (patch.basePrice.Some? ==> patch.basePrice.value >= 0)
    && (patch.variants.Some? ==>
          && CastVariants(patch.variants.value).Some?
          && forall i :: 0 <= i < |patch.variants.value| ==> ValidVariant(CastVariants(patch.variants.value).value[i]))
  }

  /** `findByIdAndUpdate`: the paths in the body replace the stored ones through their
      setters; the pre-save hook does not run, so `basePrice` is whatever the body says or
      what was stored. */
  function Merge(d: ProductDoc, patch: ProductPatch): (r: ProductDoc)
    requires PatchValid(patch)
    ensures patch.name.None? ==> r.name == d.name
    ensures patch.name.Some? ==> r.name == Trim(patch.name.value)
    ensures patch.slug.None? ==> r.slug == d.slug
    ensures patch.slug.Some? ==> r.slug == Lower(patch.slug.value)
    ensures patch.variants.None? ==> r.variants == d.variants
    ensures patch.variants.Some? ==> r.variants == CastVariants(patch.variants.value).value
    ensures r.basePrice == patch.basePrice.GetOr(d.basePrice)
    ensures && r.description == patch.description.GetOr(d.description)
            && r.brand == patch.brand.GetOr(d.brand) && r.images == patch.images.GetOr(d.images)
            && r.tags == patch.tags.GetOr(d.tags) && r.isFeatured == patch.isFeatured.GetOr(d.isFeatured)
  {
    ProductDoc(
      if patch.name.Some? then Trim(patch.name.value) else d.name,
      if patch.slug.Some? then Lower(patch.slug.value) else d.slug,
      patch.description.GetOr(d.description),
      patch.brand.GetOr(d.brand),
      patch.images.GetOr(d.images),
      patch.tags.GetOr(d.tags),
      if patch.variants.Some? then CastVariants(patch.variants.value).value else d.variants,
      patch.isFeatured.GetOr(d.isFeatured),
      patch.basePrice.GetOr(d.basePrice))
  }

  /** Merging a valid body into a stored document gives a document that satisfies the
      schema again. */
  lemma MergeKeepsStored(d: ProductDoc, patch: ProductPatch)
    requires PatchValid(patch)
    ensures StoredProduct(d) ==> StoredProduct(Merge(d, patch))
  {
    if patch.slug.Some? {
      LowerFixedPoint(Lower(patch.slug.value));
      LowerIdempotent(patch.slug.value);
    }
  }

  /** Another product already holds `slug`: the unique index rejects the write. */
  predicate SlugHeldByOther(products: map<Id, ProductDoc>, id: Id, slug: string)
  {
    exists other :: other in products && other != id && products[other].slug == slug
  }

  /** The PUT route: validation of the body, then the lookup by id, then the unique index
      on `slug`. */
  function UpdateOutcome(products: map<Id, ProductDoc>, id: Id, patch: ProductPatch): (r: Result<ProductDoc, ProductError>)
    ensures !PatchValid(WithRegeneratedSlug(patch)) ==> r == Failure(ValidationFailed)
    ensures PatchValid(WithRegeneratedSlug(patch)) && id !in products ==> r == Failure(ProductNotFound)
    ensures r == Failure(DuplicateSlug) <==>
      && PatchValid(WithRegeneratedSlug(patch)) && id in products
      && SlugHeldByOther(products, id, Merge(products[id], WithRegeneratedSlug(patch)).slug)
    ensures r.Success? ==>
      && id in products && PatchValid(WithRegeneratedSlug(patch))
      && r.value == Merge(products[id], WithRegeneratedSlug(patch))
      && !SlugHeldByOther(products, id, r.value.slug)
      && (StoredProduct(products[id]) ==> StoredProduct(r.value))
    ensures r.Success? <==>
      && PatchValid(WithRegeneratedSlug(patch)) && id in products
      && !SlugHeldByOther(products, id, Merge(products[id], WithRegeneratedSlug(patch)).slug)
  {
    var p := WithRegeneratedSlug(patch);
    if !PatchValid(p) then Failure(ValidationFailed)
    else if id !in products then Failure(ProductNotFound)
    else
      var d := Merge(products[id], p);
      if SlugHeldByOther(products, id, d.slug) then Failure(DuplicateSlug)
      else
        MergeKeepsStored(products[id], p);
        Success(d)
  }

  /** The slug changes on update only through a truthy `name` (regenerated from it) or an
      explicit `slug` in the body; a body with neither keeps the stored slug. */
  lemma SlugRegeneratedOnlyWithName(products: map<Id, ProductDoc>, id: Id, patch: ProductPatch)
    requires UpdateOutcome(products, id, patch).Success?
    ensures var r := UpdateOutcome(products, id, patch).value;
      && (patch.name.Some? && patch.name.value != "" ==> r.slug == Lower(Slugify(patch.name.value)) == Slugify(patch.name.value))
      && ((patch.name.None? || patch.name.value == "") && patch.slug.None? ==> r.slug == products[id].slug)
  {
    if patch.name.Some? && patch.name.value != "" {
      SlugifyIsSlug(patch.name.value);
      SlugIsLowercase(Slugify(patch.name.value));
    }
  }

  /** The update never recomputes `basePrice`: without `basePrice` in the body it keeps the
      stored value, whatever happens to the variants. */
  lemma UpdateKeepsBasePrice(products: map<Id, ProductDoc>, id: Id, patch: ProductPatch)
    requires UpdateOutcome(products, id, patch).Success? && patch.basePrice.None?
    ensures UpdateOutcome(products, id, patch).value.basePrice == products[id].basePrice
  {
  }

  /** So an update that reprices the default variant leaves `basePrice` at the old price,
      where a `save` would have moved it. */
  lemma UpdateCanDesyncBasePrice()
    ensures var v := Variant("Black", "CAP-B", 2500, 4, [], true);
      var d := ProductDoc("Cap", "cap", "A cap", "", [], [], [v], false, 2500);
      var vi := VariantInput(Some("Black"), Some("CAP-B"), Some(3000), Some(4), None, None);
      var patch := ProductPatch(None, None, None, None, None, None, None, Some([vi]), None);
      var r := UpdateOutcome(map["p1" := d], "p1", patch);
      && r.Success? && r.value.basePrice == 2500
      && AfterPreSave(r.value).basePrice == 3000
  {
    var v := Variant("Black", "CAP-B", 2500, 4, [], true);
    var d := ProductDoc("Cap", "cap", "A cap", "", [], [], [v], false, 2500);
    var vi := VariantInput(Some("Black"), Some("CAP-B"), Some(3000), Some(4), None, None);
    var patch := ProductPatch(None, None, None, None, None, None, None, Some([vi]), None);
    var w := Variant("Black", "CAP-B", 3000, 4, [], false);
    assert CastVariant(vi) == Some(w);
    assert [vi][1..] == [];
    assert [w] + [] == [w];
    assert CastVariants([vi]) == Some([w]);
    var r := Merge(d, patch);
    assert r.variants == [Variant("Black", "CAP-B", 3000, 4, [], false)];
    assert !SlugHeldByOther(map["p1" := d], "p1", r.slug);
    assert FindDefault(r.variants) == None;
  }

  /** A successful update keeps the whole state valid. */
  lemma UpdateKeepsValid(db: Db, id: Id, patch: ProductPatch)
    requires ValidDb(db) && UpdateOutcome(db.products, id, patch).Success?
    ensures ValidDb(Db(db.products[id := UpdateOutcome(db.products, id, patch).value], db.orders))
  {
    var d := UpdateOutcome(db.products, id, patch).value;
    assert StoredProduct(db.products[id]);
    var ps := db.products[id := d];
    forall a, b | a in ps && b in ps && ps[a].slug == ps[b].slug
      ensures a == b
    {
      if a != id && b != id {
        assert db.products[a].slug == db.products[b].slug;
      }
    }
  }

  /** `findByIdAndDelete`: an absent id is reported, a present one removed. */
  function DeleteOutcome(products: map<Id, ProductDoc>, id: Id): (r: Result<map<Id, ProductDoc>, ProductError>)
    ensures r.Failure? <==> id !in products
    ensures r.Failure? ==> r.error == ProductNotFound
    ensures r.Success? ==> r.value.Keys == products.Keys - {id}
    ensures r.Success? ==> forall k :: k in r.value ==> r.value[k] == products[k]
  {
    if id !in products then Failure(ProductNotFound) else Success(products - {id})
  }

  /** Removing a product keeps the catalogue valid; orders that name it stay as they are
      and later find no product. */
  lemma DeleteKeepsValid(db: Db, id: Id)
    requires ValidDb(db) && DeleteOutcome(db.products, id).Success?
    ensures ValidDb(Db(DeleteOutcome(db.products, id).value, db.orders))
    ensures id !in DeleteOutcome(db.products, id).value
  {
  }
}
