/** The product document of Product.js: variants, schema validators and the pre-save hook. */
module Products {
  import opened Results
  import opened Text

  type Id = string

  /** A variant sub-document as stored. */
  datatype Variant = Variant(
    name: string,
    sku: string,
    price: int,
    stock: int,
    images: seq<string>,
    isDefault: bool)

  /** A variant as it arrives in a request body; `None` is an absent key. */
  datatype VariantInput = VariantInput(
    name: Option<string>,
    sku: Option<string>,
    price: Option<int>,
    stock: Option<int>,
    images: Option<seq<string>>,
    isDefault: Option<bool>)

  /** The variant validators: `name` and `sku` required, `price` and `stock` at least 0. */
  predicate ValidVariant(v: Variant)
  {
    v.name != "" && v.sku != "" && v.price >= 0 && v.stock >= 0
  }

  /** Building the sub-document: a required key that is absent fails, and the optional
      keys take their defaults, `images` the empty list and `isDefault` false. */
  function CastVariant(vi: VariantInput): (r: Option<Variant>)
    ensures r.Some? <==> vi.name.Some? && vi.sku.Some? && vi.price.Some? && vi.stock.Some?
    ensures r.Some? ==> && r.value.name == vi.name.value && r.value.sku == vi.sku.value
                        && r.value.price == vi.price.value && r.value.stock == vi.stock.value
    ensures r.Some? && vi.images.None? ==> r.value.images == []
    ensures r.Some? && vi.images.Some? ==> r.value.images == vi.images.value
    ensures r.Some? && vi.isDefault.None? ==> !r.value.isDefault
    ensures r.Some? && vi.isDefault.Some? ==> r.value.isDefault == vi.isDefault.value
  {
    if vi.name.Some? && vi.sku.Some? && vi.price.Some? && vi.stock.Some? then
      Some(Variant(vi.name.value, vi.sku.value, vi.price.value, vi.stock.value,
                   vi.images.GetOr([]), vi.isDefault.GetOr(false)))
    else
      None
  }

  /** Casting a list of variants: it fails when one of them fails. */
  function CastVariants(vis: seq<VariantInput>): (r: Option<seq<Variant>>)
    ensures r.Some? <==> forall i :: 0 <= i < |vis| ==> CastVariant(vis[i]).Some?
    ensures r.Some? ==> |r.value| == |vis| && forall i :: 0 <= i < |vis| ==> r.value[i] == CastVariant(vis[i]).value
  {
    if vis == [] then Some([])
    else match (CastVariant(vis[0]), CastVariants(vis[1..]))
      case (Some(v), Some(vs)) => Some([v] + vs)
      case _ => None
  }

  datatype ProductDoc = ProductDoc(
    name: string,
    slug: string,
    description: string,
    brand: string,
    images: seq<string>,
    tags: seq<string>,
    variants: seq<Variant>,
    isFeatured: bool,
    basePrice: int)

  /** The validators `save` runs: the required strings are non-empty, every variant is
      valid, and `basePrice` is at least 0. (An empty `variants` list passes `required`.) */
  predicate PassesValidators(d: ProductDoc)
  {
    && d.name != "" && d.slug != "" && d.description != ""
    && (forall i :: 0 <= i < |d.variants| ==> ValidVariant(d.variants[i]))
    && d.basePrice >= 0
  }

  /** What the setters guarantee of a stored document: `name` trimmed, `slug` lowercase. */
  predicate Normalised(d: ProductDoc)
  {
    IsTrimmed(d.name) && NoUpper(d.slug)
  }

  predicate StoredProduct(d: ProductDoc)
  {
    PassesValidators(d) && Normalised(d)
  }

  /** `variants.find(v => v.sku === sku)`, as an index. */
  function FindSku(vs: seq<Variant>, sku: string): (r: Option<nat>)
    ensures r.Some? ==> r.value < |vs| && vs[r.value].sku == sku
    ensures r.Some? ==> forall j :: 0 <= j < r.value ==> vs[j].sku != sku
    ensures r.None? ==> forall j :: 0 <= j < |vs| ==> vs[j].sku != sku
  {
    if vs == [] then None
    else if vs[0].sku == sku then Some(0)
    else match FindSku(vs[1..], sku)
      case None => None
      case Some(k) => Some(k + 1)
  }

  /** `variants.find(v => v.isDefault)`, as an index. */
  function FindDefault(vs: seq<Variant>): (r: Option<nat>)
    ensures r.Some? ==> r.value < |vs| && vs[r.value].isDefault
    ensures r.Some? ==> forall j :: 0 <= j < r.value ==> !vs[j].isDefault
    ensures r.None? ==> forall j :: 0 <= j < |vs| ==> !vs[j].isDefault
  {
    if vs == [] then None
    else if vs[0].isDefault then Some(0)
    else match FindDefault(vs[1..])
      case None => None
      case Some(k) => Some(k + 1)
  }

  /** The lookup by SKU sees only the SKUs. */
  lemma FindSkuBySkus(vs: seq<Variant>, ws: seq<Variant>, sku: string)
    requires |vs| == |ws| && forall j :: 0 <= j < |vs| ==> vs[j].sku == ws[j].sku
    ensures FindSku(vs, sku) == FindSku(ws, sku)
  {
  }

  /** The lookup of the default sees only the `isDefault` marks. */
  lemma FindDefaultByMarks(vs: seq<Variant>, ws: seq<Variant>)
    requires |vs| == |ws| && forall j :: 0 <= j < |vs| ==> vs[j].isDefault == ws[j].isDefault
    ensures FindDefault(vs) == FindDefault(ws)
  {
  }

  /** `variants.find(v => v.isDefault) || variants[0]`, as an index. */
  function DefaultIndex(vs: seq<Variant>): (i: nat)
    requires |vs| > 0
    ensures i < |vs|
  {
    match FindDefault(vs)
    case Some(k) => k
    case None => 0
  }

  /** The price the hook gives `basePrice`: unchanged when there are no variants. */
  function DerivedBasePrice(vs: seq<Variant>, current: int): int
  {
    if |vs| > 0 then vs[DefaultIndex(vs)].price else current
  }

  /** The document after the pre-save hook. */
  function AfterPreSave(d: ProductDoc): ProductDoc
  {
    d.(basePrice := DerivedBasePrice(d.variants, d.basePrice))
  }

  /** What `save` stores: validation runs before the hook, and a document that fails
      it is not stored. */
  function Persisted(d: ProductDoc): Option<ProductDoc>
  {
    if PassesValidators(d) then Some(AfterPreSave(d)) else None
  }

  /** `i` is the first variant marked `isDefault`. */
  predicate FirstMarked(vs: seq<Variant>, i: int)
  {
    0 <= i < |vs| && vs[i].isDefault && forall j :: 0 <= j < i ==> !vs[j].isDefault
  }

  predicate NoneMarked(vs: seq<Variant>)
  {
    forall j :: 0 <= j < |vs| ==> !vs[j].isDefault
  }

  /** With variants, the hook takes the price of the first `isDefault` variant, or of
      the first variant when none is marked; without variants it keeps `basePrice`.
      Only `basePrice` changes. */
  lemma PreSaveBasePrice(d: ProductDoc)
    ensures var s := AfterPreSave(d);
      && s == d.(basePrice := s.basePrice)
      && (d.variants == [] ==> s.basePrice == d.basePrice)
      && (forall i :: FirstMarked(d.variants, i) ==> s.basePrice == d.variants[i].price)
      && (NoneMarked(d.variants) && d.variants != [] ==> s.basePrice == d.variants[0].price)
  {
    if d.variants != [] {
      var k := FindDefault(d.variants);
      forall i | FirstMarked(d.variants, i)
        ensures AfterPreSave(d).basePrice == d.variants[i].price
      {
        assert k.Some?;
      }
    }
  }

  /** The hook does not enforce a single default: with two marked variants the first wins. */
  lemma FirstOfSeveralDefaultsWins(a: Variant, b: Variant, d: ProductDoc)
    requires a.isDefault && b.isDefault && d.variants == [a, b]
    ensures AfterPreSave(d).basePrice == a.price
  {
  }

  /** Running the hook twice is running it once. */
  lemma PreSaveIdempotent(d: ProductDoc)
    ensures AfterPreSave(AfterPreSave(d)) == AfterPreSave(d)
  {
  }

  /** When every variant has a non-negative price, so does `basePrice` after the hook, and
      a document that passed validation still passes it once the hook has run. */
  lemma PreSaveKeepsValidity(d: ProductDoc)
    requires PassesValidators(d)
    ensures PassesValidators(AfterPreSave(d)) && AfterPreSave(d).basePrice >= 0
  {
  }

  /** A product document loaded into memory: the route and the hook assign its fields. */
  class Product {
    var name: string
    var slug: string
    var description: string
    var brand: string
    var images: seq<string>
    var tags: seq<string>
    var variants: seq<Variant>
    var isFeatured: bool
    var basePrice: int

    function Doc(): ProductDoc
      reads this
    {
      ProductDoc(name, slug, description, brand, images, tags, variants, isFeatured, basePrice)
    }

    /** A document built from stored or freshly cast values. */
    constructor Load(d: ProductDoc)
      ensures Doc() == d
    {
      name, slug, description, brand := d.name, d.slug, d.description, d.brand;
      images, tags, variants := d.images, d.tags, d.variants;
      isFeatured, basePrice := d.isFeatured, d.basePrice;
    }

    /** `variant.stock = stock` on the `i`-th variant; nothing else changes. */
    method SetStock(i: nat, stock: int)
      requires i < |variants|
      modifies this`variants
      ensures variants == old(variants)[i := old(variants)[i].(stock := stock)]
      ensures Doc() == old(Doc()).(variants := variants)
    {
      variants := variants[i := variants[i].(stock := stock)];
    }

    /** `basePrice := (find isDefault || variants[0]).price` when there is a variant. */
    method RefreshBasePrice()
      modifies this`basePrice
      ensures Doc() == AfterPreSave(old(Doc()))
    {
      if |variants| > 0 {
        var i := DefaultIndex(variants);
        basePrice := variants[i].price;
      }
    }

    /** `save()`: validate, then run the pre-save hook. On a failed validation nothing
        changes and the hook does not run. */
    method Save() returns (ok: bool)
      modifies this`basePrice
      ensures ok == PassesValidators(old(Doc()))
      ensures Doc() == if ok then AfterPreSave(old(Doc())) else old(Doc())
      ensures ok ==> Persisted(old(Doc())) == Some(Doc())
    {
      ok := PassesValidators(Doc());
      if ok {
        RefreshBasePrice();
      }
    }
  }
}
