# Storefront order and catalogue core, in Dafny

This project models the core of an Express/Mongoose storefront backend. That core has five parts.

- **Order placement.** `POST /api/orders` checks the required fields and recognises Algerian mobile numbers. It looks up the chosen variant by SKU and snapshots its price. It then applies the wilaya's shipping fee, which is waived from a subtotal of 20000. Finally it builds the order document.
- **Order status update.** `PUT /api/orders/:id/status` moves an order between `pending`, `confirmed`, `shipped`, `delivered` and `cancelled`. Moving into `confirmed` takes the ordered quantity from the variant's stock. Cancelling from `confirmed` or `shipped` puts it back. The product's `basePrice` is then refreshed and the product saved. Only after that is the order's status written.
- **Product routes.** Create, update and delete: the slug pipeline and its collision loop, the name conflict, the defaults, slug regeneration on update, and the unique slug index.
- **The Product schema.** Its variant constraints and the `pre("save")` hook that derives `basePrice` from the default variant.
- **The Order schema**, plus the pagination metadata of the two list routes.

Modules, one file each:

- `Results`: Option and Result.
- `Text`: ASCII case mapping and JS `trim`.
- `Slugs`: the slug pipeline and the collision loop.
- `Pagination`
- `Products`: `Product.js`, with a `Product` class for the document the hooks and the status route mutate.
- `Orders`: `Order.js`.
- `Phones`: `validateAlgerianPhone`.
- `Database`: the two collections as maps.
- `Placement`: order creation.
- `Lifecycle`: the status route as a function of the database state.
- `Catalog`: the product routes.
- `Storefront`: a `Store` class whose methods change the collections and are proved against the `Placement`, `Lifecycle` and `Catalog` functions.

Database lookups are modelled as values passed in:

- products and orders are maps from identifier to document;
- the shipping table is a map from the requested wilaya name to its two fees;
- the existing slugs are a set.

Request bodies give each key an `Option`, where `None` means the key is absent. JS truthiness is written out, so `0` and `""` are falsy.

Mongoose behaviour the model follows:

- Validators run before the user's `pre("save")` hook. `Products.Persisted` is therefore "validate, then hook".
- `findByIdAndUpdate` runs only the update validators, and only on the paths in the body. It does not run the save hook.
- Keys outside the schema are dropped by strict mode. This applies to `stock`, `specs` and `discount` on create.

Behaviour of the code that the model keeps on purpose:

- **No transition graph.** Any status may follow any other. Every move into `confirmed` takes stock, including `shipped → confirmed` and `cancelled → confirmed`.
- **`basePrice` is not recomputed by a product update.** The save hook does not run on `findByIdAndUpdate`. `Catalog.UpdateCanDesyncBasePrice` shows a stored product whose `basePrice` no longer matches its default variant after an update.
- **"Exactly one default variant" is not enforced.** The hook takes the first variant marked `isDefault`, or the first variant when none is marked.
- **`stock`, `specs` and `discount` are not stored.** The create route fills them with defaults, but they are not schema paths.

## Model

| member | source | states |
|---|---|---|
| Text.LowerChar | src/routes/product.routes.js:100 | a capital becomes the small letter at the same place in the alphabet; every other character is unchanged; the result is never a capital and keeps whitespace-ness |
| Text.UpperChar | src/models/Order.js:61-65 | a small letter becomes the capital at the same place in the alphabet; every other character is unchanged; the result is never a small letter |
| Text.Lower | src/routes/product.routes.js:100 | `toLowerCase` maps each character, keeping the length |
| Text.Upper | src/models/Order.js:61-65 | the `uppercase` setter maps each character, keeping the length |
| Text.LowerFixedPoint | src/models/Product.js:43-48 | lowercasing leaves a string unchanged iff it has no capital |
| Text.UpperFixedPoint | src/models/Order.js:61-65 | uppercasing leaves a string unchanged iff it has no small letter |
| Text.LowerIdempotent | src/models/Order.js:54-59 | lowercasing twice is lowercasing once |
| Text.LowerKeepsTrimmed | src/models/Order.js:54-59 | lowercasing a trimmed string leaves it trimmed |
| Text.LowerTrimCommute | src/models/Order.js:54-59 | the e-mail's `trim` and `lowercase` setters commute: `Lower(Trim(s)) == Trim(Lower(s))` for every string |
| Text.TrimStart | src/models/Product.js:38-42 | leading whitespace is gone and the string does not grow |
| Text.TrimStartSuffix | src/models/Product.js:38-42 | what TrimStart keeps is a suffix of the input, and everything it removed is whitespace |
| Text.TrimEnd | src/models/Product.js:38-42 | trailing whitespace is gone and the string does not grow |
| Text.TrimEndPrefix | src/models/Product.js:38-42 | what TrimEnd keeps is a prefix of the input, and everything it removed is whitespace |
| Text.Trim | src/models/Product.js:38-42 | the `trim` setter's result starts and ends with a non-space |
| Text.TrimSlice | src/models/Product.js:38-42 | `trim` returns a slice `s[a..b]` of its input, and everything outside it is whitespace |
| Text.TrimWithoutSpace | src/routes/product.routes.js:104 | a string with no whitespace is its own trim |
| Text.TrimFixedPoint | src/models/Order.js:44-53 | `trim` leaves a string unchanged iff it has no whitespace at either end |
| Text.TrimIdempotent | src/models/Order.js:44-53 | trimming twice is trimming once |
| Slugs.SkipRun | src/routes/product.routes.js:101-103 | skipping a run returns a suffix that starts outside the class, shorter when a run was there |
| Slugs.SquashRuns | src/routes/product.routes.js:101-103 | a character outside the class at the front is kept at the front; what a run becomes and how pieces combine is stated by SquashRunToOne and SquashAppend |
| Slugs.SkipRunAppend | src/routes/product.routes.js:101-103 | a run that ends inside `a` is skipped without looking at what follows `a` |
| Slugs.SkipRunOf | src/routes/product.routes.js:101-103 | skipping a maximal run of the class lands exactly on what follows it |
| Slugs.SquashRunToOne | src/routes/product.routes.js:101-103 | a maximal run of whitespace (or of hyphens) becomes exactly one `-` |
| Slugs.SquashAppend | src/routes/product.routes.js:101-103 | the replacement works piece by piece: cut anywhere not inside a run, squashing the whole is squashing the two parts and joining them, so other characters are kept in order |
| Slugs.SquashKeepsNoUpper | src/routes/product.routes.js:100-101 | replacing whitespace runs by `-` adds no capital |
| Slugs.SquashKeepsSlugChars | src/routes/product.routes.js:103 | collapsing hyphen runs keeps only slug characters |
| Slugs.DropUnkept | src/routes/product.routes.js:102 | only word characters and `-` survive and nothing is added; a string of such characters is unchanged; from lowercased input only `[a-z0-9_-]` survive |
| Slugs.DropUnkeptChar | src/routes/product.routes.js:102 | a single character is kept iff it is a word character or `-` |
| Slugs.DropUnkeptAppend | src/routes/product.routes.js:102 | the removal works piece by piece, so every kept input character survives, in order |
| Slugs.SquashHyphensNoDouble | src/routes/product.routes.js:103 | after collapsing hyphen runs there is no `--` |
| Slugs.SlugifyIsSlug | src/routes/product.routes.js:99-104 | every slug the pipeline makes uses only `[a-z0-9_-]` and has no `--` |
| Slugs.SquashWithoutRun | src/routes/product.routes.js:101-103 | squashing is the identity on a string without such runs |
| Slugs.DropUnkeptKeepsSlug | src/routes/product.routes.js:102 | dropping is the identity on slug characters |
| Slugs.SlugFixedPoint | src/routes/product.routes.js:99-104 | the pipeline leaves a string unchanged iff it is already a slug |
| Slugs.SlugifyIdempotent | src/routes/product.routes.js:99-104 | normalising a normalised slug returns it unchanged |
| Slugs.SlugIsLowercase | src/models/Product.js:43-48 | the schema's `lowercase` setter does not change a generated slug |
| Slugs.Slugify | src/routes/product.routes.js:99-104 | the pipeline itself (lowercase, whitespace runs to `-`, drop other characters, hyphen runs to `-`, trim); its properties are the lemmas around it |
| Slugs.SlugifyJoinsWords | src/routes/product.routes.js:99-104 | for two non-empty words of small letters and digits, the name `a b` gives the slug `a-b` |
| Slugs.SpaceBetweenWords | src/routes/product.routes.js:101 | the single space between two such words becomes one `-` |
| Slugs.JoinedWordsAreSlug | src/routes/product.routes.js:102-104 | `a-b` has only slug characters, no whitespace and no `--`, so the later steps keep it |
| Slugs.DigitChar | src/routes/product.routes.js:110 | a digit value renders as a decimal digit |
| Slugs.Decimal | src/routes/product.routes.js:110 | the counter renders as a non-empty run of digits with no leading zero (except for 0 itself) |
| Slugs.DecimalRoundTrip | src/routes/product.routes.js:110 | reading the rendered counter back gives the counter |
| Slugs.Candidate | src/routes/product.routes.js:107-113 | (definition) the n-th candidate appends the suffixes `-1`, `-2`, …, `-n` in turn, as the loop does; its ensures only bounds the length, and CandidateChars and FreeSlug state its properties |
| Slugs.CandidateChars | src/routes/product.routes.js:107-113 | candidates built on a slug keep to slug characters |
| Slugs.SuffixAfterTrailingHyphen | src/routes/product.routes.js:104-110 | a valid slug ending in `-` (`cap-`) gets the candidate `cap--1`, which contains `--` |
| Slugs.FreeSlug | src/routes/product.routes.js:106-113 | the loop returns a slug not in use; it is the base when the base is free; otherwise it is the first candidate not in use, every earlier candidate being taken |
| Pagination.OrDefault | src/routes/product.routes.js:16-17 | `parseInt(x) \|\| d`: the parsed value unless it is absent (NaN) or 0 |
| Pagination.CeilDiv | src/routes/product.routes.js:63 | `Math.ceil(a / b)` is the least multiple count covering `a` |
| Pagination.Paginate | src/routes/product.routes.js:16-68 | page and limit default to 1 and 12 (10 for orders); `skip = (page-1)*limit`; `hasPrevPage` iff `page > 1`; `hasNextPage` iff `page*limit < total`; `totalPages = ceil(total/limit)`, for a positive limit and for the negative limit `parseInt` lets through |
| Pagination.NextPageIffBeforeLast | src/routes/product.routes.js:63-65 | with a positive limit, `hasNextPage` iff the current page is before `totalPages` |
| Pagination.LastPageNotEmpty | src/routes/product.routes.js:59-68 | asking for page `totalPages` skips fewer than `total` items |
| Products.CastVariant | src/models/Product.js:4-34 | a variant casts iff name, sku, price and stock are present; those four are copied; images and isDefault are copied when present and default to `[]` and false when absent |
| Products.CastVariants | src/models/Product.js:64-67 | the variant array casts iff every element does, element by element |
| Products.PassesValidators | src/models/Product.js:36-80 | the schema validators (definition): required strings non-empty, every variant valid, basePrice at least 0 |
| Products.FindSku | src/routes/order.routes.js:90 | `variants.find(v => v.sku === sku)`: the first index with that SKU, or none when no variant has it |
| Products.FindDefault | src/models/Product.js:84 | the first index marked `isDefault`, or none when no variant is marked |
| Products.FindSkuBySkus | src/routes/order.routes.js:276 | the SKU search depends only on the SKUs |
| Products.FindDefaultByMarks | src/models/Product.js:84 | the default search depends only on the `isDefault` marks |
| Products.DefaultIndex | src/models/Product.js:84 | the chosen variant exists |
| Products.PreSaveBasePrice | src/models/Product.js:82-88 | the hook changes only `basePrice`; with no variants it leaves it; otherwise it is the price of the first marked default, or of `variants[0]` when none is marked |
| Products.FirstOfSeveralDefaultsWins | src/models/Product.js:84 | with two variants marked default, the first one's price wins |
| Products.PreSaveIdempotent | src/models/Product.js:82-88 | running the hook twice is running it once |
| Products.PreSaveKeepsValidity | src/models/Product.js:73-88 | a document that passed the validators still satisfies them after the hook, and its `basePrice` is at least 0 |
| Products.AfterPreSave | src/models/Product.js:82-88 | the hook (definition); PreSaveBasePrice states what it does |
| Products.Persisted | src/models/Product.js:82-88 | `save` (definition): validators first, then the hook, nothing stored when they fail |
| Products.Product.Load | src/models/Product.js:36-80 | the loaded document is the stored one |
| Products.Product.SetStock | src/routes/order.routes.js:291-293 | only the chosen variant's stock changes, to the given value |
| Products.Product.RefreshBasePrice | src/routes/order.routes.js:297-300 | the document becomes the hook's result on the old one |
| Products.Product.Save | src/models/Product.js:82-88 | save succeeds iff the validators pass; on success the hook has run and the stored document is the one `Persisted` gives; on failure nothing changes |
| Orders.ParseStatus | src/models/Order.js:83-87 | a string is parsed to the status with that name, or fails iff no status has that name |
| Orders.StatusRoundTrip | src/routes/order.routes.js:238-243 | parsing a status's name gives the status back |
| Orders.ParseDelivery | src/models/Order.js:66-70 | a string is parsed to the delivery type with that name, or fails iff it is neither `domicile` nor `agence` |
| Orders.NewOrder | src/models/Order.js:4-90 | a constructed order is valid and `pending`; quantity defaults to 1; product, SKU and prices are copied; name, phone, address and note are trimmed, the e-mail trimmed and lowercased, the wilaya uppercased; absent e-mail, address and note become `''`; construction fails iff the delivery type is outside the enum or the validators reject the defaulted document |
| Orders.PassesOrderValidators | src/models/Order.js:4-90 | the order validators (definition): required fields present, quantity at least 1, the three prices at least 0 |
| Orders.Defaulted | src/models/Order.js:4-90 | the document with its defaults and setters applied (definition); DefaultedIsNormalised states what it guarantees |
| Orders.DefaultedIsNormalised | src/models/Order.js:18-87 | absent quantity, e-mail, address and note take 1, `''`, `''`, `''`; present ones go through their setters; every string field is trimmed and cased as the schema says, and the status is `pending` |
| Orders.NormalisedIsSetterFixedPoint | src/models/Order.js:44-81 | a document is normalised iff re-applying the trim, lowercase and uppercase setters changes nothing |
| Orders.StatusWriteKeepsValid | src/routes/order.routes.js:308-312 | writing any of the five statuses into a valid order keeps it valid |
| Phones.Clean | src/routes/order.routes.js:43 | removing whitespace and `-` leaves no separator and does not grow the string |
| Phones.MatchMobile | src/routes/order.routes.js:44 | a match yields a well-formed number whose local or `+213` form is the cleaned string |
| Phones.ValidAlgerianPhone | src/routes/order.routes.js:41-46 | the recogniser (definition); AcceptedForms states which strings it accepts |
| Phones.MatchBothForms | src/routes/order.routes.js:44 | both `0`+operator+8 digits and `+213`+operator+8 digits of a well-formed number are accepted |
| Phones.AcceptedForms | src/routes/order.routes.js:41-46 | a phone is valid iff, without whitespace and `-`, it is `0` or `+213`, then 5/6/7, then exactly eight digits |
| Phones.CleanAppend | src/routes/order.routes.js:43 | cleaning distributes over concatenation |
| Phones.CleanSeparators | src/routes/order.routes.js:43 | a string of separators cleans to empty |
| Phones.SeparatorInsensitive | src/routes/order.routes.js:41-46 | inserting a space or `-` anywhere changes neither the cleaned number nor validity |
| Phones.TrimKeepsValid | src/models/Order.js:49-53 | the `trim` setter on the stored phone keeps it valid, and keeps it invalid |
| Phones.CleanKeepsClean | src/routes/order.routes.js:43 | cleaning is the identity on a string without separators |
| Phones.TenDigitsAccepted | src/routes/order.routes.js:44 | any ten digits starting `0` then 5, 6 or 7 are accepted |
| Phones.LocalExampleAccepted | src/routes/order.routes.js:42 | `0770123456` is accepted |
| Phones.WrongOperatorRejected | src/routes/order.routes.js:44 | `0412345678` is rejected (operator digit 4) |
| Placement.ShippingRule | src/routes/order.routes.js:94-112 | subtotal is price × quantity; shipping is 0 from 20000 up, else `prixDomicile` for `domicile` and `prixAgence` for any other value; total is subtotal plus shipping |
| Placement.QuoteExample | src/routes/order.routes.js:94-112 | 3 × 5000 at home pays 500 (15500 total); 4 × 5000 reaches 20000 and ships free |
| Placement.QuoteFor | src/routes/order.routes.js:94-112 | the price arithmetic (definition); ShippingRule states it |
| Placement.Admissible | src/models/Order.js:4-90 | when the priced document passes the order validators, in terms of the request (definition) |
| Placement.ValidPhoneNotBlank | src/models/Order.js:49-53 | a phone accepted by the recogniser is not blank after the `trim` setter, so `required` holds |
| Placement.PriceAndBuild | src/routes/order.routes.js:93-131 | the order is built iff it is admissible (delivery type in the enum, quantity at least 1, prices not negative, name not blank); a built order is valid and `pending`, with the requested product, SKU, quantity and delivery type, customer fields through their setters, priced from the found variant and the wilaya's fees |
| Placement.PlaceOrder | src/routes/order.routes.js:49-131 | a missing or falsy required field fails first, then an invalid phone; product-not-found, variant-not-found, unknown-wilaya and validation failure each happen exactly when every earlier check passed and theirs fails; the order is placed iff every check passes, and it is then valid, `pending` and priced from the first variant with the SKU |
| Lifecycle.EffectOf | src/routes/order.routes.js:260-264 | which stock effect a status pair has (definition); TransitionMovesStockByDelta and UnrestrictedMovesDoNotConserve state its consequences |
| Lifecycle.AdjustProduct | src/routes/order.routes.js:266-302 | on success the SKU was found, exactly that variant's stock moved by the quantity and the hook ran; it fails with the missing-SKU error iff the order has no SKU, with variant-not-found iff the SKU names no variant, and with insufficient stock iff it is a decrement and that variant has less than the quantity |
| Lifecycle.Transition | src/routes/order.routes.js:234-312 | an unknown status fails before any lookup; a missing order fails with order-not-found; a stock-moving change on an order whose product is gone fails with product-not-found; every failure leaves the state unchanged; success writes exactly the new status into the order; no document is added or removed |
| Lifecycle.AdjustOnStoredProduct | src/routes/order.routes.js:276-302 | on a stored product with the SKU and enough stock the adjustment succeeds and the result is still a stored product |
| Lifecycle.SameStatusIsNoOp | src/routes/order.routes.js:252-254 | asking for the current status returns the order and changes nothing |
| Lifecycle.KeepTouchesNoProduct | src/routes/order.routes.js:260-312 | a move with no stock effect succeeds and touches no product |
| Lifecycle.MovingStep | src/routes/order.routes.js:266-312 | a stock-moving transition fails with the adjustment's error, or writes the adjusted product and then the status |
| Lifecycle.ConfirmShortOfStock | src/routes/order.routes.js:285-290 | confirming with less stock than the quantity fails and changes neither stock nor status |
| Lifecycle.ConfirmTakesStock | src/routes/order.routes.js:285-291 | confirming with enough stock takes exactly the quantity from that variant and confirms the order |
| Lifecycle.CancelReturnsStock | src/routes/order.routes.js:262-293 | cancelling from `confirmed` or `shipped` returns the quantity to that variant |
| Lifecycle.MovedProductShape | src/routes/order.routes.js:291-300 | a moved product differs from the refreshed one only in that variant's stock, and SKU lookups are unchanged |
| Lifecycle.ProductWriteKeepsValid | src/routes/order.routes.js:302-312 | writing a stored product with the same slug and a valid order keeps the database valid |
| Lifecycle.ValidStateNeverFailsSave | src/routes/order.routes.js:302 | from a valid database the product save inside a transition never fails |
| Lifecycle.TransitionPreservesValidDb | src/routes/order.routes.js:234-312 | every transition from a valid database leaves it valid |
| Lifecycle.TransitionTouchesOneProduct | src/routes/order.routes.js:266-302 | no product other than the order's changes; if that one changes, the transition succeeded and its `basePrice` is the hook's |
| Lifecycle.RestoreUndoesDecrease | src/routes/order.routes.js:291-293 | restoring the quantity after taking it gives back the product as the hook leaves it |
| Lifecycle.DecreaseThenRestore | src/routes/order.routes.js:291-293 | take-then-return on one variant is the identity up to the hook |
| Lifecycle.CancelUndoesConfirm | src/routes/order.routes.js:262-312 | cancelling a confirmed order puts back the product as it was before confirming |
| Lifecycle.ConfirmThenCancelRestoresStock | src/routes/order.routes.js:234-312 | confirm then cancel ends with every variant's original stock and the order `cancelled` |
| Lifecycle.ForwardPathsConserveStock | src/routes/order.routes.js:260-294 | along moves of a hypothetical forward workflow (pending → confirmed → shipped → delivered, or to cancelled), which the handler does not enforce, the net stock change is what the first status held minus what the last holds |
| Lifecycle.UnrestrictedMovesDoNotConserve | src/routes/order.routes.js:261-264 | no transition graph is enforced: pending→confirmed→shipped→confirmed takes stock twice; a cancel after `delivered` returns nothing |
| Lifecycle.TransitionMovesStockByDelta | src/routes/order.routes.js:260-294 | a successful transition moves the variant's stock by exactly −q into `confirmed`, +q from `confirmed`/`shipped` to `cancelled`, and 0 otherwise |
| Catalog.AbsentKeysTakeDefaults | src/routes/product.routes.js:121-133 | absent brand, images, variants, stock, specs, discount and isFeatured take `''`, `[]`, `[]`, 0, `{}`, 0, false; present ones and name, slug and basePrice are copied |
| Catalog.Instantiate | src/models/Product.js:36-80 | building a document succeeds iff every variant casts; the variants are the cast ones; name is trimmed, slug lowercased, tags empty, an absent description `''`; brand, images, isFeatured and basePrice are copied |
| Catalog.StrictModeDropsExtras | src/routes/product.routes.js:129-131 | `stock`, `specs` and `discount` do not affect the stored document |
| Catalog.NameTakenIn | src/routes/product.routes.js:116-119 | the name conflict (definition): a stored name equal up to ASCII case |
| Catalog.CreateOutcome | src/routes/product.routes.js:90-138 | a missing or falsy name or basePrice fails first; then a case-insensitive name match gives the name conflict; it succeeds iff both checks pass, the variants cast and the built document passes the validators, and then it is that document after the hook, a stored product |
| Catalog.CreateValidationFailure | src/routes/product.routes.js:135-136 | creation fails validation iff the checks passed and the document does not cast or does not pass the validators |
| Catalog.CreatedProduct | src/routes/product.routes.js:121-136 | the created product has the trimmed name, the slug, the description (`''` when absent), the defaults, the cast variants when supplied, and the hook's basePrice, which is the requested one when no variants are given |
| Catalog.CreatedSlugIsFree | src/routes/product.routes.js:106-113 | with the loop's slug, the new product keeps slugs unique |
| Catalog.CreateKeepsValid | src/routes/product.routes.js:90-138 | creation keeps the database valid |
| Catalog.WithRegeneratedSlug | src/routes/product.routes.js:157-165 | a truthy name replaces the slug with the name's slug; otherwise the body is untouched; nothing else changes |
| Catalog.PatchValid | src/routes/product.routes.js:167-170 | the update validators on the paths in the body (definition) |
| Catalog.Merge | src/routes/product.routes.js:167-170 | every supplied path replaces the stored one (name through `trim`, slug through `lowercase`, variants cast) and every unsupplied one is kept; basePrice is the supplied one or the old one, since the hook does not run |
| Catalog.MergeKeepsStored | src/routes/product.routes.js:167-170 | an update that passes the update validators keeps a stored product stored |
| Catalog.UpdateOutcome | src/routes/product.routes.js:153-178 | validation fails first, then a missing product; the duplicate-slug error happens iff both pass and another product holds the merged slug; it succeeds iff the body is valid, the product exists and no other product holds the merged slug, and a success is exactly the merge of the body (with the regenerated slug) into the stored product, its slug is free and it is stored |
| Catalog.SlugRegeneratedOnlyWithName | src/routes/product.routes.js:157-165 | with a name the slug becomes the name's slug (already lowercase); without name or slug it stays |
| Catalog.UpdateKeepsBasePrice | src/routes/product.routes.js:167-170 | without a basePrice in the body, basePrice is unchanged even if variants change |
| Catalog.UpdateCanDesyncBasePrice | src/routes/product.routes.js:167-170 | a variant price change leaves basePrice 2500 where the hook would give 3000 |
| Catalog.UpdateKeepsValid | src/routes/product.routes.js:153-178 | a successful update keeps the database valid |
| Catalog.DeleteOutcome | src/routes/product.routes.js:182-190 | deleting fails with not-found iff the id is absent; otherwise exactly that product is removed |
| Catalog.DeleteKeepsValid | src/routes/product.routes.js:182-190 | deletion keeps the database valid and the product is gone |
| Storefront.Store.Empty | src/models/Product.js:36-80 | an empty store is valid |
| Storefront.Store.PlaceOrder | src/routes/order.routes.js:49-131 | the outcome is `Placement.PlaceOrder`'s; only a placed order is added, under the new id; validity is kept |
| Storefront.Store.UpdateStatus | src/routes/order.routes.js:234-312 | the step-by-step handler, mutating the variant in a loaded `Product`, agrees with `Lifecycle.Transition` in result and new state; validity is kept |
| Storefront.Store.CreateProduct | src/routes/product.routes.js:90-138 | the outcome is `Catalog.CreateOutcome` with the slug the loop found; only a created product is added; validity is kept |
| Storefront.Store.UpdateProduct | src/routes/product.routes.js:153-178 | the outcome is `Catalog.UpdateOutcome`; only that product is replaced; validity is kept |
| Storefront.Store.DeleteProduct | src/routes/product.routes.js:182-190 | the outcome is `Catalog.DeleteOutcome`; validity is kept |
| Storefront.BuildProduct | src/routes/product.routes.js:94-136 | the create handler up to the write agrees with `Catalog.CreateOutcome`, and its slug is the first free candidate |

## Left out

- E-mail notifications (nodemailer), on placement and on status changes. They are external I/O. A failure after placement turns the response into a 500 but does not undo the save. On a status change the failure is swallowed.
- The order rate limiter, the admin middleware, authentication, uploads, the dashboard and the server wiring. None of them is part of this model.
- The GET list and detail routes, apart from their pagination arithmetic. Their filters, regex searches, sorting, `populate` and the execution of skip/limit are database queries.
- Wilaya lookup. The source matches the requested name as an unanchored, case-insensitive regular expression. Here it is a map keyed by the requested name.
- Product name conflict. It is modelled as ASCII case-insensitive equality of names. The source builds an anchored regular expression from the unescaped name, so a name with regex metacharacters matches differently or throws (500).
- Duplicate-key errors (code 11000) on create. The only unique index is on `slug`, and the collision loop rules such errors out in a sequential run; only a concurrent insert causes one.
- Concurrency and atomicity. The product save and the order status write are two separate writes and are not atomic. The model performs them in sequence, in one method.
- A malformed identifier (CastError) and storage failures. Both give a 500 in the source and are not modelled.
- JS `Number` semantics. Prices, stock and quantity are integers. Floats, NaN, a `quantity` sent as a string, and the result of `parseInt` on non-numeric text are not modelled. Pagination takes the already-parsed value, with `None` standing for NaN.
- Case mapping and whitespace. `toLowerCase`/`toUpperCase` are modelled on ASCII letters only. Whitespace is the JS `\s` set as listed in `Text.IsSpace`.
- Timestamps (`createdAt`/`updatedAt`) and body keys outside the schema on a product update.
- Delivery types outside the enum: the delivery fee is chosen before validation. Any `deliveryType` other than `domicile` is priced at the agency fee (`Placement.ShippingRule`), but the order validators then reject every value except `domicile` and `agence`. The model keeps both steps.
- Setters on update: an update applies only the schema's own setters (`trim` on name, `lowercase` on slug). It assumes Mongoose runs them on update queries as it does on documents.
- Empty variant lists: `required` on an array path accepts an empty array, as Mongoose does. A product with no variants is therefore valid.
