/** `CatalogImportWriter.applyRow`: one row's catalog effect, computed inside the row transaction. */
module CatalogWriter {
  import opened Wrappers
  import opened StoreCatalog
  import opened ImportRows

  function PatchProduct(f: ProductFields, p: ProductPatch): ProductFields {
    f.(name := GetOr(p.name, f.name), description := GetOr(p.description, f.description),
       enabled := GetOr(p.enabled, f.enabled), facets := GetOr(p.facets, f.facets),
       sourceCreatedAt := GetOr(p.sourceCreatedAt, f.sourceCreatedAt),
       fulfillmentType := GetOr(p.fulfillmentType, f.fulfillmentType),
       pricingMode := GetOr(p.pricingMode, f.pricingMode))
  }

  const NO_PRODUCT_PATCH := ProductPatch(None, None, None, None, None, None, None)

  function PatchVariant(f: VariantFields, p: VariantPatch): VariantFields {
    f.(sku := GetOr(p.sku, f.sku), name := GetOr(p.name, f.name), enabled := GetOr(p.enabled, f.enabled),
       barcode := GetOr(p.barcode, f.barcode), specification := GetOr(p.specification, f.specification),
       saleUnit := GetOr(p.saleUnit, f.saleUnit), purchaseUnit := GetOr(p.purchaseUnit, f.purchaseUnit),
       packageQuantity := GetOr(p.packageQuantity, f.packageQuantity),
       shelfLifeDays := GetOr(p.shelfLifeDays, f.shelfLifeDays),
       price := if p.price.Some? then p.price else f.price)
  }

  datatype ApplyError =
    | StalePreview | NotAdmissible | NoLocation
    | ProductGone | ProductChanged | VariantGone | VariantChanged

  /** The product a row writes to, and whether this row creates it. */
  datatype ProductTarget = ProductTarget(catalog: Catalog, id: Id, created: bool)

  function ResolveProduct(c: Catalog, row: Row, maps: KeyMaps): Result<ProductTarget, ApplyError> {
    var cached := Lookup(maps.products, row.productKey);
    match OrElse(row.targetProduct, cached)
    case None => Ok(ProductTarget(c.PutProduct(c.nextId, row.data.newProduct).(nextId := c.nextId + 1), c.nextId, true))
    case Some(p) =>
      if p !in c.products then Err(ProductGone)
      else if row.expectedProduct.Some? && cached != Some(p)
              && c.products[p].updatedAt != row.expectedProduct.value then Err(ProductChanged)
      else Ok(ProductTarget(c, p, false))
  }

  /** `resolveImportExecutionVariantId` and the checks on the SKU it names. */
  function ResolveVariant(c: Catalog, row: Row, maps: KeyMaps, product: Id): Result<Option<Id>, ApplyError> {
    var cached := Lookup(maps.variants, row.executionKey);
    match (if Forced(row) then None else OrElse(row.targetVariant, cached))
    case None => Ok(None)
    case Some(v) =>
      if v !in c.variants || c.variants[v].product != product then Err(VariantGone)
      else if row.expectedVariant.Some? && cached != Some(v)
              && c.variants[v].updatedAt != row.expectedVariant.value then Err(VariantChanged)
      else Ok(Some(v))
  }

  /** The stored before-snapshot: the preview's, or one taken now from the resolved targets. */
  function BeforeOf(c: Catalog, row: Row, product: Id, productCreated: bool, variant: Option<Id>): Snapshot
    requires product in c.products
    requires variant.Some? ==> variant.value in c.variants
  {
    match row.before
    case Some(b) => b
    case None =>
      Snapshot(productCreated, variant.None?, c.products[product].fields,
               Some(if variant.Some? then c.variants[variant.value].fields.name else ""), None, None)
  }

  /** The product update; nothing is written when the product is new or no column is replaced. */
  function WriteProduct(c: Catalog, row: Row, product: Id, created: bool): Catalog
    requires product in c.products
  {
    if created || row.data.productPatch == NO_PRODUCT_PATCH then c
    else c.PutProduct(product, PatchProduct(c.products[product].fields, row.data.productPatch))
  }

  /** Creates or updates the SKU and its stock level. */
  function WriteVariant(c: Catalog, row: Row, product: Id, variant: Option<Id>, location: Id): (Catalog, Id)
    requires variant.Some? ==> variant.value in c.variants
  {
    match variant
    case None =>
      var c1 := c.PutVariant(c.nextId, product, row.data.newVariant).(nextId := c.nextId + 1);
      (if row.data.stock.Some? then c1.SetStock(c.nextId, location, row.data.stock.value) else c1, c.nextId)
    case Some(v) =>
      var c1 := c.PutVariant(v, product, PatchVariant(c.variants[v].fields, row.data.variantPatch));
      (if row.data.stock.Some? && row.data.stockPlanned then c1.SetStock(v, location, row.data.stock.value) else c1, v)
  }

  /** The writes of a row whose targets are resolved, and the row as it is saved with them. */
  function CommitRow(target: ProductTarget, row: Row, variant: Option<Id>, location: Id): (Catalog, Row)
    requires target.id in target.catalog.products
    requires variant.Some? ==> variant.value in target.catalog.variants
  {
    var before := BeforeOf(target.catalog, row, target.id, target.created, variant);
    var c1 := WriteProduct(target.catalog, row, target.id, target.created);
    var (c2, v) := WriteVariant(c1, row, target.id, variant, location);
    var applied := Applied(before, location, target.created, variant.None?,
                           c2.products[target.id].updatedAt, c2.variants[v].updatedAt, FingerprintOf(c2, v));
    (c2, row.(targetProduct := Some(target.id), targetVariant := Some(v), applied := Some(applied)))
  }

  function ApplyRow(c: Catalog, row: Row, maps: KeyMaps): Result<(Catalog, Row), ApplyError> {
    if (row.expectedProduct.Some? || row.expectedVariant.Some?) && !row.precise then Err(StalePreview)
    else if !row.data.admissible then Err(NotAdmissible)
    else if row.data.location.None? then Err(NoLocation)
    else
      match ResolveProduct(c, row, maps)
      case Err(e) => Err(e)
      case Ok(target) =>
        match ResolveVariant(target.catalog, row, maps, target.id)
        case Err(e) => Err(e)
        case Ok(variant) => Ok(CommitRow(target, row, variant, row.data.location.value))
  }
}
