/** The rows of an import job, as the preview planned them and as execution updates them. */
module ImportRows {
  import opened Wrappers
  import opened StoreCatalog

  datatype Action = Pending | Create | Update | SkipUnchanged | Conflict | Warning | Error

  datatype Resolution = ResolvedApply | ResolvedCreateNew | ResolvedUpdateExisting | ResolvedSkip

  /** The product columns an UPDATE (or a new SKU under an old product) replaces. */
  datatype ProductPatch = ProductPatch(
    name: Option<string>, description: Option<string>, enabled: Option<bool>, facets: Option<seq<Id>>,
    sourceCreatedAt: Option<Option<string>>, fulfillmentType: Option<string>, pricingMode: Option<string>)

  datatype VariantPatch = VariantPatch(
    sku: Option<string>, name: Option<string>, enabled: Option<bool>, barcode: Option<string>,
    specification: Option<string>, saleUnit: Option<string>, purchaseUnit: Option<string>,
    packageQuantity: Option<real>, shelfLifeDays: Option<Option<int>>, price: Option<int>)

  /**
   The spreadsheet content of a row. `admissible` is false when the store or type check
   refuses it; `location` is the row's effective stock location, if the store has it.
   */
  datatype RowData = RowData(
    admissible: bool, location: Option<Id>,
    newProduct: ProductFields, newVariant: VariantFields,
    productPatch: ProductPatch, variantPatch: VariantPatch,
    stock: Option<int>, stockPlanned: bool)

  /**
   A before-snapshot. Only a snapshot of an existing SKU has `variant` and `stock`; the one
   `applyRow` builds itself has the variant's name alone.
   */
  datatype Snapshot = Snapshot(
    productCreated: bool, variantCreated: bool, product: ProductFields,
    variantName: Option<string>, variant: Option<VariantFields>, stock: Option<int>)

  /** What a committed row records: `appliedAt`, the stored before-snapshot and `appliedSnapshot`. */
  datatype Applied = Applied(
    before: Snapshot, location: Id, productCreated: bool, variantCreated: bool,
    afterProduct: nat, afterVariant: nat, fingerprint: Fingerprint)

  datatype Row = Row(
    productKey: string, executionKey: string,
    action: Action, resolution: Option<Resolution>, safeAction: Option<Action>, forceCreateNew: bool,
    targetProduct: Option<Id>, targetVariant: Option<Id>,
    expectedProduct: Option<nat>, expectedVariant: Option<nat>, precise: bool,
    before: Option<Snapshot>, data: RowData, applied: Option<Applied>)

  predicate Done(row: Row) {
    row.applied.Some? || row.action.SkipUnchanged? || row.action.Error?
  }

  predicate Forced(row: Row) {
    row.resolution == Some(ResolvedCreateNew) || row.forceCreateNew
  }

  /** `productByKey` and `variantByKey` of one execution. */
  datatype KeyMaps = KeyMaps(products: map<string, Id>, variants: map<string, Id>)

  const NO_KEYS := KeyMaps(map[], map[])

  /** The `remember` closure. */
  function Remember(maps: KeyMaps, row: Row): KeyMaps {
    if row.applied.Some? && row.targetProduct.Some? then
      KeyMaps(maps.products[row.productKey := row.targetProduct.value],
              if row.targetVariant.Some?
              then maps.variants[row.executionKey := row.targetVariant.value] else maps.variants)
    else maps
  }

  /** `rows.forEach(remember)` over the first `n` rows. */
  function Rebuild(rows: seq<Row>, n: nat): KeyMaps
    requires n <= |rows|
  {
    if n == 0 then NO_KEYS else Remember(Rebuild(rows, n - 1), rows[n - 1])
  }
}
