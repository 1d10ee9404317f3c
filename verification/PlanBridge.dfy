/**
 The field plan of one row against the catalog writer: the columns that an UPDATE of the plan leaves are the
 ones `WriteProduct` and `WriteVariant` leave, when the row's patches are those the plan writes.
 */
module PlanBridge {
  import opened Wrappers
  import opened StoreCatalog
  import Rows = ImportRows
  import Writer = CatalogWriter
  import Plan = PlanAndApply

  /** The text a stored type or pricing mode has. */
  function NameOf(v: Plan.Value): string {
    if v.Text? then v.text else ""
  }

  ghost predicate ProductShows(f: ProductFields, p: Plan.ProductFields) {
    && f.name == p.name && f.description == p.description && f.enabled == p.enabled
    && f.fulfillmentType == NameOf(Plan.FulfillmentName(p.fulfillmentType))
    && f.pricingMode == NameOf(Plan.PricingName(p.pricingMode)) && f.sourceCreatedAt == p.sourceCreatedAt
  }

  ghost predicate VariantShows(f: VariantFields, v: Plan.VariantFields) {
    && f.sku == v.sku && f.enabled == v.enabled && f.price == v.price
    && f.barcode == GetOr(v.custom.barcode, "") && f.specification == GetOr(v.custom.specification, "")
    && f.saleUnit == GetOr(v.custom.saleUnit, "") && f.purchaseUnit == GetOr(v.custom.purchaseUnit, "")
    && f.packageQuantity == v.custom.packageQuantity && f.shelfLifeDays == v.custom.shelfLifeDays
  }

  /** The catalog holds the stored records `s` as product `p`, SKU `v` and its level at `location`. */
  ghost predicate Shows(c: Catalog, p: Id, v: Id, location: Id, s: Plan.Stored) {
    && p in c.products && ProductShows(c.products[p].fields, s.product)
    && v in c.variants && VariantShows(c.variants[v].fields, s.variant)
    && c.StockAt(v, location) == s.operations.stockOnHand
  }

  function ProductPatchOf(t: Plan.Texts, row: Plan.Row, plan: map<Plan.Column, Plan.Change>,
                          clear: bool): Rows.ProductPatch {
    Rows.ProductPatch(
      if Plan.ProductName in plan && row.name != "" then Some(row.name) else None,
      if Plan.ProductDescription in plan
        && (row.description != "" || Plan.Clears(t, row, Plan.ProductDescription, clear))
      then Some(row.description) else None,
      if Plan.ProductEnabled in plan then row.enabled else None,
      None,
      if Plan.SourceCreatedAt in plan && (row.sourceCreatedAt.Some? || Plan.Clears(t, row, Plan.SourceCreatedAt, clear))
      then Some(row.sourceCreatedAt) else None,
      if Plan.FulfillmentType in plan && row.fulfillmentType.Some?
      then Some(NameOf(Plan.FulfillmentName(row.fulfillmentType.value))) else None,
      if Plan.PricingMode in plan && row.pricingMode.Some?
      then Some(NameOf(Plan.PricingName(row.pricingMode.value))) else None)
  }

  /** What `optionalUpdate` gives a text column, if anything. */
  function TextPatch(t: Plan.Texts, value: string, clear: bool): Option<string> {
    if !Plan.BlankText(t, value) then Some(value) else if clear then Some("") else None
  }

  function VariantPatchOf(t: Plan.Texts, row: Plan.Row, clear: bool): Rows.VariantPatch {
    Rows.VariantPatch(
      if row.sku != "" then Some(row.sku) else None, None, Plan.EffectiveVariantEnabled(row),
      TextPatch(t, row.barcode, Plan.Clears(t, row, Plan.Barcode, clear)),
      TextPatch(t, row.specification, Plan.Clears(t, row, Plan.Specification, clear)),
      TextPatch(t, row.primaryUnit, Plan.Clears(t, row, Plan.SaleUnit, clear)),
      TextPatch(t, row.purchaseUnit, Plan.Clears(t, row, Plan.PurchaseUnit, clear)),
      row.packageQuantity,
      if row.shelfLifeDays.Some? then Some(row.shelfLifeDays)
      else if Plan.Clears(t, row, Plan.ShelfLifeDays, clear) then Some(None) else None,
      if row.pricingMode == Some(Plan.QuoteOnly) then Some(0)
      else if row.sellingPrice.Some? then Some(Plan.Money(row.sellingPrice)) else None)
  }

  /** The import row carries the patches and the stock of the planned spreadsheet row. */
  ghost predicate Carries(data: Rows.RowData, t: Plan.Texts, row: Plan.Row, plan: map<Plan.Column, Plan.Change>,
                          clear: bool) {
    && data.productPatch == ProductPatchOf(t, row, plan, clear) && data.variantPatch == VariantPatchOf(t, row, clear)
    && data.stock == row.stockOnHand && (data.stockPlanned <==> Plan.StockOnHand in plan)
  }

  lemma ProductPatched(f: ProductFields, t: Plan.Texts, row: Plan.Row, plan: map<Plan.Column, Plan.Change>,
                       p: Plan.ProductFields, clear: bool)
    requires ProductShows(f, p)
    ensures ProductShows(Writer.PatchProduct(f, ProductPatchOf(t, row, plan, clear)),
                         Plan.ProductAfter(t, row, plan, p, clear))
  {
    hide Plan.Clears;
  }

  lemma VariantPatched(f: VariantFields, t: Plan.Texts, row: Plan.Row, v: Plan.VariantFields, clear: bool)
    requires VariantShows(f, v)
    ensures VariantShows(Writer.PatchVariant(f, VariantPatchOf(t, row, clear)), Plan.VariantAfter(t, row, v, clear))
  {
    hide Plan.Clears, Plan.BlankText, Plan.Money;
  }

  lemma NothingToPatch(f: ProductFields)
    ensures Writer.PatchProduct(f, Writer.NO_PRODUCT_PATCH) == f
  {
  }

  /**
   One update, twice: the catalog writer's effect on a row's product, SKU and level is what the field plan
   says the update leaves of them.
   */
  lemma UpdateMatchesPlan(c: Catalog, irow: Rows.Row, p: Id, v: Id, location: Id, t: Plan.Texts, row: Plan.Row,
                          plan: map<Plan.Column, Plan.Change>, s: Plan.Stored, clear: bool)
    requires Shows(c, p, v, location, s) && Carries(irow.data, t, row, plan, clear)
    ensures Shows(Writer.WriteVariant(Writer.WriteProduct(c, irow, p, false), irow, p, Some(v), location).0, p, v,
                  location,
                  Plan.Applied(t, row, plan, s, clear))
  {
    hide Writer.PatchProduct, Writer.PatchVariant, ProductPatchOf, VariantPatchOf, ProductShows, VariantShows;
    hide Plan.ProductAfter, Plan.VariantAfter, Plan.Clears;
    ProductPatched(c.products[p].fields, t, row, plan, s.product, clear);
    VariantPatched(c.variants[v].fields, t, row, s.variant, clear);
    NothingToPatch(c.products[p].fields);
  }
}
