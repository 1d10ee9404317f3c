/**
 Reverse compensation: what folding `rollbackRow` over the applied rows, highest row number first,
 leaves of the catalog an import wrote to.
 */
module RollbackTheorems {
  import opened Wrappers
  import opened StoreCatalog
  import opened ImportRows
  import opened CatalogRollback

  predicate OnProduct(row: Row, p: Id) {
    row.applied.Some? && row.targetProduct == Some(p) && row.targetVariant.Some?
  }

  predicate OnVariant(row: Row, v: Id) {
    row.applied.Some? && row.targetProduct.Some? && row.targetVariant == Some(v)
  }

  predicate OnStock(row: Row, v: Id, location: Id) {
    OnVariant(row, v) && row.applied.value.location == location
  }

  /** Row `i` is the applied row with the lowest number on product `p`. */
  predicate FirstOnProduct(rows: seq<Row>, i: nat, p: Id) {
    i < |rows| && OnProduct(rows[i], p) && forall j :: 0 <= j < i ==> !OnProduct(rows[j], p)
  }

  predicate FirstOnVariant(rows: seq<Row>, i: nat, v: Id) {
    i < |rows| && OnVariant(rows[i], v) && forall j :: 0 <= j < i ==> !OnVariant(rows[j], v)
  }

  predicate FirstOnStock(rows: seq<Row>, i: nat, v: Id, location: Id) {
    i < |rows| && OnStock(rows[i], v, location) && forall j :: 0 <= j < i ==> !OnStock(rows[j], v, location)
  }

  lemma {:induction false} RollbackKeepsProduct(c: Catalog, rows: seq<Row>, n: nat, p: Id)
    requires n <= |rows| && p in c.products
    requires forall j :: 0 <= j < n ==> !OnProduct(rows[j], p)
    ensures p in RollbackRows(c, rows, n).products && RollbackRows(c, rows, n).products[p] == c.products[p]
    decreases n
  {
    if n > 0 {
      RollbackKeepsProduct(if rows[n - 1].applied.Some? then RollbackRow(c, rows[n - 1]) else c, rows, n - 1, p);
    }
  }

  lemma {:induction false} RollbackKeepsVariant(c: Catalog, rows: seq<Row>, n: nat, v: Id)
    requires n <= |rows| && v in c.variants
    requires forall j :: 0 <= j < n ==> !OnVariant(rows[j], v)
    ensures v in RollbackRows(c, rows, n).variants && RollbackRows(c, rows, n).variants[v] == c.variants[v]
    decreases n
  {
    if n > 0 {
      RollbackKeepsVariant(if rows[n - 1].applied.Some? then RollbackRow(c, rows[n - 1]) else c, rows, n - 1, v);
    }
  }

  lemma {:induction false} RollbackKeepsStock(c: Catalog, rows: seq<Row>, n: nat, v: Id, location: Id)
    requires n <= |rows|
    requires forall j :: 0 <= j < n ==> !OnStock(rows[j], v, location)
    ensures RollbackRows(c, rows, n).StockAt(v, location) == c.StockAt(v, location)
    decreases n
  {
    if n > 0 {
      var c1 := if rows[n - 1].applied.Some? then RollbackRow(c, rows[n - 1]) else c;
      RollbackKeepsStock(c1, rows, n - 1, v, location);
    }
  }

  /** The columns of a product that its before-snapshot decides. */
  predicate ProductIs(f: ProductFields, before: Snapshot) {
    if before.productCreated then !f.enabled else f == RestoredProduct(f, before)
  }

  predicate VariantIs(f: VariantFields, row: Row)
    requires row.applied.Some?
  {
    if CreatedVariant(row) then !f.enabled else f == RestoredVariant(f, row.applied.value.before)
  }

  /** The lowest-numbered row on a product decides it, whatever the other rows' snapshots hold. */
  lemma {:induction false} LowestRowDecidesProduct(c: Catalog, rows: seq<Row>, n: nat, p: Id, i: nat)
    requires i < n <= |rows| && p in c.products && FirstOnProduct(rows, i, p)
    ensures p in RollbackRows(c, rows, n).products
    ensures ProductIs(RollbackRows(c, rows, n).products[p].fields, rows[i].applied.value.before)
    decreases n
  {
    var c1 := if rows[n - 1].applied.Some? then RollbackRow(c, rows[n - 1]) else c;
    if i == n - 1 { RollbackKeepsProduct(c1, rows, n - 1, p); } else { LowestRowDecidesProduct(c1, rows, n - 1, p, i); }
  }

  lemma ProductLeavesVariants(c: Catalog, row: Row, p: Id)
    requires row.applied.Some?
    ensures RollbackProduct(c, row, p).variants == c.variants
  {
  }

  lemma RollbackVariantIs(c: Catalog, row: Row, v: Id, w: Id)
    requires v in c.variants && row.applied.Some?
    ensures v in RollbackVariant(c, row, w).variants
    ensures v == w ==> VariantIs(RollbackVariant(c, row, w).variants[v].fields, row)
  {
  }

  lemma OneRowDecidesVariant(c: Catalog, row: Row, v: Id)
    requires v in c.variants && row.applied.Some?
    ensures v in RollbackRow(c, row).variants
    ensures OnVariant(row, v) ==> VariantIs(RollbackRow(c, row).variants[v].fields, row)
  {
    hide RollbackVariant, RollbackProduct, VariantIs;
    if row.targetProduct.Some? && row.targetVariant.Some? {
      var w := row.targetVariant.value;
      RollbackVariantIs(c, row, v, w);
      ProductLeavesVariants(RollbackVariant(c, row, w), row, row.targetProduct.value);
    }
  }

  lemma {:induction false} LowestRowDecidesVariant(c: Catalog, rows: seq<Row>, n: nat, v: Id, i: nat)
    requires i < n <= |rows| && v in c.variants && FirstOnVariant(rows, i, v)
    ensures v in RollbackRows(c, rows, n).variants
    ensures VariantIs(RollbackRows(c, rows, n).variants[v].fields, rows[i])
    decreases n
  {
    hide VariantIs, RollbackRow;
    var c1 := if rows[n - 1].applied.Some? then RollbackRow(c, rows[n - 1]) else c;
    if rows[n - 1].applied.Some? { OneRowDecidesVariant(c, rows[n - 1], v); }
    if i == n - 1 { RollbackKeepsVariant(c1, rows, n - 1, v); } else { LowestRowDecidesVariant(c1, rows, n - 1, v, i); }
  }

  lemma {:induction false} LowestRowDecidesStock(c: Catalog, rows: seq<Row>, n: nat, v: Id, location: Id, i: nat)
    requires i < n <= |rows| && v in c.variants && FirstOnStock(rows, i, v, location)
    ensures RollbackRows(c, rows, n).StockAt(v, location) == GetOr(rows[i].applied.value.before.stock, 0)
    decreases n
  {
    var c1 := if rows[n - 1].applied.Some? then RollbackRow(c, rows[n - 1]) else c;
    if i == n - 1 {
      RollbackKeepsStock(c1, rows, n - 1, v, location);
    } else {
      LowestRowDecidesStock(c1, rows, n - 1, v, location, i);
    }
  }

  lemma {:induction false} LatestExists(rows: seq<Row>, n: nat, i: nat, p: Id) returns (k: nat)
    requires i < n <= |rows| && rows[i].applied.Some? && rows[i].targetProduct == Some(p)
    ensures i <= k < n && rows[k].applied.Some? && rows[k].targetProduct == Some(p)
    ensures forall j :: k < j < n && rows[j].applied.Some? ==> rows[j].targetProduct != Some(p)
  {
    if rows[n - 1].applied.Some? && rows[n - 1].targetProduct == Some(p) { k := n - 1; }
    else { k := LatestExists(rows, n - 1, i, p); }
  }

  lemma {:induction false} LatestVariantExists(rows: seq<Row>, n: nat, i: nat, v: Id) returns (k: nat)
    requires i < n <= |rows| && rows[i].applied.Some? && rows[i].targetVariant == Some(v)
    ensures i <= k < n && rows[k].applied.Some? && rows[k].targetVariant == Some(v)
    ensures forall j :: k < j < n && rows[j].applied.Some? ==> rows[j].targetVariant != Some(v)
  {
    if rows[n - 1].applied.Some? && rows[n - 1].targetVariant == Some(v) { k := n - 1; }
    else { k := LatestVariantExists(rows, n - 1, i, v); }
  }

  /** The safety check finds every product and SKU an applied row wrote to. */
  lemma SafeFindsTargets(c: Catalog, rows: seq<Row>, i: nat)
    requires RollbackSafe(c, rows) && i < |rows| && rows[i].applied.Some?
    ensures rows[i].targetProduct.Some? ==> rows[i].targetProduct.value in c.products
    ensures rows[i].targetVariant.Some? ==> rows[i].targetVariant.value in c.variants
  {
    if rows[i].targetProduct.Some? {
      var k := LatestExists(rows, |rows|, i, rows[i].targetProduct.value);
      assert LatestOnProduct(rows, k);
    }
    if rows[i].targetVariant.Some? {
      var k := LatestVariantExists(rows, |rows|, i, rows[i].targetVariant.value);
      assert LatestOnVariant(rows, k);
    }
  }

  /**
   When the rows were not applied in row order (a retry applied a lower-numbered row later), a product the
   import created ends disabled exactly if the lowest-numbered applied row on it recorded the creation,
   or recorded the product as disabled.
   */
  lemma EndsDisabledIff(c: Catalog, rows: seq<Row>, p: Id, i: nat)
    requires RollbackSafe(c, rows) && FirstOnProduct(rows, i, p)
    ensures var before := rows[i].applied.value.before; var done := RollbackRows(c, rows, |rows|);
      p in done.products
      && (!done.products[p].fields.enabled <==> before.productCreated || !before.product.enabled)
  {
    SafeFindsTargets(c, rows, i);
    LowestRowDecidesProduct(c, rows, |rows|, p, i);
  }

  /** The SKU columns a compensation always writes. */
  predicate SkuColumns(f: VariantFields, g: VariantFields) {
    && f.enabled == g.enabled && f.name == g.name && f.barcode == g.barcode && f.specification == g.specification
    && f.saleUnit == g.saleUnit && f.purchaseUnit == g.purchaseUnit && f.packageQuantity == g.packageQuantity
    && f.shelfLifeDays == g.shelfLifeDays
  }

  predicate ProductColumns(f: ProductFields, g: ProductFields) {
    && f.enabled == g.enabled && f.facets == g.facets && f.name == g.name && f.description == g.description
    && f.sourceCreatedAt == g.sourceCreatedAt
  }

  /** The snapshot has the SKU columns `f`; one without SKU columns stands for a disabled SKU with blank ones. */
  predicate SnapshotHolds(before: Snapshot, f: VariantFields) {
    match before.variant
    case Some(b) => SkuColumns(b, f)
    case None =>
      && before.variantName == Some(f.name) && !f.enabled && f.barcode == "" && f.specification == ""
      && f.saleUnit == "" && f.purchaseUnit == "" && f.packageQuantity == 1.0 && f.shelfLifeDays.None?
  }

  /**
   Whatever order rows were applied in: an accepted rollback gives a SKU that was on sale with the columns `f`
   those columns back exactly if the lowest-numbered applied row on it did not record it as created and
   snapshotted them. The code and the price, where snapshotted, come from the same row.
   */
  lemma SkuRestoredIff(c: Catalog, rows: seq<Row>, v: Id, i: nat, f: VariantFields)
    requires RollbackSafe(c, rows) && FirstOnVariant(rows, i, v)
    requires var before := rows[i].applied.value.before;
      f.enabled || (!CreatedVariant(rows[i]) && (before.variant.Some? || before.variantName.Some?))
    ensures var before := rows[i].applied.value.before; var done := RollbackRows(c, rows, |rows|);
      && v in done.variants
      && (SkuColumns(done.variants[v].fields, f) <==> !CreatedVariant(rows[i]) && SnapshotHolds(before, f))
      && (!CreatedVariant(rows[i]) && before.variant.Some? ==>
            && (before.variant.value.sku != "" ==> done.variants[v].fields.sku == before.variant.value.sku)
            && (before.variant.value.price.Some? ==> done.variants[v].fields.price == before.variant.value.price))
  {
    SafeFindsTargets(c, rows, i);
    LowestRowDecidesVariant(c, rows, |rows|, v, i);
    hide RollbackRows, RollbackSafe, FirstOnVariant;
  }

  /** The same for a product; its slug, type and pricing mode come from the same row where snapshotted. */
  lemma ProductRestoredIff(c: Catalog, rows: seq<Row>, p: Id, i: nat, f: ProductFields)
    requires RollbackSafe(c, rows) && FirstOnProduct(rows, i, p)
    requires f.enabled || !rows[i].applied.value.before.productCreated
    ensures var before := rows[i].applied.value.before; var done := RollbackRows(c, rows, |rows|);
      && p in done.products
      && (ProductColumns(done.products[p].fields, f) <==> !before.productCreated && ProductColumns(before.product, f))
      && (!before.productCreated ==>
            && (before.product.slug != "" ==> done.products[p].fields.slug == before.product.slug)
            && (before.product.fulfillmentType != "" ==>
                  done.products[p].fields.fulfillmentType == before.product.fulfillmentType)
            && (before.product.pricingMode != "" ==> done.products[p].fields.pricingMode == before.product.pricingMode))
  {
    SafeFindsTargets(c, rows, i);
    LowestRowDecidesProduct(c, rows, |rows|, p, i);
    hide RollbackRows, RollbackSafe, FirstOnProduct;
  }
}
