/** `CatalogImportRollback`: the safety check and the reverse compensation from before-snapshots. */
module CatalogRollback {
  import opened Wrappers
  import opened StoreCatalog
  import opened ImportRows

  /** Row `i` is the last applied row on its product (`latestProductRows` of the reversed list). */
  predicate LatestOnProduct(rows: seq<Row>, i: nat)
    requires i < |rows|
  {
    && rows[i].applied.Some? && rows[i].targetProduct.Some?
    && forall j :: i < j < |rows| && rows[j].applied.Some? ==> rows[j].targetProduct != rows[i].targetProduct
  }

  predicate LatestOnVariant(rows: seq<Row>, i: nat)
    requires i < |rows|
  {
    && rows[i].applied.Some? && rows[i].targetVariant.Some?
    && forall j :: i < j < |rows| && rows[j].applied.Some? ==> rows[j].targetVariant != rows[i].targetVariant
  }

  predicate ProductUntouched(c: Catalog, row: Row)
    requires row.applied.Some? && row.targetProduct.Some?
  {
    var p := row.targetProduct.value;
    p in c.products && c.products[p].updatedAt == row.applied.value.afterProduct
  }

  predicate VariantUntouched(c: Catalog, row: Row)
    requires row.applied.Some? && row.targetVariant.Some?
  {
    var v := row.targetVariant.value;
    && v in c.variants && c.variants[v].updatedAt == row.applied.value.afterVariant
    && FingerprintOf(c, v) == row.applied.value.fingerprint
  }

  /** Row `i` is the last one on its product or SKU, and that was changed or removed since. */
  predicate Conflicts(c: Catalog, rows: seq<Row>, i: nat)
    requires i < |rows|
  {
    || (LatestOnProduct(rows, i) && !ProductUntouched(c, rows[i]))
    || (LatestOnVariant(rows, i) && !VariantUntouched(c, rows[i]))
  }

  /** `assertRollbackSafe` raises no conflict. */
  predicate RollbackSafe(c: Catalog, rows: seq<Row>) {
    && (forall i :: 0 <= i < |rows| && LatestOnProduct(rows, i) ==> ProductUntouched(c, rows[i]))
    && (forall i :: 0 <= i < |rows| && LatestOnVariant(rows, i) ==> VariantUntouched(c, rows[i]))
  }

  /** The rows found by going through the reversed list: one per product and per SKU. */
  ghost predicate LatestRows(rows: seq<Row>, n: nat, latestProduct: map<Id, nat>, latestVariant: map<Id, nat>) {
    && (forall p :: p in latestProduct ==>
          n <= latestProduct[p] < |rows| && LatestOnProduct(rows, latestProduct[p])
            && rows[latestProduct[p]].targetProduct == Some(p))
    && (forall v :: v in latestVariant ==>
          n <= latestVariant[v] < |rows| && LatestOnVariant(rows, latestVariant[v])
            && rows[latestVariant[v]].targetVariant == Some(v))
    && (forall i :: n <= i < |rows| && rows[i].applied.Some? ==>
          && (rows[i].targetProduct.Some? ==> rows[i].targetProduct.value in latestProduct)
          && (rows[i].targetVariant.Some? ==> rows[i].targetVariant.value in latestVariant))
  }

  lemma NothingFound(rows: seq<Row>)
    ensures LatestRows(rows, |rows|, map[], map[])
  {
  }

  lemma LatestStep(rows: seq<Row>, n: nat, latestProduct: map<Id, nat>, latestVariant: map<Id, nat>)
    requires n < |rows| && LatestRows(rows, n + 1, latestProduct, latestVariant)
    ensures var row := rows[n];
      LatestRows(rows, n,
        if row.applied.Some? && row.targetProduct.Some? && row.targetProduct.value !in latestProduct
        then latestProduct[row.targetProduct.value := n] else latestProduct,
        if row.applied.Some? && row.targetVariant.Some? && row.targetVariant.value !in latestVariant
        then latestVariant[row.targetVariant.value := n] else latestVariant)
  {
  }

  lemma ConflictsFound(c: Catalog, rows: seq<Row>, latestProduct: map<Id, nat>, latestVariant: map<Id, nat>)
    requires LatestRows(rows, 0, latestProduct, latestVariant)
    ensures forall p :: p in latestProduct ==>
      latestProduct[p] < |rows| && rows[latestProduct[p]].applied.Some? && rows[latestProduct[p]].targetProduct.Some?
    ensures forall v :: v in latestVariant ==>
      latestVariant[v] < |rows| && rows[latestVariant[v]].applied.Some? && rows[latestVariant[v]].targetVariant.Some?
    ensures (set p | p in latestProduct && !ProductUntouched(c, rows[latestProduct[p]]) :: latestProduct[p])
            + (set v | v in latestVariant && !VariantUntouched(c, rows[latestVariant[v]]) :: latestVariant[v])
            == set i: nat | i < |rows| && Conflicts(c, rows, i)
  {
    hide ProductUntouched, VariantUntouched;
    forall i: nat | i < |rows| && LatestOnProduct(rows, i) ensures latestProduct[rows[i].targetProduct.value] == i {}
    forall i: nat | i < |rows| && LatestOnVariant(rows, i) ensures latestVariant[rows[i].targetVariant.value] == i {}
  }

  lemma SafeIffNoConflict(c: Catalog, rows: seq<Row>, conflicts: set<nat>)
    requires conflicts == set i: nat | i < |rows| && Conflicts(c, rows, i)
    ensures conflicts == {} <==> RollbackSafe(c, rows)
  {
    if conflicts == {} {
      forall i | 0 <= i < |rows| && LatestOnProduct(rows, i) ensures ProductUntouched(c, rows[i]) {
        assert !Conflicts(c, rows, i) by { assert i !in conflicts; }
      }
      forall i | 0 <= i < |rows| && LatestOnVariant(rows, i) ensures VariantUntouched(c, rows[i]) {
        assert !Conflicts(c, rows, i) by { assert i !in conflicts; }
      }
    }
  }

  /** The columns written back to a SKU the import did not create. */
  function RestoredVariant(now: VariantFields, before: Snapshot): VariantFields {
    match before.variant
    case Some(b) =>
      now.(enabled := b.enabled, sku := if b.sku != "" then b.sku else now.sku,
           price := if b.price.Some? then b.price else now.price,
           barcode := b.barcode, specification := b.specification, saleUnit := b.saleUnit,
           purchaseUnit := b.purchaseUnit, packageQuantity := b.packageQuantity,
           shelfLifeDays := b.shelfLifeDays, name := b.name)
    case None =>
      // No SKU columns were snapshotted: every one of them reads as undefined.
      now.(enabled := false, barcode := "", specification := "", saleUnit := "", purchaseUnit := "",
           packageQuantity := 1.0, shelfLifeDays := None, name := GetOr(before.variantName, now.name))
  }

  function RestoredProduct(now: ProductFields, before: Snapshot): ProductFields {
    var b := before.product;
    now.(enabled := b.enabled, facets := b.facets, name := b.name, description := b.description,
         slug := if b.slug != "" then b.slug else now.slug,
         fulfillmentType := if b.fulfillmentType != "" then b.fulfillmentType else now.fulfillmentType,
         pricingMode := if b.pricingMode != "" then b.pricingMode else now.pricingMode,
         sourceCreatedAt := b.sourceCreatedAt)
  }

  predicate CreatedVariant(row: Row)
    requires row.applied.Some?
  {
    row.applied.value.variantCreated || row.applied.value.before.variantCreated
  }

  function RollbackVariant(c: Catalog, row: Row, v: Id): Catalog
    requires row.applied.Some?
  {
    if v !in c.variants then c
    else
      var before := row.applied.value.before;
      var now := c.variants[v];
      var c1 := c.PutVariant(v, now.product,
                             if CreatedVariant(row) then now.fields.(enabled := false)
                             else RestoredVariant(now.fields, before));
      c1.SetStock(v, row.applied.value.location, GetOr(before.stock, 0))
  }

  function RollbackProduct(c: Catalog, row: Row, p: Id): Catalog
    requires row.applied.Some?
  {
    if p !in c.products then c
    else
      var before := row.applied.value.before;
      var now := c.products[p].fields;
      c.PutProduct(p, if before.productCreated then now.(enabled := false) else RestoredProduct(now, before))
  }

  function RollbackRow(c: Catalog, row: Row): Catalog
    requires row.applied.Some?
  {
    if row.targetProduct.None? || row.targetVariant.None? then c
    else RollbackProduct(RollbackVariant(c, row, row.targetVariant.value), row, row.targetProduct.value)
  }

  /** Compensates the applied rows among the first `n`, highest row number first. */
  function RollbackRows(c: Catalog, rows: seq<Row>, n: nat): Catalog
    requires n <= |rows|
    decreases n
  {
    if n == 0 then c
    else RollbackRows(if rows[n - 1].applied.Some? then RollbackRow(c, rows[n - 1]) else c, rows, n - 1)
  }
}
