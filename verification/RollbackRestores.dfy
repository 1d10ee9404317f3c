/**
 Execution followed by rollback: rows executed in row order against a catalog they were planned on,
 however interrupted, are compensated back to the values of that catalog.
 */
module RollbackRestores {
  import opened Wrappers
  import opened StoreCatalog
  import opened ImportRows
  import opened CatalogWriter
  import opened CatalogRollback
  import opened RollbackTheorems
  import opened CrashTransparency
  import opened ImportProtocol

  /** How the preview fills an executable row that nobody resolved as CREATE_NEW or UPDATE_EXISTING. */
  ghost predicate Planned(row: Row) {
    && !Forced(row)
    && (row.targetProduct.None? ==> row.targetVariant.None? && row.before.None?)
    && (row.targetProduct.Some? ==> row.expectedProduct.Some? && row.before.Some? && !row.before.value.productCreated)
    && (row.targetVariant.Some? ==>
          && row.expectedVariant.Some? && row.targetProduct.Some?
          && row.before.value.variant.Some? && row.before.value.stock.Some? && !row.before.value.variantCreated)
    && (row.targetVariant.None? && row.before.Some? ==> row.before.value.variantCreated && row.before.value.stock.None?)
  }

  /** A snapshot taken at a version holds the columns of that version, and the stock is still as it was. */
  ghost predicate Faithful(c0: Catalog, row: Row) {
    row.before.Some? ==>
      var before := row.before.value;
      && (row.targetProduct.Some? && row.targetProduct.value in c0.products
          && row.expectedProduct == Some(c0.products[row.targetProduct.value].updatedAt)
          ==> before.product == c0.products[row.targetProduct.value].fields)
      && (row.targetVariant.Some? && row.targetVariant.value in c0.variants
          && row.expectedVariant == Some(c0.variants[row.targetVariant.value].updatedAt)
          ==> before.variant == Some(c0.variants[row.targetVariant.value].fields))
      && (row.targetVariant.Some? && row.targetVariant.value in c0.variants && row.data.location.Some?
          ==> before.stock == Some(c0.StockAt(row.targetVariant.value, row.data.location.value)))
  }

  /** What a committed row wrote, seen from the catalog before it. */
  ghost predicate WroteOnly(c: Catalog, c': Catalog, p: Id, v: Id, location: Id) {
    && p in c'.products && v in c'.variants
    && (forall q :: q in c.products ==> q in c'.products && (q != p ==> c'.products[q] == c.products[q]))
    && (forall q :: q in c'.products ==> q in c.products || q == p)
    && (forall w :: w in c.variants ==> w in c'.variants && (w != v ==> c'.variants[w] == c.variants[w]))
    && (forall w :: w in c'.variants ==> w in c.variants || w == v)
    && (forall w, l :: w != v || l != location ==> c'.StockAt(w, l) == c.StockAt(w, l))
  }

  lemma ResolveProductWrites(c: Catalog, row: Row, maps: KeyMaps)
    requires c.Valid() && ResolveProduct(c, row, maps).Ok?
    ensures var target := ResolveProduct(c, row, maps).value; var c1 := target.catalog;
      && c1.Valid() && target.id in c1.products && c1.variants == c.variants && c1.stock == c.stock
      && (forall q :: q in c.products ==> q in c1.products && c1.products[q] == c.products[q])
      && (forall q :: q in c1.products ==> q in c.products || q == target.id)
  {
  }

  lemma WriteProductWrites(c: Catalog, row: Row, p: Id, created: bool)
    requires c.Valid() && p in c.products
    ensures var c1 := WriteProduct(c, row, p, created);
      && c1.Valid() && c1.products.Keys == c.products.Keys && c1.variants == c.variants && c1.stock == c.stock
      && (forall q :: q in c.products && q != p ==> c1.products[q] == c.products[q])
  {
  }

  lemma WriteVariantWrites(c: Catalog, row: Row, p: Id, variant: Option<Id>, location: Id)
    requires c.Valid() && (variant.Some? ==> variant.value in c.variants)
    ensures var (c1, v) := WriteVariant(c, row, p, variant, location);
      && c1.Valid() && c1.products == c.products && v in c1.variants
      && (forall w :: w in c.variants ==> w in c1.variants && (w != v ==> c1.variants[w] == c.variants[w]))
      && (forall w :: w in c1.variants ==> w in c.variants || w == v)
      && (forall w, l :: w != v || l != location ==> c1.StockAt(w, l) == c.StockAt(w, l))
  {
    hide PatchVariant, FingerprintOf, Catalog.SetStock, Catalog.StockAt;
    var at := GetOr(variant, c.nextId);
    var fields :=
      if variant.Some? then PatchVariant(c.variants[at].fields, row.data.variantPatch) else row.data.newVariant;
    var put := c.PutVariant(at, p, fields);
    var c1 := if variant.Some? then put else put.(nextId := c.nextId + 1);
    SameLevels(c, c1);
    if row.data.stock.Some? { SetStockWrites(c1, at, location, row.data.stock.value); }
    SameLevels(c1, WriteVariant(c, row, p, variant, location).0);
  }

  lemma SetStockWrites(c: Catalog, v: Id, location: Id, quantity: int)
    ensures var c1 := c.SetStock(v, location, quantity);
      && c1.products == c.products && c1.variants == c.variants && c1.nextId == c.nextId && c1.clock == c.clock
      && forall w, l :: w != v || l != location ==> c1.StockAt(w, l) == c.StockAt(w, l)
  {
  }

  lemma SameLevels(a: Catalog, b: Catalog)
    ensures a.stock == b.stock ==> forall w, l :: a.StockAt(w, l) == b.StockAt(w, l)
  {
  }

  lemma CommitWrites(target: ProductTarget, row: Row, variant: Option<Id>, location: Id)
    requires target.catalog.Valid() && target.id in target.catalog.products
    requires variant.Some? ==> variant.value in target.catalog.variants
    ensures var (c', r) := CommitRow(target, row, variant, location);
      && c'.Valid() && r.targetProduct == Some(target.id) && r.targetVariant.Some?
      && r.applied.Some? && r.applied.value.location == location
      && WroteOnly(target.catalog, c', target.id, r.targetVariant.value, location)
  {
    hide WriteProduct, WriteVariant, BeforeOf, FingerprintOf;
    WriteProductWrites(target.catalog, row, target.id, target.created);
    var c1 := WriteProduct(target.catalog, row, target.id, target.created);
    WriteVariantWrites(c1, row, target.id, variant, location);
  }

  lemma WroteOnlyFrom(c: Catalog, c1: Catalog, c': Catalog, p: Id, v: Id, location: Id)
    requires c1.variants == c.variants && c1.stock == c.stock
    requires forall q :: q in c.products ==> q in c1.products && c1.products[q] == c.products[q]
    requires forall q :: q in c1.products ==> q in c.products || q == p
    requires WroteOnly(c1, c', p, v, location)
    ensures WroteOnly(c, c', p, v, location)
  {
  }

  lemma ApplyWrites(c: Catalog, row: Row, maps: KeyMaps)
    requires c.Valid() && ApplyRow(c, row, maps).Ok?
    ensures var (c', r) := ApplyRow(c, row, maps).value;
      && c'.Valid() && r.applied.Some? && r.targetProduct.Some? && r.targetVariant.Some?
      && row.data.location == Some(r.applied.value.location)
      && WroteOnly(c, c', r.targetProduct.value, r.targetVariant.value, r.applied.value.location)
  {
    var target := ResolveProduct(c, row, maps).value;
    ResolveProductWrites(c, row, maps);
    var variant := ResolveVariant(target.catalog, row, maps, target.id).value;
    CommitWrites(target, row, variant, row.data.location.value);
    var (c', r) := CommitRow(target, row, variant, row.data.location.value);
    WroteOnlyFrom(c, target.catalog, c', target.id, r.targetVariant.value, row.data.location.value);
    assert ApplyRow(c, row, maps) == Ok((c', r));
  }

  /** The product a row writes was created by it, or is the one it names and was checked. */
  lemma ApplyProduct(c: Catalog, row: Row, maps: KeyMaps)
    requires c.Valid() && ApplyRow(c, row, maps).Ok?
    ensures var r := ApplyRow(c, row, maps).value.1; var p := r.targetProduct.value; var a := r.applied.value;
      && (row.before.Some? ==> a.before == row.before.value)
      && (p !in c.products ==> row.targetProduct.None? && (row.before.None? ==> a.before.productCreated))
      && (p in c.products ==> row.targetProduct == Some(p) || Lookup(maps.products, row.productKey) == Some(p))
      && (p in c.products && row.expectedProduct.Some? && Lookup(maps.products, row.productKey) != Some(p)
          ==> row.expectedProduct == Some(c.products[p].updatedAt))
  {
  }

  lemma ApplyVariant(c: Catalog, row: Row, maps: KeyMaps)
    requires c.Valid() && ApplyRow(c, row, maps).Ok? && !Forced(row)
    ensures var r := ApplyRow(c, row, maps).value.1; var v := r.targetVariant.value; var a := r.applied.value;
      && (v !in c.variants <==> a.variantCreated)
      && (v in c.variants ==> row.targetVariant == Some(v) || Lookup(maps.variants, row.executionKey) == Some(v))
      && (v in c.variants && row.expectedVariant.Some? && Lookup(maps.variants, row.executionKey) != Some(v)
          ==> row.expectedVariant == Some(c.variants[v].updatedAt))
      && (v in c.variants && row.targetVariant.Some? ==> row.targetVariant == Some(v))
      && (row.before.None? ==> a.before.stock.None?)
  {
  }

  /** Untouched products are as in `c0`, new ones and remembered ones were written by a row. */
  ghost predicate ProductsKept(c0: Catalog, e: Execution) {
    && (forall p :: p in c0.products ==> p in e.catalog.products)
    && (forall p :: p in c0.products && (forall j :: 0 <= j < |e.rows| ==> !OnProduct(e.rows[j], p))
          ==> e.catalog.products[p] == c0.products[p])
    && (forall p :: p in e.catalog.products && p !in c0.products ==>
          exists j :: 0 <= j < |e.rows| && OnProduct(e.rows[j], p))
    && (forall key :: key in e.maps.products ==>
          exists j :: 0 <= j < |e.rows| && OnProduct(e.rows[j], e.maps.products[key]))
  }

  /** The first row on a product that existed before recorded its `c0` columns, on another its creation. */
  ghost predicate FirstProductsRecord(c0: Catalog, e: Execution) {
    forall p, i: nat :: FirstOnProduct(e.rows, i, p) ==>
      var before := e.rows[i].applied.value.before;
      if p in c0.products then !before.productCreated && before.product == c0.products[p].fields
      else before.productCreated
  }

  ghost predicate ProductsTracked(c0: Catalog, e: Execution) {
    ProductsKept(c0, e) && FirstProductsRecord(c0, e)
  }

  ghost predicate VariantsKept(c0: Catalog, e: Execution) {
    && (forall v :: v in c0.variants ==> v in e.catalog.variants)
    && (forall v :: v in c0.variants && (forall j :: 0 <= j < |e.rows| ==> !OnVariant(e.rows[j], v))
          ==> e.catalog.variants[v] == c0.variants[v])
    && (forall v :: v in e.catalog.variants && v !in c0.variants ==>
          exists j :: 0 <= j < |e.rows| && OnVariant(e.rows[j], v))
    && (forall key :: key in e.maps.variants ==>
          exists j :: 0 <= j < |e.rows| && OnVariant(e.rows[j], e.maps.variants[key]))
  }

  ghost predicate FirstVariantsRecord(c0: Catalog, e: Execution) {
    forall v, i: nat :: FirstOnVariant(e.rows, i, v) ==>
      if v in c0.variants
      then !CreatedVariant(e.rows[i]) && e.rows[i].applied.value.before.variant == Some(c0.variants[v].fields)
      else CreatedVariant(e.rows[i])
  }

  ghost predicate VariantsTracked(c0: Catalog, e: Execution) {
    VariantsKept(c0, e) && FirstVariantsRecord(c0, e)
  }

  /** Stock: the first row on a level either recorded its `c0` quantity or recorded none. */
  ghost predicate StockTracked(c0: Catalog, e: Execution) {
    && (forall v, l :: v in c0.variants && (forall j :: 0 <= j < |e.rows| ==> !OnStock(e.rows[j], v, l))
          ==> e.catalog.StockAt(v, l) == c0.StockAt(v, l))
    && (forall v, l, i: nat :: v in c0.variants && FirstOnStock(e.rows, i, v, l) ==>
          var stock := e.rows[i].applied.value.before.stock;
          stock.Some? ==> stock.value == c0.StockAt(v, l))
  }

  /** Rows from `k` on are not applied; `row` is about to become row `k`. */
  ghost predicate Appends(rows: seq<Row>, k: nat, row: Row) {
    && k < |rows| && (forall j :: k <= j < |rows| ==> rows[j].applied.None?)
    && row.applied.Some? && row.targetProduct.Some? && row.targetVariant.Some?
  }

  lemma FirstProductAfter(rows: seq<Row>, k: nat, row: Row, i: nat, p: Id)
    requires Appends(rows, k, row) && FirstOnProduct(rows[k := row], i, p)
    ensures if i == k then row.targetProduct == Some(p) && forall j :: 0 <= j < |rows| ==> !OnProduct(rows[j], p)
            else i < k && FirstOnProduct(rows, i, p)
  {
    var rows' := rows[k := row];
    forall j | 0 <= j < |rows| && j != k ensures OnProduct(rows'[j], p) == OnProduct(rows[j], p) {}
  }

  lemma FirstVariantAfter(rows: seq<Row>, k: nat, row: Row, i: nat, v: Id)
    requires Appends(rows, k, row) && FirstOnVariant(rows[k := row], i, v)
    ensures if i == k then row.targetVariant == Some(v) && forall j :: 0 <= j < |rows| ==> !OnVariant(rows[j], v)
            else i < k && FirstOnVariant(rows, i, v)
  {
    var rows' := rows[k := row];
    forall j | 0 <= j < |rows| && j != k ensures OnVariant(rows'[j], v) == OnVariant(rows[j], v) {}
  }

  lemma FirstStockAfter(rows: seq<Row>, k: nat, row: Row, i: nat, v: Id, l: Id)
    requires Appends(rows, k, row) && FirstOnStock(rows[k := row], i, v, l)
    ensures if i == k then OnStock(row, v, l) && forall j :: 0 <= j < |rows| ==> !OnStock(rows[j], v, l)
            else i < k && FirstOnStock(rows, i, v, l)
  {
    var rows' := rows[k := row];
    forall j | 0 <= j < |rows| && j != k ensures OnStock(rows'[j], v, l) == OnStock(rows[j], v, l) {}
  }

  ghost predicate Ready(c0: Catalog, e: Execution, k: nat) {
    && k < |e.rows| && e.catalog.Valid()
    && (forall j :: k <= j < |e.rows| ==> e.rows[j].applied.None?)
    && Planned(e.rows[k]) && Faithful(c0, e.rows[k])
    && ApplyRow(e.catalog, e.rows[k], e.maps).Ok?
  }

  function Applying(e: Execution, k: nat): Execution
    requires k < |e.rows| && ApplyRow(e.catalog, e.rows[k], e.maps).Ok?
  {
    var (c, r) := ApplyRow(e.catalog, e.rows[k], e.maps).value;
    Execution(e.rows[k := r], c, Remember(e.maps, r))
  }

  /** The first row of the job on a product that existed before: its snapshot was version-checked. */
  lemma FirstProductSnapshot(c0: Catalog, e: Execution, k: nat, p: Id)
    requires Ready(c0, e, k) && ProductsKept(c0, e)
    requires Applying(e, k).rows[k].targetProduct == Some(p)
    requires forall j :: 0 <= j < |e.rows| ==> !OnProduct(e.rows[j], p)
    ensures var before := Applying(e, k).rows[k].applied.value.before;
      if p in c0.products then !before.productCreated && before.product == c0.products[p].fields
      else before.productCreated
  {
  }

  lemma FirstVariantSnapshot(c0: Catalog, e: Execution, k: nat, v: Id)
    requires Ready(c0, e, k) && VariantsKept(c0, e)
    requires Applying(e, k).rows[k].targetVariant == Some(v)
    requires forall j :: 0 <= j < |e.rows| ==> !OnVariant(e.rows[j], v)
    ensures var r := Applying(e, k).rows[k];
      r.applied.Some? &&
      if v in c0.variants then !CreatedVariant(r) && r.applied.value.before.variant == Some(c0.variants[v].fields)
      else CreatedVariant(r)
  {
  }

  lemma FirstStockSnapshot(c0: Catalog, e: Execution, k: nat, v: Id, l: Id)
    requires Ready(c0, e, k) && VariantsKept(c0, e) && v in c0.variants
    requires OnStock(Applying(e, k).rows[k], v, l)
    ensures var stock := Applying(e, k).rows[k].applied.value.before.stock;
      stock.Some? ==> stock.value == c0.StockAt(v, l)
  {
    var row := e.rows[k];
    ApplyWrites(e.catalog, row, e.maps);
    ApplyVariant(e.catalog, row, e.maps);
    ApplyProduct(e.catalog, row, e.maps);
  }

  lemma ProductsStep(c0: Catalog, e: Execution, k: nat)
    requires Ready(c0, e, k) && ProductsTracked(c0, e)
    ensures ProductsTracked(c0, Applying(e, k))
  {
    hide ApplyRow, Planned, Faithful, ProductsKept;
    var e' := Applying(e, k);
    var r := e'.rows[k];
    ApplyWrites(e.catalog, e.rows[k], e.maps);
    ProductsKeptStep(c0, e, k);
    forall p, i: nat | FirstOnProduct(e'.rows, i, p)
      ensures var before := e'.rows[i].applied.value.before;
        if p in c0.products then !before.productCreated && before.product == c0.products[p].fields
        else before.productCreated
    {
      FirstProductAfter(e.rows, k, r, i, p);
      if i == k { FirstProductSnapshot(c0, e, k, p); }
    }
  }

  lemma ProductsKeptStep(c0: Catalog, e: Execution, k: nat)
    requires Ready(c0, e, k) && ProductsKept(c0, e)
    ensures ProductsKept(c0, Applying(e, k))
  {
    hide ApplyRow, Planned, Faithful;
    ApplyWrites(e.catalog, e.rows[k], e.maps);
    OthersKeepPlace(e.rows, k, Applying(e, k).rows[k]);
  }

  lemma VariantsStep(c0: Catalog, e: Execution, k: nat)
    requires Ready(c0, e, k) && VariantsTracked(c0, e)
    ensures VariantsTracked(c0, Applying(e, k))
  {
    hide ApplyRow, Planned, Faithful, VariantsKept;
    var e' := Applying(e, k);
    var r := e'.rows[k];
    ApplyWrites(e.catalog, e.rows[k], e.maps);
    VariantsKeptStep(c0, e, k);
    forall v, i: nat | FirstOnVariant(e'.rows, i, v)
      ensures if v in c0.variants
              then !CreatedVariant(e'.rows[i]) && e'.rows[i].applied.value.before.variant == Some(c0.variants[v].fields)
              else CreatedVariant(e'.rows[i])
    {
      FirstVariantAfter(e.rows, k, r, i, v);
      if i == k { FirstVariantSnapshot(c0, e, k, v); }
    }
  }

  lemma VariantsKeptStep(c0: Catalog, e: Execution, k: nat)
    requires Ready(c0, e, k) && VariantsKept(c0, e)
    ensures VariantsKept(c0, Applying(e, k))
  {
    hide ApplyRow, Planned, Faithful;
    ApplyWrites(e.catalog, e.rows[k], e.maps);
    OthersKeepPlace(e.rows, k, Applying(e, k).rows[k]);
  }

  lemma StockStep(c0: Catalog, e: Execution, k: nat)
    requires Ready(c0, e, k) && VariantsKept(c0, e) && StockTracked(c0, e)
    ensures StockTracked(c0, Applying(e, k))
  {
    hide ApplyRow, Planned, Faithful, VariantsKept;
    var e' := Applying(e, k);
    var r := e'.rows[k];
    ApplyWrites(e.catalog, e.rows[k], e.maps);
    forall v, l, i: nat | v in c0.variants && FirstOnStock(e'.rows, i, v, l)
      ensures var stock := e'.rows[i].applied.value.before.stock; stock.Some? ==> stock.value == c0.StockAt(v, l)
    {
      FirstStockAfter(e.rows, k, r, i, v, l);
      if i == k { FirstStockSnapshot(c0, e, k, v, l); }
    }
    OthersKeepPlace(e.rows, k, r);
  }

  lemma OthersKeepPlace(rows: seq<Row>, k: nat, row: Row)
    requires Appends(rows, k, row)
    ensures OnProduct(rows[k := row][k], row.targetProduct.value)
            && OnVariant(rows[k := row][k], row.targetVariant.value)
    ensures forall j, p :: 0 <= j < |rows| && OnProduct(rows[j], p) ==> OnProduct(rows[k := row][j], p)
    ensures forall j, v :: 0 <= j < |rows| && OnVariant(rows[j], v) ==> OnVariant(rows[k := row][j], v)
    ensures forall j, v, l :: 0 <= j < |rows| && OnStock(rows[j], v, l) ==> OnStock(rows[k := row][j], v, l)
  {
  }

  ghost predicate AllTracked(c0: Catalog, e: Execution) {
    e.catalog.Valid() && ProductsTracked(c0, e) && VariantsTracked(c0, e) && StockTracked(c0, e)
  }

  /** The rows an attempt may execute are as the preview planned them on `c0`. */
  ghost predicate PlannedOn(rows: seq<Row>, c0: Catalog) {
    && c0.Valid() && Fresh(rows)
    && forall i :: 0 <= i < |rows| && (rows[i].action.Create? || rows[i].action.Update?)
                   ==> Planned(rows[i]) && Faithful(c0, rows[i])
  }

  /** Marking row `k` ERROR touches nothing. */
  lemma ErrorTouchesNothing(rows: seq<Row>, k: nat, rows': seq<Row>)
    requires k < |rows| && rows[k].applied.None? && rows' == rows[k := rows[k].(action := Error)]
    ensures forall j, p :: 0 <= j < |rows| ==> OnProduct(rows'[j], p) == OnProduct(rows[j], p)
    ensures forall j, v :: 0 <= j < |rows| ==> OnVariant(rows'[j], v) == OnVariant(rows[j], v)
    ensures forall j, v, l :: 0 <= j < |rows| ==> OnStock(rows'[j], v, l) == OnStock(rows[j], v, l)
    ensures forall p, i: nat :: FirstOnProduct(rows', i, p) ==> FirstOnProduct(rows, i, p) && i != k
    ensures forall v, i: nat :: FirstOnVariant(rows', i, v) ==> FirstOnVariant(rows, i, v) && i != k
    ensures forall v, l, i: nat :: FirstOnStock(rows', i, v, l) ==> FirstOnStock(rows, i, v, l) && i != k
  {
  }

  lemma ErrorKeepsStock(c0: Catalog, e: Execution, e': Execution)
    requires StockTracked(c0, e) && e'.catalog == e.catalog && |e'.rows| == |e.rows|
    requires forall j, v, l :: 0 <= j < |e.rows| ==> OnStock(e'.rows[j], v, l) == OnStock(e.rows[j], v, l)
    requires forall j :: 0 <= j < |e.rows| && e.rows[j].applied.Some? ==> e'.rows[j] == e.rows[j]
    ensures StockTracked(c0, e')
  {
    hide Catalog.StockAt;
  }

  lemma ErrorStep(c0: Catalog, e: Execution, k: nat)
    requires k < |e.rows| && AllTracked(c0, e) && e.rows[k].applied.None?
    ensures AllTracked(c0, e.(rows := e.rows[k := e.rows[k].(action := Error)]))
  {
    hide Planned, Faithful, CreatedVariant;
    var e' := e.(rows := e.rows[k := e.rows[k].(action := Error)]);
    ErrorTouchesNothing(e.rows, k, e'.rows);
    ErrorKeepsStock(c0, e, e');
    assert FirstProductsRecord(c0, e') && FirstVariantsRecord(c0, e');
    hide StockTracked, FirstProductsRecord, FirstVariantsRecord;
    assert ProductsKept(c0, e') by {
      forall key | key in e'.maps.products
        ensures exists j :: 0 <= j < |e'.rows| && OnProduct(e'.rows[j], e'.maps.products[key])
      {
        var j :| 0 <= j < |e.rows| && OnProduct(e.rows[j], e.maps.products[key]);
        assert OnProduct(e'.rows[j], e.maps.products[key]);
      }
    }
    assert VariantsKept(c0, e') by {
      forall key | key in e'.maps.variants
        ensures exists j :: 0 <= j < |e'.rows| && OnVariant(e'.rows[j], e'.maps.variants[key])
      {
        var j :| 0 <= j < |e.rows| && OnVariant(e.rows[j], e.maps.variants[key]);
        assert OnVariant(e'.rows[j], e.maps.variants[key]);
      }
    }
  }

  lemma ExecuteTracked(c0: Catalog, e: Execution, k: nat)
    requires k < |e.rows| && AllTracked(c0, e) && e.rows[k].applied.None?
    requires forall j :: k <= j < |e.rows| ==> e.rows[j].applied.None?
    requires e.rows[k].action.Create? || e.rows[k].action.Update? ==> Planned(e.rows[k]) && Faithful(c0, e.rows[k])
    ensures AllTracked(c0, ExecuteRow(e, k))
  {
    match WorkOn(e.rows[k], e.catalog, e.maps)
    case Keeps =>
    case Throws => ErrorStep(c0, e, k);
    case Writes(_, _) =>
      assert ExecuteRow(e, k) == Applying(e, k);
      ApplyWrites(e.catalog, e.rows[k], e.maps);
      ProductsStep(c0, e, k);
      VariantsStep(c0, e, k);
      StockStep(c0, e, k);
  }

  lemma StartTracked(rows: seq<Row>, c0: Catalog)
    requires PlannedOn(rows, c0)
    ensures AllTracked(c0, Execution(rows, c0, NO_KEYS))
  {
  }

  lemma {:induction false} SequentialTracked(rows: seq<Row>, c0: Catalog, k: nat)
    requires k <= |rows| && PlannedOn(rows, c0)
    ensures AllTracked(c0, Sequential(rows, c0, k))
  {
    hide AllTracked, ExecuteRow;
    if k == 0 {
      RebuildSkips(rows, 0, |rows|);
      StartTracked(rows, c0);
    } else {
      SequentialTracked(rows, c0, k - 1);
      SequentialShape(rows, c0, k - 1);
      var e := Sequential(rows, c0, k - 1);
      assert e.rows[k - 1] == rows[k - 1];
      ExecuteTracked(c0, e, k - 1);
      assert Sequential(rows, c0, k) == ExecuteRow(e, k - 1);
    }
  }

  /** `f` has the columns of `g`; an empty slug, type or pricing mode is not written back. */
  predicate ProductRestored(f: ProductFields, g: ProductFields) {
    && f.name == g.name && f.description == g.description && f.enabled == g.enabled && f.facets == g.facets
    && f.sourceCreatedAt == g.sourceCreatedAt
    && (g.slug != "" ==> f.slug == g.slug)
    && (g.fulfillmentType != "" ==> f.fulfillmentType == g.fulfillmentType)
    && (g.pricingMode != "" ==> f.pricingMode == g.pricingMode)
  }

  /** `f` has the columns of `g`; an empty SKU code or a price that did not exist is not written back. */
  predicate VariantRestored(f: VariantFields, g: VariantFields) {
    && f.enabled == g.enabled && f.name == g.name && f.barcode == g.barcode && f.specification == g.specification
    && f.saleUnit == g.saleUnit && f.purchaseUnit == g.purchaseUnit && f.packageQuantity == g.packageQuantity
    && f.shelfLifeDays == g.shelfLifeDays
    && (g.sku != "" ==> f.sku == g.sku)
    && (g.price.Some? ==> f.price == g.price)
  }

  ghost predicate ProductsCompensated(c0: Catalog, now: Catalog, rows: seq<Row>, done: Catalog) {
    && (forall j, p :: 0 <= j < |rows| && OnProduct(rows[j], p) ==>
          p in done.products &&
          if p in c0.products then ProductRestored(done.products[p].fields, c0.products[p].fields)
          else !done.products[p].fields.enabled)
    && (forall p :: p in now.products && (forall j :: 0 <= j < |rows| ==> !OnProduct(rows[j], p)) ==>
          p in done.products && done.products[p] == now.products[p])
  }

  ghost predicate VariantsCompensated(c0: Catalog, now: Catalog, rows: seq<Row>, done: Catalog) {
    && (forall j, v :: 0 <= j < |rows| && OnVariant(rows[j], v) ==>
          v in done.variants &&
          if v in c0.variants then VariantRestored(done.variants[v].fields, c0.variants[v].fields)
          else !done.variants[v].fields.enabled)
    && (forall v :: v in now.variants && (forall j :: 0 <= j < |rows| ==> !OnVariant(rows[j], v)) ==>
          v in done.variants && done.variants[v] == now.variants[v])
  }

  ghost predicate StockCompensated(c0: Catalog, now: Catalog, rows: seq<Row>, done: Catalog) {
    && (forall v, l :: (forall j :: 0 <= j < |rows| ==> !OnStock(rows[j], v, l)) ==>
          done.StockAt(v, l) == now.StockAt(v, l))
    && (forall v, l, i: nat :: v in c0.variants && FirstOnStock(rows, i, v, l) ==>
          (done.StockAt(v, l) == c0.StockAt(v, l)
           <==> rows[i].applied.value.before.stock.Some? || c0.StockAt(v, l) == 0))
  }

  /** What rollback makes of the catalog `now`, after the applied rows `rows` changed what was `c0`. */
  ghost predicate Compensated(c0: Catalog, now: Catalog, rows: seq<Row>, done: Catalog) {
    ProductsCompensated(c0, now, rows, done) && VariantsCompensated(c0, now, rows, done)
    && StockCompensated(c0, now, rows, done)
  }

  lemma {:induction false} FirstProductExists(rows: seq<Row>, j: nat, p: Id) returns (i: nat)
    requires j < |rows| && OnProduct(rows[j], p)
    ensures FirstOnProduct(rows, i, p)
    decreases j
  {
    if m :| 0 <= m < j && OnProduct(rows[m], p) { i := FirstProductExists(rows, m, p); } else { i := j; }
  }

  lemma {:induction false} FirstVariantExists(rows: seq<Row>, j: nat, v: Id) returns (i: nat)
    requires j < |rows| && OnVariant(rows[j], v)
    ensures FirstOnVariant(rows, i, v)
    decreases j
  {
    if m :| 0 <= m < j && OnVariant(rows[m], v) { i := FirstVariantExists(rows, m, v); } else { i := j; }
  }

  lemma ProductCompensated(c0: Catalog, e: Execution, now: Catalog, j: nat, p: Id)
    requires ProductsTracked(c0, e) && RollbackSafe(now, e.rows) && j < |e.rows| && OnProduct(e.rows[j], p)
    ensures var done := RollbackRows(now, e.rows, |e.rows|);
      p in done.products &&
      if p in c0.products then ProductRestored(done.products[p].fields, c0.products[p].fields)
      else !done.products[p].fields.enabled
  {
    hide RollbackSafe, RollbackRows;
    SafeFindsTargets(now, e.rows, j);
    var i := FirstProductExists(e.rows, j, p);
    LowestRowDecidesProduct(now, e.rows, |e.rows|, p, i);
  }

  lemma VariantCompensated(c0: Catalog, e: Execution, now: Catalog, j: nat, v: Id)
    requires VariantsTracked(c0, e) && RollbackSafe(now, e.rows) && j < |e.rows| && OnVariant(e.rows[j], v)
    ensures var done := RollbackRows(now, e.rows, |e.rows|);
      v in done.variants &&
      if v in c0.variants then VariantRestored(done.variants[v].fields, c0.variants[v].fields)
      else !done.variants[v].fields.enabled
  {
    hide RollbackSafe, RollbackRows;
    SafeFindsTargets(now, e.rows, j);
    var i := FirstVariantExists(e.rows, j, v);
    LowestRowDecidesVariant(now, e.rows, |e.rows|, v, i);
  }

  lemma RollbackProducts(c0: Catalog, e: Execution, now: Catalog)
    requires ProductsTracked(c0, e) && RollbackSafe(now, e.rows)
    ensures ProductsCompensated(c0, now, e.rows, RollbackRows(now, e.rows, |e.rows|))
  {
    hide RollbackSafe, RollbackRows, ProductsTracked, ProductRestored;
    var done := RollbackRows(now, e.rows, |e.rows|);
    forall j, p | 0 <= j < |e.rows| && OnProduct(e.rows[j], p)
      ensures p in done.products &&
        if p in c0.products then ProductRestored(done.products[p].fields, c0.products[p].fields)
        else !done.products[p].fields.enabled
    { ProductCompensated(c0, e, now, j, p); }
    forall p | p in now.products && (forall j :: 0 <= j < |e.rows| ==> !OnProduct(e.rows[j], p))
      ensures p in done.products && done.products[p] == now.products[p]
    { RollbackKeepsProduct(now, e.rows, |e.rows|, p); }
  }

  lemma RollbackVariants(c0: Catalog, e: Execution, now: Catalog)
    requires VariantsTracked(c0, e) && RollbackSafe(now, e.rows)
    ensures VariantsCompensated(c0, now, e.rows, RollbackRows(now, e.rows, |e.rows|))
  {
    hide RollbackSafe, RollbackRows, VariantsTracked, VariantRestored;
    var done := RollbackRows(now, e.rows, |e.rows|);
    forall j, v | 0 <= j < |e.rows| && OnVariant(e.rows[j], v)
      ensures v in done.variants &&
        if v in c0.variants then VariantRestored(done.variants[v].fields, c0.variants[v].fields)
        else !done.variants[v].fields.enabled
    { VariantCompensated(c0, e, now, j, v); }
    forall v | v in now.variants && (forall j :: 0 <= j < |e.rows| ==> !OnVariant(e.rows[j], v))
      ensures v in done.variants && done.variants[v] == now.variants[v]
    { RollbackKeepsVariant(now, e.rows, |e.rows|, v); }
  }

  lemma RollbackStock(c0: Catalog, e: Execution, now: Catalog)
    requires StockTracked(c0, e) && RollbackSafe(now, e.rows)
    ensures StockCompensated(c0, now, e.rows, RollbackRows(now, e.rows, |e.rows|))
  {
    var done := RollbackRows(now, e.rows, |e.rows|);
    forall v, l | forall j :: 0 <= j < |e.rows| ==> !OnStock(e.rows[j], v, l)
      ensures done.StockAt(v, l) == now.StockAt(v, l)
    { RollbackKeepsStock(now, e.rows, |e.rows|, v, l); }
    forall v, l, i: nat | v in c0.variants && FirstOnStock(e.rows, i, v, l)
      ensures done.StockAt(v, l) == c0.StockAt(v, l)
              <==> e.rows[i].applied.value.before.stock.Some? || c0.StockAt(v, l) == 0
    {
      SafeFindsTargets(now, e.rows, i);
      LowestRowDecidesStock(now, e.rows, |e.rows|, v, l, i);
    }
  }

  /**
   Reverse compensation over a whole job: whatever happened to the catalog since, if the safety check
   passes, products and SKUs that existed before the import get their pre-import columns back, the ones
   it created end disabled, records it never wrote are left alone, and a stock level gets its pre-import
   quantity back exactly if the lowest-numbered row on it snapshotted one (or it was zero).
   */
  lemma RollbackCompensates(rows: seq<Row>, c0: Catalog, now: Catalog)
    requires PlannedOn(rows, c0)
    requires RollbackSafe(now, Sequential(rows, c0, |rows|).rows)
    ensures var e := Sequential(rows, c0, |rows|);
      Compensated(c0, now, e.rows, RollbackRows(now, e.rows, |rows|))
  {
    var e := Sequential(rows, c0, |rows|);
    SequentialTracked(rows, c0, |rows|);
    RollbackProducts(c0, e, now);
    RollbackVariants(c0, e, now);
    RollbackStock(c0, e, now);
  }

  /**
   The same over the protocol: any calm run, interrupted and recovered at will, that completes the job,
   then any outside writes, then a rollback that is accepted.
   */
  lemma InterruptedRunIsCompensated(s0: State, steps: seq<Step>, outside: Catalog)
    requires Initial(s0) && PlannedOn(s0.rows, s0.catalog)
    requires AllCalm(steps)
    requires Run(s0, steps).job.state.Completed? || Run(s0, steps).job.state.CompletedWithErrors?
    requires Next(Next(Run(s0, steps), OutsideWrite(outside)), Rollback).job.state.RolledBack?
    ensures Compensated(s0.catalog, outside, Run(s0, steps).rows,
                        Next(Next(Run(s0, steps), OutsideWrite(outside)), Rollback).catalog)
  {
    var s := Run(s0, steps);
    InterruptedRunIsSequential(s0, steps);
    RollbackOutcome(s, outside);
    hide Compensated, RollbackSafe, RollbackRows, PlannedOn, Sequential, Run, Next, Initial;
    RollbackCompensates(s0.rows, s0.catalog, outside);
  }

  lemma RollbackOutcome(s: State, outside: Catalog)
    requires |s.rows| <= MAX_ROWS && !s.job.state.RolledBack?
    requires Next(Next(s, OutsideWrite(outside)), Rollback).job.state.RolledBack?
    ensures RollbackSafe(outside, s.rows)
    ensures Next(Next(s, OutsideWrite(outside)), Rollback).catalog == RollbackRows(outside, s.rows, |s.rows|)
  {
    hide RollbackSafe, RollbackRows, AppliedDown, NextRun, NextHandle, NextResolve, NextFinish, NextLoad, NextClaim;
  }
}
