/**
 The field plan of a physical UPDATE row: `diffRow`, which plans it from a snapshot, and the part of
 `applyRow` that writes it. Unicode normalization, the notion of white space and the names of assets are
 parameters; a value is as JSON has it.
 */
module PlanAndApply {
  import opened Wrappers

  datatype Value = Null | Text(text: string) | Number(number: real) | Flag(flag: bool)
  datatype Fulfillment = Digital | Physical
  datatype Pricing = Fixed | QuoteOnly
  datatype Texts = Texts(nfkc: string -> string, isSpace: char -> bool, assetName: string -> string)

  datatype Row = Row(
    name: string, fulfillmentType: Option<Fulfillment>, pricingMode: Option<Pricing>, featuredAssetName: string,
    resolvedFeaturedAssetId: Option<string>, enabled: Option<bool>, variantEnabled: Option<bool>, description: string,
    sku: string, barcode: string, specification: string, primaryUnit: string, purchaseUnit: string,
    packageQuantity: Option<real>, shelfLifeDays: Option<int>, sellingPrice: Option<real>, purchaseCost: Option<real>,
    stockOnHand: Option<int>, minimumStock: Option<int>, maximumStock: Option<int>, sourceCreatedAt: Option<string>,
    providedFields: set<string>, raw: Option<map<string, Value>>)

  datatype ProductFields = ProductFields(
    name: string, description: string, enabled: bool, fulfillmentType: Fulfillment, pricingMode: Pricing,
    featuredAssetId: Option<string>, sourceCreatedAt: Option<string>)
  datatype CustomFields = CustomFields(
    barcode: Option<string>, specification: Option<string>, saleUnit: Option<string>, purchaseUnit: Option<string>,
    packageQuantity: real, shelfLifeDays: Option<int>)
  datatype VariantFields = VariantFields(sku: string, enabled: bool, price: Option<int>, custom: CustomFields)
  datatype Operations = Operations(
    costMicrounits: Option<int>, stockOnHand: int, minimumStock: Option<int>, maximumStock: Option<int>)
  datatype Stored = Stored(product: ProductFields, variant: VariantFields, operations: Operations)

  datatype Column =
    | ProductName | FulfillmentType | PricingMode | FeaturedAssetName | ProductEnabled | VariantEnabled
    | ProductDescription | Sku | Barcode | Specification | SaleUnit | PurchaseUnit | PackageQuantity | ShelfLifeDays
    | SellingPrice | PurchaseCost | StockOnHand | MinimumStock | MaximumStock | SourceCreatedAt

  datatype Change = Change(from: Value, to: Value)

  const NO_CHANGES: map<Column, Change> := map[]

  function TextOf(o: Option<string>): Value {
    if o.Some? then Text(o.value) else Null
  }

  function IntOf(o: Option<int>): Value {
    if o.Some? then Number(o.value as real) else Null
  }

  function RealOf(o: Option<real>): Value {
    if o.Some? then Number(o.value) else Null
  }

  function FlagOf(o: Option<bool>): Value {
    if o.Some? then Flag(o.value) else Null
  }

  function FulfillmentName(f: Fulfillment): Value {
    if f.Digital? then Text("digital") else Text("physical")
  }

  function PricingName(p: Pricing): Value {
    if p.Fixed? then Text("FIXED") else Text("QUOTE_ONLY")
  }

  function Round(x: real): int {
    (x + 0.5).Floor
  }

  function Money(price: Option<real>): int {
    Round(GetOr(price, 0.0) * 100.0)
  }

  function Microunits(cost: real): int {
    Round(cost * 1000.0)
  }

  // ---------------------------------------------------------------- planning

  predicate BlankText(t: Texts, s: string) {
    forall i :: 0 <= i < |s| ==> t.isSpace(s[i])
  }

  predicate Blank(t: Texts, v: Value) {
    v.Null? || (v.Text? && BlankText(t, v.text))
  }

  function EffectiveVariantEnabled(row: Row): Option<bool> {
    if row.variantEnabled.Some? then row.variantEnabled else row.enabled
  }

  /** `shouldClear`, for a field by its name and value in the row. */
  predicate ShouldClear(t: Texts, row: Row, field: string, value: Value, clearBlankFields: bool) {
    clearBlankFields &&
    if row.raw.Some? && field in row.raw.value then Blank(t, row.raw.value[field])
    else field in row.providedFields && Blank(t, value)
  }

  /** The row's clearing of a column, where the column can be cleared. */
  predicate Clears(t: Texts, row: Row, c: Column, clearBlankFields: bool) {
    match c
    case ProductDescription => ShouldClear(t, row, "description", Text(row.description), clearBlankFields)
    case Barcode => ShouldClear(t, row, "barcode", Text(row.barcode), clearBlankFields)
    case Specification => ShouldClear(t, row, "specification", Text(row.specification), clearBlankFields)
    case SaleUnit => ShouldClear(t, row, "primaryUnit", Text(row.primaryUnit), clearBlankFields)
    case PurchaseUnit => ShouldClear(t, row, "purchaseUnit", Text(row.purchaseUnit), clearBlankFields)
    case ShelfLifeDays => ShouldClear(t, row, "shelfLifeDays", IntOf(row.shelfLifeDays), clearBlankFields)
    case MinimumStock => ShouldClear(t, row, "minimumStock", IntOf(row.minimumStock), clearBlankFields)
    case MaximumStock => ShouldClear(t, row, "maximumStock", IntOf(row.maximumStock), clearBlankFields)
    case SourceCreatedAt => ShouldClear(t, row, "sourceCreatedAt", TextOf(row.sourceCreatedAt), clearBlankFields)
    case _ => false
  }

  /** What the row says for a column. */
  function Next(row: Row, c: Column): Value {
    match c
    case ProductName => Text(row.name)
    case FulfillmentType => if row.fulfillmentType.Some? then FulfillmentName(row.fulfillmentType.value) else Null
    case PricingMode => if row.pricingMode.Some? then PricingName(row.pricingMode.value) else Null
    case FeaturedAssetName => Text(row.featuredAssetName)
    case ProductEnabled => FlagOf(row.enabled)
    case VariantEnabled => FlagOf(EffectiveVariantEnabled(row))
    case ProductDescription => Text(row.description)
    case Sku => Text(row.sku)
    case Barcode => Text(row.barcode)
    case Specification => Text(row.specification)
    case SaleUnit => Text(row.primaryUnit)
    case PurchaseUnit => Text(row.purchaseUnit)
    case PackageQuantity => RealOf(row.packageQuantity)
    case ShelfLifeDays => IntOf(row.shelfLifeDays)
    case SellingPrice =>
      if row.pricingMode == Some(QuoteOnly) then Number(0.0)
      else if row.sellingPrice.Some? then Number(Money(row.sellingPrice) as real) else Null
    case PurchaseCost => if row.purchaseCost.Some? then Number(Microunits(row.purchaseCost.value) as real) else Null
    case StockOnHand => IntOf(row.stockOnHand)
    case MinimumStock => IntOf(row.minimumStock)
    case MaximumStock => IntOf(row.maximumStock)
    case SourceCreatedAt => TextOf(row.sourceCreatedAt)
  }

  predicate SamePlannedValue(t: Texts, c: Column, next: Value, previous: Value) {
    if (c.ProductName? || c.ProductDescription?) && next.Text? && previous.Text?
    then t.nfkc(next.text) == t.nfkc(previous.text)
    else next == previous
  }

  function Changed(t: Texts, c: Column, next: Value, previous: Value): Option<Change> {
    if next.Null? || next == Text("") || SamePlannedValue(t, c, next, previous) then None
    else Some(Change(previous, next))
  }

  function ChangedOptional(t: Texts, c: Column, next: Value, previous: Value, clear: bool,
                           cleared: Value): Option<Change> {
    if !Blank(t, next) then if SamePlannedValue(t, c, next, previous) then None else Some(Change(previous, next))
    else if clear && !Blank(t, previous) then Some(Change(previous, cleared))
    else None
  }

  /** The planned change of one column, as the row and the snapshot's value decide it. */
  function Planned(t: Texts, row: Row, previous: Value, c: Column, clearBlankFields: bool): Option<Change> {
    var next, clear := Next(row, c), Clears(t, row, c, clearBlankFields);
    match c
    case FeaturedAssetName => if row.resolvedFeaturedAssetId.Some? then Changed(t, c, next, previous) else None
    case ProductDescription => ChangedOptional(t, c, next, previous, clear, Text(""))
    case SaleUnit => if row.primaryUnit != "" || clear then ChangedOptional(t, c, next, previous, true, Null) else None
    case PurchaseUnit =>
      if row.purchaseUnit != "" || clear then ChangedOptional(t, c, next, previous, true, Null) else None
    case Barcode => ChangedOptional(t, c, next, previous, clear, Null)
    case Specification => ChangedOptional(t, c, next, previous, clear, Null)
    case ShelfLifeDays => ChangedOptional(t, c, next, previous, clear, Null)
    case MinimumStock => ChangedOptional(t, c, next, previous, clear, Null)
    case MaximumStock => ChangedOptional(t, c, next, previous, clear, Null)
    case SourceCreatedAt => ChangedOptional(t, c, next, previous, clear, Null)
    case _ => Changed(t, c, next, previous)
  }

  /** `snapshotVariant`, column by column. */
  function Snapshot(t: Texts, s: Stored, c: Column): Value {
    match c
    case ProductName => Text(s.product.name)
    case FulfillmentType => FulfillmentName(s.product.fulfillmentType)
    case PricingMode => PricingName(s.product.pricingMode)
    case FeaturedAssetName =>
      if s.product.featuredAssetId.Some? then Text(t.assetName(s.product.featuredAssetId.value)) else Null
    case ProductEnabled => Flag(s.product.enabled)
    case VariantEnabled => Flag(s.variant.enabled)
    case ProductDescription => Text(s.product.description)
    case Sku => Text(s.variant.sku)
    case Barcode => Text(GetOr(s.variant.custom.barcode, ""))
    case Specification => Text(GetOr(s.variant.custom.specification, ""))
    case SaleUnit => Text(GetOr(s.variant.custom.saleUnit, ""))
    case PurchaseUnit => Text(GetOr(s.variant.custom.purchaseUnit, ""))
    case PackageQuantity => Number(s.variant.custom.packageQuantity)
    case ShelfLifeDays => IntOf(s.variant.custom.shelfLifeDays)
    case SellingPrice => IntOf(s.variant.price)
    case PurchaseCost => IntOf(s.operations.costMicrounits)
    case StockOnHand => Number(s.operations.stockOnHand as real)
    case MinimumStock => IntOf(s.operations.minimumStock)
    case MaximumStock => IntOf(s.operations.maximumStock)
    case SourceCreatedAt => TextOf(s.product.sourceCreatedAt)
  }

  /** The plan of a row against what is stored: the columns with a change. */
  ghost predicate IsPlan(t: Texts, row: Row, s: Stored, clearBlankFields: bool, plan: map<Column, Change>) {
    forall c :: Lookup(plan, c) == Planned(t, row, Snapshot(t, s, c), c, clearBlankFields)
  }

  /** The order in which `diffRow` considers the columns. */
  function Rank(c: Column): nat {
    match c
    case ProductName => 0
    case FulfillmentType => 1
    case PricingMode => 2
    case FeaturedAssetName => 3
    case ProductEnabled => 4
    case VariantEnabled => 5
    case ProductDescription => 6
    case Sku => 7
    case Barcode => 8
    case Specification => 9
    case SaleUnit => 10
    case PurchaseUnit => 11
    case PackageQuantity => 12
    case ShelfLifeDays => 13
    case SellingPrice => 14
    case PurchaseCost => 15
    case StockOnHand => 16
    case MinimumStock => 17
    case MaximumStock => 18
    case SourceCreatedAt => 19
  }

  lemma RankInjective(c: Column, d: Column)
    requires Rank(c) == Rank(d)
    ensures c == d
  {
  }

  /** The accumulator before the column of rank `k`. */
  ghost predicate PlannedUpTo(t: Texts, row: Row, s: Stored, clear: bool, plan: map<Column, Change>, k: nat) {
    forall c :: Lookup(plan, c) == if Rank(c) < k then Planned(t, row, Snapshot(t, s, c), c, clear) else None
  }

  lemma NoteNothing(t: Texts, row: Row, s: Stored, clear: bool, plan: map<Column, Change>, c: Column)
    requires PlannedUpTo(t, row, s, clear, plan, Rank(c)) && Planned(t, row, Snapshot(t, s, c), c, clear).None?
    ensures PlannedUpTo(t, row, s, clear, plan, Rank(c) + 1)
  {
    hide Planned, Snapshot, Rank;
    forall d | Rank(d) == Rank(c) ensures d == c { RankInjective(d, c); }
  }

  lemma NoteOne(t: Texts, row: Row, s: Stored, clear: bool, plan: map<Column, Change>, c: Column)
    requires PlannedUpTo(t, row, s, clear, plan, Rank(c)) && Planned(t, row, Snapshot(t, s, c), c, clear).Some?
    ensures PlannedUpTo(t, row, s, clear, plan[c := Planned(t, row, Snapshot(t, s, c), c, clear).value], Rank(c) + 1)
  {
    hide Planned, Snapshot, Rank;
    forall d | Rank(d) == Rank(c) ensures d == c { RankInjective(d, c); }
    forall d | d != c
      ensures Lookup(plan[c := Planned(t, row, Snapshot(t, s, c), c, clear).value], d) == Lookup(plan, d) { }
  }

  /** `changed`, writing into the accumulator. */
  method NoteChanged(t: Texts, row: Row, s: Stored, clear: bool, plan: map<Column, Change>, c: Column)
    returns (more: map<Column, Change>)
    requires PlannedUpTo(t, row, s, clear, plan, Rank(c))
    requires Planned(t, row, Snapshot(t, s, c), c, clear) == Changed(t, c, Next(row, c), Snapshot(t, s, c))
    ensures PlannedUpTo(t, row, s, clear, more, Rank(c) + 1)
  {
    hide Planned, Snapshot, Rank, PlannedUpTo;
    var change := Changed(t, c, Next(row, c), Snapshot(t, s, c));
    if change.Some? { NoteOne(t, row, s, clear, plan, c); } else { NoteNothing(t, row, s, clear, plan, c); }
    more := if change.Some? then plan[c := change.value] else plan;
  }

  /** `changedOptional`, writing into the accumulator. */
  method NoteOptional(t: Texts, row: Row, s: Stored, clear: bool, plan: map<Column, Change>, c: Column, clears: bool,
                      cleared: Value)
    returns (more: map<Column, Change>)
    requires PlannedUpTo(t, row, s, clear, plan, Rank(c))
    requires Planned(t, row, Snapshot(t, s, c), c, clear)
             == ChangedOptional(t, c, Next(row, c), Snapshot(t, s, c), clears, cleared)
    ensures PlannedUpTo(t, row, s, clear, more, Rank(c) + 1)
  {
    hide Planned, Snapshot, Rank, PlannedUpTo;
    var change := ChangedOptional(t, c, Next(row, c), Snapshot(t, s, c), clears, cleared);
    if change.Some? { NoteOne(t, row, s, clear, plan, c); } else { NoteNothing(t, row, s, clear, plan, c); }
    more := if change.Some? then plan[c := change.value] else plan;
  }

  lemma NothingPlanned(t: Texts, row: Row, s: Stored, clear: bool)
    ensures PlannedUpTo(t, row, s, clear, NO_CHANGES, 0)
  {
  }

  lemma AllPlanned(t: Texts, row: Row, s: Stored, clear: bool, plan: map<Column, Change>)
    requires PlannedUpTo(t, row, s, clear, plan, 20)
    ensures IsPlan(t, row, s, clear, plan)
  {
    hide Planned, Snapshot;
  }

  /** Price, cost, stock with its bounds, and the source's date. */
  method DiffOperations(t: Texts, row: Row, s: Stored, clear: bool, plan: map<Column, Change>)
    returns (changes: map<Column, Change>)
    requires PlannedUpTo(t, row, s, clear, plan, Rank(SellingPrice))
    ensures PlannedUpTo(t, row, s, clear, changes, 20)
  {
    hide Changed, ChangedOptional, Next, Snapshot, Clears, PlannedUpTo;
    changes := plan;
    changes := NoteChanged(t, row, s, clear, changes, SellingPrice);
    changes := NoteChanged(t, row, s, clear, changes, PurchaseCost);
    changes := NoteChanged(t, row, s, clear, changes, StockOnHand);
    changes := NoteOptional(t, row, s, clear, changes, MinimumStock, Clears(t, row, MinimumStock, clear), Null);
    changes := NoteOptional(t, row, s, clear, changes, MaximumStock, Clears(t, row, MaximumStock, clear), Null);
    changes := NoteOptional(t, row, s, clear, changes, SourceCreatedAt, Clears(t, row, SourceCreatedAt, clear), Null);
  }

  /** A unit is compared when the row has one or clears it. */
  method DiffUnits(t: Texts, row: Row, s: Stored, clear: bool, plan: map<Column, Change>)
    returns (changes: map<Column, Change>)
    requires PlannedUpTo(t, row, s, clear, plan, Rank(SaleUnit))
    ensures PlannedUpTo(t, row, s, clear, changes, Rank(PackageQuantity))
  {
    hide Changed, ChangedOptional, Next, Snapshot, Clears, PlannedUpTo;
    changes := plan;
    if row.primaryUnit != "" || Clears(t, row, SaleUnit, clear) {
      changes := NoteOptional(t, row, s, clear, changes, SaleUnit, true, Null);
    } else {
      NoteNothing(t, row, s, clear, changes, SaleUnit);
    }
    if row.purchaseUnit != "" || Clears(t, row, PurchaseUnit, clear) {
      changes := NoteOptional(t, row, s, clear, changes, PurchaseUnit, true, Null);
    } else {
      NoteNothing(t, row, s, clear, changes, PurchaseUnit);
    }
  }

  /** The custom fields. */
  method DiffCustomFields(t: Texts, row: Row, s: Stored, clear: bool, plan: map<Column, Change>)
    returns (changes: map<Column, Change>)
    requires PlannedUpTo(t, row, s, clear, plan, Rank(Barcode))
    ensures PlannedUpTo(t, row, s, clear, changes, Rank(SellingPrice))
  {
    hide Changed, ChangedOptional, Next, Snapshot, Clears, PlannedUpTo;
    changes := plan;
    changes := NoteOptional(t, row, s, clear, changes, Barcode, Clears(t, row, Barcode, clear), Null);
    changes := NoteOptional(t, row, s, clear, changes, Specification, Clears(t, row, Specification, clear), Null);
    changes := DiffUnits(t, row, s, clear, changes);
    changes := NoteChanged(t, row, s, clear, changes, PackageQuantity);
    changes := NoteOptional(t, row, s, clear, changes, ShelfLifeDays, Clears(t, row, ShelfLifeDays, clear), Null);
  }

  /** `diffRow`: the accumulator gains one column after the other, and ends as the plan. */
  method DiffRow(t: Texts, row: Row, s: Stored, clear: bool) returns (changes: map<Column, Change>)
    ensures IsPlan(t, row, s, clear, changes)
  {
    hide Changed, ChangedOptional, Next, Snapshot, Clears, PlannedUpTo, IsPlan;
    NothingPlanned(t, row, s, clear);
    changes := NO_CHANGES;
    changes := NoteChanged(t, row, s, clear, changes, ProductName);
    changes := NoteChanged(t, row, s, clear, changes, FulfillmentType);
    changes := NoteChanged(t, row, s, clear, changes, PricingMode);
    if row.resolvedFeaturedAssetId.Some? {
      changes := NoteChanged(t, row, s, clear, changes, FeaturedAssetName);
    } else {
      NoteNothing(t, row, s, clear, changes, FeaturedAssetName);
    }
    changes := NoteChanged(t, row, s, clear, changes, ProductEnabled);
    changes := NoteChanged(t, row, s, clear, changes, VariantEnabled);
    changes := NoteOptional(t, row, s, clear, changes, ProductDescription, Clears(t, row, ProductDescription, clear),
                            Text(""));
    changes := NoteChanged(t, row, s, clear, changes, Sku);
    changes := DiffCustomFields(t, row, s, clear, changes);
    changes := DiffOperations(t, row, s, clear, changes);
    AllPlanned(t, row, s, clear, changes);
  }

  // ---------------------------------------------------------------- writing

  /** `optionalUpdate` on a nullable text field. */
  function OptionalText(t: Texts, current: Option<string>, value: string, clear: bool): Option<string> {
    if !BlankText(t, value) then Some(value) else if clear then None else current
  }

  /** `variantCustomFieldUpdates` of a physical row, over the current custom fields. */
  function CustomAfter(t: Texts, row: Row, f: CustomFields, clear: bool): CustomFields {
    CustomFields(
      OptionalText(t, f.barcode, row.barcode, Clears(t, row, Barcode, clear)),
      OptionalText(t, f.specification, row.specification, Clears(t, row, Specification, clear)),
      OptionalText(t, f.saleUnit, row.primaryUnit, Clears(t, row, SaleUnit, clear)),
      OptionalText(t, f.purchaseUnit, row.purchaseUnit, Clears(t, row, PurchaseUnit, clear)),
      GetOr(row.packageQuantity, f.packageQuantity),
      if row.shelfLifeDays.Some? then row.shelfLifeDays
      else if Clears(t, row, ShelfLifeDays, clear) then None else f.shelfLifeDays)
  }

  function VariantAfter(t: Texts, row: Row, v: VariantFields, clear: bool): VariantFields {
    VariantFields(
      if row.sku != "" then row.sku else v.sku,
      GetOr(EffectiveVariantEnabled(row), v.enabled),
      if row.pricingMode == Some(QuoteOnly) then Some(0)
      else if row.sellingPrice.Some? then Some(Money(row.sellingPrice)) else v.price,
      CustomAfter(t, row, v.custom, clear))
  }

  /** The product fields: only planned ones are written. */
  function ProductAfter(t: Texts, row: Row, plan: map<Column, Change>, p: ProductFields, clear: bool): ProductFields {
    ProductFields(
      if ProductName in plan && row.name != "" then row.name else p.name,
      if ProductDescription in plan && (row.description != "" || Clears(t, row, ProductDescription, clear))
      then row.description else p.description,
      if ProductEnabled in plan then GetOr(row.enabled, p.enabled) else p.enabled,
      if FulfillmentType in plan then GetOr(row.fulfillmentType, p.fulfillmentType) else p.fulfillmentType,
      if PricingMode in plan then GetOr(row.pricingMode, p.pricingMode) else p.pricingMode,
      if FeaturedAssetName in plan && row.resolvedFeaturedAssetId.Some?
      then row.resolvedFeaturedAssetId else p.featuredAssetId,
      if SourceCreatedAt in plan && (row.sourceCreatedAt.Some? || Clears(t, row, SourceCreatedAt, clear))
      then row.sourceCreatedAt else p.sourceCreatedAt)
  }

  /** Cost, stock, and the policy, whose other bound comes from the snapshot taken before. */
  function OperationsAfter(t: Texts, row: Row, plan: map<Column, Change>, o: Operations, clear: bool): Operations {
    Operations(
      if row.purchaseCost.Some? then Some(Microunits(row.purchaseCost.value)) else o.costMicrounits,
      if row.stockOnHand.Some? && StockOnHand in plan then row.stockOnHand.value else o.stockOnHand,
      if row.minimumStock.Some? || Clears(t, row, MinimumStock, clear) then row.minimumStock else o.minimumStock,
      if row.maximumStock.Some? || Clears(t, row, MaximumStock, clear) then row.maximumStock else o.maximumStock)
  }

  function Applied(t: Texts, row: Row, plan: map<Column, Change>, s: Stored, clear: bool): Stored {
    Stored(ProductAfter(t, row, plan, s.product, clear), VariantAfter(t, row, s.variant, clear),
           OperationsAfter(t, row, plan, s.operations, clear))
  }

  /** The records of one variant and its product, which the writer updates in place. */
  class CatalogEntry {
    var product: ProductFields
    var variant: VariantFields
    var operations: Operations

    function State(): Stored
      reads this
    {
      Stored(product, variant, operations)
    }

    constructor (s: Stored)
      ensures State() == s
    {
      product, variant, operations := s.product, s.variant, s.operations;
    }

    /** The update branch of `applyRow`: product, variant, stock, cost, policy, in this order. */
    method ApplyUpdate(t: Texts, row: Row, plan: map<Column, Change>, clear: bool)
      modifies this
      ensures State() == Applied(t, row, plan, old(State()), clear)
    {
      hide ProductAfter, VariantAfter, Microunits, Clears;
      var before := operations;
      product := ProductAfter(t, row, plan, product, clear);
      variant := VariantAfter(t, row, variant, clear);
      if row.stockOnHand.Some? && StockOnHand in plan {
        operations := operations.(stockOnHand := row.stockOnHand.value);
      }
      if row.purchaseCost.Some? {
        operations := operations.(costMicrounits := Some(Microunits(row.purchaseCost.value)));
      }
      var updateMinimum := row.minimumStock.Some? || Clears(t, row, MinimumStock, clear);
      var updateMaximum := row.maximumStock.Some? || Clears(t, row, MaximumStock, clear);
      if updateMinimum || updateMaximum {
        operations := operations.(
          minimumStock := if updateMinimum then row.minimumStock else before.minimumStock,
          maximumStock := if updateMaximum then row.maximumStock else before.maximumStock);
      }
    }
  }

  // ---------------------------------------------------------------- the fixpoint

  /** Both entries of a row trim its texts, so a unit that is not empty is not all white space. */
  predicate UnitsTrimmed(t: Texts, row: Row) {
    && (row.primaryUnit != "" ==> !BlankText(t, row.primaryUnit))
    && (row.purchaseUnit != "" ==> !BlankText(t, row.purchaseUnit))
  }

  /** A physical row on a physical product. */
  predicate PhysicalUpdate(t: Texts, row: Row, s: Stored) {
    s.product.fulfillmentType.Physical? && row.fulfillmentType != Some(Digital) && UnitsTrimmed(t, row)
  }

  /** The row names a featured asset exactly as the asset that would be featured is called, or as the one that is. */
  predicate AssetNamedExactly(t: Texts, row: Row, s: Stored) {
    row.resolvedFeaturedAssetId.Some? && row.featuredAssetName != "" ==>
      || t.assetName(row.resolvedFeaturedAssetId.value) == row.featuredAssetName
      || (s.product.featuredAssetId.Some? && t.assetName(s.product.featuredAssetId.value) == row.featuredAssetName)
  }

  /** What it takes for one column to be settled by the update. */
  predicate Settles(t: Texts, row: Row, s: Stored, c: Column) {
    c.FeaturedAssetName? ==> AssetNamedExactly(t, row, s)
  }

  predicate OfProduct(c: Column) {
    c in {ProductName, FulfillmentType, PricingMode, FeaturedAssetName, ProductEnabled, ProductDescription,
          SourceCreatedAt}
  }

  /** Product columns: written when planned. */
  lemma ProductColumnSettles(t: Texts, row: Row, s: Stored, plan: map<Column, Change>, clear: bool, c: Column)
    requires PhysicalUpdate(t, row, s) && IsPlan(t, row, s, clear, plan)
    requires OfProduct(c)
    ensures Planned(t, row, Snapshot(t, Applied(t, row, plan, s, clear), c), c, clear).None? <==> Settles(t, row, s, c)
  {
    hide ShouldClear, VariantAfter, OperationsAfter;
    assert Lookup(plan, c) == Planned(t, row, Snapshot(t, s, c), c, clear);
  }

  /** The other columns: written whenever given, the stock when planned. */
  lemma VariantColumnSettles(t: Texts, row: Row, s: Stored, plan: map<Column, Change>, clear: bool, c: Column)
    requires PhysicalUpdate(t, row, s) && IsPlan(t, row, s, clear, plan)
    requires !OfProduct(c)
    ensures Planned(t, row, Snapshot(t, Applied(t, row, plan, s, clear), c), c, clear).None? <==> Settles(t, row, s, c)
  {
    hide ShouldClear, ProductAfter, Money, Microunits;
    assert Lookup(plan, c) == Planned(t, row, Snapshot(t, s, c), c, clear);
  }

  /** One column after the update: nothing is left to plan, but for the one exception. */
  lemma ColumnSettles(t: Texts, row: Row, s: Stored, plan: map<Column, Change>, clear: bool, c: Column)
    requires PhysicalUpdate(t, row, s) && IsPlan(t, row, s, clear, plan)
    ensures Planned(t, row, Snapshot(t, Applied(t, row, plan, s, clear), c), c, clear).None? <==> Settles(t, row, s, c)
  {
    hide Planned, Snapshot, Applied, Settles, IsPlan, Clears;
    if OfProduct(c) {
      ProductColumnSettles(t, row, s, plan, clear, c);
    } else {
      VariantColumnSettles(t, row, s, plan, clear, c);
    }
  }

  /**
   The fixpoint, for both settings of `clearBlankFields`: planning the same row against what its update left
   plans nothing, exactly when its featured asset is named exactly.
   */
  lemma PlanningAgainPlansNothing(t: Texts, row: Row, s: Stored, plan: map<Column, Change>, clear: bool)
    requires PhysicalUpdate(t, row, s) && IsPlan(t, row, s, clear, plan)
    ensures IsPlan(t, row, Applied(t, row, plan, s, clear), clear, NO_CHANGES)
            <==> AssetNamedExactly(t, row, s)
  {
    hide Planned, Snapshot, Applied, AssetNamedExactly, Clears;
    var after := Applied(t, row, plan, s, clear);
    forall c ensures Planned(t, row, Snapshot(t, after, c), c, clear).None? <==> Settles(t, row, s, c) {
      ColumnSettles(t, row, s, plan, clear, c);
    }
    assert forall c: Column :: Lookup(NO_CHANGES, c) == None;
    if IsPlan(t, row, after, clear, NO_CHANGES) {
      forall c ensures Planned(t, row, Snapshot(t, after, c), c, clear).None? {
        assert Lookup(NO_CHANGES, c) == Planned(t, row, Snapshot(t, after, c), c, clear);
      }
      assert Planned(t, row, Snapshot(t, after, FeaturedAssetName), FeaturedAssetName, clear).None?;
    }
  }

  /** The columns compared by `changedOptional`, for which white space is blank. */
  predicate Optional(c: Column) {
    c in {ProductDescription, Barcode, Specification, SaleUnit, PurchaseUnit, ShelfLifeDays, MinimumStock, MaximumStock,
          SourceCreatedAt}
  }

  /** The row gives a value for the column. */
  predicate Provides(t: Texts, row: Row, c: Column) {
    if Optional(c) then !Blank(t, Next(row, c))
    else
      && Next(row, c) != Null && Next(row, c) != Text("")
      && (c.FeaturedAssetName? ==> row.resolvedFeaturedAssetId.Some?)
  }

  /** A column the row neither provides nor clears keeps its value. */
  lemma OtherColumnsKept(t: Texts, row: Row, s: Stored, plan: map<Column, Change>, clear: bool, c: Column)
    requires PhysicalUpdate(t, row, s) && IsPlan(t, row, s, clear, plan)
    requires !Provides(t, row, c) && !Clears(t, row, c, clear)
    ensures Snapshot(t, Applied(t, row, plan, s, clear), c) == Snapshot(t, s, c)
  {
    hide Planned, Snapshot, Applied, Provides, Clears, IsPlan, PhysicalUpdate;
    if OfProduct(c) {
      ProductColumnKept(t, row, s, plan, clear, c);
    } else {
      VariantColumnKept(t, row, s, plan, clear, c);
    }
  }

  lemma ProductColumnKept(t: Texts, row: Row, s: Stored, plan: map<Column, Change>, clear: bool, c: Column)
    requires PhysicalUpdate(t, row, s) && IsPlan(t, row, s, clear, plan)
    requires OfProduct(c) && !Provides(t, row, c) && !Clears(t, row, c, clear)
    ensures Snapshot(t, Applied(t, row, plan, s, clear), c) == Snapshot(t, s, c)
  {
    hide ShouldClear, VariantAfter, OperationsAfter;
    assert Lookup(plan, c) == Planned(t, row, Snapshot(t, s, c), c, clear);
  }

  lemma VariantColumnKept(t: Texts, row: Row, s: Stored, plan: map<Column, Change>, clear: bool, c: Column)
    requires PhysicalUpdate(t, row, s) && IsPlan(t, row, s, clear, plan)
    requires !OfProduct(c) && !Provides(t, row, c) && !Clears(t, row, c, clear)
    ensures Snapshot(t, Applied(t, row, plan, s, clear), c) == Snapshot(t, s, c)
  {
    hide ShouldClear, ProductAfter, Money, Microunits, Planned;
  }

  /** A column the row clears without providing it is blank. */
  lemma ClearedColumnsBlank(t: Texts, row: Row, s: Stored, plan: map<Column, Change>, clear: bool, c: Column)
    requires PhysicalUpdate(t, row, s) && IsPlan(t, row, s, clear, plan)
    requires Clears(t, row, c, clear) && !Provides(t, row, c)
    ensures Blank(t, Snapshot(t, Applied(t, row, plan, s, clear), c))
  {
    hide ShouldClear, Money, Microunits, FulfillmentName, PricingName, SamePlannedValue;
    assert Lookup(plan, c) == Planned(t, row, Snapshot(t, s, c), c, clear);
  }

  /** A provided column takes the row's value, or keeps a spelling that differs in normalization only. */
  lemma ColumnsTaken(t: Texts, row: Row, s: Stored, plan: map<Column, Change>, clear: bool, c: Column)
    requires PhysicalUpdate(t, row, s) && IsPlan(t, row, s, clear, plan)
    ensures Provides(t, row, c) && (c.FeaturedAssetName? ==> AssetNamedExactly(t, row, s)) ==>
              SamePlannedValue(t, c, Next(row, c), Snapshot(t, Applied(t, row, plan, s, clear), c))
  {
    hide Planned, Snapshot, Applied, Provides, SamePlannedValue, Next, AssetNamedExactly, IsPlan, PhysicalUpdate;
    if OfProduct(c) {
      ProductColumnTaken(t, row, s, plan, clear, c);
    } else {
      VariantColumnTaken(t, row, s, plan, clear, c);
    }
  }

  lemma ProductColumnTaken(t: Texts, row: Row, s: Stored, plan: map<Column, Change>, clear: bool, c: Column)
    requires PhysicalUpdate(t, row, s) && IsPlan(t, row, s, clear, plan) && OfProduct(c)
    ensures Provides(t, row, c) && (c.FeaturedAssetName? ==> AssetNamedExactly(t, row, s)) ==>
              SamePlannedValue(t, c, Next(row, c), Snapshot(t, Applied(t, row, plan, s, clear), c))
  {
    hide ShouldClear, VariantAfter, OperationsAfter;
    assert Lookup(plan, c) == Planned(t, row, Snapshot(t, s, c), c, clear);
  }

  lemma VariantColumnTaken(t: Texts, row: Row, s: Stored, plan: map<Column, Change>, clear: bool, c: Column)
    requires PhysicalUpdate(t, row, s) && IsPlan(t, row, s, clear, plan) && !OfProduct(c)
    ensures Provides(t, row, c) ==>
        SamePlannedValue(t, c, Next(row, c), Snapshot(t, Applied(t, row, plan, s, clear), c))
  {
    hide ShouldClear, ProductAfter, Money, Microunits, AssetNamedExactly;
    assert Lookup(plan, c) == Planned(t, row, Snapshot(t, s, c), c, clear);
  }

  const NO_CUSTOM: CustomFields := CustomFields(None, None, None, None, 1.0, None)
  const PLAIN: Stored := Stored(
    ProductFields("tea", "", true, Physical, Fixed, None, None), VariantFields("T1", true, None, NO_CUSTOM),
    Operations(None, 0, None, None))
  const COVER_ROW: Row := Row(
    "tea", None, None, "cover.jpg", Some("9"), None, None, "", "", "", "", "", "", None, None, None, None, None, None,
    None, None, {}, None)

  /** A row that names its image `cover.jpg` when the asset is `Cover.jpg` is planned again after every update. */
  lemma FeaturedAssetNeverSettles(plan: map<Column, Change>)
    requires IsPlan(Texts(s => s, c => c == ' ', id => "Cover.jpg"), COVER_ROW, PLAIN, false, plan)
    ensures var t := Texts(s => s, c => c == ' ', id => "Cover.jpg");
      var after := Applied(t, COVER_ROW, plan, PLAIN, false);
      && after.product.featuredAssetId == Some("9")
      && Planned(t, COVER_ROW, Snapshot(t, after, FeaturedAssetName), FeaturedAssetName, false)
         == Some(Change(Text("Cover.jpg"), Text("cover.jpg")))
  {
    var t := Texts(s => s, c => c == ' ', id => "Cover.jpg");
    assert "cover.jpg"[0] != "Cover.jpg"[0];
    assert Lookup(plan, FeaturedAssetName)
      == Planned(t, COVER_ROW, Snapshot(t, PLAIN, FeaturedAssetName), FeaturedAssetName, false);
  }
}
