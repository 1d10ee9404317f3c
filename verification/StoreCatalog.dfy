/**
 The store catalog an import writes to: products, SKUs (variants), stock levels and
 the stock movement ledger. `clock` stamps every product or variant write, so two
 writes never share an `updatedAt`; `nextId` allocates identifiers.
 */
module StoreCatalog {
  import opened Wrappers

  type Id = nat

  datatype ProductFields = ProductFields(
    name: string, slug: string, description: string, enabled: bool, facets: seq<Id>,
    sourceCreatedAt: Option<string>, fulfillmentType: string, pricingMode: string)

  datatype Product = Product(fields: ProductFields, updatedAt: nat)

  // An unset text column and an empty one are read the same way (`stringValue`), so both are "".
  datatype VariantFields = VariantFields(
    sku: string, name: string, enabled: bool, barcode: string, specification: string,
    saleUnit: string, purchaseUnit: string, packageQuantity: real,
    shelfLifeDays: Option<int>, price: Option<int>)

  datatype Variant = Variant(product: Id, fields: VariantFields, updatedAt: nat)

  datatype Catalog = Catalog(
    products: map<Id, Product>, variants: map<Id, Variant>,
    stock: map<(Id, Id), int>, movements: map<Id, nat>,
    nextId: Id, clock: nat)
  {
    /** Allocation and stamping are ahead of everything stored. */
    ghost predicate Valid() {
      && (forall p :: p in products ==> p < nextId && products[p].updatedAt < clock)
      && (forall v :: v in variants ==> v < nextId && variants[v].updatedAt < clock)
    }

    function StockAt(v: Id, location: Id): int {
      if (v, location) in stock then stock[(v, location)] else 0
    }

    function PutProduct(p: Id, fields: ProductFields): Catalog {
      this.(products := products[p := Product(fields, clock)], clock := clock + 1)
    }

    function PutVariant(v: Id, product: Id, fields: VariantFields): Catalog {
      this.(variants := variants[v := Variant(product, fields, clock)], clock := clock + 1)
    }

    /** Sets a level; a changed quantity adds one movement to the ledger. */
    function SetStock(v: Id, location: Id, quantity: int): Catalog {
      if (v, location) in stock && stock[(v, location)] == quantity then this
      else
        this.(stock := stock[(v, location) := quantity],
              movements := movements[v := GetOr(Lookup(movements, v), 0) + 1])
    }
  }

  /** The records that can change without touching a variant's `updatedAt`, and the ledger size. */
  datatype Fingerprint = Fingerprint(levels: map<(Id, Id), int>, movements: nat)

  function FingerprintOf(c: Catalog, v: Id): Fingerprint {
    Fingerprint(map k | k in c.stock && k.0 == v :: c.stock[k], GetOr(Lookup(c.movements, v), 0))
  }
}
