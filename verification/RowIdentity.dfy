/** Record keys of imported rows. Text normalization is a parameter; nothing about it is used. */
module RowIdentity {
  import opened Wrappers

  const SEPARATOR: char := '\U{001f}'

  datatype SourceRow = SourceRow(
    name: string, categoryPath: string, specification: string, primaryUnit: string, sku: string, barcode: string,
    stockLocationCode: string, lotCode: string)

  function Join(a: string, b: string): string {
    a + [SEPARATOR] + b
  }

  /** `catalogSourceRecordBase`. */
  function Base(normal: string -> string, row: SourceRow): string {
    var base :=
      if row.sku != "" then Join("sku", normal(row.sku))
      else if row.barcode != "" then Join("barcode", normal(row.barcode))
      else
        var details := Join(normal(row.categoryPath), Join(normal(row.specification), normal(row.primaryUnit)));
        Join("legacy", Join(normal(row.name), details));
    var location, lot := normal(row.stockLocationCode), normal(row.lotCode);
    var scope := if location == "" then lot else if lot == "" then location else Join(location, lot);
    if scope == "" then base else Join(base, Join("inventory", scope))
  }

  predicate Coded(row: SourceRow) {
    row.sku != "" || row.barcode != ""
  }

  function Digit(n: nat): char
    requires n < 10
  {
    "0123456789"[n]
  }

  function Decimal(n: nat): string {
    if n < 10 then [Digit(n)] else Decimal(n / 10) + [Digit(n % 10)]
  }

  /** How many of the first `n` rows have no code and this base. */
  function EqualsBefore(normal: string -> string, rows: seq<SourceRow>, n: nat, base: string): nat
    requires n <= |rows|
  {
    if n == 0 then 0
    else EqualsBefore(normal, rows, n - 1, base)
         + if !Coded(rows[n - 1]) && Base(normal, rows[n - 1]) == base then 1 else 0
  }

  function OrdinalKey(base: string, occurrence: nat): string {
    Join(Join(base, "ordinal"), Decimal(occurrence))
  }

  /** The key of row `i`: its base, numbered among its equals when the row has no code. */
  function KeyAt(normal: string -> string, rows: seq<SourceRow>, i: nat): string
    requires i < |rows|
  {
    var base := Base(normal, rows[i]);
    if Coded(rows[i]) then base else OrdinalKey(base, EqualsBefore(normal, rows, i + 1, base))
  }

  /** `assignCatalogSourceRecordKeys`. */
  method AssignKeys(normal: string -> string, rows: seq<SourceRow>) returns (keys: seq<string>)
    ensures |keys| == |rows| && forall i :: 0 <= i < |rows| ==> keys[i] == KeyAt(normal, rows, i)
  {
    hide Base, Decimal;
    var occurrences: map<string, nat> := map[];
    keys := [];
    for i := 0 to |rows|
      invariant |keys| == i && forall k :: 0 <= k < i ==> keys[k] == KeyAt(normal, rows, k)
      invariant forall base :: GetOr(Lookup(occurrences, base), 0) == EqualsBefore(normal, rows, i, base)
    {
      var base := Base(normal, rows[i]);
      if Coded(rows[i]) {
        keys := keys + [base];
      } else {
        var occurrence := GetOr(Lookup(occurrences, base), 0) + 1;
        occurrences := occurrences[base := occurrence];
        keys := keys + [OrdinalKey(base, occurrence)];
      }
    }
  }

  lemma {:induction false} DecimalDigits(n: nat)
    ensures Decimal(n) != "" && SEPARATOR !in Decimal(n)
  {
    if n >= 10 { DecimalDigits(n / 10); }
  }

  lemma DigitInjective(m: nat, n: nat)
    requires m < 10 && n < 10 && Digit(m) == Digit(n)
    ensures m == n
  {
  }

  lemma {:induction false} DecimalInjective(m: nat, n: nat)
    requires Decimal(m) == Decimal(n)
    ensures m == n
  {
    DecimalDigits(m / 10);
    DecimalDigits(n / 10);
    var dm, dn := Decimal(m), Decimal(n);
    assert dm[|dm| - 1] == Digit(m % 10) && dn[|dn| - 1] == Digit(n % 10);
    DigitInjective(m % 10, n % 10);
    if m >= 10 && n >= 10 {
      assert Decimal(m / 10) == dm[..|dm| - 1] && Decimal(n / 10) == dn[..|dn| - 1];
      DecimalInjective(m / 10, n / 10);
    }
  }

  /** What follows the last separator is determined by the text, and so is what precedes it. */
  lemma LastPart(a: string, b: string, x: string, y: string)
    requires SEPARATOR !in x && SEPARATOR !in y && Join(a, x) == Join(b, y)
    ensures a == b && x == y
  {
    var s, t := Join(a, x), Join(b, y);
    assert s[|a|] == SEPARATOR && t[|b|] == SEPARATOR;
    forall k | |a| < k < |s| ensures s[k] != SEPARATOR { assert s[k] == x[k - |a| - 1]; }
    forall k | |b| < k < |t| ensures t[k] != SEPARATOR { assert t[k] == y[k - |b| - 1]; }
    assert s[..|a|] == a && t[..|b|] == b && s[|a| + 1..] == x && t[|b| + 1..] == y;
  }

  lemma OrdinalInjective(a: string, b: string, m: nat, n: nat)
    requires OrdinalKey(a, m) == OrdinalKey(b, n)
    ensures a == b && m == n
  {
    DecimalDigits(m);
    DecimalDigits(n);
    LastPart(Join(a, "ordinal"), Join(b, "ordinal"), Decimal(m), Decimal(n));
    LastPart(a, b, "ordinal", "ordinal");
    DecimalInjective(m, n);
  }

  lemma {:induction false} EqualsGrow(normal: string -> string, rows: seq<SourceRow>, i: nat, j: nat, base: string)
    requires i <= j <= |rows|
    ensures EqualsBefore(normal, rows, i, base) <= EqualsBefore(normal, rows, j, base)
  {
    hide Base, Coded;
    if i < j { EqualsGrow(normal, rows, i, j - 1, base); }
  }

  lemma BaseStart(normal: string -> string, row: SourceRow)
    ensures Base(normal, row) != ""
    ensures Base(normal, row)[0] == if row.sku != "" then 's' else if row.barcode != "" then 'b' else 'l'
  {
  }

  lemma OrdinalStart(a: string, n: nat)
    requires a != ""
    ensures OrdinalKey(a, n) != "" && OrdinalKey(a, n)[0] == a[0]
  {
  }

  lemma LaterOccurrence(normal: string -> string, rows: seq<SourceRow>, i: nat, j: nat)
    requires i < j < |rows| && !Coded(rows[j])
    ensures EqualsBefore(normal, rows, i + 1, Base(normal, rows[j]))
            < EqualsBefore(normal, rows, j + 1, Base(normal, rows[j]))
  {
    hide Base;
    EqualsGrow(normal, rows, i + 1, j, Base(normal, rows[j]));
  }

  /** A row without SKU and barcode shares its key with no other row of the file, whatever its texts contain. */
  lemma UncodedKeysUnique(normal: string -> string, rows: seq<SourceRow>, i: nat, j: nat)
    requires i < |rows| && j < |rows| && i != j && !Coded(rows[i])
    ensures KeyAt(normal, rows, i) != KeyAt(normal, rows, j)
  {
    hide Base, OrdinalKey, EqualsBefore;
    var a, b := Base(normal, rows[i]), Base(normal, rows[j]);
    BaseStart(normal, rows[i]);
    BaseStart(normal, rows[j]);
    var m, n := EqualsBefore(normal, rows, i + 1, a), EqualsBefore(normal, rows, j + 1, b);
    if Coded(rows[j]) {
      OrdinalStart(a, m);
    } else if OrdinalKey(a, m) == OrdinalKey(b, n) {
      OrdinalInjective(a, b, m, n);
      if i < j { LaterOccurrence(normal, rows, i, j); } else { LaterOccurrence(normal, rows, j, i); }
    }
  }

  function CreateNewSuffix(rowNumber: nat): string {
    [SEPARATOR] + "create-new" + [SEPARATOR] + Decimal(rowNumber)
  }

  predicate EndsWith(s: string, suffix: string) {
    |suffix| <= |s| && s[|s| - |suffix|..] == suffix
  }

  /** `catalogCreateNewSourceRecordKey`. */
  function CreateNewKey(key: string, rowNumber: nat): string {
    if EndsWith(key, CreateNewSuffix(rowNumber)) then key else key + CreateNewSuffix(rowNumber)
  }

  lemma CreateNewEnds(key: string, rowNumber: nat)
    ensures EndsWith(CreateNewKey(key, rowNumber), CreateNewSuffix(rowNumber))
  {
  }

  /** Two forced rows never share a key, whatever their keys were before. */
  lemma CreateNewKeysDistinct(a: string, b: string, m: nat, n: nat)
    requires m != n
    ensures CreateNewKey(a, m) != CreateNewKey(b, n)
  {
    hide Decimal, CreateNewKey, EndsWith, CreateNewSuffix, Join;
    if CreateNewKey(a, m) == CreateNewKey(b, n) {
      var s := CreateNewKey(a, m);
      CreateNewEnds(a, m);
      CreateNewEnds(b, n);
      DecimalDigits(m);
      DecimalDigits(n);
      SplitLast(s, m);
      SplitLast(s, n);
      var x, y := s[..|s| - |Decimal(m)| - 1], s[..|s| - |Decimal(n)| - 1];
      LastPart(x, y, Decimal(m), Decimal(n));
      DecimalInjective(m, n);
    }
  }

  lemma SplitLast(s: string, n: nat)
    requires EndsWith(s, CreateNewSuffix(n))
    ensures |s| > |Decimal(n)| && s == Join(s[..|s| - |Decimal(n)| - 1], Decimal(n))
  {
  }
}
