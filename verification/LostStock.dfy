/**
 A first execution whose rollback loses a stock level. Two rows carry the same SKU code in different case:
 the preview matches codes exactly, so only row 0 gets the SKU as its target and a snapshot of its level at
 location 7; the execution key is normalized, so row 1 follows row 0 to the SKU, at location 8.
 */
module LostStock {
  import opened Wrappers
  import opened StoreCatalog
  import opened ImportRows
  import opened ImportJobs
  import opened ImportProtocol
  import opened CrashTransparency
  import opened CatalogRollback
  import opened RollbackTheorems
  import opened RollbackRestores
  import opened RetryCounterexample
  import Writer = CatalogWriter

  const STOCKED := STORE.(stock := map[(1, 7) := 5, (1, 8) := 9])

  const OTHER_CASE := PriceTo(100).(sku := Some("t-1"))

  const OTHER_DATA :=
    NewRow("a").data.(location := Some(8), newVariant := SKU.(sku := "t-1"), variantPatch := OTHER_CASE)

  const LINES := [UpdateRow(5), NewRow("a").(data := OTHER_DATA)]

  const SHELVED :=
    State(Job(PreviewReady, None, None, 0, "", CountsOf(LINES)), LINES, STOCKED, 0, 0, map[], [], [], 0, [])

  lemma ShelvedIsInitial()
    ensures Initial(SHELVED) && PlannedOn(LINES, STOCKED)
  {
  }

  /** Both rows are applied to SKU 1: row 0 at location 7, row 1 at location 8 without a snapshot of the level. */
  ghost predicate BothApplied(rows: seq<Row>, c: Catalog) {
    && |rows| == 2
    && (forall i :: 0 <= i < 2 ==>
          rows[i].applied.Some? && rows[i].targetProduct == Some(0) && rows[i].targetVariant == Some(1))
    && rows[0].applied.value.location == 7 && rows[1].applied.value.location == 8
    && rows[1].applied.value.before.stock.None?
    && c.products == STOCKED.products && 1 in c.variants && c.stock == STOCKED.stock
    && rows[1].applied.value.afterProduct == 0 && rows[1].applied.value.afterVariant == c.variants[1].updatedAt
    && rows[1].applied.value.fingerprint == FingerprintOf(c, 1)
  }

  lemma BothRows()
    ensures var e := Sequential(LINES, STOCKED, 2); BothApplied(e.rows, e.catalog)
  {
    hide Sequential, ExecuteRow;
    RebuildSkips(LINES, 0, 2);
    SequentialStart(LINES, STOCKED);
    SequentialNext(LINES, STOCKED, 0);
    SequentialNext(LINES, STOCKED, 1);
    FirstRow();
    SecondRow(Sequential(LINES, STOCKED, 1));
  }

  /** Row 0 updates the SKU at location 7. */
  ghost predicate FirstApplied(e: Execution) {
    && |e.rows| == 2 && e.rows[0].applied.Some? && e.rows[0].applied.value.location == 7
    && e.rows[0].targetProduct == Some(0) && e.rows[0].targetVariant == Some(1) && e.rows[1] == LINES[1]
    && e.catalog.products == STOCKED.products && e.catalog.stock == STOCKED.stock
    && 1 in e.catalog.variants && e.catalog.variants[1].product == 0
    && e.maps == KeyMaps(map["tea" := 0], map["a" := 1])
  }

  lemma FirstRow()
    ensures FirstApplied(ExecuteRow(Execution(LINES, STOCKED, NO_KEYS), 0))
  {
  }

  lemma SecondRow(e: Execution)
    requires FirstApplied(e)
    ensures var e' := ExecuteRow(e, 1); BothApplied(e'.rows, e'.catalog)
  {
    hide Writer.PatchVariant, FingerprintOf;
  }

  lemma BothAreSafe(rows: seq<Row>, c: Catalog)
    requires BothApplied(rows, c)
    ensures RollbackSafe(c, rows)
  {
  }

  lemma LevelGone(rows: seq<Row>, c: Catalog)
    requires BothApplied(rows, c)
    ensures c.StockAt(1, 8) == 9 && RollbackRows(c, rows, 2).StockAt(1, 8) == 0
  {
    LowestRowDecidesStock(c, rows, 2, 1, 8, 1);
  }

  /** The accepted rollback of this job sets a level from nine to zero that no row of it had changed. */
  lemma StockLost() returns (steps: seq<Step>)
    ensures Initial(SHELVED) && PlannedOn(LINES, STOCKED) && AllCalm(steps)
    ensures var s := Run(SHELVED, steps); var s' := Next(s, Rollback);
      && (s.job.state.Completed? || s.job.state.CompletedWithErrors?) && RollbackSafe(s.catalog, s.rows)
      && s'.job.state.RolledBack?
      && STOCKED.StockAt(1, 8) == 9 && s.catalog.StockAt(1, 8) == 9 && s'.catalog.StockAt(1, 8) == 0
  {
    hide Run, Sequential, Initial, PlannedOn, BothApplied, RollbackSafe, RollbackRows, AllCalm, Next;
    ShelvedIsInitial();
    assert Resolvable(SHELVED.job.state) && |SHELVED.rows| == 2;
    steps := UninterruptedRunExists(SHELVED, "admin");
    var s := Run(SHELVED, steps);
    BothRows();
    BothAreSafe(s.rows, s.catalog);
    LevelGone(s.rows, s.catalog);
    AcceptedRollback(s);
  }
}
