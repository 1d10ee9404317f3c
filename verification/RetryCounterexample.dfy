/**
 Rollback compensates by row number, not in the order rows were applied. After a retry the two differ:
 here three rows share a product, the middle one creates it while the other two fail, the retry applies
 those, and the accepted rollback leaves the created product enabled.
 */
module RetryCounterexample {
  import opened Wrappers
  import opened StoreCatalog
  import opened ImportRows
  import opened ImportJobs
  import opened ImportProtocol
  import opened CrashTransparency
  import opened CatalogRollback
  import opened RollbackTheorems
  import Writer = CatalogWriter

  const EMPTY := Catalog(map[], map[], map[], map[], 0, 0)

  const PRODUCT := ProductFields("tea", "tea", "", true, [], None, "physical", "FIXED")

  const SKU := VariantFields("T-1", "tea", true, "", "", "", "", 1.0, None, Some(100))

  /** The patch of a row that gives a price and nothing else. */
  function PriceTo(price: int): VariantPatch {
    VariantPatch(None, None, None, None, None, None, None, None, None, Some(price))
  }

  function NewRow(executionKey: string): Row {
    Row("tea", executionKey, Create, None, Some(Create), false, None, None, None, None, true, None,
        RowData(true, Some(7), PRODUCT, SKU, Writer.NO_PRODUCT_PATCH,
                PriceTo(100), None, false), None)
  }

  /** A store with one product and its SKU. */
  const STORE := Catalog(map[0 := Product(PRODUCT, 0)], map[1 := Variant(0, SKU, 1)], map[], map[], 2, 2)

  /** An update of that SKU's price, as the preview plans it with `onHand` in stock. */
  function UpdateRow(onHand: int): Row {
    Row("tea", "a", Update, None, Some(Update), false, Some(0), Some(1), Some(0), Some(1), true,
        Some(Snapshot(false, false, PRODUCT, Some("tea"), Some(SKU), Some(onHand))),
        NewRow("a").data.(newVariant := SKU.(price := Some(120)), variantPatch := PriceTo(120)), None)
  }

  const ROWS := [NewRow("a"), NewRow("b"), NewRow("c")]

  const START := State(Job(PreviewReady, None, None, 0, "", CountsOf(ROWS)), ROWS, EMPTY, 0, 0, map[], [], [], 0, [])

  /** Row `k` marked ERROR after a statement failed in its transaction. */
  function FailedRow(e: Execution, k: nat): Execution
    requires k < |e.rows|
  {
    e.(rows := e.rows[k := e.rows[k].(action := Error)])
  }

  lemma FailRowSteps(s: State, t: Token, e: Execution, k: nat) returns (steps: seq<Step>)
    requires k < |e.rows| && LevelAt(s, t, e, k) && !Done(e.rows[k])
    ensures LevelAt(Run(s, steps), t, FailedRow(e, k), k + 1)
  {
    steps := [RunRow(t, 0, Aborted), HandleError(t, 0, Acked)];
    RunTwo(s, steps[0], steps[1]);
    assert Remember(e.maps, e.rows[k].(action := Error)) == e.maps;
  }

  const FIRST := FailedRow(ExecuteRow(FailedRow(Execution(ROWS, EMPTY, NO_KEYS), 0), 1), 2)

  /** A row in error that is released again with the action the preview planned. */
  function Released(row: Row): Row {
    row.(action := GetOr(row.safeAction, Create), resolution := Some(ResolvedApply))
  }

  /** The rows the administrator released again. */
  const RETRIED := FIRST.rows[0 := Released(FIRST.rows[0])][2 := Released(FIRST.rows[2])]

  const SECOND :=
    ExecuteRow(ExecuteRow(ExecuteRow(Execution(RETRIED, FIRST.catalog, Rebuild(RETRIED, 3)), 0), 1), 2)

  lemma NothingToRebuild()
    ensures Rebuild(ROWS, 3) == NO_KEYS
  {
  }

  /** Three rows of one product: rows 0 and 2 fail, row 1 creates the product. */
  lemma FirstEpisode() returns (steps: seq<Step>)
    ensures var s := Run(START, steps);
      s.rows == FIRST.rows && s.catalog == FIRST.catalog && s.job.state.CompletedWithErrors?
  {
    hide Run, LevelAt, Rebuild, CountsOf, WorkOn;
    var e0 := Execution(ROWS, EMPTY, NO_KEYS);
    NothingToRebuild();
    var start, t := StartSteps(START, "admin");
    var s0 := Run(START, start);
    var fail0 := FailRowSteps(s0, t, e0, 0);
    var run1 := RowSteps(Run(s0, fail0), t, FailedRow(e0, 0), 1);
    var s2 := Run(Run(s0, fail0), run1);
    var e2 := ExecuteRow(FailedRow(e0, 0), 1);
    assert e2.rows[2] == ROWS[2];
    var fail2 := FailRowSteps(s2, t, e2, 2);
    var last := FinishSteps(Run(s2, fail2), t, FIRST);
    RunConcat(s2, fail2, last);
    RunConcat(Run(s0, fail0), run1, fail2 + last);
    RunConcat(s0, fail0, run1 + (fail2 + last));
    RunConcat(START, start, fail0 + (run1 + (fail2 + last)));
    steps := start + (fail0 + (run1 + (fail2 + last)));
    ErrorCounted(FIRST.rows, 2);
  }

  lemma {:induction false} ErrorCounted(rows: seq<Row>, i: nat)
    requires i < |rows| && rows[i].action.Error?
    ensures CountsOf(rows).error > 0
  {
    if i < |rows| - 1 { ErrorCounted(rows[..|rows| - 1], i); }
  }

  /** Row `k` applied, with the version and fingerprint it left behind. */
  ghost predicate AppliedAs(row: Row, product: Id, variant: Id, created: bool, afterProduct: nat, afterVariant: nat) {
    && row.applied.Some? && row.targetProduct == Some(product) && row.targetVariant == Some(variant)
    && row.applied.value.before.productCreated == created && row.applied.value.productCreated == created
    && row.applied.value.before.product == PRODUCT && row.applied.value.variantCreated
    && row.applied.value.afterProduct == afterProduct && row.applied.value.afterVariant == afterVariant
    && row.applied.value.fingerprint == Fingerprint(map[], 0)
  }

  lemma FirstFacts()
    ensures |FIRST.rows| == 3 && FIRST.rows[0] == NewRow("a").(action := Error)
            && FIRST.rows[2] == NewRow("c").(action := Error)
    ensures AppliedAs(FIRST.rows[1], 0, 1, true, 0, 1)
    ensures FIRST.rows[1].productKey == "tea" && FIRST.rows[1].executionKey == "b"
    ensures FIRST.catalog.products == map[0 := Product(PRODUCT, 0)]
    ensures FIRST.catalog.variants == map[1 := Variant(0, SKU, 1)]
    ensures FIRST.catalog.stock == map[] && FIRST.catalog.movements == map[]
    ensures FIRST.catalog.nextId == 2 && FIRST.catalog.clock == 2
  {
  }

  /** A retried row finds the product in the rebuilt maps, so its own snapshot shows a product it did not create. */
  lemma RetriedRow(e: Execution, k: nat, key: string)
    requires k < |e.rows| && e.rows[k] == NewRow(key).(resolution := Some(ResolvedApply))
    requires 0 in e.catalog.products && e.catalog.products[0] == Product(PRODUCT, 0)
    requires e.catalog.stock == map[] && e.catalog.movements == map[] && e.catalog.nextId !in e.catalog.variants
    requires Lookup(e.maps.products, "tea") == Some(0) && Lookup(e.maps.variants, key) == None
    ensures var e' := ExecuteRow(e, k); var c := e.catalog;
      && e'.rows == e.rows[k := e'.rows[k]] && AppliedAs(e'.rows[k], 0, c.nextId, false, 0, c.clock)
      && e'.rows[k].productKey == "tea" && e'.rows[k].executionKey == key
      && e'.catalog == c.(variants := c.variants[c.nextId := Variant(0, SKU, c.clock)],
                          nextId := c.nextId + 1, clock := c.clock + 1)
      && e'.maps == KeyMaps(e.maps.products["tea" := 0], e.maps.variants[key := c.nextId])
  {
  }

  /** Rows 0 and 2 were retried after row 1 had created product 0. */
  ghost predicate Retried(rows: seq<Row>, c: Catalog) {
    && |rows| == 3
    && AppliedAs(rows[0], 0, 2, false, 0, 2) && AppliedAs(rows[1], 0, 1, true, 0, 1)
    && AppliedAs(rows[2], 0, 3, false, 0, 3)
    && c.products == map[0 := Product(PRODUCT, 0)]
    && c.variants == map[1 := Variant(0, SKU, 1), 2 := Variant(0, SKU, 2), 3 := Variant(0, SKU, 3)]
    && c.stock == map[] && c.movements == map[]
  }

  lemma SecondFacts()
    ensures Retried(SECOND.rows, SECOND.catalog)
  {
    FirstFacts();
    var e0 := Execution(RETRIED, FIRST.catalog, Rebuild(RETRIED, 3));
    assert e0.maps == KeyMaps(map["tea" := 0], map["b" := 1]) by {
      assert Rebuild(RETRIED, 1) == NO_KEYS;
      assert Rebuild(RETRIED, 2) == KeyMaps(map["tea" := 0], map["b" := 1]);
    }
    RetriedRow(e0, 0, "a");
    var e1 := ExecuteRow(e0, 0);
    assert ExecuteRow(e1, 1) == e1;
    RetriedRow(e1, 2, "c");
  }

  lemma RetriedIsSafe(rows: seq<Row>, c: Catalog)
    requires Retried(rows, c)
    ensures RollbackSafe(c, rows)
  {
    assert !LatestOnProduct(rows, 0) && !LatestOnProduct(rows, 1);
    hide LatestOnProduct, LatestOnVariant;
  }

  lemma RetriedEndsEnabled(rows: seq<Row>, c: Catalog)
    requires Retried(rows, c)
    ensures var done := RollbackRows(c, rows, 3); 0 in done.products && done.products[0].fields.enabled
  {
  }

  predicate Releasable(row: Row) {
    row.action.Error? && (row.safeAction == Some(Create) || row.safeAction == Some(Update))
  }

  lemma ReleaseStep(s: State, i: nat)
    requires Resolvable(s.job.state) && i < |s.rows| && Releasable(s.rows[i])
    ensures var s' := Next(s, Resolve(i, AsApply));
      s'.rows == s.rows[i := Released(s.rows[i])] && s'.catalog == s.catalog && s'.job.state == s.job.state
  {
    hide CountsOf, NextRun, NextHandle, NextRollback, NextFinish, NextLoad, NextClaim;
  }

  lemma ReleaseTwo(s: State, i: nat, j: nat) returns (steps: seq<Step>)
    requires Resolvable(s.job.state) && i < j < |s.rows| && Releasable(s.rows[i]) && Releasable(s.rows[j])
    ensures var s' := Run(s, steps);
      && s'.rows == s.rows[i := Released(s.rows[i])][j := Released(s.rows[j])]
      && s'.catalog == s.catalog && s'.job.state == s.job.state
  {
    hide Next, Run, Released;
    steps := [Resolve(i, AsApply), Resolve(j, AsApply)];
    RunTwo(s, steps[0], steps[1]);
    ReleaseStep(s, i);
    ReleaseStep(Next(s, steps[0]), j);
  }

  lemma SecondEpisode(s: State) returns (steps: seq<Step>)
    requires s.rows == RETRIED && s.catalog == FIRST.catalog && s.job.state.CompletedWithErrors?
    ensures var s' := Run(s, steps);
      && s'.rows == SECOND.rows && s'.catalog == SECOND.catalog
      && (s'.job.state.Completed? || s'.job.state.CompletedWithErrors?)
  {
    hide Run, LevelAt, Rebuild, CountsOf, WorkOn;
    var e0 := Execution(RETRIED, FIRST.catalog, Rebuild(RETRIED, 3));
    var start, t := StartSteps(s, "admin");
    var s0 := Run(s, start);
    var run0 := RowSteps(s0, t, e0, 0);
    var s1 := Run(s0, run0);
    var e1 := ExecuteRow(e0, 0);
    var run1 := RowSteps(s1, t, e1, 1);
    var s2 := Run(s1, run1);
    var e2 := ExecuteRow(e1, 1);
    var run2 := RowSteps(s2, t, e2, 2);
    var last := FinishSteps(Run(s2, run2), t, SECOND);
    RunConcat(s2, run2, last);
    RunConcat(s1, run1, run2 + last);
    RunConcat(s0, run0, run1 + (run2 + last));
    RunConcat(s, start, run0 + (run1 + (run2 + last)));
    steps := start + (run0 + (run1 + (run2 + last)));
  }

  lemma StartIsInitial()
    ensures Initial(START) && START.catalog.products == map[]
  {
  }

  /**
   A run from a fresh job whose rollback is accepted and leaves a product the import created enabled:
   "import-created products end disabled" does not hold after retries. `EndsDisabledIff` says when it does.
   */
  lemma RolledBackProductStaysEnabled() returns (steps: seq<Step>)
    ensures Initial(START) && START.catalog.products == map[]
    ensures var s := Run(START, steps);
      && s.job.state.RolledBack?
      && 0 in s.catalog.products && s.catalog.products[0].fields.enabled
      && exists k :: 0 <= k < |s.rows| && s.rows[k].applied.Some? && s.rows[k].targetProduct == Some(0)
                     && s.rows[k].applied.value.productCreated
  {
    hide Run, Next, RollbackSafe, RollbackRows, ExecuteRow, FailedRow, Initial;
    StartIsInitial();
    var first := FirstEpisode();
    var s1 := Run(START, first);
    FirstFacts();
    var release := ReleaseTwo(s1, 0, 2);
    var s2 := Run(s1, release);
    var second := SecondEpisode(s2);
    var s3 := Run(s2, second);
    SecondFacts();
    RetriedIsSafe(s3.rows, s3.catalog);
    RetriedEndsEnabled(s3.rows, s3.catalog);
    RunConcat(s2, second, [Rollback]);
    RunConcat(s1, release, second + [Rollback]);
    RunConcat(START, first, release + (second + [Rollback]));
    steps := first + (release + (second + [Rollback]));
    RunOne(s3, Rollback);
    AcceptedRollback(s3);
    assert s3.rows[1].applied.value.productCreated;
  }

  lemma AcceptedRollback(s: State)
    requires RollbackSafe(s.catalog, s.rows) && |s.rows| <= MAX_ROWS
    requires s.job.state.Completed? || s.job.state.CompletedWithErrors?
    ensures var s' := Next(s, Rollback);
      s'.job.state.RolledBack? && s'.rows == s.rows && s'.catalog == RollbackRows(s.catalog, s.rows, |s.rows|)
  {
    hide AppliedDown, NextRun, NextHandle, NextResolve, NextFinish, NextLoad, NextClaim;
  }
}
