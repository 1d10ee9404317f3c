/**
 One crash during a retry that changes its outcome. A file has three rows of one product key: row 0 names
 an existing SKU, rows 1 and 2 carry new codes, so the preview gives them no target. At first rows 0 and 1
 fail and row 2 creates a second product. In the retry row 1 follows row 0 to the existing product; if the
 attempt dies between the two, it follows row 2 to the new one.
 */
module CrashedRetry {
  import opened Wrappers
  import opened StoreCatalog
  import opened ImportRows
  import opened ImportJobs
  import opened ImportProtocol
  import opened ProtocolInvariant
  import opened CrashTransparency
  import opened RollbackRestores
  import opened RetryTransparency
  import opened RetryCounterexample
  import Writer = CatalogWriter

  const FILE := [UpdateRow(0), NewRow("b"), NewRow("c")]

  const PREVIEWED :=
    State(Job(PreviewReady, None, None, 0, "", CountsOf(FILE)), FILE, STORE, 0, 0, map[], [], [], 0, [])

  lemma PreviewedIsInitial()
    ensures Initial(PREVIEWED) && PlannedOn(FILE, STORE)
  {
  }

  /** After the first episode. */
  const HALF := ExecuteRow(FailedRow(FailedRow(Execution(FILE, STORE, NO_KEYS), 0), 1), 2)

  /** The rows the administrator released again. */
  const AGAIN := HALF.rows[0 := Released(HALF.rows[0])][1 := Released(HALF.rows[1])]

  lemma HalfFacts()
    ensures |HALF.rows| == 3 && HALF.rows[0] == UpdateRow(0).(action := Error)
            && HALF.rows[1] == NewRow("b").(action := Error)
    ensures var row := HALF.rows[2];
      && row.applied.Some? && row.action.Create? && row.productKey == "tea" && row.executionKey == "c"
      && row.targetProduct == Some(2) && row.targetVariant == Some(3)
    ensures HALF.catalog == Catalog(map[0 := Product(PRODUCT, 0), 2 := Product(PRODUCT, 2)],
                                    map[1 := Variant(0, SKU, 1), 3 := Variant(2, SKU, 3)], map[], map[], 4, 4)
  {
  }

  lemma HalfEpisode() returns (steps: seq<Step>)
    ensures var s := Run(PREVIEWED, steps);
      s.rows == HALF.rows && s.catalog == HALF.catalog && s.job.state.CompletedWithErrors?
  {
    hide Run, LevelAt, Rebuild, CountsOf, WorkOn, Initial, PlannedOn;
    var e0 := Execution(FILE, STORE, NO_KEYS);
    PreviewedIsInitial();
    StartsEmpty();
    var start, t := StartSteps(PREVIEWED, "admin");
    var s0 := Run(PREVIEWED, start);
    var fail0 := FailRowSteps(s0, t, e0, 0);
    RunConcat(PREVIEWED, start, fail0);
    var fail1 := FailRowSteps(Run(PREVIEWED, start + fail0), t, FailedRow(e0, 0), 1);
    RunConcat(PREVIEWED, start + fail0, fail1);
    var run2 := RowSteps(Run(PREVIEWED, start + fail0 + fail1), t, FailedRow(FailedRow(e0, 0), 1), 2);
    RunConcat(PREVIEWED, start + fail0 + fail1, run2);
    var last := FinishSteps(Run(PREVIEWED, start + fail0 + fail1 + run2), t, HALF);
    RunConcat(PREVIEWED, start + fail0 + fail1 + run2, last);
    steps := start + fail0 + fail1 + run2 + last;
    HalfFacts();
    ErrorCounted(HALF.rows, 0);
  }

  lemma StartsEmpty()
    ensures Sequential(FILE, STORE, 0) == Execution(FILE, STORE, NO_KEYS)
  {
    RebuildSkips(FILE, 0, 3);
  }

  /** The retry's maps at its start: the key's product is the one row 2 created. */
  lemma AgainMaps(rows: seq<Row>)
    requires |rows| == 3 && rows[0].applied.None? && rows[1].applied.None? && rows[2] == HALF.rows[2]
    ensures Rebuild(rows, 3) == KeyMaps(map["tea" := 2], map["c" := 3])
  {
    HalfFacts();
    assert Rebuild(rows, 1) == NO_KEYS;
    assert Rebuild(rows, 2) == NO_KEYS;
  }

  /** Row 0 still finds the version it was planned on. */
  lemma RowZero()
    ensures var e := Sequential(AGAIN, HALF.catalog, 1);
      && |e.rows| == 3 && e.rows[0].applied.Some? && e.rows[1] == AGAIN[1] && e.rows[2] == AGAIN[2]
      && e.rows[0].targetProduct == Some(0) && e.rows[0].targetVariant == Some(1)
      && e.rows[0].productKey == "tea" && e.rows[0].executionKey == "a"
      && e.catalog == HALF.catalog.(
           variants := HALF.catalog.variants[1 := Variant(0, SKU.(price := Some(120)), 4)], clock := 5)
      && e.maps == KeyMaps(map["tea" := 0], map["c" := 3, "a" := 1])
  {
    HalfFacts();
    AgainMaps(AGAIN);
    var e := Sequential(AGAIN, HALF.catalog, 0);
    assert Sequential(AGAIN, HALF.catalog, 1) == ExecuteRow(e, 0);
  }

  /** Row 1 creates its SKU under the product the maps name. */
  lemma RowOne(e: Execution, p: Id)
    requires |e.rows| == 3 && e.rows[1] == NewRow("b").(resolution := Some(ResolvedApply))
    requires p in e.catalog.products && e.catalog.nextId == 4 && "b" !in e.maps.variants
    requires Lookup(e.maps.products, "tea") == Some(p)
    ensures var e' := ExecuteRow(e, 1);
      && e'.rows[1].applied.Some? && e'.rows[1].targetProduct == Some(p)
      && 4 in e'.catalog.variants && e'.catalog.variants[4].product == p
      && e'.rows[2] == e.rows[2]
  {
  }

  lemma Uninterrupted()
    ensures Redirected(AGAIN, HALF.catalog, 0, 1) && RowsOk(AGAIN)
    ensures var e := Sequential(AGAIN, HALF.catalog, 3); 4 in e.catalog.variants && e.catalog.variants[4].product == 0
  {
    hide Sequential, ExecuteRow, WorkOn;
    HalfFacts();
    RowZero();
    var e1, e2 := Sequential(AGAIN, HALF.catalog, 1), Sequential(AGAIN, HALF.catalog, 2);
    SequentialNext(AGAIN, HALF.catalog, 1);
    RowOne(e1, 0);
    SequentialNext(AGAIN, HALF.catalog, 2);
    DoneStays(e2, 2);
    assert LastOfProduct(AGAIN, 3, "tea") == 2;
  }

  /** The rows and catalog the crash leaves, executed again from the top. */
  lemma Recovered()
    ensures var e := Sequential(AGAIN, HALF.catalog, 1); var again := Sequential(e.rows, e.catalog, 3);
      && again.rows[1].applied.Some? && 4 in again.catalog.variants && again.catalog.variants[4].product == 2
  {
    HalfFacts();
    RowZero();
    var e := Sequential(AGAIN, HALF.catalog, 1);
    hide Sequential, ExecuteRow, WorkOn;
    RecoveredFrom(e.rows, e.catalog);
  }

  lemma RecoveredFrom(rows: seq<Row>, c: Catalog)
    requires |rows| == 3 && rows[0].applied.Some? && rows[0].targetProduct == Some(0)
             && rows[0].targetVariant == Some(1)
    requires rows[0].productKey == "tea" && rows[0].executionKey == "a"
    requires rows[1] == NewRow("b").(resolution := Some(ResolvedApply))
    requires rows[2].applied.Some? && rows[2].targetProduct == Some(2) && rows[2].targetVariant == Some(3)
    requires rows[2].productKey == "tea" && rows[2].executionKey == "c"
    requires 2 in c.products && c.nextId == 4
    ensures var again := Sequential(rows, c, 3);
      again.rows[1].applied.Some? && 4 in again.catalog.variants && again.catalog.variants[4].product == 2
  {
    hide ExecuteRow, WorkOn;
    var e0, e1, e2 := Sequential(rows, c, 0), Sequential(rows, c, 1), Sequential(rows, c, 2);
    assert Rebuild(rows, 1) == Remember(NO_KEYS, rows[0]);
    assert Rebuild(rows, 2) == Rebuild(rows, 1);
    assert e0.maps.products == map["tea" := 2] && "b" !in e0.maps.variants;
    assert e1 == e0 by { DoneStays(e0, 0); }
    RowOne(e1, 2);
    assert e2 == ExecuteRow(e1, 1);
    assert Sequential(rows, c, 3) == e2 by { DoneStays(e2, 2); }
  }

  lemma DoneStays(e: Execution, k: nat)
    requires k < |e.rows| && Done(e.rows[k])
    ensures ExecuteRow(e, k) == e
  {
  }

  /** The job is completed, row 1 was written to product `p`, and so is the SKU it created. */
  ghost predicate FinishedAt(s: State, p: Id) {
    && (s.job.state.Completed? || s.job.state.CompletedWithErrors?)
    && |s.rows| == 3 && s.rows[1].applied.Some? && s.rows[1].targetProduct == Some(p)
    && 4 in s.catalog.variants && s.catalog.variants[4].product == p
  }

  lemma TwoEndings(s: State) returns (calm: seq<Step>, crashed: seq<Step>)
    requires s.rows == AGAIN && s.catalog == HALF.catalog && s.job.state.CompletedWithErrors?
    ensures AllCalm(calm) && AllCalm(crashed)
    ensures FinishedAt(Run(s, calm), 0) && FinishedAt(Run(s, crashed), 2)
  {
    hide Run, Sequential, RowsOk, Redirected, AllCalm, FailedRow, ExecuteRow;
    Uninterrupted();
    Recovered();
    HalfFacts();
    assert LastOfProduct(AGAIN, 3, "tea") == 2;
    hide LastOfProduct;
    calm := UninterruptedRunExists(s, "admin");
    crashed := CrashRedirects(s, "admin", 0, 1);
  }

  /**
   From one fresh job and one sequence of steps into its retry, the retry that is not interrupted and the
   one with a single crash both complete, with different rows and a SKU under different products:
   crash transparency does not hold of every retry. `MapsHeldIff` says of which it does.
   */
  lemma CrashChangesRetry() returns (before: seq<Step>, calm: seq<Step>, crashed: seq<Step>)
    ensures Initial(PREVIEWED) && PlannedOn(FILE, STORE)
    ensures AllCalm(calm) && AllCalm(crashed)
    ensures FinishedAt(Run(PREVIEWED, before + calm), 0) && FinishedAt(Run(PREVIEWED, before + crashed), 2)
  {
    hide Run, Sequential, Initial, PlannedOn, RowsOk, Redirected, AllCalm;
    PreviewedIsInitial();
    var first := HalfEpisode();
    HalfFacts();
    var release := ReleaseTwo(Run(PREVIEWED, first), 0, 1);
    RunConcat(PREVIEWED, first, release);
    before := first + release;
    hide FinishedAt, FailedRow, Released;
    calm, crashed := TwoEndings(Run(PREVIEWED, before));
    RunConcat(PREVIEWED, before, calm);
    RunConcat(PREVIEWED, before, crashed);
  }
}
