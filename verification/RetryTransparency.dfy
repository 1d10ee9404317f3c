/**
 Crash transparency of a retry. When rows of an earlier episode are already applied, a recovered attempt
 rebuilds its key maps from all of them in row order, while the running attempt remembered its own rows
 last. This module says which rows keep the two alike, and what a crash changes when they are not.
 */
module RetryTransparency {
  import opened Wrappers
  import opened StoreCatalog
  import opened ImportRows
  import opened ImportJobs
  import opened ImportProtocol
  import opened ProtocolInvariant
  import opened CrashTransparency
  import Writer = CatalogWriter

  /** The last applied row of a product key among the first `n` rows, or -1. */
  function LastOfProduct(rows: seq<Row>, n: nat, key: string): (j: int)
    requires n <= |rows|
    ensures -1 <= j < n
    ensures j >= 0 ==> rows[j].applied.Some? && rows[j].productKey == key
    ensures forall m :: j < m < n && rows[m].applied.Some? ==> rows[m].productKey != key
  {
    if n == 0 then -1
    else if rows[n - 1].applied.Some? && rows[n - 1].productKey == key then n - 1
    else LastOfProduct(rows, n - 1, key)
  }

  /** The same for an execution key. */
  function LastOfVariant(rows: seq<Row>, n: nat, key: string): (j: int)
    requires n <= |rows|
    ensures -1 <= j < n
    ensures j >= 0 ==> rows[j].applied.Some? && rows[j].executionKey == key
    ensures forall m :: j < m < n && rows[m].applied.Some? ==> rows[m].executionKey != key
  {
    if n == 0 then -1
    else if rows[n - 1].applied.Some? && rows[n - 1].executionKey == key then n - 1
    else LastOfVariant(rows, n - 1, key)
  }

  ghost predicate RowsOk(rows: seq<Row>) {
    forall i :: 0 <= i < |rows| ==> RowOk(rows[i])
  }

  /** Maps rebuilt from the rows send each key to the last applied row that has it. */
  lemma {:induction false} RebuiltMaps(rows: seq<Row>, n: nat, key: string)
    requires n <= |rows| && RowsOk(rows)
    ensures var j := LastOfProduct(rows, n, key);
      Lookup(Rebuild(rows, n).products, key) == if j < 0 then None else rows[j].targetProduct
    ensures var j := LastOfVariant(rows, n, key);
      Lookup(Rebuild(rows, n).variants, key) == if j < 0 then None else rows[j].targetVariant
  {
    if n > 0 {
      assert RowOk(rows[n - 1]);
      RebuiltMaps(rows, n - 1, key);
    }
  }

  /**
   What can be checked of a row that is still to be executed: if applied rows of its product key lie below
   it, an explicit target is that of the last of them, and the same for its execution key and SKU.
   */
  predicate RowAgrees(rows: seq<Row>, i: nat)
    requires i < |rows|
  {
    var row := rows[i];
    var j := LastOfProduct(rows, |rows|, row.productKey);
    var l := LastOfVariant(rows, |rows|, row.executionKey);
    && (i < j && row.targetProduct.Some? ==> row.targetProduct == rows[j].targetProduct)
    && (i < l ==> !Forced(row) && (row.targetVariant.Some? ==> row.targetVariant == rows[l].targetVariant))
  }

  /** The condition on the rows of a job before it is queued again. */
  predicate RetryAgrees(rows: seq<Row>) {
    forall i :: 0 <= i < |rows| && !Done(rows[i]) ==> RowAgrees(rows, i)
  }

  /** The saved row `row` went where the last applied rows of its keys below `i` went. */
  predicate TargetsAgree(rows: seq<Row>, i: nat, row: Row) {
    var j := LastOfProduct(rows, |rows|, row.productKey);
    var l := LastOfVariant(rows, |rows|, row.executionKey);
    && (i < j ==> row.targetProduct == rows[j].targetProduct)
    && (i < l ==> row.targetVariant == rows[l].targetVariant)
  }

  /** Row `i`, not applied so far, is saved as `row`. */
  ghost predicate Applies(rows: seq<Row>, i: nat, row: Row) {
    && i < |rows| && RowsOk(rows) && rows[i].applied.None?
    && row.applied.Some? && RowOk(row)
    && row.productKey == rows[i].productKey && row.executionKey == rows[i].executionKey
  }

  lemma LastAfter(rows: seq<Row>, i: nat, row: Row, key: string)
    requires Applies(rows, i, row)
    ensures var rows' := rows[i := row];
      && LastOfProduct(rows', |rows|, key)
         == (var j := LastOfProduct(rows, |rows|, key); if key == row.productKey && j < i then i else j)
      && LastOfVariant(rows', |rows|, key)
         == (var j := LastOfVariant(rows, |rows|, key); if key == row.executionKey && j < i then i else j)
  {
    var rows' := rows[i := row];
    var j, j' := LastOfProduct(rows, |rows|, key), LastOfProduct(rows', |rows|, key);
    assert j' >= 0 && j' != i ==> rows[j'] == rows'[j'];
    assert j >= 0 ==> rows'[j] == rows[j];
    assert key == row.productKey ==> rows'[i].productKey == key;
    var l, l' := LastOfVariant(rows, |rows|, key), LastOfVariant(rows', |rows|, key);
    assert l' >= 0 && l' != i ==> rows[l'] == rows'[l'];
    assert l >= 0 ==> rows'[l] == rows[l];
    assert key == row.executionKey ==> rows'[i].executionKey == key;
  }

  lemma SameMaps(a: KeyMaps, b: KeyMaps)
    requires forall key :: Lookup(a.products, key) == Lookup(b.products, key)
    requires forall key :: Lookup(a.variants, key) == Lookup(b.variants, key)
    ensures a == b
  {
    forall key ensures key in a.products <==> key in b.products {
      assert Lookup(a.products, key) == Lookup(b.products, key);
    }
    forall key ensures key in a.variants <==> key in b.variants {
      assert Lookup(a.variants, key) == Lookup(b.variants, key);
    }
    forall key | key in a.products ensures a.products[key] == b.products[key] {
      assert Lookup(a.products, key) == Lookup(b.products, key);
    }
    forall key | key in a.variants ensures a.variants[key] == b.variants[key] {
      assert Lookup(a.variants, key) == Lookup(b.variants, key);
    }
    assert a.products == b.products && a.variants == b.variants;
  }

  /** The lookups in the two maps after row `i` was saved: rebuilt from the rows, and remembered last. */
  lemma LookupsAfter(rows: seq<Row>, i: nat, row: Row, key: string)
    requires Applies(rows, i, row)
    ensures var rebuilt := Rebuild(rows[i := row], |rows|); var held := Remember(Rebuild(rows, |rows|), row);
      var j := LastOfProduct(rows, |rows|, key); var l := LastOfVariant(rows, |rows|, key);
      && (Lookup(rebuilt.products, key) == Lookup(held.products, key)
          <==> (key == row.productKey && i < j ==> row.targetProduct == rows[j].targetProduct))
      && (Lookup(rebuilt.variants, key) == Lookup(held.variants, key)
          <==> (key == row.executionKey && i < l ==> row.targetVariant == rows[l].targetVariant))
  {
    hide Rebuild, LastOfProduct, LastOfVariant;
    var rows' := rows[i := row];
    forall m | 0 <= m < |rows'| ensures RowOk(rows'[m]) {}
    RebuiltMaps(rows, |rows|, key);
    RebuiltMaps(rows', |rows|, key);
    LastAfter(rows, i, row, key);
  }

  /** Saving a row keeps the running attempt's maps as they would be rebuilt iff its targets agree. */
  lemma RememberedIff(rows: seq<Row>, i: nat, row: Row)
    requires Applies(rows, i, row)
    ensures Rebuild(rows[i := row], |rows|) == Remember(Rebuild(rows, |rows|), row) <==> TargetsAgree(rows, i, row)
  {
    hide Rebuild, Remember, LastOfProduct, LastOfVariant, RowsOk, RowOk;
    var rebuilt, held := Rebuild(rows[i := row], |rows|), Remember(Rebuild(rows, |rows|), row);
    LookupsAfter(rows, i, row, row.productKey);
    LookupsAfter(rows, i, row, row.executionKey);
    if TargetsAgree(rows, i, row) {
      forall key ensures Lookup(rebuilt.products, key) == Lookup(held.products, key)
                      && Lookup(rebuilt.variants, key) == Lookup(held.variants, key)
      { LookupsAfter(rows, i, row, key); }
      SameMaps(rebuilt, held);
    }
  }

  lemma CommitTargets(target: Writer.ProductTarget, row: Row, variant: Option<Id>, location: Id)
    requires target.id in target.catalog.products && (variant.Some? ==> variant.value in target.catalog.variants)
    ensures var (c', r) := Writer.CommitRow(target, row, variant, location);
      && c'.nextId >= target.catalog.nextId && r.targetProduct == Some(target.id)
      && r.targetVariant == Some(GetOr(variant, target.catalog.nextId))
  {
    hide Writer.PatchProduct, Writer.PatchVariant, Writer.BeforeOf, FingerprintOf;
  }

  /** Where `applyRow` takes a row, in terms of its explicit targets and the maps. */
  lemma WrittenTargets(c: Catalog, row: Row, maps: KeyMaps)
    requires Writer.ApplyRow(c, row, maps).Ok?
    ensures var (c', r) := Writer.ApplyRow(c, row, maps).value;
      && c'.nextId >= c.nextId
      && (row.targetProduct.Some? ==> r.targetProduct == row.targetProduct)
      && (row.targetProduct.None? && row.productKey in maps.products ==>
            r.targetProduct == Some(maps.products[row.productKey]))
      && (Forced(row) ==> r.targetVariant.Some? && r.targetVariant.value >= c.nextId)
      && (!Forced(row) && row.targetVariant.Some? ==> r.targetVariant == row.targetVariant)
      && (!Forced(row) && row.targetVariant.None? && row.executionKey in maps.variants
          ==> r.targetVariant == Some(maps.variants[row.executionKey]))
  {
    hide Writer.CommitRow;
    var target := Writer.ResolveProduct(c, row, maps).value;
    var variant := Writer.ResolveVariant(target.catalog, row, maps, target.id).value;
    CommitTargets(target, row, variant, row.data.location.value);
  }

  /** The SKUs of applied rows from `i` on are not allocated again. */
  ghost predicate Allocated(rows: seq<Row>, i: nat, nextId: Id) {
    forall j :: i <= j < |rows| && rows[j].applied.Some? && rows[j].targetVariant.Some? ==>
      rows[j].targetVariant.value < nextId
  }

  /** With maps as rebuilt, the saved row's targets agree iff the row agreed before it was executed. */
  lemma AgreesBeforehand(e: Execution, i: nat)
    requires i < |e.rows| && RowsOk(e.rows) && e.maps == Rebuild(e.rows, |e.rows|)
    requires WorkOn(e.rows[i], e.catalog, e.maps).Writes?
    ensures RowAgrees(e.rows, i) ==> TargetsAgree(e.rows, i, ExecuteRow(e, i).rows[i])
    ensures Allocated(e.rows, i, e.catalog.nextId) && TargetsAgree(e.rows, i, ExecuteRow(e, i).rows[i]) ==>
        RowAgrees(e.rows, i)
  {
    hide Rebuild, Remember, Writer.ApplyRow, LastOfProduct, LastOfVariant;
    var row := e.rows[i];
    WrittenTargets(e.catalog, row, e.maps);
    ApplyRowMarks(e.catalog, row, e.maps);
    RebuiltMaps(e.rows, |e.rows|, row.productKey);
    RebuiltMaps(e.rows, |e.rows|, row.executionKey);
  }

  /** Rows from `k` on are as they were, so what lies after a row `i >= k` decides alike. */
  lemma SuffixDecides(a: seq<Row>, b: seq<Row>, i: nat)
    requires i < |a| == |b| && (forall j :: i <= j < |a| ==> a[j] == b[j])
    ensures RowAgrees(a, i) <==> RowAgrees(b, i)
    ensures forall row :: TargetsAgree(a, i, row) <==> TargetsAgree(b, i, row)
  {
    hide LastOfProduct, LastOfVariant;
    forall key ensures LastOfProduct(a, |a|, key) == LastOfProduct(b, |b|, key)
                    || (LastOfProduct(a, |a|, key) < i && LastOfProduct(b, |b|, key) < i)
    {}
    forall key ensures LastOfVariant(a, |a|, key) == LastOfVariant(b, |b|, key)
                    || (LastOfVariant(a, |a|, key) < i && LastOfVariant(b, |b|, key) < i)
    {}
  }

  /** Facts about `e`, the execution of the first `k` rows, that hold whether or not the maps agree. */
  ghost predicate Underway(rows: seq<Row>, catalog: Catalog, e: Execution, k: nat) {
    && k <= |rows| == |e.rows| && RowsOk(e.rows) && e.catalog.nextId >= catalog.nextId
    && (forall j :: 0 <= j < k ==> Done(e.rows[j]))
    && (forall j :: k <= j < |rows| ==> e.rows[j] == rows[j])
    && (forall j :: 0 <= j < |rows| && Done(rows[j]) ==> e.rows[j] == rows[j])
  }

  lemma ExecuteUnderway(rows: seq<Row>, catalog: Catalog, e: Execution, k: nat)
    requires k < |rows| && Underway(rows, catalog, e, k)
    ensures Underway(rows, catalog, ExecuteRow(e, k), k + 1)
    ensures Done(e.rows[k]) ==> ExecuteRow(e, k) == e
    ensures !Done(e.rows[k]) && !WorkOn(e.rows[k], e.catalog, e.maps).Writes? ==>
      ExecuteRow(e, k) == e.(rows := e.rows[k := e.rows[k].(action := Error)])
    ensures WorkOn(e.rows[k], e.catalog, e.maps).Writes? ==>
      var e' := ExecuteRow(e, k);
      && Applies(e.rows, k, e'.rows[k]) && e'.rows == e.rows[k := e'.rows[k]] && e'.maps == Remember(e.maps, e'.rows[k])
  {
    hide Writer.ApplyRow, Remember;
    assert RowOk(e.rows[k]);
    if WorkOn(e.rows[k], e.catalog, e.maps).Writes? {
      WrittenTargets(e.catalog, e.rows[k], e.maps);
      ApplyRowMarks(e.catalog, e.rows[k], e.maps);
    }
  }

  lemma {:induction false} SequentialUnderway(rows: seq<Row>, catalog: Catalog, k: nat)
    requires k <= |rows| && RowsOk(rows)
    ensures Underway(rows, catalog, Sequential(rows, catalog, k), k)
  {
    hide Sequential, ExecuteRow;
    if k == 0 {
      SequentialStart(rows, catalog);
    } else {
      hide Underway, RowsOk;
      SequentialUnderway(rows, catalog, k - 1);
      SequentialNext(rows, catalog, k - 1);
      ExecuteUnderway(rows, catalog, Sequential(rows, catalog, k - 1), k - 1);
    }
  }

  /** The uninterrupted execution applies row `i`. */
  ghost predicate Commits(rows: seq<Row>, catalog: Catalog, i: nat)
    requires i < |rows|
  {
    rows[i].applied.None? && Sequential(rows, catalog, i + 1).rows[i].applied.Some?
  }

  lemma CommitsWrites(rows: seq<Row>, catalog: Catalog, i: nat)
    requires i < |rows| && RowsOk(rows)
    ensures var e := Sequential(rows, catalog, i);
      && e.rows[i] == rows[i] && Sequential(rows, catalog, i + 1) == ExecuteRow(e, i)
      && (Commits(rows, catalog, i) <==> WorkOn(e.rows[i], e.catalog, e.maps).Writes?)
  {
    hide Sequential, RowsOk;
    SequentialUnderway(rows, catalog, i);
    var e := Sequential(rows, catalog, i);
    SequentialNext(rows, catalog, i);
    ExecuteUnderway(rows, catalog, e, i);
  }

  lemma {:induction false} UnappliedKeepsMaps(rows: seq<Row>, i: nat, row: Row, n: nat)
    requires i < |rows| && n <= |rows| && rows[i].applied.None? && row.applied.None?
    ensures Rebuild(rows[i := row], n) == Rebuild(rows, n)
  {
    if n > 0 { UnappliedKeepsMaps(rows, i, row, n - 1); }
  }

  /** A row that is applied is the one `applyRow` makes of it there, and it is remembered. */
  lemma CommittedRow(rows: seq<Row>, catalog: Catalog, i: nat)
    requires i < |rows| && RowsOk(rows) && Commits(rows, catalog, i)
    ensures var e, e' := Sequential(rows, catalog, i), Sequential(rows, catalog, i + 1);
      && Writer.ApplyRow(e.catalog, rows[i], e.maps).Ok?
      && e'.rows[i] == Writer.ApplyRow(e.catalog, rows[i], e.maps).value.1 && e'.maps == Remember(e.maps, e'.rows[i])
      && e'.rows[i].applied.Some? && e'.rows[i].targetProduct.Some? && e'.rows[i].targetVariant.Some?
      && e'.rows[i].productKey == rows[i].productKey && e'.rows[i].executionKey == rows[i].executionKey
  {
    hide Sequential, Writer.ApplyRow, Remember, RowsOk;
    CommitsWrites(rows, catalog, i);
    var e := Sequential(rows, catalog, i);
    ApplyRowMarks(e.catalog, rows[i], e.maps);
  }

  /** A step keeps the maps as rebuilt if the row agrees, and only then when identifiers are not reused. */
  lemma AlignedNext(rows: seq<Row>, catalog: Catalog, i: nat)
    requires i < |rows| && RowsOk(rows) && Aligned(Sequential(rows, catalog, i), i)
    ensures (Commits(rows, catalog, i) ==> RowAgrees(rows, i)) ==> Aligned(Sequential(rows, catalog, i + 1), i + 1)
    ensures Allocated(rows, 0, catalog.nextId) && Aligned(Sequential(rows, catalog, i + 1), i + 1)
            ==> (Commits(rows, catalog, i) ==> RowAgrees(rows, i))
  {
    hide ExecuteRow, Sequential, Rebuild, Remember, RowAgrees, TargetsAgree, WorkOn, RowsOk, RowOk, Commits;
    var e, e' := Sequential(rows, catalog, i), Sequential(rows, catalog, i + 1);
    SequentialUnderway(rows, catalog, i);
    SequentialUnderway(rows, catalog, i + 1);
    CommitsWrites(rows, catalog, i);
    ExecuteUnderway(rows, catalog, e, i);
    if Commits(rows, catalog, i) {
      RememberedIff(e.rows, i, e'.rows[i]);
      AgreesBeforehand(e, i);
      SuffixDecides(rows, e.rows, i);
    } else if !Done(e.rows[i]) {
      UnappliedKeepsMaps(e.rows, i, e.rows[i].(action := Error), |rows|);
    }
  }

  lemma {:induction false} AgreeingIsSteady(rows: seq<Row>, catalog: Catalog, k: nat)
    requires k <= |rows| && RowsOk(rows)
    requires forall i :: 0 <= i < k && Commits(rows, catalog, i) ==> RowAgrees(rows, i)
    ensures Aligned(Sequential(rows, catalog, k), k)
  {
    hide Commits, RowAgrees, RowsOk, Sequential, Rebuild;
    if k == 0 {
      SequentialStart(rows, catalog);
    } else {
      AgreeingIsSteady(rows, catalog, k - 1);
      AlignedNext(rows, catalog, k - 1);
    }
  }

  /**
   In every state of the execution the maps held are the ones a recovered attempt would rebuild, exactly
   if every row that is applied agreed with the applied rows below it before the job was queued.
   */
  lemma SteadyIff(rows: seq<Row>, catalog: Catalog)
    requires RowsOk(rows) && Allocated(rows, 0, catalog.nextId)
    ensures Steady(rows, catalog) <==> forall i :: 0 <= i < |rows| && Commits(rows, catalog, i) ==> RowAgrees(rows, i)
  {
    hide Commits, RowAgrees, RowsOk, Aligned, Sequential, Allocated;
    if Steady(rows, catalog) {
      forall i | 0 <= i < |rows| && Commits(rows, catalog, i) ensures RowAgrees(rows, i) {
        assert Aligned(Sequential(rows, catalog, i), i) && Aligned(Sequential(rows, catalog, i + 1), i + 1);
        AlignedNext(rows, catalog, i);
      }
    } else {
      var k: nat :| k <= |rows| && !Aligned(Sequential(rows, catalog, k), k);
      if forall i :: 0 <= i < |rows| && Commits(rows, catalog, i) ==> RowAgrees(rows, i) {
        AgreeingIsSteady(rows, catalog, k);
      }
    }
  }

  lemma AgreeingRowsAreSteady(rows: seq<Row>, catalog: Catalog)
    requires RowsOk(rows) && RetryAgrees(rows)
    ensures Steady(rows, catalog)
  {
    hide Sequential, RowAgrees, Aligned;
    forall i | 0 <= i < |rows| && Commits(rows, catalog, i) ensures RowAgrees(rows, i) {
      CommitsWrites(rows, catalog, i);
    }
    forall k: nat | k <= |rows| ensures Aligned(Sequential(rows, catalog, k), k) { AgreeingIsSteady(rows, catalog, k); }
  }

  function Requeued(s0: State, actor: string): State {
    Next(s0, QueueExecution(s0.job.state, s0.job.version, actor))
  }

  lemma RequeuedFollows(s0: State, actor: string)
    requires Inv(s0) && Resolvable(s0.job.state)
    ensures var s1 := Requeued(s0, actor);
      && Inv(s1) && s1.job.state.Queued? && s1.rows == s0.rows && s1.catalog == s0.catalog
      && Follows(s1, Sequential(s0.rows, s0.catalog, 0), 0)
  {
    StepInv(s0, QueueExecution(s0.job.state, s0.job.version, actor));
    hide Inv, Rebuild, CountsOf, NextRun, NextHandle, NextResolve, NextRollback, NextFinish, NextLoad, NextHeartbeat;
  }

  /**
   Any later episode of a job, with whatever rows are already applied: if the rows that are still to be
   executed agree with the applied ones, every state of an interrupted run holds a prefix of the
   uninterrupted execution, and a completed job holds all of it.
   */
  lemma InterruptedRetryIsSequential(s0: State, actor: string, steps: seq<Step>)
    requires Inv(s0) && Resolvable(s0.job.state) && RetryAgrees(s0.rows) && AllCalm(steps)
    ensures var s := Run(Requeued(s0, actor), steps);
      && (exists k :: 0 <= k <= |s0.rows|
            && s.rows == Sequential(s0.rows, s0.catalog, k).rows
            && s.catalog == Sequential(s0.rows, s0.catalog, k).catalog)
      && (s.job.state.Completed? || s.job.state.CompletedWithErrors? ==>
            && s.rows == Sequential(s0.rows, s0.catalog, |s0.rows|).rows
            && s.catalog == Sequential(s0.rows, s0.catalog, |s0.rows|).catalog)
  {
    RequeuedFollows(s0, actor);
    assert RowsOk(s0.rows);
    AgreeingRowsAreSteady(s0.rows, s0.catalog);
    hide Requeued, Run, Sequential, Inv;
    var k := RunFollows(Requeued(s0, actor), steps, s0.rows, s0.catalog, 0);
  }

  /** The maps of the attempt that owns the job are those a recovered attempt would rebuild. */
  ghost predicate HoldsRebuilt(s: State) {
    (s.job.token.Some? && s.job.token.value in s.attempts && s.attempts[s.job.token.value].pc.AtRow?)
    ==> s.attempts[s.job.token.value].maps == Rebuild(s.rows, |s.rows|)
  }

  lemma SteadyRunHolds(s0: State, actor: string, steps: seq<Step>)
    requires Inv(s0) && Resolvable(s0.job.state) && Steady(s0.rows, s0.catalog) && AllCalm(steps)
    ensures HoldsRebuilt(Run(Requeued(s0, actor), steps))
  {
    RequeuedFollows(s0, actor);
    hide Requeued, Run, Sequential, Inv;
    var k := RunFollows(Requeued(s0, actor), steps, s0.rows, s0.catalog, 0);
    assert Aligned(Sequential(s0.rows, s0.catalog, k), k);
  }

  lemma MapsDiffer(rows: seq<Row>, catalog: Catalog, k: nat)
    requires k <= |rows| && RowsOk(rows) && !Aligned(Sequential(rows, catalog, k), k)
    ensures var e := Sequential(rows, catalog, k); |e.rows| == |rows| && e.maps != Rebuild(e.rows, |rows|)
  {
    hide Sequential, RowsOk;
    SequentialUnderway(rows, catalog, k);
  }

  lemma UnsteadyRun(s0: State, actor: string) returns (steps: seq<Step>)
    requires Inv(s0) && Resolvable(s0.job.state) && !Steady(s0.rows, s0.catalog)
    ensures AllCalm(steps) && !HoldsRebuilt(Run(Requeued(s0, actor), steps))
  {
    var k: nat :| k <= |s0.rows| && !Aligned(Sequential(s0.rows, s0.catalog, k), k);
    RequeuedFollows(s0, actor);
    assert RowsOk(s0.rows) && |s0.rows| <= MAX_ROWS;
    MapsDiffer(s0.rows, s0.catalog, k);
    hide Requeued, Run, Sequential, Inv, RowsOk, Follows, Rebuild, Aligned, Steady;
    var start, t := PickUpSteps(Requeued(s0, actor));
    var upper := RowsSteps(Run(Requeued(s0, actor), start), t, s0.rows, s0.catalog, 0, k);
    RunConcat(Requeued(s0, actor), start, upper);
    steps := start + upper;
  }

  /**
   In every state of every interrupted run of an episode the owner's maps are the ones a recovered attempt
   would rebuild, exactly if each row that the episode applies agreed, before the job was queued, with
   the rows applied below it.
   */
  lemma MapsHeldIff(s0: State, actor: string)
    requires Inv(s0) && Resolvable(s0.job.state) && Allocated(s0.rows, 0, s0.catalog.nextId)
    ensures (forall steps :: AllCalm(steps) ==> HoldsRebuilt(Run(Requeued(s0, actor), steps)))
            <==> forall i :: 0 <= i < |s0.rows| && Commits(s0.rows, s0.catalog, i) ==> RowAgrees(s0.rows, i)
  {
    assert RowsOk(s0.rows);
    SteadyIff(s0.rows, s0.catalog);
    hide Inv, Requeued, Run, Sequential, AllCalm, HoldsRebuilt, Commits, RowAgrees, Steady, RowsOk;
    if Steady(s0.rows, s0.catalog) {
      forall steps | AllCalm(steps) ensures HoldsRebuilt(Run(Requeued(s0, actor), steps)) {
        SteadyRunHolds(s0, actor, steps);
      }
    } else {
      var steps := UnsteadyRun(s0, actor);
    }
  }

  /** While no row of a key is to be executed, the maps keep the key's product or SKU. */
  lemma {:induction false} KeyHeld(rows: seq<Row>, catalog: Catalog, a: nat, b: nat, key: string)
    requires a <= b <= |rows| && RowsOk(rows)
    ensures var from, to := Sequential(rows, catalog, a).maps, Sequential(rows, catalog, b).maps;
      && ((forall h :: a <= h < b && rows[h].productKey == key ==> Done(rows[h])) ==>
            Lookup(to.products, key) == Lookup(from.products, key))
      && ((forall h :: a <= h < b && rows[h].executionKey == key ==> Done(rows[h])) ==>
            Lookup(to.variants, key) == Lookup(from.variants, key))
    decreases b
  {
    hide Sequential, ExecuteRow, RowsOk, WorkOn, Done;
    if a < b {
      KeyHeld(rows, catalog, a, b - 1, key);
      var e := Sequential(rows, catalog, b - 1);
      SequentialNext(rows, catalog, b - 1);
      SequentialUnderway(rows, catalog, b - 1);
      ExecuteUnderway(rows, catalog, e, b - 1);
    }
  }

  lemma {:induction false} RowFinal(rows: seq<Row>, catalog: Catalog, m: nat, n: nat)
    requires m < n <= |rows|
    ensures Sequential(rows, catalog, n).rows[m] == Sequential(rows, catalog, m + 1).rows[m]
    decreases n
  {
    hide Sequential;
    if m + 1 < n {
      RowFinal(rows, catalog, m, n - 1);
      SequentialNext(rows, catalog, n - 1);
    }
  }

  /** Row `i` has an explicit product that is not the one applied row `j` below it gave the key; `m` has none. */
  ghost predicate Redirected(rows: seq<Row>, catalog: Catalog, i: nat, m: nat) {
    && i < m < |rows| && Commits(rows, catalog, i) && Commits(rows, catalog, m)
    && rows[i].targetProduct.Some? && rows[m].targetProduct.None?
    && rows[m].productKey == rows[i].productKey
    && (forall h :: i < h < m && rows[h].productKey == rows[i].productKey ==> Done(rows[h]))
    && var j := LastOfProduct(rows, |rows|, rows[i].productKey); i < j && rows[j].targetProduct != rows[i].targetProduct
  }

  /** Uninterrupted, row `m` follows row `i`. */
  lemma FollowsRow(rows: seq<Row>, catalog: Catalog, i: nat, m: nat)
    requires RowsOk(rows) && Redirected(rows, catalog, i, m)
    ensures Sequential(rows, catalog, |rows|).rows[m].applied.Some?
    ensures Sequential(rows, catalog, |rows|).rows[m].targetProduct == rows[i].targetProduct
  {
    hide Sequential, LastOfProduct, RowsOk, Writer.ApplyRow, Commits;
    var key := rows[i].productKey;
    CommittedRow(rows, catalog, i);
    CommittedRow(rows, catalog, m);
    var before, there := Sequential(rows, catalog, i), Sequential(rows, catalog, m);
    WrittenTargets(before.catalog, rows[i], before.maps);
    assert Lookup(Sequential(rows, catalog, i + 1).maps.products, key) == rows[i].targetProduct;
    KeyHeld(rows, catalog, i + 1, m, key);
    WrittenTargets(there.catalog, rows[m], there.maps);
    RowFinal(rows, catalog, m, |rows|);
  }

  /** Recovered after row `i`, row `m` follows the applied row below. */
  lemma FollowsLater(rows: seq<Row>, catalog: Catalog, i: nat, m: nat)
    requires RowsOk(rows) && Redirected(rows, catalog, i, m)
    ensures var e := Sequential(rows, catalog, i + 1); var j := LastOfProduct(rows, |rows|, rows[i].productKey);
      var again := Sequential(e.rows, e.catalog, |rows|).rows[m];
      again.applied.Some? ==> again.targetProduct == rows[j].targetProduct
  {
    var key := rows[i].productKey;
    assert RowOk(rows[LastOfProduct(rows, |rows|, key)]);
    hide Sequential, LastOfProduct, RowsOk, Writer.ApplyRow, Rebuild;
    var e := Sequential(rows, catalog, i + 1);
    SequentialUnderway(rows, catalog, i + 1);
    CommitsWrites(rows, catalog, m);
    SuffixLast(rows, e.rows, i, key);
    RebuiltMaps(e.rows, |rows|, key);
    SequentialStart(e.rows, e.catalog);
    KeyHeld(e.rows, e.catalog, 0, m, key);
    RowFinal(e.rows, e.catalog, m, |rows|);
    var there := Sequential(e.rows, e.catalog, m);
    if Commits(e.rows, e.catalog, m) {
      CommittedRow(e.rows, e.catalog, m);
      WrittenTargets(there.catalog, rows[m], there.maps);
    }
  }

  lemma SuffixLast(a: seq<Row>, b: seq<Row>, i: nat, key: string)
    requires i < |a| == |b| && (forall j :: i < j < |a| ==> a[j] == b[j])
    ensures i < LastOfProduct(a, |a|, key) ==> LastOfProduct(a, |a|, key) == LastOfProduct(b, |b|, key)
    ensures i < LastOfVariant(a, |a|, key) ==> LastOfVariant(a, |a|, key) == LastOfVariant(b, |b|, key)
  {
  }

  /** The run of an episode with one crash right after row `i`: the recovered attempt starts again from the top. */
  lemma CrashedRun(s0: State, actor: string, i: nat) returns (steps: seq<Step>)
    requires Resolvable(s0.job.state) && |s0.rows| <= MAX_ROWS && i < |s0.rows|
    ensures AllCalm(steps)
    ensures var s := Run(s0, steps); var e := Sequential(s0.rows, s0.catalog, i + 1);
      && (s.job.state.Completed? || s.job.state.CompletedWithErrors?) && |s.rows| == |s0.rows|
      && s.rows == Sequential(e.rows, e.catalog, |s0.rows|).rows
      && s.catalog == Sequential(e.rows, e.catalog, |s0.rows|).catalog
  {
    hide Run, LevelAt, Sequential, Rebuild;
    var n := |s0.rows|;
    var e := Sequential(s0.rows, s0.catalog, i + 1);
    var start, t := StartSteps(s0, actor);
    var upper := RowsSteps(Run(s0, start), t, s0.rows, s0.catalog, 0, i + 1);
    RunConcat(s0, start, upper);
    var crash, t' := CrashSteps(Run(s0, start + upper), t, e, i + 1);
    RunConcat(s0, start + upper, crash);
    var lower := RowsSteps(Run(s0, start + upper + crash), t', e.rows, e.catalog, 0, n);
    RunConcat(s0, start + upper + crash, lower);
    var last := FinishSteps(Run(s0, start + upper + crash + lower), t', Sequential(e.rows, e.catalog, n));
    RunConcat(s0, start + upper + crash + lower, last);
    steps := start + upper + crash + lower + last;
  }

  /**
   Otherwise a crash can show: where the last applied row below an explicitly targeted row `i` gave the
   product key another product, and the next row `m` of the key is to follow the maps, one crash after row
   `i` takes row `m` away from the product it is written to without the crash.
   */
  lemma CrashRedirects(s0: State, actor: string, i: nat, m: nat) returns (steps: seq<Step>)
    requires Resolvable(s0.job.state) && |s0.rows| <= MAX_ROWS && RowsOk(s0.rows)
    requires Redirected(s0.rows, s0.catalog, i, m)
    ensures AllCalm(steps)
    ensures var s := Run(s0, steps); var e := Sequential(s0.rows, s0.catalog, i + 1);
      && s.rows == Sequential(e.rows, e.catalog, |s0.rows|).rows
      && s.catalog == Sequential(e.rows, e.catalog, |s0.rows|).catalog
    ensures var s := Run(s0, steps); var j := LastOfProduct(s0.rows, |s0.rows|, s0.rows[i].productKey);
      && (s.job.state.Completed? || s.job.state.CompletedWithErrors?) && |s.rows| == |s0.rows|
      && Sequential(s0.rows, s0.catalog, |s0.rows|).rows[m].applied.Some?
      && Sequential(s0.rows, s0.catalog, |s0.rows|).rows[m].targetProduct == s0.rows[i].targetProduct
      && (s.rows[m].applied.Some? ==> s.rows[m].targetProduct == s0.rows[j].targetProduct != s0.rows[i].targetProduct)
  {
    hide Run, Sequential, RowsOk, LastOfProduct, Commits;
    steps := CrashedRun(s0, actor, i);
    FollowsRow(s0.rows, s0.catalog, i, m);
    FollowsLater(s0.rows, s0.catalog, i, m);
  }

  /** Row `i` is forced, or has an explicit SKU, that differs from the one applied row `l` below it gave the key. */
  ghost predicate Resold(rows: seq<Row>, catalog: Catalog, i: nat, m: nat) {
    && i < m < |rows| && Commits(rows, catalog, i) && Commits(rows, catalog, m)
    && !Forced(rows[m]) && rows[m].targetVariant.None? && rows[m].executionKey == rows[i].executionKey
    && (forall h :: i < h < m && rows[h].executionKey == rows[i].executionKey ==> Done(rows[h]))
    && var l := LastOfVariant(rows, |rows|, rows[i].executionKey);
    && i < l
    && (Forced(rows[i]) || (rows[i].targetVariant.Some? && rows[i].targetVariant != rows[l].targetVariant))
  }

  /** What row `i` writes is what the maps then name, and not the SKU of the applied row below. */
  lemma WritesAway(rows: seq<Row>, catalog: Catalog, i: nat, m: nat)
    requires RowsOk(rows) && Allocated(rows, 0, catalog.nextId) && Resold(rows, catalog, i, m)
    ensures var e := Sequential(rows, catalog, i + 1); var l := LastOfVariant(rows, |rows|, rows[i].executionKey);
      && Lookup(e.maps.variants, rows[i].executionKey) == e.rows[i].targetVariant
      && e.rows[i].targetVariant.Some? && e.rows[i].targetVariant != rows[l].targetVariant
  {
    assert RowOk(rows[LastOfVariant(rows, |rows|, rows[i].executionKey)]);
    hide Sequential, LastOfVariant, RowsOk, Writer.ApplyRow, Commits;
    CommittedRow(rows, catalog, i);
    SequentialUnderway(rows, catalog, i);
    var before := Sequential(rows, catalog, i);
    WrittenTargets(before.catalog, rows[i], before.maps);
  }

  /** Uninterrupted, row `m` is written to the SKU of row `i`. */
  lemma SoldAlike(rows: seq<Row>, catalog: Catalog, i: nat, m: nat)
    requires RowsOk(rows) && Allocated(rows, 0, catalog.nextId) && Resold(rows, catalog, i, m)
    ensures var e := Sequential(rows, catalog, |rows|); var l := LastOfVariant(rows, |rows|, rows[i].executionKey);
      && e.rows[m].applied.Some? && e.rows[m].targetVariant == e.rows[i].targetVariant != rows[l].targetVariant
  {
    hide Sequential, LastOfVariant, RowsOk, Writer.ApplyRow, Commits, Allocated;
    WritesAway(rows, catalog, i, m);
    CommittedRow(rows, catalog, m);
    KeyHeld(rows, catalog, i + 1, m, rows[i].executionKey);
    var there := Sequential(rows, catalog, m);
    WrittenTargets(there.catalog, rows[m], there.maps);
    RowFinal(rows, catalog, i, |rows|);
    RowFinal(rows, catalog, m, |rows|);
  }

  /** Recovered after row `i`, row `m` is written to the SKU of the applied row below. */
  lemma SoldLater(rows: seq<Row>, catalog: Catalog, i: nat, m: nat)
    requires RowsOk(rows) && Resold(rows, catalog, i, m)
    ensures var e := Sequential(rows, catalog, i + 1); var l := LastOfVariant(rows, |rows|, rows[i].executionKey);
      var again := Sequential(e.rows, e.catalog, |rows|).rows[m];
      again.applied.Some? ==> again.targetVariant == rows[l].targetVariant
  {
    var key := rows[i].executionKey;
    assert RowOk(rows[LastOfVariant(rows, |rows|, key)]);
    hide Sequential, LastOfVariant, RowsOk, Writer.ApplyRow, Rebuild;
    var e := Sequential(rows, catalog, i + 1);
    SequentialUnderway(rows, catalog, i + 1);
    CommitsWrites(rows, catalog, m);
    SuffixLast(rows, e.rows, i, key);
    RebuiltMaps(e.rows, |rows|, key);
    SequentialStart(e.rows, e.catalog);
    KeyHeld(e.rows, e.catalog, 0, m, key);
    RowFinal(e.rows, e.catalog, m, |rows|);
    var there := Sequential(e.rows, e.catalog, m);
    if Commits(e.rows, e.catalog, m) {
      CommittedRow(e.rows, e.catalog, m);
      WrittenTargets(there.catalog, rows[m], there.maps);
    }
  }

  /**
   The same for an execution key: where the last applied row below row `i` went to another SKU than row `i`
   goes to, one crash after row `i` takes the next row of the key away from the SKU of row `i`.
   */
  lemma CrashResells(s0: State, actor: string, i: nat, m: nat) returns (steps: seq<Step>)
    requires Resolvable(s0.job.state) && |s0.rows| <= MAX_ROWS && RowsOk(s0.rows)
    requires Allocated(s0.rows, 0, s0.catalog.nextId) && Resold(s0.rows, s0.catalog, i, m)
    ensures AllCalm(steps)
    ensures var s := Run(s0, steps); var calm := Sequential(s0.rows, s0.catalog, |s0.rows|).rows;
      var l := LastOfVariant(s0.rows, |s0.rows|, s0.rows[i].executionKey);
      && (s.job.state.Completed? || s.job.state.CompletedWithErrors?) && |s.rows| == |s0.rows|
      && calm[m].applied.Some? && calm[m].targetVariant == calm[i].targetVariant
      && (s.rows[m].applied.Some? ==> s.rows[m].targetVariant == s0.rows[l].targetVariant != calm[m].targetVariant)
  {
    hide Run, Sequential, RowsOk, LastOfVariant, Commits, Allocated;
    steps := CrashedRun(s0, actor, i);
    SoldAlike(s0.rows, s0.catalog, i, m);
    SoldLater(s0.rows, s0.catalog, i, m);
  }
}
