/**
 Crash transparency: with a deterministic row effect, a run that is interrupted and recovered any
 number of times leaves the rows and the catalog of one uninterrupted run.
 */
module CrashTransparency {
  import opened Wrappers
  import opened StoreCatalog
  import opened ImportRows
  import opened ImportJobs
  import opened ImportProtocol
  import opened ProtocolInvariant
  import Writer = CatalogWriter

  /** Rows, catalog and key maps of an uninterrupted execution. */
  datatype Execution = Execution(rows: seq<Row>, catalog: Catalog, maps: KeyMaps)

  function ExecuteRow(e: Execution, i: nat): Execution
    requires i < |e.rows|
  {
    match WorkOn(e.rows[i], e.catalog, e.maps)
    case Keeps => e
    case Throws => e.(rows := e.rows[i := e.rows[i].(action := Error)])
    case Writes(row, catalog) => Execution(e.rows[i := row], catalog, Remember(e.maps, row))
  }

  /** The first `k` rows executed in row order, without interruption. */
  function Sequential(rows: seq<Row>, catalog: Catalog, k: nat): (e: Execution)
    requires k <= |rows|
    ensures |e.rows| == |rows|
  {
    if k == 0 then Execution(rows, catalog, Rebuild(rows, |rows|))
    else ExecuteRow(Sequential(rows, catalog, k - 1), k - 1)
  }

  lemma SequentialNext(rows: seq<Row>, catalog: Catalog, k: nat)
    requires k < |rows|
    ensures Sequential(rows, catalog, k + 1) == ExecuteRow(Sequential(rows, catalog, k), k)
  {
    hide ExecuteRow;
  }

  lemma SequentialStart(rows: seq<Row>, catalog: Catalog)
    ensures Sequential(rows, catalog, 0) == Execution(rows, catalog, Rebuild(rows, |rows|))
  {
    hide Rebuild, ExecuteRow;
  }

  ghost predicate Fresh(rows: seq<Row>) {
    forall i :: 0 <= i < |rows| ==> rows[i].applied.None?
  }

  lemma {:induction false} RebuildSkips(rows: seq<Row>, k: nat, n: nat)
    requires k <= n <= |rows| && forall j :: k <= j < n ==> rows[j].applied.None?
    ensures Rebuild(rows, n) == Rebuild(rows, k)
  {
    if k < n { RebuildSkips(rows, k, n - 1); }
  }

  lemma {:induction false} RebuildSame(a: seq<Row>, b: seq<Row>, n: nat)
    requires n <= |a| && n <= |b| && a[..n] == b[..n]
    ensures Rebuild(a, n) == Rebuild(b, n)
  {
    if n > 0 {
      assert a[..n - 1] == a[..n][..n - 1] == b[..n][..n - 1] == b[..n - 1];
      assert a[n - 1] == a[..n][n - 1] == b[..n][n - 1] == b[n - 1];
      RebuildSame(a, b, n - 1);
    }
  }

  lemma ExecuteRowShape(e: Execution, i: nat)
    requires i < |e.rows| && e.rows[i].applied.None?
    ensures var e' := ExecuteRow(e, i);
      && |e'.rows| == |e.rows| && Done(e'.rows[i])
      && (forall j :: 0 <= j < |e.rows| && j != i ==> e'.rows[j] == e.rows[j])
      && e'.maps == Remember(e.maps, e'.rows[i])
  {
  }

  /** Executed rows are done, later ones untouched, and the maps are those a new attempt would rebuild. */
  lemma {:induction false} SequentialShape(rows: seq<Row>, catalog: Catalog, k: nat)
    requires k <= |rows| && Fresh(rows)
    ensures var e := Sequential(rows, catalog, k);
      && (forall j :: 0 <= j < k ==> Done(e.rows[j]))
      && (forall j :: k <= j < |rows| ==> e.rows[j] == rows[j])
      && e.maps == Rebuild(e.rows, k) == Rebuild(e.rows, |rows|)
  {
    hide Sequential, ExecuteRow, Remember, Done;
    if k == 0 {
      SequentialStart(rows, catalog);
      RebuildSkips(rows, 0, |rows|);
    } else {
      SequentialShape(rows, catalog, k - 1);
      var d := Sequential(rows, catalog, k - 1);
      SequentialNext(rows, catalog, k - 1);
      ExecuteRowShape(d, k - 1);
      var e := Sequential(rows, catalog, k);
      RebuildSame(d.rows, e.rows, k - 1);
      RebuildSkips(e.rows, k, |rows|);
    }
  }

  /** Nothing outside the protocol's own fault model: no resolution, rollback, outside write or failed statement. */
  predicate Calm(step: Step) {
    !step.Resolve? && !step.Rollback? && !step.OutsideWrite? && !(step.RunRow? && step.fate.Aborted?)
  }

  predicate AllCalm(steps: seq<Step>) {
    forall i :: 0 <= i < |steps| ==> Calm(steps[i])
  }

  /** Facts about the execution `e` of the first `k` rows that one protocol step relies on. */
  ghost predicate Aligned(e: Execution, k: nat) {
    && k <= |e.rows|
    && (forall j :: 0 <= j < k ==> Done(e.rows[j]))
    && e.maps == Rebuild(e.rows, |e.rows|)
  }

  ghost predicate OwnerFollows(a: Attempt, e: Execution, k: nat) {
    match a.pc
    case Loading => true
    case Failing => true
    case AtRow(i) => i <= k && a.maps == e.maps
    case Handling(i) =>
      if i < k then i + 1 == k <= |e.rows| && e.maps == Remember(a.maps, e.rows[i])
      else i == k < |e.rows| && a.maps == e.maps && WorkOn(e.rows[k], e.catalog, e.maps).Throws?
  }

  /** The stored rows and catalog are those of `e`, and the current attempt is level with it. */
  ghost predicate Follows(s: State, e: Execution, k: nat) {
    && s.rows == e.rows && s.catalog == e.catalog
    && (s.job.token.Some? && s.job.token.value in s.attempts ==>
          OwnerFollows(s.attempts[s.job.token.value], e, k))
    && (s.job.state.Completed? || s.job.state.CompletedWithErrors? ==> k == |e.rows|)
  }

  /** `s'` follows the same execution, or the one that is a row further. */
  ghost predicate Advances(s': State, e: Execution, k: nat) {
    Follows(s', e, k) || (k < |e.rows| && Follows(s', ExecuteRow(e, k), k + 1))
  }

  lemma RunAdvances(s: State, t: Token, dt: nat, fate: Fate, e: Execution, k: nat)
    requires Inv(s) && Aligned(e, k) && Follows(s, e, k) && t in s.attempts && !fate.Aborted?
    ensures Advances(NextRun(s, t, dt, fate), e, k)
  {
  }

  lemma HandleAdvances(s: State, t: Token, dt: nat, fate: Fate, e: Execution, k: nat)
    requires Inv(s) && Aligned(e, k) && Follows(s, e, k) && t in s.attempts
    ensures Advances(NextHandle(s, t, dt, fate), e, k)
  {
  }

  lemma AttemptAdvances(s: State, step: Step, e: Execution, k: nat)
    requires Inv(s) && Aligned(e, k) && Follows(s, e, k)
    requires step.Load? || step.LocalError? || step.StopOnFault? || step.SkipRow? || step.Crash? || step.Heartbeat?
    requires Actor(step).value in s.attempts
    ensures Advances(Next(s, step), e, k)
  {
    hide Occurrences, ClaimsOk, CompletionOk, CreatedOnce, Writer.ApplyRow, NextRun, NextHandle, NextResolve;
    hide NextRollback, NextFinish, NextFail, NextClaim, NextQueue, Remember, CountsOf, Covers, RowOk, ResolvedRow;
  }

  lemma FinishAdvances(s: State, step: Step, e: Execution, k: nat)
    requires Inv(s) && Aligned(e, k) && Follows(s, e, k)
    requires (step.Finish? || step.Fail?) && step.t in s.attempts
    ensures Follows(Next(s, step), e, k)
  {
    hide Occurrences, ClaimsOk, CreatedOnce, CountsOf, Remember, WorkOn, AppliedDown, NextRun, NextHandle, NextResolve;
    hide NextRollback, NextQueue, NextClaim, NextLoad;
  }

  lemma JobAdvances(s: State, step: Step, e: Execution, k: nat)
    requires Inv(s) && Aligned(e, k) && Follows(s, e, k) && Calm(step) && Actor(step).None?
    ensures Follows(Next(s, step), e, k)
  {
  }

  lemma StepAdvances(s: State, step: Step, e: Execution, k: nat)
    requires Inv(s) && Aligned(e, k) && Follows(s, e, k) && Calm(step)
    ensures Advances(Next(s, step), e, k)
  {
    hide Inv, Aligned, Follows, NextRun, NextHandle, NextResolve, NextRollback, NextFinish, NextFail, NextLoad;
    hide NextHeartbeat;
    if Actor(step).None? {
      JobAdvances(s, step, e, k);
    } else if Actor(step).value in s.attempts {
      match step
      case RunRow(t, dt, fate) => RunAdvances(s, t, dt, fate, e, k);
      case HandleError(t, dt, fate) => HandleAdvances(s, t, dt, fate, e, k);
      case Finish(_, _, _) => FinishAdvances(s, step, e, k);
      case Fail(_, _) => FinishAdvances(s, step, e, k);
      case _ => AttemptAdvances(s, step, e, k);
    }
  }

  lemma AdvancedPrefix(s': State, rows: seq<Row>, catalog: Catalog, k: nat) returns (k': nat)
    requires k <= |rows| && Advances(s', Sequential(rows, catalog, k), k)
    ensures k' <= |rows| && Follows(s', Sequential(rows, catalog, k'), k')
  {
    var e := Sequential(rows, catalog, k);
    if Follows(s', e, k) {
      k' := k;
    } else {
      k' := k + 1;
      assert Sequential(rows, catalog, k') == ExecuteRow(Sequential(rows, catalog, k' - 1), k' - 1);
    }
  }

  /** At every row the execution is what a recovered attempt would go on with. */
  ghost predicate Steady(rows: seq<Row>, catalog: Catalog) {
    forall k: nat :: k <= |rows| ==> Aligned(Sequential(rows, catalog, k), k)
  }

  lemma FreshIsSteady(rows: seq<Row>, catalog: Catalog)
    requires Fresh(rows)
    ensures Steady(rows, catalog)
  {
    hide Sequential;
    forall k: nat | k <= |rows| ensures Aligned(Sequential(rows, catalog, k), k) {
      SequentialShape(rows, catalog, k);
    }
  }

  lemma {:induction false} RunFollows(s: State, steps: seq<Step>, rows: seq<Row>, catalog: Catalog, k: nat)
    returns (k': nat)
    requires k <= |rows| && Steady(rows, catalog)
    requires Inv(s) && Follows(s, Sequential(rows, catalog, k), k)
    requires AllCalm(steps)
    ensures k' <= |rows| && Follows(Run(s, steps), Sequential(rows, catalog, k'), k')
    decreases |steps|
  {
    k' := k;
    if steps != [] {
      assert Aligned(Sequential(rows, catalog, k), k);
      StepAdvances(s, steps[0], Sequential(rows, catalog, k), k);
      var k1 := AdvancedPrefix(Next(s, steps[0]), rows, catalog, k);
      StepInv(s, steps[0]);
      k' := RunFollows(Next(s, steps[0]), steps[1..], rows, catalog, k1);
    }
  }

  /**
   Every state of a calm run holds exactly a prefix of the uninterrupted execution, and a completed job
   holds all of it, however often attempts crashed, lost acknowledgements, expired or were retried.
   */
  lemma InterruptedRunIsSequential(s0: State, steps: seq<Step>)
    requires Initial(s0) && AllCalm(steps)
    ensures var s := Run(s0, steps);
      && (exists k :: 0 <= k <= |s0.rows|
            && s.rows == Sequential(s0.rows, s0.catalog, k).rows
            && s.catalog == Sequential(s0.rows, s0.catalog, k).catalog)
      && (s.job.state.Completed? || s.job.state.CompletedWithErrors? ==>
            && s.rows == Sequential(s0.rows, s0.catalog, |s0.rows|).rows
            && s.catalog == Sequential(s0.rows, s0.catalog, |s0.rows|).catalog)
  {
    InitialInv(s0);
    FreshIsSteady(s0.rows, s0.catalog);
    var k := RunFollows(s0, steps, s0.rows, s0.catalog, 0);
  }

  /** The attempt `t` is before row `k` with a live lease, level with `e`. */
  ghost predicate LevelAt(s: State, t: Token, e: Execution, k: nat) {
    && Owns(s.job, t, s.now) && t in s.attempts
    && s.rows == e.rows && s.catalog == e.catalog
    && s.attempts[t].pc == AtRow(k) && s.attempts[t].local == e.rows && s.attempts[t].maps == e.maps
  }

  lemma {:induction false} RunConcat(s: State, a: seq<Step>, b: seq<Step>)
    ensures Run(s, a + b) == Run(Run(s, a), b)
    decreases |a|
  {
    if a == [] { assert a + b == b; } else {
      assert (a + b)[1..] == a[1..] + b;
      RunConcat(Next(s, a[0]), a[1..], b);
    }
  }

  lemma RunTwo(s: State, a: Step, b: Step)
    ensures Run(s, [a, b]) == Next(Next(s, a), b)
  {
    var s1 := Next(s, a);
    assert [a, b][1..] == [b];
    assert Run(s1, [b]) == Run(Next(s1, b), []);
  }

  /** The steps that take an attempt over row `k` when nothing interferes. */
  lemma RowSteps(s: State, t: Token, e: Execution, k: nat) returns (steps: seq<Step>)
    requires k < |e.rows| && LevelAt(s, t, e, k)
    ensures LevelAt(Run(s, steps), t, ExecuteRow(e, k), k + 1)
    ensures AllCalm(steps)
  {
    var run := RunRow(t, 0, Acked);
    if Done(e.rows[k]) {
      steps := [SkipRow(t)];
      RunOne(s, SkipRow(t));
      SkipsLevel(s, t, e, k);
    } else if WorkOn(e.rows[k], e.catalog, e.maps).Throws? {
      steps := [run, HandleError(t, 0, Acked)];
      RunTwo(s, run, HandleError(t, 0, Acked));
      ThrowsLevel(s, t, e, k);
    } else {
      steps := [run];
      RunOne(s, run);
      WritesLevel(s, t, e, k);
    }
    hide LevelAt, Next, Run, ExecuteRow;
  }

  lemma SkipsLevel(s: State, t: Token, e: Execution, k: nat)
    requires k < |e.rows| && LevelAt(s, t, e, k) && Done(e.rows[k])
    ensures LevelAt(Next(s, SkipRow(t)), t, ExecuteRow(e, k), k + 1)
  {
  }

  lemma ThrowsLevel(s: State, t: Token, e: Execution, k: nat)
    requires k < |e.rows| && LevelAt(s, t, e, k) && WorkOn(e.rows[k], e.catalog, e.maps).Throws?
    ensures LevelAt(Next(Next(s, RunRow(t, 0, Acked)), HandleError(t, 0, Acked)), t, ExecuteRow(e, k), k + 1)
  {
    hide Writer.ApplyRow;
  }

  lemma WritesLevel(s: State, t: Token, e: Execution, k: nat)
    requires k < |e.rows| && LevelAt(s, t, e, k) && WorkOn(e.rows[k], e.catalog, e.maps).Writes?
    ensures LevelAt(Next(s, RunRow(t, 0, Acked)), t, ExecuteRow(e, k), k + 1)
  {
    hide Writer.ApplyRow;
  }

  lemma {:induction false} RowsSteps(s: State, t: Token, rows: seq<Row>, catalog: Catalog, k: nat, n: nat)
    returns (steps: seq<Step>)
    requires k <= n <= |rows| && LevelAt(s, t, Sequential(rows, catalog, k), k)
    ensures LevelAt(Run(s, steps), t, Sequential(rows, catalog, n), n)
    ensures AllCalm(steps)
    decreases n - k
  {
    if k == n { steps := []; } else {
      hide LevelAt, Sequential, Run, ExecuteRow;
      var here := RowSteps(s, t, Sequential(rows, catalog, k), k);
      SequentialNext(rows, catalog, k);
      var rest := RowsSteps(Run(s, here), t, rows, catalog, k + 1, n);
      RunConcat(s, here, rest);
      steps := here + rest;
    }
  }

  /** A delivery starts an attempt on a queued job, and it reads the rows. */
  lemma PickUpSteps(s: State) returns (steps: seq<Step>, t: Token)
    requires s.job.state.Queued? && |s.rows| <= MAX_ROWS
    ensures LevelAt(Run(s, steps), t, Sequential(s.rows, s.catalog, 0), 0)
    ensures AllCalm(steps)
  {
    t := s.nextToken;
    steps := [Claim(s.job.actor, Acked), Load(t)];
    RunTwo(s, steps[0], steps[1]);
    hide CountsOf, NextRun, NextHandle, NextResolve, NextRollback, NextFinish, NextQueue;
  }

  /** A job that may be queued is, and a new attempt reads its rows. */
  lemma StartSteps(s0: State, actor: string) returns (steps: seq<Step>, t: Token)
    requires Resolvable(s0.job.state) && |s0.rows| <= MAX_ROWS
    ensures LevelAt(Run(s0, steps), t, Sequential(s0.rows, s0.catalog, 0), 0)
    ensures AllCalm(steps)
  {
    hide Run, LevelAt, Sequential;
    var queue := QueueExecution(s0.job.state, s0.job.version, actor);
    assert Run(s0, [queue]) == Next(s0, queue) by { RunOne(s0, queue); }
    var rest;
    rest, t := PickUpSteps(Next(s0, queue));
    RunConcat(s0, [queue], rest);
    steps := [queue] + rest;
  }

  lemma RunOne(s: State, a: Step)
    ensures Run(s, [a]) == Next(s, a)
  {
    assert Run(Next(s, a), []) == Next(s, a);
  }

  lemma ExpiredAndQueued(s: State, t: Token, e: Execution, k: nat)
    requires LevelAt(s, t, e, k)
    ensures var s' := Next(Next(Next(s, Crash(t)), Tick(s.job.leaseUntil.value - s.now)), RecoverExpired);
      s'.job.state.Queued? && s'.rows == e.rows && s'.catalog == e.catalog
  {
  }

  /** The attempt dies between two rows; its lease runs out, and a recovered attempt reads the rows again. */
  lemma CrashSteps(s: State, t: Token, e: Execution, k: nat) returns (steps: seq<Step>, t': Token)
    requires LevelAt(s, t, e, k) && |e.rows| <= MAX_ROWS
    ensures LevelAt(Run(s, steps), t', Sequential(e.rows, e.catalog, 0), 0)
    ensures AllCalm(steps)
  {
    var wait := s.job.leaseUntil.value - s.now;
    ExpiredAndQueued(s, t, e, k);
    hide Run, LevelAt, Sequential, Next;
    var s2 := Next(Next(s, Crash(t)), Tick(wait));
    RunTwo(s, Crash(t), Tick(wait));
    RunOne(s2, RecoverExpired);
    var rest;
    rest, t' := PickUpSteps(Next(s2, RecoverExpired));
    RunConcat(s2, [RecoverExpired], rest);
    RunConcat(s, [Crash(t), Tick(wait)], [RecoverExpired] + rest);
    steps := [Crash(t), Tick(wait)] + ([RecoverExpired] + rest);
  }

  lemma FinishSteps(s: State, t: Token, e: Execution) returns (steps: seq<Step>)
    requires LevelAt(s, t, e, |e.rows|)
    ensures var s' := Run(s, steps); var c := CountsOf(e.rows);
      && s'.rows == e.rows && s'.catalog == e.catalog
      && s'.job.state == if c.error + c.conflict + c.warning > 0 then CompletedWithErrors else Completed
    ensures AllCalm(steps)
  {
    steps := [Finish(t, 0, Acked)];
    RunOne(s, steps[0]);
    hide Run, CountsOf, NextRun, NextHandle, NextResolve, NextRollback, NextLoad, NextQueue;
  }

  /**
   The uninterrupted execution is itself a run: every job that may be queued has one, and it ends
   completed.
   */
  lemma UninterruptedRunExists(s0: State, actor: string) returns (steps: seq<Step>)
    requires Resolvable(s0.job.state) && |s0.rows| <= MAX_ROWS
    ensures var s := Run(s0, steps); var e := Sequential(s0.rows, s0.catalog, |s0.rows|);
      && (s.job.state.Completed? || s.job.state.CompletedWithErrors?)
      && s.rows == e.rows && s.catalog == e.catalog
    ensures AllCalm(steps)
  {
    hide Run, LevelAt, Sequential;
    var start, t := StartSteps(s0, actor);
    var rows := RowsSteps(Run(s0, start), t, s0.rows, s0.catalog, 0, |s0.rows|);
    RunConcat(s0, start, rows);
    var last := FinishSteps(Run(s0, start + rows), t, Sequential(s0.rows, s0.catalog, |s0.rows|));
    RunConcat(s0, start + rows, last);
    steps := start + rows + last;
  }
}
