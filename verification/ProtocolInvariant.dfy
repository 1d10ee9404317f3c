/** The inductive invariant of the execution protocol, kept by every step. */
module ProtocolInvariant {
  import opened Wrappers
  import opened StoreCatalog
  import opened ImportRows
  import opened ImportJobs
  import opened ImportProtocol
  import Writer = CatalogWriter

  function Occurrences(log: seq<nat>, i: nat): nat {
    if log == [] then 0 else (if log[|log| - 1] == i then 1 else 0) + Occurrences(log[..|log| - 1], i)
  }

  ghost predicate RowOk(row: Row) {
    row.applied.Some? ==>
      && (row.action.Create? || row.action.Update?)
      && row.targetProduct.Some? && row.targetVariant.Some?
  }

  /** The lease columns say RUNNING together, and only issued tokens exist. */
  ghost predicate LeaseOk(s: State) {
    && (s.job.state.Running? <==> s.job.token.Some?)
    && (s.job.token.Some? <==> s.job.leaseUntil.Some?)
    && (s.job.token.Some? ==> s.job.token.value < s.nextToken)
    && (forall t :: t in s.attempts ==> t < s.nextToken)
  }

  ghost predicate EffectsOk(s: State) {
    && |s.rows| <= MAX_ROWS
    && (forall i :: 0 <= i < |s.rows| ==> RowOk(s.rows[i]))
    && (forall i :: 0 <= i < |s.rows| ==>
          Occurrences(s.effects, i) == if s.rows[i].applied.Some? then 1 else 0)
  }

  /** The maps know every key an applied row used. */
  ghost predicate Covers(maps: KeyMaps, rows: seq<Row>) {
    forall j :: 0 <= j < |rows| && rows[j].applied.Some? ==>
      rows[j].productKey in maps.products && rows[j].executionKey in maps.variants
  }

  ghost predicate LocalOk(a: Attempt, rows: seq<Row>, i: nat) {
    && i <= |a.local| == |rows|
    && (forall j :: 0 <= j < i ==> Done(rows[j]))
    && Covers(a.maps, a.local)
  }

  ghost predicate AttemptOk(a: Attempt, rows: seq<Row>) {
    match a.pc
    case Loading => true
    case Failing => true
    case AtRow(i) => LocalOk(a, rows, i) && a.local == rows
    case Handling(i) =>
      LocalOk(a, rows, i) && i < |rows| && forall j :: 0 <= j < |rows| && j != i ==> a.local[j] == rows[j]
  }

  /** The attempt whose token is current sees the rows as they are. */
  ghost predicate OwnerOk(s: State) {
    s.job.token.Some? && s.job.token.value in s.attempts ==> AttemptOk(s.attempts[s.job.token.value], s.rows)
  }

  ghost predicate ClaimsOk(s: State) {
    && (forall k, m :: 0 <= k < m < |s.claims| ==> s.claims[k] < s.claims[m])
    && (forall k :: 0 <= k < |s.claims| ==> s.claims[k] <= s.episode)
    && (s.job.state.Queued? ==> forall k :: 0 <= k < |s.claims| ==> s.claims[k] < s.episode)
    && (s.job.state.Running? ==> |s.claims| > 0 && s.claims[|s.claims| - 1] == s.episode)
  }

  predicate Clean(row: Row) {
    Done(row) && !row.action.Error?
  }

  ghost predicate CompletionOk(s: State) {
    && (s.job.state.Completed? ==> forall i :: 0 <= i < |s.rows| ==> Clean(s.rows[i]))
    && (s.job.state.Completed? || s.job.state.CompletedWithErrors? || s.job.state.RolledBack?
        ==> s.job.counts == CountsOf(s.rows))
    && s.compensated == (if s.job.state.RolledBack? then AppliedDown(s.rows, |s.rows|) else [])
  }

  /** Two rows that share a key never both created what the key names. */
  ghost predicate CreatedOnce(rows: seq<Row>) {
    && (forall i, j :: 0 <= i < |rows| && 0 <= j < |rows| && i != j
          && rows[i].applied.Some? && rows[j].applied.Some? && rows[i].productKey == rows[j].productKey
          ==> !(rows[i].applied.value.productCreated && rows[j].applied.value.productCreated))
    && (forall i, j :: 0 <= i < |rows| && 0 <= j < |rows| && i != j
          && rows[i].applied.Some? && rows[j].applied.Some? && rows[i].executionKey == rows[j].executionKey
          && !Forced(rows[i]) && !Forced(rows[j])
          ==> !(rows[i].applied.value.variantCreated && rows[j].applied.value.variantCreated))
  }

  ghost predicate Inv(s: State) {
    LeaseOk(s) && EffectsOk(s) && OwnerOk(s) && ClaimsOk(s) && CompletionOk(s) && CreatedOnce(s.rows)
  }

  lemma CountsClean(rows: seq<Row>)
    requires forall i :: 0 <= i < |rows| ==> Done(rows[i]) && RowOk(rows[i])
    ensures CountAction(rows, Conflict) == 0 && CountAction(rows, Warning) == 0
    ensures CountAction(rows, Error) == 0 ==> forall i :: 0 <= i < |rows| ==> Clean(rows[i])
    ensures CountAction(rows, Create) + CountAction(rows, Update) + CountAction(rows, SkipUnchanged)
            + CountAction(rows, Error) == |rows|
  {
  }

  lemma {:induction false} RebuildCovers(rows: seq<Row>, n: nat)
    requires n <= |rows|
    requires forall j :: 0 <= j < |rows| ==> RowOk(rows[j])
    ensures Covers(Rebuild(rows, n), rows[..n])
  {
    if n > 0 {
      RebuildCovers(rows, n - 1);
      assert rows[..n] == rows[..n - 1] + [rows[n - 1]];
      assert RowOk(rows[n - 1]);
    }
  }

  /** What a successful `applyRow` does to the row itself. */
  lemma ApplyRowMarks(c: Catalog, row: Row, maps: KeyMaps)
    requires Writer.ApplyRow(c, row, maps).Ok?
    ensures var r := Writer.ApplyRow(c, row, maps).value.1;
      && r.applied.Some? && r.targetProduct.Some? && r.targetVariant.Some?
      && r.action == row.action && r.productKey == row.productKey && r.executionKey == row.executionKey
      && Forced(r) == Forced(row)
      && (r.applied.value.productCreated ==> row.productKey !in maps.products)
      && (r.applied.value.variantCreated && !Forced(row) ==> row.executionKey !in maps.variants)
  {
  }

  lemma InitialInv(s: State)
    requires Initial(s)
    ensures Inv(s)
  {
  }


  lemma LoadInv(s: State, t: Token)
    requires Inv(s) && t in s.attempts
    ensures Inv(NextLoad(s, t))
  {
    RebuildCovers(s.rows, |s.rows|);
    assert s.rows[..|s.rows|] == s.rows;
  }

  /** Row `i`, not yet applied, is written with its catalog effect. */
  lemma AppliedRowKeeps(s: State, i: nat, row: Row, maps: KeyMaps)
    requires EffectsOk(s) && CreatedOnce(s.rows) && i < |s.rows| && s.rows[i].applied.None?
    requires Covers(maps, s.rows)
    requires RowOk(row) && row.applied.Some?
    requires row.productKey == s.rows[i].productKey && row.executionKey == s.rows[i].executionKey
    requires row.applied.value.productCreated ==> row.productKey !in maps.products
    requires row.applied.value.variantCreated && !Forced(row) ==> row.executionKey !in maps.variants
    ensures EffectsOk(s.(rows := s.rows[i := row], effects := s.effects + [i]))
    ensures CreatedOnce(s.rows[i := row])
  {
  }

  lemma AdvancedOk(a: Attempt, rows: seq<Row>, i: nat, row: Row)
    requires LocalOk(a, rows, i) && i < |rows| && Done(row) && RowOk(row)
    requires forall j :: 0 <= j < |rows| && j != i ==> a.local[j] == rows[j]
    ensures AttemptOk(Advanced(a, i, row), rows[i := row])
  {
  }

  lemma RunJobOk(s: State, t: Token, dt: nat, fate: Fate)
    requires Inv(s) && t in s.attempts
    ensures var s' := NextRun(s, t, dt, fate); LeaseOk(s') && ClaimsOk(s') && CompletionOk(s')
  {
    hide EffectsOk, OwnerOk, CreatedOnce, WorkOn, AppliedDown, CountsOf, Clean, Remember;
  }

  lemma RunRowsOk(s: State, t: Token, dt: nat, fate: Fate)
    requires Inv(s) && t in s.attempts
    ensures var s' := NextRun(s, t, dt, fate); EffectsOk(s') && CreatedOnce(s'.rows) && OwnerOk(s')
  {
    hide ClaimsOk, CompletionOk, AppliedDown, CountsOf, Writer.ApplyRow, Remember;
    var a := s.attempts[t];
    if a.pc.AtRow? && a.pc.i < |a.local| && !Done(a.local[a.pc.i]) && a.pc.i < |s.rows| && Owns(s.job, t, s.now) {
      var i := a.pc.i;
      var work := WorkOn(s.rows[i], s.catalog, a.maps);
      assert AttemptOk(a, s.rows) && !Done(s.rows[i]);
      if !work.Throws? && !fate.Aborted? {
        ApplyRowMarks(s.catalog, s.rows[i], a.maps);
        AppliedRowKeeps(s, i, work.row, a.maps);
        AdvancedOk(a, s.rows, i, work.row);
      }
    }
  }

  lemma RunInv(s: State, t: Token, dt: nat, fate: Fate)
    requires Inv(s) && t in s.attempts
    ensures Inv(NextRun(s, t, dt, fate))
  {
    hide NextRun, LeaseOk, EffectsOk, OwnerOk, ClaimsOk, CompletionOk, CreatedOnce;
    RunJobOk(s, t, dt, fate);
    RunRowsOk(s, t, dt, fate);
  }

  lemma HandleJobOk(s: State, t: Token, dt: nat, fate: Fate)
    requires Inv(s) && t in s.attempts
    ensures var s' := NextHandle(s, t, dt, fate); LeaseOk(s') && ClaimsOk(s') && CompletionOk(s')
  {
    hide EffectsOk, OwnerOk, CreatedOnce, AppliedDown, CountsOf, Clean, Remember;
  }

  /** A row that was not applied is marked ERROR. */
  lemma ErrorRowKeeps(s: State, i: nat)
    requires EffectsOk(s) && CreatedOnce(s.rows) && i < |s.rows| && s.rows[i].applied.None?
    ensures var rows := s.rows[i := s.rows[i].(action := Error)]; EffectsOk(s.(rows := rows)) && CreatedOnce(rows)
  {
  }

  lemma HandleRowsOk(s: State, t: Token, dt: nat, fate: Fate)
    requires Inv(s) && t in s.attempts
    ensures var s' := NextHandle(s, t, dt, fate); EffectsOk(s') && CreatedOnce(s'.rows) && OwnerOk(s')
  {
    hide ClaimsOk, CompletionOk, AppliedDown, CountsOf, Remember;
    var a := s.attempts[t];
    if a.pc.Handling? && a.pc.i < |a.local| && a.pc.i < |s.rows| && Owns(s.job, t, s.now) && !fate.Aborted? {
      var i := a.pc.i;
      assert AttemptOk(a, s.rows) && RowOk(s.rows[i]);
      assert s.rows[i := s.rows[i]] == s.rows;
      AdvancedOk(a, s.rows, i, if Done(s.rows[i]) then s.rows[i] else s.rows[i].(action := Error));
      if !Done(s.rows[i]) { ErrorRowKeeps(s, i); }
      hide Occurrences, CreatedOnce, Covers, LocalOk;
    }
  }

  lemma HandleInv(s: State, t: Token, dt: nat, fate: Fate)
    requires Inv(s) && t in s.attempts
    ensures Inv(NextHandle(s, t, dt, fate))
  {
    hide NextHandle, LeaseOk, EffectsOk, OwnerOk, ClaimsOk, CompletionOk, CreatedOnce;
    HandleJobOk(s, t, dt, fate);
    HandleRowsOk(s, t, dt, fate);
  }

  lemma FinishInv(s: State, t: Token, dt: nat, fate: Fate)
    requires Inv(s) && t in s.attempts
    ensures Inv(NextFinish(s, t, dt, fate))
  {
    hide Occurrences, Covers, CreatedOnce, AppliedDown, CountAction, Forced;
    if s.attempts[t].pc.AtRow? && s.attempts[t].pc.i == |s.attempts[t].local| && Owns(s.job, t, s.now) {
      CountsClean(s.rows);
    }
  }

  lemma ResolveInv(s: State, i: nat, input: ResolveInput)
    requires Inv(s)
    ensures Inv(NextResolve(s, i, input))
  {
    hide Occurrences, CountAction, AppliedDown, Covers;
    if i < |s.rows| { assert RowOk(s.rows[i]); }
  }

  lemma AttemptStepInv(s: State, step: Step)
    requires Inv(s)
    requires step.LocalError? || step.StopOnFault? || step.SkipRow? || step.Crash?
    requires Actor(step).value in s.attempts
    ensures Inv(Next(s, step))
  {
    hide Occurrences, AppliedDown, CountsOf, Covers, Clean, CreatedOnce, NextRun, NextHandle, NextRollback, NextResolve;
  }

  lemma HeartbeatInv(s: State, t: Token, fate: Fate)
    requires Inv(s) && t in s.attempts
    ensures Inv(NextHeartbeat(s, t, fate))
  {
    hide Occurrences, AppliedDown, CountsOf, Covers, Clean, CreatedOnce;
  }

  lemma JobStepInv(s: State, step: Step)
    requires Inv(s)
    requires step.Tick? || step.OutsideWrite? || step.RecoverExpired? || step.QueueExecution? || step.RejectActor?
    ensures Inv(Next(s, step))
  {
    hide Occurrences, AppliedDown, CountsOf, Covers, Clean, CreatedOnce, NextRun, NextHandle, NextRollback, NextResolve;
  }

  lemma ClaimInv(s: State, actor: string, fate: Fate)
    requires Inv(s)
    ensures Inv(NextClaim(s, actor, fate))
  {
  }

  lemma FailInv(s: State, t: Token, fate: Fate)
    requires Inv(s) && t in s.attempts
    ensures Inv(NextFail(s, t, fate))
  {
  }

  lemma RollbackInv(s: State)
    requires Inv(s)
    ensures Inv(NextRollback(s))
  {
  }

  lemma StepInv(s: State, step: Step)
    requires Inv(s)
    ensures Inv(Next(s, step))
  {
    hide LeaseOk, EffectsOk, OwnerOk, ClaimsOk, CompletionOk, CreatedOnce, NextRun, NextHandle, NextRollback;
    hide NextResolve;
    hide NextLoad, NextClaim, NextFinish, NextHeartbeat, NextFail, NextSkip, NextStop;
    if Actor(step).Some? && Actor(step).value !in s.attempts {
    } else {
      match step
      case Load(t) => LoadInv(s, t);
      case RunRow(t, dt, fate) => RunInv(s, t, dt, fate);
      case HandleError(t, dt, fate) => HandleInv(s, t, dt, fate);
      case Finish(t, dt, fate) => FinishInv(s, t, dt, fate);
      case Resolve(i, input) => ResolveInv(s, i, input);
      case Claim(actor, fate) => ClaimInv(s, actor, fate);
      case Heartbeat(t, fate) => HeartbeatInv(s, t, fate);
      case Fail(t, fate) => FailInv(s, t, fate);
      case Rollback => RollbackInv(s);
      case LocalError(_) => AttemptStepInv(s, step);
      case StopOnFault(_) => AttemptStepInv(s, step);
      case SkipRow(_) => AttemptStepInv(s, step);
      case Crash(_) => AttemptStepInv(s, step);
      case _ => JobStepInv(s, step);
    }
  }

  lemma {:induction false} RunKeepsInv(s: State, steps: seq<Step>)
    requires Inv(s)
    ensures Inv(Run(s, steps))
    decreases |steps|
  {
    if steps != [] {
      StepInv(s, steps[0]);
      RunKeepsInv(Next(s, steps[0]), steps[1..]);
    }
  }
}
