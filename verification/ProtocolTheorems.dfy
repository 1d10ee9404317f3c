/** What holds over every run of the execution protocol. */
module ProtocolTheorems {
  import opened Wrappers
  import opened StoreCatalog
  import opened ImportRows
  import opened ImportJobs
  import opened ImportProtocol
  import opened ProtocolInvariant
  import Undo = CatalogRollback

  /** The persistent job, rows and catalog are the same in both states. */
  ghost predicate SameStore(s: State, s': State) {
    s'.job == s.job && s'.rows == s.rows && s'.catalog == s.catalog
  }

  /** Exactly-once effects: an effect is committed once if `appliedAt` is set, never otherwise. */
  lemma ExactlyOnce(s0: State, steps: seq<Step>)
    requires Initial(s0)
    ensures var s := Run(s0, steps);
      forall i :: 0 <= i < |s.rows| ==>
        && Occurrences(s.effects, i) <= 1
        && (Occurrences(s.effects, i) == 1 <==> s.rows[i].applied.Some?)
  {
    InitialInv(s0);
    RunKeepsInv(s0, steps);
  }

  lemma StepKeepsApplied(s: State, step: Step, i: nat)
    requires Inv(s) && i < |s.rows| && s.rows[i].applied.Some?
    ensures |Next(s, step).rows| == |s.rows| && Next(s, step).rows[i] == s.rows[i]
  {
    hide Occurrences, CreatedOnce, ClaimsOk, CompletionOk, CountsOf, Writer.ApplyRow, Remember, Rebuild, AppliedDown;
    hide Undo.RollbackSafe, Undo.RollbackRows;
    assert RowOk(s.rows[i]);
  }

  /** No later step touches an applied row: it never becomes ERROR and is never resolved again. */
  lemma {:induction false} AppliedIsFinal(s: State, steps: seq<Step>, i: nat)
    requires Inv(s) && i < |s.rows| && s.rows[i].applied.Some?
    ensures |Run(s, steps).rows| == |s.rows| && Run(s, steps).rows[i] == s.rows[i]
    decreases |steps|
  {
    if steps != [] {
      StepKeepsApplied(s, steps[0], i);
      StepInv(s, steps[0]);
      AppliedIsFinal(Next(s, steps[0]), steps[1..], i);
    }
  }

  /** In every reachable state the token, the lease and RUNNING go together, and tokens are fresh. */
  lemma TokenIffRunning(s0: State, steps: seq<Step>)
    requires Initial(s0)
    ensures var s := Run(s0, steps);
      && (s.job.token.Some? <==> s.job.state.Running?)
      && (s.job.leaseUntil.Some? <==> s.job.state.Running?)
      && (s.job.token.Some? ==> s.job.token.value < s.nextToken)
  {
    InitialInv(s0);
    RunKeepsInv(s0, steps);
  }

  /** An attempt changes the job, a row or the catalog only while its own unexpired token is current. */
  lemma WritesAreFenced(s: State, step: Step)
    requires Actor(step).Some?
    ensures SameStore(s, Next(s, step)) || Owns(s.job, Actor(step).value, s.now)
  {
  }

  lemma StaleStep(s: State, step: Step, t: Token)
    requires Inv(s) && t < s.nextToken && s.job.token != Some(t)
    ensures Next(s, step).job.token != Some(t) && t < Next(s, step).nextToken
  {
    hide EffectsOk, OwnerOk, ClaimsOk, CompletionOk, CreatedOnce, WorkOn, ResolvedRow, CountsOf, AppliedDown;
  }

  /** A token that is not current never becomes current again. */
  lemma {:induction false} StaleForever(s: State, steps: seq<Step>, t: Token)
    requires Inv(s) && t < s.nextToken && s.job.token != Some(t)
    ensures Run(s, steps).job.token != Some(t) && t < Run(s, steps).nextToken && Inv(Run(s, steps))
    decreases |steps|
  {
    if steps != [] {
      StaleStep(s, steps[0], t);
      StepInv(s, steps[0]);
      StaleForever(Next(s, steps[0]), steps[1..], t);
    }
  }

  /**
   Fencing: once a job was recovered, re-queued, finished or failed under token `t`, no later step of
   the attempt that held `t` changes the job, a row or the catalog, whatever happened in between.
   */
  lemma OldAttemptIsPowerless(s: State, steps: seq<Step>, step: Step, t: Token)
    requires Inv(s) && t < s.nextToken && s.job.token != Some(t)
    requires Actor(step) == Some(t)
    ensures SameStore(Run(s, steps), Next(Run(s, steps), step))
  {
    StaleForever(s, steps, t);
    WritesAreFenced(Run(s, steps), step);
  }

  lemma VersionGrowsStep(s: State, step: Step)
    ensures Next(s, step).job == s.job || Next(s, step).job.version > s.job.version
  {
    hide WorkOn, ResolvedRow, CountsOf, Undo.RollbackSafe, Undo.RollbackRows, AppliedDown, Rebuild;
  }

  lemma {:induction false} VersionGrows(s: State, steps: seq<Step>)
    ensures Run(s, steps).job == s.job || Run(s, steps).job.version > s.job.version
    decreases |steps|
  {
    hide Next;
    if steps != [] {
      VersionGrowsStep(s, steps[0]);
      VersionGrows(Next(s, steps[0]), steps[1..]);
    }
  }

  /**
   The optimistic lock: a request to queue the job, or to reject its administrator, that read the job
   before any committed change of it changes nothing, however much happened in between.
   */
  lemma StaleReadChangesNothing(s: State, steps: seq<Step>, actor: string)
    requires Run(s, steps).job != s.job
    ensures var now := Run(s, steps);
      && Next(now, QueueExecution(s.job.state, s.job.version, actor)) == now
      && Next(now, RejectActor(s.job.version)) == now
  {
    VersionGrows(s, steps);
  }

  /** Each QUEUED episode is claimed at most once, and a RUNNING job runs the last claimed one. */
  lemma OneClaimPerEpisode(s0: State, steps: seq<Step>, e: nat)
    requires Initial(s0)
    ensures var s := Run(s0, steps);
      && Occurrences(s.claims, e) <= 1
      && (s.job.state.Queued? ==> Occurrences(s.claims, s.episode) == 0)
      && (s.job.state.Running? ==> Occurrences(s.claims, s.episode) == 1)
  {
    InitialInv(s0);
    RunKeepsInv(s0, steps);
    var s := Run(s0, steps);
    IncreasingOccurs(s.claims, e);
    IncreasingOccurs(s.claims, s.episode);
  }

  lemma {:induction false} IncreasingOccurs(log: seq<nat>, e: nat)
    requires forall k, m :: 0 <= k < m < |log| ==> log[k] < log[m]
    ensures Occurrences(log, e) == if e in log then 1 else 0
  {
    if log != [] {
      var rest := log[..|log| - 1];
      IncreasingOccurs(rest, e);
      assert log == rest + [log[|log| - 1]];
    }
  }

  /**
   Completion accounting: when an attempt finishes the job, every row is applied, skipped or ERROR, the
   state is COMPLETED iff no row is ERROR, and the four counts add up to the row total.
   */
  lemma FinishAccounts(s: State, t: Token, dt: nat, fate: Fate)
    requires Inv(s) && s.job.state.Running?
    requires !Next(s, Finish(t, dt, fate)).job.state.Running?
    ensures var s' := Next(s, Finish(t, dt, fate)); var c := s'.job.counts;
      && s'.rows == s.rows && s'.catalog == s.catalog && s'.job.token.None?
      && (s'.job.state.Completed? || s'.job.state.CompletedWithErrors?)
      && (forall i :: 0 <= i < |s.rows| ==> Done(s.rows[i]))
      && (s'.job.state.Completed? <==> forall i :: 0 <= i < |s.rows| ==> Clean(s.rows[i]))
      && c == CountsOf(s.rows) && c.conflict == 0 && c.warning == 0
      && c.created + c.updated + c.skipped + c.error == c.total == |s.rows|
  {
    hide NextRun, NextHandle, NextResolve, NextRollback, LeaseOk, ClaimsOk, CompletionOk, CreatedOnce, Occurrences;
    CountsClean(s.rows);
    if CountAction(s.rows, Error) > 0 { ErrorExists(s.rows); }
  }

  lemma {:induction false} ErrorExists(rows: seq<Row>)
    requires CountAction(rows, Error) > 0
    ensures exists i :: 0 <= i < |rows| && rows[i].action.Error?
  {
    if !rows[|rows| - 1].action.Error? {
      ErrorExists(rows[..|rows| - 1]);
      var i :| 0 <= i < |rows| - 1 && rows[..|rows| - 1][i].action.Error?;
      assert rows[i].action.Error?;
    }
  }

  /** In every reachable COMPLETED state each row is applied or skipped and the stored counts are the rows'. */
  lemma CompletedMeansDone(s0: State, steps: seq<Step>)
    requires Initial(s0) && Run(s0, steps).job.state.Completed?
    ensures var s := Run(s0, steps);
      && (forall i :: 0 <= i < |s.rows| ==> s.rows[i].applied.Some? || s.rows[i].action.SkipUnchanged?)
      && s.job.counts == CountsOf(s.rows)
  {
    InitialInv(s0);
    RunKeepsInv(s0, steps);
    var s := Run(s0, steps);
    forall i | 0 <= i < |s.rows| ensures s.rows[i].applied.Some? || s.rows[i].action.SkipUnchanged? {
      assert Clean(s.rows[i]);
    }
  }

  /** ROLLED_BACK is terminal: no step changes the job, a row or the compensation log any more. */
  lemma {:induction false} RolledBackIsTerminal(s: State, steps: seq<Step>)
    requires Inv(s) && s.job.state.RolledBack?
    ensures var s' := Run(s, steps); s'.job == s.job && s'.rows == s.rows && s'.compensated == s.compensated
    decreases |steps|
  {
    if steps != [] {
      RolledBackStep(s, steps[0]);
      StepInv(s, steps[0]);
      RolledBackIsTerminal(Next(s, steps[0]), steps[1..]);
    }
  }

  lemma RolledBackStep(s: State, step: Step)
    requires Inv(s) && s.job.state.RolledBack?
    ensures var s' := Next(s, step); s'.job == s.job && s'.rows == s.rows && s'.compensated == s.compensated
    ensures !step.OutsideWrite? ==> Next(s, step).catalog == s.catalog
  {
    hide Occurrences, CreatedOnce, EffectsOk, OwnerOk, CountsOf, WorkOn, ResolvedRow, Remember, Rebuild, AppliedDown;
    hide Undo.RollbackSafe, Undo.RollbackRows, CompletionOk;
  }

  lemma {:induction false} AppliedDownSorted(rows: seq<Row>, n: nat)
    requires n <= |rows|
    ensures var log := AppliedDown(rows, n);
      && (forall k :: 0 <= k < |log| ==> log[k] < n)
      && (forall k, m :: 0 <= k < m < |log| ==> log[k] > log[m])
      && (forall i :: 0 <= i < |rows| ==> (i in log <==> i < n && rows[i].applied.Some?))
  {
    if n > 0 { AppliedDownSorted(rows, n - 1); }
  }

  lemma {:induction false} DecreasingOccurs(log: seq<nat>, e: nat)
    requires forall k, m :: 0 <= k < m < |log| ==> log[k] > log[m]
    ensures Occurrences(log, e) == if e in log then 1 else 0
  {
    if log != [] {
      var rest := log[..|log| - 1];
      DecreasingOccurs(rest, e);
      assert log == rest + [log[|log| - 1]];
    }
  }

  /** Over any run, each applied row is compensated at most once, and exactly once iff the job is ROLLED_BACK. */
  lemma CompensatedOnce(s0: State, steps: seq<Step>, i: nat)
    requires Initial(s0)
    ensures var s := Run(s0, steps);
      Occurrences(s.compensated, i) ==
        if s.job.state.RolledBack? && i < |s.rows| && s.rows[i].applied.Some? then 1 else 0
  {
    InitialInv(s0);
    RunKeepsInv(s0, steps);
    var s := Run(s0, steps);
    if s.job.state.RolledBack? {
      AppliedDownSorted(s.rows, |s.rows|);
      DecreasingOccurs(s.compensated, i);
    }
  }

  /**
   Compensation is all or nothing and exclusive: the only step that logs one is a rollback of a completed
   job with no current token; it compensates every applied row, and only if the safety check passes.
   */
  lemma RollbackIsAtomic(s: State, step: Step)
    requires Inv(s) && Next(s, step).compensated != s.compensated
    ensures step.Rollback? && (s.job.state.Completed? || s.job.state.CompletedWithErrors?) && s.job.token.None?
    ensures Undo.RollbackSafe(s.catalog, s.rows)
    ensures Next(s, step).job.state.RolledBack?
    ensures forall i :: 0 <= i < |s.rows| ==> (i in Next(s, step).compensated <==> s.rows[i].applied.Some?)
    ensures Next(s, step).catalog == Undo.RollbackRows(s.catalog, s.rows, |s.rows|)
  {
    hide Occurrences, CreatedOnce, ClaimsOk, OwnerOk, CountsOf, Undo.RollbackSafe, Undo.RollbackRows, Writer.ApplyRow;
    hide NextRun, NextHandle, NextResolve, NextLoad;
    AppliedDownSorted(s.rows, |s.rows|);
    OnlyRollbackCompensates(s, step);
  }

  lemma OnlyRollbackCompensates(s: State, step: Step)
    requires Next(s, step).compensated != s.compensated
    ensures step.Rollback?
  {
    hide Undo.RollbackSafe, Undo.RollbackRows, Writer.ApplyRow;
  }

  /**
   Over every run, with any crashes, retries and outside writes: at most one applied row of a product key
   created its product, and at most one row of an execution key outside forced CREATE_NEW created its SKU.
   */
  lemma CreatedAtMostOnce(s0: State, steps: seq<Step>, i: nat, j: nat)
    requires Initial(s0)
    requires i < |Run(s0, steps).rows| && j < |Run(s0, steps).rows| && i != j
    requires Run(s0, steps).rows[i].applied.Some? && Run(s0, steps).rows[j].applied.Some?
    ensures var a, b := Run(s0, steps).rows[i], Run(s0, steps).rows[j];
      && (a.productKey == b.productKey ==> !(a.applied.value.productCreated && b.applied.value.productCreated))
      && (a.executionKey == b.executionKey && !Forced(a) && !Forced(b)
          ==> !(a.applied.value.variantCreated && b.applied.value.variantCreated))
  {
    InitialInv(s0);
    RunKeepsInv(s0, steps);
  }
}
