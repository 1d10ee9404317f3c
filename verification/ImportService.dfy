/**
 `CatalogImportLease` and the service methods built on it, as methods that update one stored job, its
 rows and the catalog. Each method is one or more transactions run alone; `ImportProtocol` interleaves
 the same transactions.
 */
module ImportService {
  import opened Wrappers
  import opened StoreCatalog
  import opened ImportRows
  import opened ImportJobs
  import opened ImportProtocol
  import opened CrashTransparency
  import Undo = CatalogRollback

  /** `CatalogImportLeaseLostError`, and every other error a transaction throws. */
  datatype Failure = LeaseIsLost | Thrown

  class ImportStore {
    var job: Job
    var rows: seq<Row>
    var catalog: Catalog
    var now: int
    var nextToken: Token

    constructor (job: Job, rows: seq<Row>, catalog: Catalog, now: int, nextToken: Token)
      ensures this.job == job && this.rows == rows && this.catalog == catalog
      ensures this.now == now && this.nextToken == nextToken
    {
      this.job, this.rows, this.catalog, this.now, this.nextToken := job, rows, catalog, now, nextToken;
    }

    /** `claim`: a fresh token for a QUEUED job of the same administrator. */
    method Claim(actor: string) returns (r: Result<Option<Token>, Failure>)
      modifies this`job, this`nextToken
      ensures r == if !old(job.state).Queued? then Ok(None)
                   else if old(job.actor) != actor then Err(LeaseIsLost) else Ok(Some(old(nextToken)))
      ensures r.Ok? && r.value.Some? ==>
        job == ClaimJob(old(job), old(nextToken), now) && nextToken == old(nextToken) + 1
          && Owns(job, r.value.value, now)
      ensures !(r.Ok? && r.value.Some?) ==> job == old(job) && nextToken == old(nextToken)
    {
      if !job.state.Queued? { return Ok(None); }
      if job.actor != actor { return Err(LeaseIsLost); }
      var token := nextToken;
      nextToken := nextToken + 1;
      job := job.(state := Running, token := Some(token), leaseUntil := Some(now + LEASE_MS),
                  version := job.version + 1);
      r := Ok(Some(token));
    }

    /** `recoverExpired`: re-queues a RUNNING job exactly when its lease has run out. */
    method RecoverExpired() returns (recovered: bool)
      modifies this`job
      ensures recovered <==> LeaseExpired(old(job), now)
      ensures job == if recovered then RecoverJob(old(job)) else old(job)
    {
      if !job.state.Running? || job.token.None? || job.leaseUntil.None? || job.leaseUntil.value > now {
        return false;
      }
      job := job.(state := Queued, token := None, leaseUntil := None, version := job.version + 1);
      recovered := true;
    }

    /** The row transaction: `owned` around a fresh read of row `i` and `applyRow`. */
    method RunRowTransaction(i: nat, token: Token, maps: KeyMaps) returns (r: Result<Row, Failure>)
      requires i < |rows|
      modifies this`job, this`rows, this`catalog
      ensures !Owns(old(job), token, now) ==> r == Err(LeaseIsLost)
      ensures var work := WorkOn(old(rows)[i], old(catalog), maps);
        Owns(old(job), token, now) ==>
          match work
          case Throws => r == Err(Thrown)
          case Keeps => r == Ok(old(rows)[i]) && rows == old(rows) && catalog == old(catalog)
          case Writes(row, c) => r == Ok(row) && rows == old(rows)[i := row] && catalog == c
      ensures r.Err? ==> job == old(job) && rows == old(rows) && catalog == old(catalog)
      ensures r.Ok? ==> job == RenewLease(old(job).(version := old(job).version + 1), now)
    {
      if !Owns(job, token, now) { return Err(LeaseIsLost); }
      var row := rows[i];
      if !Done(row) {
        if !row.action.Create? && !row.action.Update? { return Err(Thrown); }
        var applied := Writer.ApplyRow(catalog, row, maps);
        if applied.Err? { return Err(Thrown); }
        row := applied.value.1;
        rows, catalog := rows[i := row], applied.value.0;
      }
      job := job.(version := job.version + 1);
      job := RenewLease(job, now);
      r := Ok(row);
    }

    /** The catch block: re-reads the row under the same fence and marks it ERROR unless it is done. */
    method MarkRowError(i: nat, token: Token) returns (r: Result<Row, Failure>)
      requires i < |rows|
      modifies this`job, this`rows
      ensures !Owns(old(job), token, now) ==> r == Err(LeaseIsLost) && job == old(job) && rows == old(rows)
      ensures Owns(old(job), token, now) ==>
        var row := if Done(old(rows)[i]) then old(rows)[i] else old(rows)[i].(action := Error);
        r == Ok(row) && rows == old(rows)[i := row]
        && job == RenewLease(old(job).(version := old(job).version + 1), now)
    {
      if !Owns(job, token, now) { return Err(LeaseIsLost); }
      var row := rows[i];
      if !Done(row) { row := row.(action := Error); }
      rows := rows[i := row];
      job := job.(version := job.version + 1);
      job := RenewLease(job, now);
      r := Ok(row);
    }

    /** The finishing transaction: recounts every stored row and releases the lease. */
    method FinishTransaction(token: Token) returns (r: Result<(), Failure>)
      modifies this`job
      ensures Owns(old(job), token, now) ==> r.Ok? && job == FinishJob(old(job), rows)
      ensures !Owns(old(job), token, now) ==> r == Err(LeaseIsLost) && job == old(job)
    {
      if !Owns(job, token, now) { return Err(LeaseIsLost); }
      var counts := Counts(|rows|, 0, 0, 0, 0, 0, 0);
      for i := 0 to |rows|
        invariant counts.total == |rows| && counts.(total := i) == CountsOf(rows[..i])
      {
        assert rows[..i + 1][..i] == rows[..i];
        match rows[i].action
        case Create => counts := counts.(created := counts.created + 1);
        case Update => counts := counts.(updated := counts.updated + 1);
        case SkipUnchanged => counts := counts.(skipped := counts.skipped + 1);
        case Conflict => counts := counts.(conflict := counts.conflict + 1);
        case Warning => counts := counts.(warning := counts.warning + 1);
        case Error => counts := counts.(error := counts.error + 1);
        case Pending =>
      }
      assert rows[..|rows|] == rows;
      var bad := counts.error + counts.conflict + counts.warning;
      job := job.(state := if bad > 0 then CompletedWithErrors else Completed, counts := counts,
                  version := job.version + 1);
      job := ReleaseLease(job);
      r := Ok(());
    }

    /** `executeJob` with nothing else running: the whole job is executed in row order and finished. */
    method ExecuteJob(actor: string) returns (r: Result<bool, Failure>)
      requires |rows| <= MAX_ROWS
      modifies this`job, this`rows, this`catalog, this`nextToken
      ensures !old(job.state).Queued? ==> r == Ok(false)
      ensures old(job.state).Queued? && old(job.actor) != actor ==> r == Err(LeaseIsLost)
      ensures r == Ok(false) || r.Err? ==> job == old(job) && rows == old(rows) && catalog == old(catalog)
      ensures Claimable(old(job), actor) ==>
        var e := Sequential(old(rows), old(catalog), |old(rows)|);
        r == Ok(true) && rows == e.rows && catalog == e.catalog
        && job.counts == CountsOf(rows) && job.token.None? && job.leaseUntil.None?
        && job.state == if job.counts.error + job.counts.conflict + job.counts.warning > 0
                        then CompletedWithErrors else Completed
    {
      var claimed := Claim(actor);
      if claimed.Err? { return Err(claimed.error); }
      if claimed.value.None? { return Ok(false); }
      var token := claimed.value.value;
      var local := rows;
      var maps := NO_KEYS;
      for i := 0 to |local|
        invariant maps == Rebuild(local, i)
      {
        maps := Remember(maps, local[i]);
      }
      ghost var rows0, catalog0 := rows, catalog;
      for i := 0 to |local|
        invariant |local| == |rows0| && local == rows && Owns(job, token, now)
        invariant var e := Sequential(rows0, catalog0, i); rows == e.rows && catalog == e.catalog && maps == e.maps
      {
        if Done(local[i]) { continue; }
        var committed := RunRowTransaction(i, token, maps);
        if committed.Err? {
          committed := MarkRowError(i, token);
        }
        local := local[i := committed.value];
        maps := Remember(maps, committed.value);
      }
      var finished := FinishTransaction(token);
      r := Ok(true);
    }

    /** `queueExecution`: refuses while a row is unresolved, then queues for the asking administrator. */
    method QueueExecution(actor: string) returns (queued: bool)
      modifies this`job
      ensures queued <==> (
        && Resolvable(old(job.state))
        && forall i :: 0 <= i < |rows| ==>
          !rows[i].action.Conflict? && !rows[i].action.Warning? && !rows[i].action.Error?)
      ensures job == if queued then QueueJob(old(job), actor) else old(job)
    {
      if !Resolvable(job.state) { return false; }
      var unresolved := 0;
      for i := 0 to |rows|
        invariant unresolved >= 0
        invariant unresolved == 0 <==>
          forall k :: 0 <= k < i ==> !rows[k].action.Conflict? && !rows[k].action.Warning? && !rows[k].action.Error?
      {
        if rows[i].action.Conflict? || rows[i].action.Warning? || rows[i].action.Error? {
          unresolved := unresolved + 1;
        }
      }
      if unresolved > 0 { return false; }
      job := QueueJob(job, actor);
      queued := true;
    }

    /** `assertRollbackSafe`: the numbers of the rows whose product or SKU changed since. */
    method AssertRollbackSafe() returns (conflicts: set<nat>)
      ensures conflicts == set i: nat | i < |rows| && Undo.Conflicts(catalog, rows, i)
      ensures conflicts == {} <==> Undo.RollbackSafe(catalog, rows)
    {
      hide Undo.ProductUntouched, Undo.VariantUntouched, Undo.LatestRows;
      Undo.NothingFound(rows);
      var latestProduct: map<Id, nat> := map[];
      var latestVariant: map<Id, nat> := map[];
      var n := |rows|;
      while n > 0
        invariant 0 <= n <= |rows|
        invariant Undo.LatestRows(rows, n, latestProduct, latestVariant)
      {
        n := n - 1;
        var row := rows[n];
        Undo.LatestStep(rows, n, latestProduct, latestVariant);
        if row.applied.Some? {
          if row.targetProduct.Some? && row.targetProduct.value !in latestProduct {
            latestProduct := latestProduct[row.targetProduct.value := n];
          }
          if row.targetVariant.Some? && row.targetVariant.value !in latestVariant {
            latestVariant := latestVariant[row.targetVariant.value := n];
          }
        }
      }
      Undo.ConflictsFound(catalog, rows, latestProduct, latestVariant);
      conflicts :=
        (set p | p in latestProduct && !Undo.ProductUntouched(catalog, rows[latestProduct[p]]) :: latestProduct[p]) +
        (set v | v in latestVariant && !Undo.VariantUntouched(catalog, rows[latestVariant[v]]) :: latestVariant[v]);
      Undo.SafeIffNoConflict(catalog, rows, conflicts);
    }

    /** `rollback`: one transaction that compensates every applied row, or throws and changes nothing. */
    method Rollback() returns (r: Result<(), Failure>)
      requires |rows| <= MAX_ROWS
      modifies this`job, this`catalog
      ensures old(job.state).RolledBack? ==> r.Ok? && job == old(job) && catalog == old(catalog)
      ensures !old(job.state).RolledBack? ==>
        (r.Ok? <==>
          (old(job.state).Completed? || old(job.state).CompletedWithErrors?) && Undo.RollbackSafe(old(catalog), rows))
      ensures r.Ok? && !old(job.state).RolledBack? ==>
        && catalog == Undo.RollbackRows(old(catalog), rows, |rows|)
        && job == old(job).(state := RolledBack, version := old(job).version + 1)
      ensures r.Err? ==> job == old(job) && catalog == old(catalog)
    {
      hide Undo.RollbackSafe, Undo.Conflicts, Undo.RollbackRow, Undo.LatestOnProduct, Undo.LatestOnVariant;
      hide Undo.ProductUntouched, Undo.VariantUntouched;
      if job.state.RolledBack? { return Ok(()); }
      if !job.state.Completed? && !job.state.CompletedWithErrors? { return Err(Thrown); }
      var conflicts := AssertRollbackSafe();
      if conflicts != {} { return Err(Thrown); }
      var n := |rows|;
      while n > 0
        invariant 0 <= n <= |rows|
        invariant job == old(job)
        invariant Undo.RollbackRows(catalog, rows, n) == Undo.RollbackRows(old(catalog), rows, |rows|)
      {
        n := n - 1;
        if rows[n].applied.Some? { catalog := Undo.RollbackRow(catalog, rows[n]); }
      }
      job := job.(state := RolledBack, version := job.version + 1);
      r := Ok(());
    }
  }
}
