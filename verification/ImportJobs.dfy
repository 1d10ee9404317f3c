/** The import job record and the conditional updates that the lease and the service make to it. */
module ImportJobs {
  import opened Wrappers
  import opened ImportRows

  type Token = nat

  datatype JobState =
    Receiving | PreviewReady | Queued | Running | Completed | CompletedWithErrors | Failed | RolledBack

  datatype Counts = Counts(
    total: nat, created: nat, updated: nat, skipped: nat, conflict: nat, warning: nat, error: nat)

  datatype Job = Job(
    state: JobState, token: Option<Token>, leaseUntil: Option<int>, version: nat, actor: string, counts: Counts)

  const LEASE_MS := 120_000

  function CountAction(rows: seq<Row>, action: Action): nat {
    if rows == [] then 0
    else (if rows[|rows| - 1].action == action then 1 else 0) + CountAction(rows[..|rows| - 1], action)
  }

  function CountsOf(rows: seq<Row>): Counts {
    Counts(|rows|, CountAction(rows, Create), CountAction(rows, Update), CountAction(rows, SkipUnchanged),
           CountAction(rows, Conflict), CountAction(rows, Warning), CountAction(rows, Error))
  }

  /** `isCatalogImportResolutionState`. */
  predicate Resolvable(state: JobState) {
    state.PreviewReady? || state.Failed? || state.CompletedWithErrors?
  }

  /** The condition every write of an attempt is fenced by. */
  predicate Owns(job: Job, token: Token, now: int) {
    job.state.Running? && job.token == Some(token) && job.leaseUntil.Some? && job.leaseUntil.value > now
  }

  predicate Claimable(job: Job, actor: string) {
    job.state.Queued? && job.actor == actor
  }

  function ClaimJob(job: Job, token: Token, now: int): Job {
    job.(state := Running, token := Some(token), leaseUntil := Some(now + LEASE_MS), version := job.version + 1)
  }

  /** The renewal that ends a fenced transaction; `now` is the clock at commit. */
  function RenewLease(job: Job, now: int): Job {
    job.(leaseUntil := Some(now + LEASE_MS), version := job.version + 1)
  }

  function ReleaseLease(job: Job): Job {
    job.(token := None, leaseUntil := None, version := job.version + 1)
  }

  predicate LeaseExpired(job: Job, now: int) {
    job.state.Running? && job.token.Some? && job.leaseUntil.Some? && job.leaseUntil.value <= now
  }

  function RecoverJob(job: Job): Job {
    job.(state := Queued, token := None, leaseUntil := None, version := job.version + 1)
  }

  function QueueJob(job: Job, actor: string): Job {
    job.(state := Queued, token := None, leaseUntil := None, actor := actor, version := job.version + 1)
  }

  function FailJob(job: Job): Job {
    ReleaseLease(job.(state := Failed, version := job.version + 1))
  }

  function FinishJob(job: Job, rows: seq<Row>): Job {
    var counts := CountsOf(rows);
    var bad := counts.error + counts.conflict + counts.warning;
    ReleaseLease(job.(state := if bad > 0 then CompletedWithErrors else Completed, counts := counts,
                      version := job.version + 1))
  }
}
