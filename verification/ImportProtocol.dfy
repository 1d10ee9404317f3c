/**
 The execution protocol of one import job: any number of attempts, crashes, lost commit
 acknowledgements, expired leases, recoveries, duplicate deliveries, retries, manual
 resolutions, rollbacks and outside catalog writes, one committed transaction at a time.

 A step that is not enabled leaves the state as it is. Where an attempt or a request acts on
 something it read earlier (a queue delivery, the job version of `queueExecution`), the step
 takes what was read as a parameter, so every interleaving of the read with other steps is covered.
 */
module ImportProtocol {
  import opened Wrappers
  import opened StoreCatalog
  import opened ImportRows
  import opened ImportJobs
  import Writer = CatalogWriter
  import Undo = CatalogRollback

  /** `take: 20_000` of `findRows`, and the most rows a job accepts. */
  const MAX_ROWS := 20_000

  /** Where an attempt is: reading rows, before row `i`, in the catch block for row `i`, or in the outer catch. */
  datatype Pc = Loading | AtRow(i: nat) | Handling(i: nat) | Failing

  /** `leaseFailure`, set by a heartbeat. */
  datatype Fault = NoFault | LeaseLost | OtherFault

  datatype Attempt = Attempt(pc: Pc, local: seq<Row>, maps: KeyMaps, fault: Fault)

  /** `effects` and `compensated` log the row of every committed catalog effect and compensation. */
  datatype State = State(
    job: Job, rows: seq<Row>, catalog: Catalog, now: int, nextToken: Token,
    attempts: map<Token, Attempt>,
    effects: seq<nat>, compensated: seq<nat>, episode: nat, claims: seq<nat>)

  /** How a transaction ends for its caller. */
  datatype Fate = Acked | AckLost | Aborted

  datatype ResolveInput =
    | AsSkip
    | AsApply
    | AsCreateNew(warn: bool, executionKey: string)
    | AsUpdateExisting(variant: Id, before: Snapshot, stockPlanned: bool)

  datatype Step =
    | Tick(dt: nat)
    | Claim(actor: string, fate: Fate)
    | Load(t: Token)
    | LocalError(t: Token)
    | StopOnFault(t: Token)
    | SkipRow(t: Token)
    | RunRow(t: Token, dt: nat, fate: Fate)
    | HandleError(t: Token, dt: nat, fate: Fate)
    | Heartbeat(t: Token, fate: Fate)
    | Finish(t: Token, dt: nat, fate: Fate)
    | Fail(t: Token, fate: Fate)
    | Crash(t: Token)
    | RecoverExpired
    | QueueExecution(readState: JobState, readVersion: nat, actor: string)
    | RejectActor(readVersion: nat)
    | Resolve(i: nat, input: ResolveInput)
    | Rollback
    | OutsideWrite(catalog: Catalog)

  function Gone(s: State, t: Token): State {
    s.(attempts := s.attempts - {t})
  }

  function WithAttempt(s: State, t: Token, a: Attempt): State {
    s.(attempts := s.attempts[t := a])
  }

  /** A fenced transaction's own job write and its renewal, committed `dt` after its check. */
  function Renewed(s: State, dt: nat): State {
    s.(now := s.now + dt, job := RenewLease(s.job.(version := s.job.version + 1), s.now + dt))
  }

  function NextClaim(s: State, actor: string, fate: Fate): State {
    if !Claimable(s.job, actor) || fate.Aborted? then s
    else
      var t := s.nextToken;
      var s1 := s.(job := ClaimJob(s.job, t, s.now), nextToken := t + 1, claims := s.claims + [s.episode]);
      if fate.AckLost? then s1 else WithAttempt(s1, t, Attempt(Loading, [], NO_KEYS, NoFault))
  }

  function ReadRows(rows: seq<Row>): seq<Row> {
    if |rows| <= MAX_ROWS then rows else rows[..MAX_ROWS]
  }

  function NextLoad(s: State, t: Token): State
    requires t in s.attempts
  {
    var local := ReadRows(s.rows);
    if !s.attempts[t].pc.Loading? then s
    else WithAttempt(s, t, s.attempts[t].(pc := AtRow(0), local := local, maps := Rebuild(local, |local|)))
  }

  function NextLocalError(s: State, t: Token): State
    requires t in s.attempts
  {
    if s.attempts[t].pc.Handling? then s else WithAttempt(s, t, s.attempts[t].(pc := Failing))
  }

  function NextStop(s: State, t: Token): State
    requires t in s.attempts
  {
    var a := s.attempts[t];
    if !a.pc.AtRow? || a.fault.NoFault? then s
    else if a.fault.LeaseLost? then Gone(s, t) else WithAttempt(s, t, a.(pc := Failing))
  }

  function NextSkip(s: State, t: Token): State
    requires t in s.attempts
  {
    var a := s.attempts[t];
    if a.pc.AtRow? && a.pc.i < |a.local| && Done(a.local[a.pc.i])
    then WithAttempt(s, t, a.(pc := AtRow(a.pc.i + 1))) else s
  }

  /** The attempt after row `i` was acknowledged as `row`. */
  function Advanced(a: Attempt, i: nat, row: Row): Attempt
    requires i < |a.local|
  {
    a.(pc := AtRow(i + 1), local := a.local[i := row], maps := Remember(a.maps, row))
  }

  /** What the body of the row transaction writes, or that it throws. */
  datatype RowWork = Throws | Keeps | Writes(row: Row, catalog: Catalog)

  function WorkOn(row: Row, catalog: Catalog, maps: KeyMaps): RowWork {
    if Done(row) then Keeps
    else if !row.action.Create? && !row.action.Update? then Throws
    else
      match Writer.ApplyRow(catalog, row, maps)
      case Err(_) => Throws
      case Ok(result) => Writes(result.1, result.0)
  }

  function NextRun(s: State, t: Token, dt: nat, fate: Fate): State
    requires t in s.attempts
  {
    var a := s.attempts[t];
    if !a.pc.AtRow? || a.pc.i >= |a.local| || Done(a.local[a.pc.i]) || a.pc.i >= |s.rows| then s
    else if !Owns(s.job, t, s.now) then Gone(s, t)
    else
      var i := a.pc.i;
      var work := WorkOn(s.rows[i], s.catalog, a.maps);
      if fate.Aborted? || work.Throws? then WithAttempt(s, t, a.(pc := Handling(i)))
      else
        var s1 := if work.Keeps? then s
                  else s.(rows := s.rows[i := work.row], catalog := work.catalog, effects := s.effects + [i]);
        WithAttempt(Renewed(s1, dt), t, if fate.AckLost? then a.(pc := Handling(i)) else Advanced(a, i, s1.rows[i]))
  }

  function NextHandle(s: State, t: Token, dt: nat, fate: Fate): State
    requires t in s.attempts
  {
    var a := s.attempts[t];
    if !a.pc.Handling? || a.pc.i >= |a.local| || a.pc.i >= |s.rows| then s
    else if !Owns(s.job, t, s.now) then Gone(s, t)
    else
      var i := a.pc.i;
      if fate.Aborted? then WithAttempt(s, t, a.(pc := Failing))
      else
        var s1 := if Done(s.rows[i]) then s else s.(rows := s.rows[i := s.rows[i].(action := Error)]);
        WithAttempt(Renewed(s1, dt), t, if fate.AckLost? then a.(pc := Failing) else Advanced(a, i, s1.rows[i]))
  }

  function NextHeartbeat(s: State, t: Token, fate: Fate): State
    requires t in s.attempts
  {
    var a := s.attempts[t];
    if !Owns(s.job, t, s.now) then WithAttempt(s, t, a.(fault := LeaseLost))
    else
      var s1 := if fate.Aborted? then s else s.(job := RenewLease(s.job, s.now));
      if fate.Acked? then s1 else WithAttempt(s1, t, a.(fault := OtherFault))
  }

  function NextFinish(s: State, t: Token, dt: nat, fate: Fate): State
    requires t in s.attempts
  {
    var a := s.attempts[t];
    if !a.pc.AtRow? || a.pc.i != |a.local| then s
    else if !Owns(s.job, t, s.now) then Gone(s, t)
    else if fate.Aborted? then WithAttempt(s, t, a.(pc := Failing))
    else
      var s1 := s.(now := s.now + dt, job := FinishJob(s.job, s.rows));
      if fate.AckLost? then WithAttempt(s1, t, a.(pc := Failing)) else Gone(s1, t)
  }

  function NextFail(s: State, t: Token, fate: Fate): State
    requires t in s.attempts
  {
    if !s.attempts[t].pc.Failing? then s
    else if !Owns(s.job, t, s.now) || fate.Aborted? then Gone(s, t)
    else Gone(s.(job := FailJob(s.job)), t)
  }

  function NextRecover(s: State): State {
    if LeaseExpired(s.job, s.now) then s.(job := RecoverJob(s.job), episode := s.episode + 1) else s
  }

  function NextQueue(s: State, readState: JobState, readVersion: nat, actor: string): State {
    if Resolvable(readState) && s.job.state == readState && s.job.version == readVersion
    then s.(job := QueueJob(s.job, actor), episode := s.episode + 1) else s
  }

  function NextReject(s: State, readVersion: nat): State {
    if s.job.state.Queued? && s.job.version == readVersion
    then s.(job := s.job.(state := Failed, version := s.job.version + 1)) else s
  }

  /** `resolveRow`; None where it throws. */
  function ResolvedRow(c: Catalog, row: Row, input: ResolveInput): Option<Row> {
    if !row.action.Conflict? && !row.action.Warning? && !row.action.Error? then None
    else
      match input
      case AsSkip => Some(row.(action := SkipUnchanged, resolution := Some(ResolvedSkip)))
      case AsApply =>
        if row.action.Conflict? || (row.safeAction != Some(Create) && row.safeAction != Some(Update)) then None
        else Some(row.(action := row.safeAction.value, resolution := Some(ResolvedApply)))
      case AsCreateNew(warn, key) =>
        Some(row.(action := if warn then Warning else Create, resolution := Some(ResolvedCreateNew),
                  executionKey := if row.forceCreateNew then row.executionKey else key,
                  targetVariant := None, expectedVariant := None,
                  safeAction := Some(Create), forceCreateNew := true))
      case AsUpdateExisting(v, before, stockPlanned) =>
        if v !in c.variants || c.variants[v].product !in c.products then None
        else
          var p := c.variants[v].product;
          Some(row.(action := Update, resolution := Some(ResolvedUpdateExisting),
                    targetProduct := Some(p), targetVariant := Some(v),
                    expectedProduct := Some(c.products[p].updatedAt),
                    expectedVariant := Some(c.variants[v].updatedAt), precise := true,
                    before := Some(before), safeAction := None, forceCreateNew := false,
                    data := row.data.(stockPlanned := stockPlanned)))
  }

  function NextResolve(s: State, i: nat, input: ResolveInput): State {
    if !Resolvable(s.job.state) || i >= |s.rows| then s
    else
      match ResolvedRow(s.catalog, s.rows[i], input)
      case None => s
      case Some(row) =>
        var rows := s.rows[i := row];
        s.(rows := rows, job := s.job.(counts := CountsOf(rows), version := s.job.version + 1))
  }

  /** Row numbers of the applied rows among the first `n`, highest first. */
  function AppliedDown(rows: seq<Row>, n: nat): seq<nat>
    requires n <= |rows|
  {
    if n == 0 then [] else (if rows[n - 1].applied.Some? then [n - 1] else []) + AppliedDown(rows, n - 1)
  }

  function NextRollback(s: State): State {
    var rows := ReadRows(s.rows);
    if !s.job.state.Completed? && !s.job.state.CompletedWithErrors? then s
    else if !Undo.RollbackSafe(s.catalog, rows) then s
    else
      s.(catalog := Undo.RollbackRows(s.catalog, rows, |rows|),
         compensated := s.compensated + AppliedDown(rows, |rows|),
         job := s.job.(state := RolledBack, version := s.job.version + 1))
  }

  /** The attempt a step belongs to. */
  function Actor(step: Step): Option<Token> {
    match step
    case Load(t) => Some(t) case LocalError(t) => Some(t) case StopOnFault(t) => Some(t)
    case SkipRow(t) => Some(t) case RunRow(t, _, _) => Some(t) case HandleError(t, _, _) => Some(t)
    case Heartbeat(t, _) => Some(t) case Finish(t, _, _) => Some(t) case Fail(t, _) => Some(t)
    case Crash(t) => Some(t)
    case _ => None
  }

  function Next(s: State, step: Step): State {
    if Actor(step).Some? && Actor(step).value !in s.attempts then s
    else
      match step
      case Tick(dt) => s.(now := s.now + dt)
      case Claim(actor, fate) => NextClaim(s, actor, fate)
      case Load(t) => NextLoad(s, t)
      case LocalError(t) => NextLocalError(s, t)
      case StopOnFault(t) => NextStop(s, t)
      case SkipRow(t) => NextSkip(s, t)
      case RunRow(t, dt, fate) => NextRun(s, t, dt, fate)
      case HandleError(t, dt, fate) => NextHandle(s, t, dt, fate)
      case Heartbeat(t, fate) => NextHeartbeat(s, t, fate)
      case Finish(t, dt, fate) => NextFinish(s, t, dt, fate)
      case Fail(t, fate) => NextFail(s, t, fate)
      case Crash(t) => Gone(s, t)
      case RecoverExpired => NextRecover(s)
      case QueueExecution(readState, readVersion, actor) => NextQueue(s, readState, readVersion, actor)
      case RejectActor(readVersion) => NextReject(s, readVersion)
      case Resolve(i, input) => NextResolve(s, i, input)
      case Rollback => NextRollback(s)
      case OutsideWrite(catalog) => s.(catalog := catalog)
  }

  function Run(s: State, steps: seq<Step>): State
    decreases |steps|
  {
    if steps == [] then s else Run(Next(s, steps[0]), steps[1..])
  }

  /** A previewed job nobody has executed. */
  ghost predicate Initial(s: State) {
    && s.job.state.PreviewReady? && s.job.token.None? && s.job.leaseUntil.None?
    && |s.rows| <= MAX_ROWS
    && (forall i :: 0 <= i < |s.rows| ==> s.rows[i].applied.None?)
    && s.attempts == map[] && s.effects == [] && s.compensated == [] && s.claims == []
  }
}
