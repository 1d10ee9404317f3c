/**
 `CatalogImportQueueService.recoverInterruptedJobs`: one pass of the keyset scan over QUEUED and RUNNING
 jobs, while any other process changes any job between two of its database accesses. `world(t)` is the
 job table at access `t`, `clock(t)` the database clock and `fault(t)` whether that access throws.
 */
module RecoveryScan {
  import opened Wrappers
  import opened ImportJobs

  /** The scan's key: creation time, then id. */
  datatype Ref = Ref(createdAt: int, id: nat)

  predicate Before(a: Ref, b: Ref) {
    a.createdAt < b.createdAt || (a.createdAt == b.createdAt && a.id < b.id)
  }

  ghost predicate Sorted(refs: seq<Ref>) {
    forall i, j :: 0 <= i < j < |refs| ==> Before(refs[i], refs[j])
  }

  predicate Active(jobs: map<Ref, Job>, r: Ref) {
    r in jobs && (jobs[r].state.Queued? || jobs[r].state.Running?)
  }

  /** The WHERE clause of a page: active, at most the captured upper bound, after the cursor. */
  predicate Selected(jobs: map<Ref, Job>, cursor: Option<Ref>, upper: Ref, r: Ref) {
    Active(jobs, r) && !Before(upper, r) && (cursor.Some? ==> Before(cursor.value, r))
  }

  const PAGE := 100

  /** The first `take` selected jobs in key order; `refs` is every job, in that order. */
  function Query(refs: seq<Ref>, jobs: map<Ref, Job>, cursor: Option<Ref>, upper: Ref, take: nat): seq<Ref> {
    if refs == [] || take == 0 then []
    else if Selected(jobs, cursor, upper, refs[0])
    then [refs[0]] + Query(refs[1..], jobs, cursor, upper, take - 1)
    else Query(refs[1..], jobs, cursor, upper, take)
  }

  lemma {:induction false} QueryPage(refs: seq<Ref>, jobs: map<Ref, Job>, cursor: Option<Ref>, upper: Ref, take: nat)
    requires Sorted(refs)
    ensures var page := Query(refs, jobs, cursor, upper, take);
      && |page| <= take && Sorted(page)
      && (forall r :: r in page ==> r in refs && Selected(jobs, cursor, upper, r))
      && (forall r :: r in refs && Selected(jobs, cursor, upper, r) ==>
            r in page || (|page| == take && (take > 0 ==> Before(page[take - 1], r))))
  {
    if refs != [] && take > 0 {
      var more := if Selected(jobs, cursor, upper, refs[0]) then take - 1 else take;
      QueryPage(refs[1..], jobs, cursor, upper, more);
      var rest := Query(refs[1..], jobs, cursor, upper, more);
      assert forall r :: r in rest ==> Before(refs[0], r);
      assert forall r :: r in refs ==> r == refs[0] || r in refs[1..];
    }
  }

  /** How many jobs the cursor has not passed. */
  function CountAfter(refs: seq<Ref>, cursor: Option<Ref>): nat {
    if refs == [] then 0
    else (if cursor.None? || Before(cursor.value, refs[0]) then 1 else 0) + CountAfter(refs[1..], cursor)
  }

  lemma {:induction false} CountDrops(refs: seq<Ref>, cursor: Option<Ref>, next: Ref)
    requires cursor.Some? ==> Before(cursor.value, next)
    ensures CountAfter(refs, Some(next)) <= CountAfter(refs, cursor)
    ensures next in refs ==> CountAfter(refs, Some(next)) < CountAfter(refs, cursor)
  {
    if refs != [] { CountDrops(refs[1..], cursor, next); }
  }

  /** The last active job in key order, the captured upper bound. */
  function LastActive(refs: seq<Ref>, jobs: map<Ref, Job>): Option<Ref> {
    if refs == [] then None
    else if Active(jobs, refs[|refs| - 1]) then Some(refs[|refs| - 1])
    else LastActive(refs[..|refs| - 1], jobs)
  }

  lemma {:induction false} LastActiveBounds(refs: seq<Ref>, jobs: map<Ref, Job>)
    requires Sorted(refs)
    ensures LastActive(refs, jobs).None? ==> forall r :: r in refs ==> !Active(jobs, r)
    ensures LastActive(refs, jobs).Some? ==>
      forall r :: r in refs && Active(jobs, r) ==> !Before(LastActive(refs, jobs).value, r)
  {
    if refs != [] && !Active(jobs, refs[|refs| - 1]) {
      LastActiveBounds(refs[..|refs| - 1], jobs);
      assert forall r :: r in refs ==> r == refs[|refs| - 1] || r in refs[..|refs| - 1];
    }
  }

  /** What one pass did: each job looked at, each re-queued one and each dispatch with its access. */
  datatype Pass = Pass(
    scanned: seq<Ref>, recovered: seq<(Ref, nat)>, dispatched: seq<(Ref, nat)>,
    enqueued: nat, legacy: nat, pending: nat, failed: nat)

  const NOTHING := Pass([], [], [], 0, 0, 0, 0)

  /** Each job scanned adds to at most one of four counters; a dispatch was acknowledged or counts as failed. */
  ghost predicate Counted(p: Pass) {
    && p.enqueued + p.legacy + p.pending + p.failed <= |p.scanned|
    && p.enqueued <= |p.dispatched| <= p.enqueued + p.failed
    && |p.recovered| + p.legacy <= |p.scanned|
  }

  ghost predicate Scans(p: Pass, refs: seq<Ref>, upper: Ref) {
    Sorted(p.scanned) && forall r :: r in p.scanned ==> r in refs && !Before(upper, r)
  }

  /** Every re-queued job had an expired, non-null lease at that very access. */
  ghost predicate OnlyExpired(p: Pass, world: nat -> map<Ref, Job>, clock: nat -> int) {
    forall i :: 0 <= i < |p.recovered| ==>
      var (r, t) := p.recovered[i];
      r in p.scanned && r in world(t) && LeaseExpired(world(t)[r], clock(t))
  }

  /** Dispatches are of distinct scanned jobs, QUEUED when last read and not pending when the pass began. */
  ghost predicate OnlyQueuedOnce(p: Pass, world: nat -> map<Ref, Job>, pending: Option<set<Ref>>) {
    && (forall i :: 0 <= i < |p.dispatched| ==>
          var (r, t) := p.dispatched[i];
          r in p.scanned && pending.Some? && r !in pending.value && r in world(t) && world(t)[r].state.Queued?)
    && (forall i, j :: 0 <= i < j < |p.dispatched| ==> p.dispatched[i].0 != p.dispatched[j].0)
  }

  class CatalogImportQueueService {
    const isWorker: bool
    var recovering: bool

    constructor (isWorker: bool)
      ensures this.isWorker == isWorker && !recovering
    {
      this.isWorker := isWorker;
      recovering := false;
    }

    /** The body of the inner loop for one reference, from access `t` on. */
    static method Consider(r: Ref, world: nat -> map<Ref, Job>, clock: nat -> int, fault: nat -> bool,
                           pending: Option<set<Ref>>, p: Pass, t: nat)
      returns (p': Pass, pending': Option<set<Ref>>, t': nat)
      requires r !in p.scanned && Counted(p)
      ensures t' > t && p'.scanned == p.scanned + [r] && Counted(p')
      ensures p'.recovered == p.recovered
              || (p'.recovered == p.recovered + [(r, t + 1)] && r in world(t + 1)
                && LeaseExpired(world(t + 1)[r], clock(t + 1)))
      ensures (p'.dispatched == p.dispatched && pending' == pending)
              || (p'.dispatched == p.dispatched + [(r, t + 2)] && pending.Some? && r !in pending.value
                  && r in world(t + 2) && world(t + 2)[r].state.Queued?
                  && (pending' == pending || pending' == Some(pending.value + {r})))
    {
      p', pending', t' := p.(scanned := p.scanned + [r]), pending, t + 4;
      if fault(t) { p' := p'.(failed := p'.failed + 1); return; }
      if !Active(world(t), r) { return; }
      if world(t)[r].state.Running? {
        if world(t)[r].token.None? || world(t)[r].leaseUntil.None? { p' := p'.(legacy := p'.legacy + 1); return; }
        if fault(t + 1) { p' := p'.(failed := p'.failed + 1); return; }
        // recoverExpired, in its own transaction.
        if r !in world(t + 1) || !LeaseExpired(world(t + 1)[r], clock(t + 1)) { return; }
        p' := p'.(recovered := p'.recovered + [(r, t + 1)]);
      }
      if pending.None? { return; }
      if r in pending.value { p' := p'.(pending := p'.pending + 1); return; }
      if fault(t + 2) { p' := p'.(failed := p'.failed + 1); return; }
      if r !in world(t + 2) || !world(t + 2)[r].state.Queued? { return; }
      p' := p'.(dispatched := p'.dispatched + [(r, t + 2)]);
      // The queue may have accepted the message although the call failed.
      if fault(t + 3) { p' := p'.(failed := p'.failed + 1); return; }
      pending' := Some(pending.value + {r});
      p' := p'.(enqueued := p'.enqueued + 1);
    }

    /** The inner loop over one page, whose references all lie after those scanned before. */
    static method ScanPage(page: seq<Ref>, world: nat -> map<Ref, Job>, clock: nat -> int, fault: nat -> bool,
                           inspected: Option<set<Ref>>, pending: Option<set<Ref>>, p: Pass, t: nat)
      returns (p': Pass, pending': Option<set<Ref>>, t': nat)
      requires Sorted(p.scanned + page)
      requires OnlyExpired(p, world, clock) && OnlyQueuedOnce(p, world, inspected) && Counted(p)
      requires pending.Some? ==> inspected.Some? && inspected.value <= pending.value
      ensures p'.scanned == p.scanned + page && t' >= t
      ensures OnlyExpired(p', world, clock) && OnlyQueuedOnce(p', world, inspected) && Counted(p')
      ensures pending'.Some? ==> inspected.Some? && inspected.value <= pending'.value
    {
      p', pending', t' := p, pending, t;
      for i := 0 to |page|
        invariant t' >= t && p'.scanned == p.scanned + page[..i]
        invariant OnlyExpired(p', world, clock) && OnlyQueuedOnce(p', world, inspected) && Counted(p')
        invariant pending'.Some? ==> inspected.Some? && inspected.value <= pending'.value
      {
        NotYetScanned(p.scanned, page, i);
        ghost var q, pend := p', pending';
        p', pending', t' := Consider(page[i], world, clock, fault, pending', p', t');
        assert page[..i + 1] == page[..i] + [page[i]];
        assert p'.scanned[|q.scanned|] == page[i];
        assert forall r :: r in q.scanned ==> r in p'.scanned;
        forall k | 0 <= k < |p'.dispatched|
          ensures var (r, u) := p'.dispatched[k];
            r in p'.scanned && inspected.Some? && r !in inspected.value && r in world(u) && world(u)[r].state.Queued?
        {
          if k == |q.dispatched| {
            assert p'.dispatched[k].0 == page[i] && page[i] !in pend.value;
          } else {
            var (r, u) := q.dispatched[k];
            assert p'.dispatched[k] == (r, u) && r in world(u);
          }
        }
      }
      assert page[..|page|] == page;
    }

    /**
     One pass. It ends whatever the other processes do, looks at each job up to the upper bound at most
     once, re-queues only jobs whose lease has run out and dispatches each at most once, also when a query
     of a page throws; if none does, it looks at each job that stays active exactly once.
     */
    method RecoverInterruptedJobs(refs: seq<Ref>, world: nat -> map<Ref, Job>, clock: nat -> int, fault: nat -> bool,
                                  inspected: Option<set<Ref>>) returns (p: Pass, thrown: bool)
      requires Sorted(refs)
      modifies this`recovering
      ensures recovering == old(recovering)
      ensures old(recovering) || !isWorker ==> p == NOTHING && !thrown
      ensures thrown ==> exists t: nat :: fault(t)
      ensures Sorted(p.scanned) && forall r :: r in p.scanned ==> r in refs
      ensures !old(recovering) && isWorker && !thrown ==>
        forall r :: r in refs && StaysActive(world, r) ==> r in p.scanned
      ensures OnlyExpired(p, world, clock)
      ensures OnlyQueuedOnce(p, world, inspected)
      ensures Counted(p)
    {
      p, thrown := NOTHING, false;
      if !isWorker || recovering { return; }
      recovering := true;
      if fault(0) { recovering := false; return NOTHING, true; }
      var last := LastActive(refs, world(0));
      LastActiveBounds(refs, world(0));
      if last.None? { recovering := false; return; }
      var upper := last.value;
      var pending := inspected;
      var cursor: Option<Ref> := None;
      var t := 1;
      while true
        invariant t >= 1 && recovering
        invariant Scans(p, refs, upper) && OnlyExpired(p, world, clock) && OnlyQueuedOnce(p, world, inspected)
        invariant Counted(p) && !thrown
        invariant pending.Some? ==> inspected.Some? && inspected.value <= pending.value
        invariant Passed(p.scanned, refs, world, cursor)
        decreases CountAfter(refs, cursor)
      {
        if fault(t) { recovering := false; return p, true; }
        var page := Query(refs, world(t), cursor, upper, PAGE);
        QueryPage(refs, world(t), cursor, upper, PAGE);
        ghost var t0 := t;
        t := t + 1;
        if page == [] {
          break;
        }
        assert page[|page| - 1] in page;
        CountDrops(refs, cursor, page[|page| - 1]);
        PageFollows(p.scanned, refs, world, cursor, upper, page, t0);
        cursor := Some(page[|page| - 1]);
        p, pending, t := ScanPage(page, world, clock, fault, inspected, pending, p, t);
      }
      recovering := false;
    }
  }

  /** Everything scanned is at most the cursor, and whatever stays active up to the cursor was scanned. */
  ghost predicate Passed(scanned: seq<Ref>, refs: seq<Ref>, world: nat -> map<Ref, Job>, cursor: Option<Ref>) {
    && (cursor.None? ==> scanned == [])
    && (cursor.Some? ==> forall r :: r in scanned ==> !Before(cursor.value, r))
    && (cursor.Some? ==> forall r :: r in refs && StaysActive(world, r) && !Before(cursor.value, r) ==> r in scanned)
  }

  ghost predicate StaysActive(world: nat -> map<Ref, Job>, r: Ref) {
    forall t: nat :: Active(world(t), r)
  }

  lemma NotYetScanned(scanned: seq<Ref>, page: seq<Ref>, i: nat)
    requires Sorted(scanned + page) && i < |page|
    ensures page[i] !in scanned + page[..i]
  {
    var all := scanned + page;
    forall k | 0 <= k < |scanned| + i ensures (scanned + page[..i])[k] != page[i] {
      assert (scanned + page[..i])[k] == all[k] && page[i] == all[|scanned| + i];
    }
  }

  lemma PageFollows(scanned: seq<Ref>, refs: seq<Ref>, world: nat -> map<Ref, Job>, cursor: Option<Ref>,
                    upper: Ref, page: seq<Ref>, t: nat)
    requires Sorted(refs) && Sorted(scanned) && Passed(scanned, refs, world, cursor)
    requires page == Query(refs, world(t), cursor, upper, PAGE) && page != []
    ensures Sorted(scanned + page)
    ensures Passed(scanned + page, refs, world, Some(page[|page| - 1]))
  {
    QueryPage(refs, world(t), cursor, upper, PAGE);
    var last := page[|page| - 1];
    assert last in page;
    var all := scanned + page;
    forall i, j | 0 <= i < j < |all| ensures Before(all[i], all[j]) {
      if i < |scanned| <= j {
        assert all[i] in scanned && all[j] in page;
      }
    }
    forall r | r in all ensures !Before(last, r) {
      var k :| 0 <= k < |all| && all[k] == r;
      assert all[|all| - 1] == last;
    }
    forall r | r in refs && StaysActive(world, r) && !Before(last, r) ensures r in all {
      assert Active(world(t), r);
      if cursor.None? || Before(cursor.value, r) {
        assert Selected(world(t), cursor, upper, r);
      }
    }
  }
}
