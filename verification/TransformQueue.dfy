/**
 `ImageTransformQueue`: a semaphore with hand-off, a bounded waiting list with timeouts, and one shared
 promise per key. Every callback the event loop runs is one step; a promise is named by its position in
 `entries`, the order in which `run` created it.
 */
module TransformQueue {
  import opened Wrappers

  datatype Outcome = Image(bytes: seq<int>) | LoadFailed | Busy

  /** Life of one `execute` call; `Settled` promises are still in `pending` until their deferred delete. */
  datatype Phase =
    | Waiting | Granted | Loading | Rejecting
    | Settled(outcome: Outcome) | Forgotten(outcome: Outcome)

  datatype Entry = Entry(key: string, phase: Phase)

  datatype Queue = Queue(
    concurrency: nat, capacity: nat, active: nat,
    pending: map<string, nat>, waiting: seq<nat>, entries: seq<Entry>)

  datatype Event =
    | Run(key: string)
    | BeginLoad(p: nat)
    | LoadSettles(p: nat, outcome: Outcome)
    | TimerFires(p: nat)
    | RejectionSettles(p: nat)
    | DeferredDelete(p: nat)

  predicate IsAt(q: Queue, p: nat, phase: Phase) {
    p < |q.entries| && q.entries[p].phase == phase
  }

  function Moved(q: Queue, p: nat, phase: Phase): Queue
    requires p < |q.entries|
  {
    q.(entries := q.entries[p := q.entries[p].(phase := phase)])
  }

  /** `run`: the promise it returns, or None for a rejection on the spot. */
  function RunResult(q: Queue, key: string): Option<nat> {
    if key in q.pending then Some(q.pending[key])
    else if q.active >= q.concurrency && |q.waiting| >= q.capacity then None
    else Some(|q.entries|)
  }

  function AfterRun(q: Queue, key: string): Queue {
    var p := |q.entries|;
    if key in q.pending || RunResult(q, key).None? then q
    else if q.active < q.concurrency then
      q.(active := q.active + 1, entries := q.entries + [Entry(key, Granted)], pending := q.pending[key := p])
    else
      q.(waiting := q.waiting + [p], entries := q.entries + [Entry(key, Waiting)], pending := q.pending[key := p])
  }

  /** The `release` closure: hand the slot to the first waiter, or give it back. */
  function Released(q: Queue): Queue
    requires q.active > 0 && (q.waiting != [] ==> q.waiting[0] < |q.entries|)
  {
    if q.waiting == [] then q.(active := q.active - 1)
    else Moved(q.(waiting := q.waiting[1..]), q.waiting[0], Granted)
  }

  function Without(s: seq<nat>, p: nat): seq<nat> {
    if s == [] then [] else if s[0] == p then s[1..] else [s[0]] + Without(s[1..], p)
  }

  function Next(q: Queue, e: Event): Queue
    requires Inv(q)
  {
    match e
    case Run(key) => AfterRun(q, key)
    case BeginLoad(p) => if IsAt(q, p, Granted) then Moved(q, p, Loading) else q
    case LoadSettles(p, outcome) =>
      if IsAt(q, p, Loading) && !outcome.Busy? then HeldPositive(q, p); Released(Moved(q, p, Settled(outcome))) else q
    case TimerFires(p) =>
      if IsAt(q, p, Waiting) then Moved(q.(waiting := Without(q.waiting, p)), p, Rejecting) else q
    case RejectionSettles(p) => if IsAt(q, p, Rejecting) then Moved(q, p, Settled(Busy)) else q
    case DeferredDelete(p) =>
      if p < |q.entries| && q.entries[p].phase.Settled?
      then Moved(q.(pending := q.pending - {q.entries[p].key}), p, Forgotten(q.entries[p].phase.outcome)) else q
  }

  predicate Holds(e: Entry) {
    e.phase.Granted? || e.phase.Loading?
  }

  /** Slots granted and not yet released. */
  function Held(entries: seq<Entry>): nat {
    if entries == [] then 0 else (if Holds(entries[|entries| - 1]) then 1 else 0) + Held(entries[..|entries| - 1])
  }

  ghost predicate SlotsOk(q: Queue) {
    && q.active == Held(q.entries) <= q.concurrency
    && |q.waiting| <= q.capacity
    && (q.waiting != [] ==> q.active == q.concurrency)
  }

  ghost predicate WaitersOk(q: Queue) {
    && (forall i, j :: 0 <= i < j < |q.waiting| ==> q.waiting[i] < q.waiting[j])
    && (forall i :: 0 <= i < |q.waiting| ==> q.waiting[i] < |q.entries| && q.entries[q.waiting[i]].phase.Waiting?)
    && (forall p :: 0 <= p < |q.entries| && q.entries[p].phase.Waiting? ==> p in q.waiting)
  }

  ghost predicate PendingOk(q: Queue) {
    && (forall key :: key in q.pending ==>
          q.pending[key] < |q.entries| && q.entries[q.pending[key]].key == key
          && !q.entries[q.pending[key]].phase.Forgotten?)
    && (forall p :: 0 <= p < |q.entries| && !q.entries[p].phase.Forgotten? ==>
          q.entries[p].key in q.pending && q.pending[q.entries[p].key] == p)
  }

  ghost predicate Inv(q: Queue) {
    SlotsOk(q) && WaitersOk(q) && PendingOk(q)
  }

  lemma {:induction false} HeldUpdate(entries: seq<Entry>, p: nat, e: Entry)
    requires p < |entries|
    ensures Held(entries[p := e]) == Held(entries) - (if Holds(entries[p]) then 1 else 0) + (if Holds(e) then 1 else 0)
    ensures Holds(entries[p]) ==> Held(entries) > 0
  {
    var n := |entries| - 1;
    if p < n {
      HeldUpdate(entries[..n], p, e);
      assert entries[p := e][..n] == entries[..n][p := e];
    } else {
      assert entries[p := e][..n] == entries[..n];
    }
  }

  lemma HeldPositive(q: Queue, p: nat)
    requires Inv(q) && IsAt(q, p, Loading)
    ensures q.active > 0
  {
    HeldUpdate(q.entries, p, q.entries[p]);
  }

  lemma {:induction false} WithoutDrops(s: seq<nat>, p: nat)
    requires forall i, j :: 0 <= i < j < |s| ==> s[i] < s[j]
    ensures var w := Without(s, p);
      && (forall i, j :: 0 <= i < j < |w| ==> w[i] < w[j])
      && (forall x :: x in w <==> x in s && x != p) && |w| <= |s|
  {
    if s != [] {
      var rest := s[1..];
      assert s == [s[0]] + rest;
      forall k | 0 <= k < |rest| ensures rest[k] == s[k + 1] && s[0] < rest[k] {}
      if s[0] != p {
        WithoutDrops(rest, p);
        var less := Without(rest, p);
        assert Without(s, p) == [s[0]] + less;
        forall k | 0 <= k < |less| ensures s[0] < less[k] { assert less[k] in rest; }
      }
    }
  }

  lemma HeldMore(entries: seq<Entry>, e: Entry)
    ensures Held(entries + [e]) == Held(entries) + if Holds(e) then 1 else 0
  {
    assert (entries + [e])[..|entries|] == entries;
  }

  lemma RunKeepsSlots(q: Queue, key: string)
    requires Inv(q)
    ensures SlotsOk(AfterRun(q, key))
  {
    hide Held, WaitersOk, PendingOk;
    HeldMore(q.entries, Entry(key, Granted));
    HeldMore(q.entries, Entry(key, Waiting));
  }

  lemma RunKeepsWaiters(q: Queue, key: string)
    requires WaitersOk(q)
    ensures WaitersOk(AfterRun(q, key))
  {
  }

  lemma RunKeepsPending(q: Queue, key: string)
    requires PendingOk(q)
    ensures PendingOk(AfterRun(q, key))
  {
  }

  lemma RunKeepsInv(q: Queue, key: string)
    requires Inv(q)
    ensures Inv(AfterRun(q, key))
  {
    hide AfterRun, SlotsOk, WaitersOk, PendingOk;
    RunKeepsSlots(q, key);
    RunKeepsWaiters(q, key);
    RunKeepsPending(q, key);
  }

  /** Entry `p`, which does not wait before or after, changes phase. */
  lemma MovedKeepsRest(q: Queue, p: nat, phase: Phase)
    requires WaitersOk(q) && PendingOk(q) && p < |q.entries|
    requires !q.entries[p].phase.Waiting? && !phase.Waiting? && !phase.Forgotten? && !q.entries[p].phase.Forgotten?
    ensures WaitersOk(Moved(q, p, phase)) && PendingOk(Moved(q, p, phase))
    ensures Held(Moved(q, p, phase).entries)
            == Held(q.entries) - (if Holds(q.entries[p]) then 1 else 0) + (if Holds(Entry("", phase)) then 1 else 0)
  {
    HeldUpdate(q.entries, p, q.entries[p].(phase := phase));
  }

  /** Waiter `p` leaves the list `q.waiting` for `waiting` and changes phase. */
  lemma LeavesList(q: Queue, p: nat, waiting: seq<nat>, phase: Phase)
    requires WaitersOk(q) && PendingOk(q) && p in q.waiting && !phase.Waiting? && !phase.Forgotten?
    requires forall i, j :: 0 <= i < j < |waiting| ==> waiting[i] < waiting[j]
    requires forall x :: x in waiting <==> x in q.waiting && x != p
    ensures p < |q.entries| && q.entries[p].phase.Waiting?
    ensures var q' := Moved(q.(waiting := waiting), p, phase);
      WaitersOk(q') && PendingOk(q') && Held(q'.entries) == Held(q.entries) + (if Holds(Entry("", phase)) then 1 else 0)
  {
    hide Held;
    var k :| 0 <= k < |q.waiting| && q.waiting[k] == p;
    HeldUpdate(q.entries, p, q.entries[p].(phase := phase));
    forall i | 0 <= i < |waiting|
      ensures waiting[i] < |q.entries| && q.entries[waiting[i]].phase.Waiting? && waiting[i] != p
    {
      assert waiting[i] in waiting;
      var m :| 0 <= m < |q.waiting| && q.waiting[m] == waiting[i];
    }
  }

  /** A released slot is handed over or given back. */
  lemma ReleaseRestores(q: Queue)
    requires WaitersOk(q) && PendingOk(q) && |q.waiting| <= q.capacity
    requires q.active == Held(q.entries) + 1 <= q.concurrency && (q.waiting != [] ==> q.active == q.concurrency)
    ensures Inv(Released(q))
  {
    hide Held, PendingOk;
    if q.waiting != [] {
      TailDrops(q.waiting);
      LeavesList(q, q.waiting[0], q.waiting[1..], Granted);
    } else {
      SamePending(q, q.active - 1);
    }
  }

  lemma SamePending(q: Queue, active: nat)
    requires PendingOk(q)
    ensures PendingOk(q.(active := active))
  {
  }

  lemma SettleKeepsInv(q: Queue, p: nat, outcome: Outcome)
    requires Inv(q) && IsAt(q, p, Loading)
    ensures Inv(Next(q, LoadSettles(p, outcome)))
  {
    hide Held, PendingOk, WaitersOk, Released, AfterRun, Without;
    if !outcome.Busy? {
      HeldPositive(q, p);
      MovedKeepsRest(q, p, Settled(outcome));
      SlotStillHeld(q, p, outcome);
      hide Next, Inv;
      ReleaseRestores(Moved(q, p, Settled(outcome)));
    }
  }

  lemma SlotStillHeld(q: Queue, p: nat, outcome: Outcome)
    requires Inv(q) && IsAt(q, p, Loading) && !outcome.Busy?
    ensures var moved := Moved(q, p, Settled(outcome));
      && q.active > 0 && |moved.waiting| <= moved.capacity
      && moved.active == Held(moved.entries) + 1 <= moved.concurrency
      && (moved.waiting != [] ==> moved.active == moved.concurrency)
      && WaitersOk(moved) && PendingOk(moved)
      && Next(q, LoadSettles(p, outcome)) == Released(moved)
  {
    hide Held, PendingOk, WaitersOk, Released, AfterRun, Without;
    HeldPositive(q, p);
    MovedKeepsRest(q, p, Settled(outcome));
    WaitersListed(Moved(q, p, Settled(outcome)));
  }

  lemma WaitersListed(q: Queue)
    requires WaitersOk(q)
    ensures q.waiting != [] ==> q.waiting[0] < |q.entries|
  {
  }

  lemma TailDrops(s: seq<nat>)
    requires s != [] && forall i, j :: 0 <= i < j < |s| ==> s[i] < s[j]
    ensures s[0] in s
    ensures forall x :: x in s[1..] <==> x in s && x != s[0]
  {
  }

  lemma TailOfWaiting(q: Queue, p: nat)
    requires WaitersOk(q) && IsAt(q, p, Waiting)
    ensures p in q.waiting
  {
  }

  lemma TimerKeepsInv(q: Queue, p: nat)
    requires Inv(q) && IsAt(q, p, Waiting)
    ensures Inv(Next(q, TimerFires(p)))
  {
    hide PendingOk, Held;
    WithoutDrops(q.waiting, p);
    TailOfWaiting(q, p);
    LeavesList(q, p, Without(q.waiting, p), Rejecting);
  }

  lemma DeleteKeepsInv(q: Queue, p: nat)
    requires Inv(q) && p < |q.entries| && q.entries[p].phase.Settled?
    ensures Inv(Next(q, DeferredDelete(p)))
  {
    HeldUpdate(q.entries, p, q.entries[p].(phase := Forgotten(q.entries[p].phase.outcome)));
  }

  lemma NextKeepsInv(q: Queue, e: Event)
    requires Inv(q)
    ensures Inv(Next(q, e))
  {
    match e
    case Run(key) => RunKeepsInv(q, key);
    case LoadSettles(p, outcome) => if IsAt(q, p, Loading) { SettleKeepsInv(q, p, outcome); }
    case BeginLoad(p) => if IsAt(q, p, Granted) { MovedKeepsRest(q, p, Loading); }
    case TimerFires(p) => if IsAt(q, p, Waiting) { TimerKeepsInv(q, p); }
    case RejectionSettles(p) => if IsAt(q, p, Rejecting) { MovedKeepsRest(q, p, Settled(Busy)); }
    case DeferredDelete(p) => if p < |q.entries| && q.entries[p].phase.Settled? { DeleteKeepsInv(q, p); }
  }

  function After(q: Queue, events: seq<Event>): Queue
    requires Inv(q)
    decreases |events|
  {
    if events == [] then q else NextKeepsInv(q, events[0]); After(Next(q, events[0]), events[1..])
  }

  function Empty(concurrency: nat, capacity: nat): Queue {
    Queue(concurrency, capacity, 0, map[], [], [])
  }

  lemma {:induction false} AfterKeepsInv(q: Queue, events: seq<Event>)
    requires Inv(q)
    ensures Inv(After(q, events))
    decreases |events|
  {
    if events != [] {
      NextKeepsInv(q, events[0]);
      AfterKeepsInv(Next(q, events[0]), events[1..]);
    }
  }

  /**
   Slot conservation, in every interleaving: `active` is the number of slots granted and not released,
   the limits hold, and nobody waits while a slot is free.
   */
  lemma SlotsConserved(concurrency: nat, capacity: nat, events: seq<Event>)
    ensures var q := After(Empty(concurrency, capacity), events);
      && q.active == Held(q.entries) && q.active <= concurrency && |q.waiting| <= capacity
      && (q.waiting != [] ==> q.active == concurrency)
      && ((forall p :: 0 <= p < |q.entries| ==> !Holds(q.entries[p])) ==> q.active == 0)
  {
    AfterKeepsInv(Empty(concurrency, capacity), events);
    SameLimits(Empty(concurrency, capacity), events);
    var q := After(Empty(concurrency, capacity), events);
    if forall p :: 0 <= p < |q.entries| ==> !Holds(q.entries[p]) { NoneHeld(q.entries); }
  }

  lemma {:induction false} NoneHeld(entries: seq<Entry>)
    requires forall p :: 0 <= p < |entries| ==> !Holds(entries[p])
    ensures Held(entries) == 0
  {
    if entries != [] { NoneHeld(entries[..|entries| - 1]); }
  }

  lemma {:induction false} SameLimits(q: Queue, events: seq<Event>)
    requires Inv(q)
    ensures After(q, events).concurrency == q.concurrency && After(q, events).capacity == q.capacity
    decreases |events|
  {
    if events != [] {
      NextKeepsInv(q, events[0]);
      SameLimits(Next(q, events[0]), events[1..]);
    }
  }

  /** A freed slot goes to the live waiter that came first; with no waiter it is given back. */
  lemma GrantsAreFifo(q: Queue, p: nat, outcome: Outcome)
    requires Inv(q) && IsAt(q, p, Loading) && !outcome.Busy?
    ensures var q' := Next(q, LoadSettles(p, outcome));
      if q.waiting == [] then q'.active == q.active - 1 && q'.waiting == []
      else
        && q'.active == q.active && q'.waiting == q.waiting[1..]
        && IsAt(q, q.waiting[0], Waiting) && IsAt(q', q.waiting[0], Granted)
        && (forall w :: 0 <= w < |q.entries| && q.entries[w].phase.Waiting? ==> q.waiting[0] <= w)
        && (forall w :: 0 <= w < |q.entries| && w != p && w != q.waiting[0] ==> q'.entries[w] == q.entries[w])
  {
    forall w | 0 <= w < |q.entries| && q.waiting != [] && q.entries[w].phase.Waiting? ensures q.waiting[0] <= w {
      var i :| 0 <= i < |q.waiting| && q.waiting[i] == w;
    }
  }

  /** The side of its life an entry is on: 1 once it was granted a slot, 2 once it timed out. */
  function Fate(phase: Phase): nat {
    match phase
    case Waiting => 0
    case Granted => 1
    case Loading => 1
    case Rejecting => 2
    case Settled(o) => if o.Busy? then 2 else 1
    case Forgotten(o) => if o.Busy? then 2 else 1
  }

  ghost predicate Carried(a: Entry, b: Entry) {
    && b.key == a.key
    && (Fate(a.phase) != 0 ==> Fate(b.phase) == Fate(a.phase))
    && (a.phase.Settled? ==> b.phase == a.phase || b.phase == Forgotten(a.phase.outcome))
    && (a.phase.Forgotten? ==> b.phase == a.phase)
  }

  lemma NextCarries(q: Queue, e: Event, p: nat)
    requires Inv(q) && p < |q.entries|
    ensures |q.entries| <= |Next(q, e).entries| && Carried(q.entries[p], Next(q, e).entries[p])
  {
    hide Without, Held, SlotsOk, PendingOk;
    match e
    case LoadSettles(s, outcome) =>
      if IsAt(q, s, Loading) && !outcome.Busy? {
        HeldPositive(q, s);
        SettledCarries(q, s, outcome, p);
        assert Next(q, e) == Released(Moved(q, s, Settled(outcome)));
        hide Released, Carried, Next;
      }
    case _ =>
      hide Released;
  }

  lemma SettledCarries(q: Queue, s: nat, outcome: Outcome, p: nat)
    requires WaitersOk(q) && IsAt(q, s, Loading) && q.active > 0 && p < |q.entries|
    requires !outcome.Busy? && (q.waiting != [] ==> q.waiting[0] < |q.entries|)
    ensures var q' := Released(Moved(q, s, Settled(outcome)));
      |q'.entries| == |q.entries| && Carried(q.entries[p], q'.entries[p])
  {
  }

  /**
   A waiter is granted a slot or timed out, never both, and a settled promise keeps its outcome: whatever
   an entry is at one moment decides its fate and, once settled, its outcome for the rest of the run.
   */
  lemma {:induction false} FateIsFinal(q: Queue, events: seq<Event>, p: nat)
    requires Inv(q) && p < |q.entries|
    ensures p < |After(q, events).entries| && Carried(q.entries[p], After(q, events).entries[p])
    decreases |events|
  {
    if events != [] {
      NextKeepsInv(q, events[0]);
      NextCarries(q, events[0], p);
      FateIsFinal(Next(q, events[0]), events[1..], p);
    }
  }

  /** Coalescing: two entries that still load, wait or settle never share a key. */
  lemma OneLoadPerKey(concurrency: nat, capacity: nat, events: seq<Event>, p: nat, r: nat)
    ensures var q := After(Empty(concurrency, capacity), events);
      p < |q.entries| && r < |q.entries| && p != r && q.entries[p].key == q.entries[r].key
      ==> q.entries[p].phase.Forgotten? || q.entries[r].phase.Forgotten?
  {
    AfterKeepsInv(Empty(concurrency, capacity), events);
  }

  /**
   Every `run` of a key made before its promise settled, or before its deferred delete ran, gets that
   promise: the second call returns what the first one returned.
   */
  lemma RunsShareOutcome(q: Queue, key: string, events: seq<Event>)
    requires Inv(q) && RunResult(q, key).Some?
    ensures Inv(AfterRun(q, key))
    ensures var p := RunResult(q, key).value; var q' := After(AfterRun(q, key), events);
      && p < |q'.entries| && q'.entries[p].key == key
      && (!q'.entries[p].phase.Forgotten? ==> RunResult(q', key) == Some(p) && AfterRun(q', key) == q')
  {
    var q1 := AfterRun(q, key);
    RunKeepsInv(q, key);
    AfterKeepsInv(q1, events);
    FateIsFinal(q1, events, RunResult(q, key).value);
  }

  lemma {:induction false} WithoutSplits(s: seq<nat>, i: nat)
    requires i < |s| && s[i] !in s[..i]
    ensures Without(s, s[i]) == s[..i] + s[i + 1..]
  {
    if i > 0 {
      assert s[0] == s[..i][0] && s[1..][..i - 1] == s[..i][1..];
      WithoutSplits(s[1..], i - 1);
      assert [s[0]] + s[1..][..i - 1] == s[..i];
      assert s[1..][i - 1..][1..] == s[i + 1..];
    }
  }

  /** `waiting.indexOf(start)` and what splicing it out leaves. */
  method IndexOf(s: seq<nat>, p: nat) returns (index: nat)
    requires p in s
    ensures index < |s| && s[index] == p && p !in s[..index]
    ensures s[..index] + s[index + 1..] == Without(s, p)
  {
    hide Without;
    index := 0;
    while s[index] != p
      invariant index < |s| && p !in s[..index] && p in s[index..]
      decreases |s| - index
    {
      index := index + 1;
    }
    WithoutSplits(s, index);
  }

  /** The queue as the class keeps it; `entries` stands for the promises and closures it created. */
  class ImageTransformQueue {
    const concurrency: nat
    const capacity: nat
    var active: nat
    var pending: map<string, nat>
    var waiting: seq<nat>
    var entries: seq<Entry>

    function State(): Queue
      reads this
    {
      Queue(concurrency, capacity, active, pending, waiting, entries)
    }

    constructor (concurrency: nat, capacity: nat)
      ensures State() == Empty(concurrency, capacity) && Inv(State())
    {
      this.concurrency, this.capacity := concurrency, capacity;
      active, pending, waiting, entries := 0, map[], [], [];
    }

    /** `run` with the synchronous part of `execute` and `acquire`. */
    method Request(key: string) returns (promise: Option<nat>)
      requires Inv(State())
      modifies this
      ensures promise == RunResult(old(State()), key)
      ensures State() == Next(old(State()), Run(key)) && Inv(State())
    {
      RunKeepsInv(State(), key);
      if key in pending { return Some(pending[key]); }
      if active >= concurrency && |waiting| >= capacity { return None; }
      var p := |entries|;
      if active < concurrency {
        active := active + 1;
        entries := entries + [Entry(key, Granted)];
      } else {
        entries := entries + [Entry(key, Waiting)];
        waiting := waiting + [p];
      }
      pending := pending[key := p];
      promise := Some(p);
    }

    /** The `finally` block of `execute`: the load's outcome settles the promise and `release` runs. */
    method LoadSettled(p: nat, outcome: Outcome)
      requires Inv(State()) && IsAt(State(), p, Loading) && !outcome.Busy?
      modifies this
      ensures State() == Next(old(State()), LoadSettles(p, outcome)) && Inv(State())
    {
      SettleKeepsInv(State(), p, outcome);
      HeldPositive(State(), p);
      entries := entries[p := entries[p].(phase := Settled(outcome))];
      if waiting != [] {
        var next := waiting[0];
        waiting := waiting[1..];
        entries := entries[next := entries[next].(phase := Granted)];
      } else {
        active := active - 1;
      }
    }

    /** The timer of a waiter that was not started: it leaves the list and its promise will reject. */
    method TimedOut(p: nat)
      requires Inv(State()) && IsAt(State(), p, Waiting)
      modifies this
      ensures State() == Next(old(State()), TimerFires(p)) && Inv(State())
    {
      TimerKeepsInv(State(), p);
      var index := IndexOf(waiting, p);
      waiting := waiting[..index] + waiting[index + 1..];
      entries := entries[p := entries[p].(phase := Rejecting)];
    }

    /** The deferred `pending.delete(key)`. */
    method Forget(p: nat)
      requires Inv(State()) && p < |entries| && entries[p].phase.Settled?
      modifies this
      ensures State() == Next(old(State()), DeferredDelete(p)) && Inv(State())
    {
      NextKeepsInv(State(), DeferredDelete(p));
      pending := pending - {entries[p].key};
      entries := entries[p := entries[p].(phase := Forgotten(entries[p].phase.outcome))];
    }
  }
}
