/**
 Interleavings of the auto-memory service: sessions that commit turns, notifications,
 workers that read their start, finish, fail or panic, and shutdown waiters.
 */
module AutoMemoryRuns {
  import opened Prelude
  import opened AutoMemory

  /** A worker owns a request; `Unwinding` is a panicked worker whose guard has not run yet. */
  datatype Worker = Starting(request: Request) | Working(request: Request, start: nat) | Unwinding(request: Request)

  /** A shutdown waiter remembers the epoch at which it subscribed. */
  datatype Waiter = Subscribed(epoch: nat) | Asleep(epoch: nat) | Drained

  /** One successful extraction: the turns it handed to the model and the span its records carry. */
  datatype Extraction = Extraction(session: Session, start: nat, end: nat, turns: seq<Turn>, span: Option<Span>)

  datatype System = System(
    committed: map<Session, seq<Turn>>,
    state: State,
    workers: map<nat, Worker>,
    nextWorker: nat,
    epoch: nat,
    waiters: map<nat, Waiter>,
    log: seq<Extraction>)

  datatype Event =
    | Commit(session: Session, turn: Turn)
    | NotifyTurn(session: Session)
    | ReadStart(worker: nat)
    | FinishWork(worker: nat, summarized: bool)
    | Panic(worker: nat)
    | Unwind(worker: nat)
    | Subscribe(waiter: nat)
    | CheckIdle(waiter: nat)
    | Wake(waiter: nat)

  function TurnsOf(committed: map<Session, seq<Turn>>, s: Session): seq<Turn> {
    if s in committed then committed[s] else []
  }

  /** The worker that just ended its request goes on with the next one or exits, waking the waiters. */
  function Advance(sys: System, id: nat, o: Outcome): System {
    match o.next
    case Some(r) => sys.(state := o.state, workers := sys.workers[id := Starting(r)])
    case None => sys.(state := o.state, workers := sys.workers - {id}, epoch := sys.epoch + 1)
  }

  function Extracted(r: Request, start: nat): Extraction {
    Extraction(r.session, start, r.completed, Window(r, start), SourceSpan(start, r.completed))
  }

  function Step(sys: System, e: Event): System {
    match e
    case Commit(s, t) => sys.(committed := sys.committed[s := TurnsOf(sys.committed, s) + [t]])
    case NotifyTurn(s) =>
      var o := Notify(sys.state, s, TurnsOf(sys.committed, s));
      if o.next.Some? then
        sys.(state := o.state, workers := sys.workers[sys.nextWorker := Starting(o.next.value)],
             nextWorker := sys.nextWorker + 1)
      else sys.(state := o.state)
    case ReadStart(id) =>
      if id in sys.workers && sys.workers[id].Starting? then
        var r := sys.workers[id].request;
        sys.(workers := sys.workers[id := Working(r, Last(sys.state, r.session))])
      else sys
    case FinishWork(id, summarized) =>
      if id in sys.workers && sys.workers[id].Working? then
        var Working(r, start) := sys.workers[id];
        var success := Succeeds(r, start, summarized);
        var logged := if success then sys.(log := sys.log + [Extracted(r, start)]) else sys;
        Advance(logged, id, Finish(sys.state, r, success))
      else sys
    case Panic(id) =>
      if id in sys.workers then sys.(workers := sys.workers[id := Unwinding(sys.workers[id].request)]) else sys
    case Unwind(id) =>
      if id in sys.workers && sys.workers[id].Unwinding? then
        if sys.state.current.None? then sys.(workers := sys.workers - {id})
        else Advance(sys, id, Recover(sys.state))
      else sys
    case Subscribe(id) =>
      if id in sys.waiters then sys else sys.(waiters := sys.waiters[id := Subscribed(sys.epoch)])
    case CheckIdle(id) =>
      if id in sys.waiters && sys.waiters[id].Subscribed? then
        sys.(waiters := sys.waiters[id := if Idle(sys.state) then Drained else Asleep(sys.waiters[id].epoch)])
      else sys
    case Wake(id) =>
      if id in sys.waiters && sys.waiters[id].Asleep? && sys.waiters[id].epoch < sys.epoch then
        sys.(waiters := sys.waiters[id := Subscribed(sys.epoch)])
      else sys
  }

  function Run(sys: System, events: seq<Event>): System
    decreases |events|
  {
    if events == [] then sys else Run(Step(sys, events[0]), events[1..])
  }

  /** The turns of one session that successful extractions have handed to the model, in order. */
  function WindowsOf(log: seq<Extraction>, s: Session): seq<Turn> {
    if log == [] then []
    else
      var e := log[|log| - 1];
      WindowsOf(log[..|log| - 1], s) + if e.session == s then e.turns else []
  }

  // ---------------------------------------------------------------------------
  // The invariant
  // ---------------------------------------------------------------------------

  /** A live request still has work to do and holds the turns between its baseline and its end. */
  predicate LiveRequest(committed: map<Session, seq<Turn>>, st: State, r: Request) {
    && r.baseline <= Last(st, r.session) < r.completed <= |TurnsOf(committed, r.session)|
    && r.turns == TurnsOf(committed, r.session)[r.baseline..r.completed]
  }

  ghost predicate SingleWorker(st: State, workers: map<nat, Worker>, nextWorker: nat) {
    && (st.pending.Some? ==> st.current.Some?)
    && (st.current.Some? <==> |workers| == 1)
    && (forall a, b | a in workers && b in workers :: a == b)
    && (forall a | a in workers :: st.current == Some(workers[a].request.Key()))
    && (forall a | a in workers :: a < nextWorker)
  }

  predicate WorkerLive(committed: map<Session, seq<Turn>>, st: State, w: Worker) {
    && LiveRequest(committed, st, w.request)
    && (w.Working? ==> w.start == Last(st, w.request.session))
  }

  ghost predicate Requests(committed: map<Session, seq<Turn>>, st: State, workers: map<nat, Worker>) {
    && (forall a | a in workers :: WorkerLive(committed, st, workers[a]))
    && (st.pending.Some? ==>
          && LiveRequest(committed, st, st.pending.value)
          && !Covers(st.current, st.pending.value.session, st.pending.value.completed))
  }

  /** The extracted windows of a session are its first `last` turns. */
  predicate TiledFor(committed: map<Session, seq<Turn>>, last: map<Session, nat>, log: seq<Extraction>, s: Session) {
    var n := if s in last then last[s] else 0;
    n <= |TurnsOf(committed, s)| && WindowsOf(log, s) == TurnsOf(committed, s)[..n]
  }

  ghost predicate Tiled(committed: map<Session, seq<Turn>>, last: map<Session, nat>, log: seq<Extraction>) {
    forall s: Session :: TiledFor(committed, last, log, s)
  }

  /** A logged extraction names exactly the turns that were processed. */
  predicate SpanExact(committed: map<Session, seq<Turn>>, e: Extraction) {
    && e.start <= e.end <= |TurnsOf(committed, e.session)|
    && e.turns == TurnsOf(committed, e.session)[e.start..e.end]
    && e.span == SourceSpan(e.start, e.end)
  }

  ghost predicate SpansExact(committed: map<Session, seq<Turn>>, log: seq<Extraction>) {
    forall e | e in log :: SpanExact(committed, e)
  }

  /** A waiter asleep on the present epoch went to sleep while work was running and still is. */
  ghost predicate NoLostWakeup(st: State, epoch: nat, waiters: map<nat, Waiter>) {
    forall w | w in waiters ::
      && (!waiters[w].Drained? ==> waiters[w].epoch <= epoch)
      && (waiters[w].Asleep? && waiters[w].epoch == epoch ==> st.current.Some?)
  }

  ghost predicate Inv(sys: System) {
    && SingleWorker(sys.state, sys.workers, sys.nextWorker)
    && Requests(sys.committed, sys.state, sys.workers)
    && Tiled(sys.committed, sys.state.last, sys.log)
    && SpansExact(sys.committed, sys.log)
    && NoLostWakeup(sys.state, sys.epoch, sys.waiters)
  }

  ghost predicate Initial(sys: System) {
    && sys.state == State(map[], None, None)
    && sys.workers == map[] && sys.waiters == map[] && sys.log == []
  }

  lemma InitialInv(sys: System)
    requires Initial(sys)
    ensures Inv(sys)
  {
  }

  // ---------------------------------------------------------------------------
  // Every step keeps it
  // ---------------------------------------------------------------------------

  lemma PrefixSlice(a: seq<Turn>, b: seq<Turn>, lo: nat, hi: nat)
    requires a <= b && lo <= hi <= |a|
    ensures b[lo..hi] == a[lo..hi]
  {
  }

  /** Committing more turns to any session disturbs nothing recorded about the earlier ones. */
  lemma CommitKeeps(sys: System, s: Session, t: Turn)
    requires Inv(sys)
    ensures Inv(Step(sys, Commit(s, t)))
  {
    var next := Step(sys, Commit(s, t)).committed;
    assert forall x: Session :: TurnsOf(sys.committed, x) <= TurnsOf(next, x);
    forall r: Request | LiveRequest(sys.committed, sys.state, r)
      ensures LiveRequest(next, sys.state, r)
    {
      PrefixSlice(TurnsOf(sys.committed, r.session), TurnsOf(next, r.session), r.baseline, r.completed);
    }
    forall x: Session
      ensures TiledFor(next, sys.state.last, sys.log, x)
    {
      assert TiledFor(sys.committed, sys.state.last, sys.log, x);
      PrefixSlice(TurnsOf(sys.committed, x), TurnsOf(next, x), 0, Last(sys.state, x));
    }
    forall e | e in sys.log
      ensures SpanExact(next, e)
    {
      PrefixSlice(TurnsOf(sys.committed, e.session), TurnsOf(next, e.session), e.start, e.end);
    }
  }

  lemma NoWorkers(sys: System)
    requires SingleWorker(sys.state, sys.workers, sys.nextWorker) && sys.state.current.None?
    ensures sys.workers == map[]
  {
  }

  /** Liveness of a request depends on the boundaries only. */
  lemma RequestsDependOnLast(sys: System, st: State)
    requires st.last == sys.state.last
    ensures forall r: Request :: LiveRequest(sys.committed, st, r) <==> LiveRequest(sys.committed, sys.state, r)
    ensures forall w: Worker :: WorkerLive(sys.committed, st, w) <==> WorkerLive(sys.committed, sys.state, w)
  {
  }

  lemma NotifyKeeps(sys: System, s: Session)
    requires Inv(sys)
    ensures Inv(Step(sys, NotifyTurn(s)))
  {
    if sys.state.current.None? {
      NoWorkers(sys);
    }
    RequestsDependOnLast(sys, Step(sys, NotifyTurn(s)).state);
  }

  /** The window of a worker that read its start: exactly the turns not yet extracted. */
  lemma WorkingWindow(committed: map<Session, seq<Turn>>, st: State, r: Request)
    requires LiveRequest(committed, st, r)
    ensures Window(r, Last(st, r.session)) == TurnsOf(committed, r.session)[Last(st, r.session)..r.completed]
  {
  }

  lemma AdvanceKeeps(sys: System, id: nat, o: Outcome)
    requires SingleWorker(sys.state, sys.workers, sys.nextWorker) && NoLostWakeup(sys.state, sys.epoch, sys.waiters)
    requires id in sys.workers
    requires o == TakePending(o.state.(current := sys.state.current, pending := sys.state.pending))
    ensures
      var next := Advance(sys, id, o);
      && SingleWorker(next.state, next.workers, next.nextWorker) && NoLostWakeup(next.state, next.epoch, next.waiters)
      && (forall a | a in next.workers :: o.next.Some? && next.workers[a] == Starting(o.next.value))
      && next.committed == sys.committed && next.log == sys.log
  {
    assert sys.workers.Keys == {id};
    var next := Advance(sys, id, o);
    if o.next.Some? {
      assert next.workers.Keys == {id};
    } else {
      assert next.workers.Keys == {};
    }
  }

  lemma WindowsSnoc(log: seq<Extraction>, e: Extraction, s: Session)
    ensures WindowsOf(log + [e], s) == WindowsOf(log, s) + if e.session == s then e.turns else []
  {
    assert (log + [e])[..|log|] == log;
  }

  lemma SplitAt(all: seq<Turn>, start: nat, end: nat)
    requires start <= end <= |all|
    ensures all[..start] + all[start..end] == all[..end]
  {
  }

  /** Appending the window that starts at `last` extends the tiling of its session and of no other. */
  lemma ExtractionTiles(committed: map<Session, seq<Turn>>, st: State, log: seq<Extraction>, r: Request, s: Session)
    requires TiledFor(committed, st.last, log, s) && LiveRequest(committed, st, r)
    ensures TiledFor(committed, st.last[r.session := r.completed], log + [Extracted(r, Last(st, r.session))], s)
  {
    var e := Extracted(r, Last(st, r.session));
    WindowsSnoc(log, e, s);
    if s == r.session {
      WorkingWindow(committed, st, r);
      SplitAt(TurnsOf(committed, s), Last(st, s), r.completed);
    }
  }

  lemma ExtractionKeepsTiling(committed: map<Session, seq<Turn>>, st: State, log: seq<Extraction>, r: Request)
    requires Tiled(committed, st.last, log) && LiveRequest(committed, st, r)
    ensures Tiled(committed, st.last[r.session := r.completed], log + [Extracted(r, Last(st, r.session))])
  {
    var last, longer := st.last[r.session := r.completed], log + [Extracted(r, Last(st, r.session))];
    forall s: Session
      ensures TiledFor(committed, last, longer, s)
    {
      assert TiledFor(committed, st.last, log, s);
      ExtractionTiles(committed, st, log, r, s);
    }
  }

  lemma ExtractedIsExact(committed: map<Session, seq<Turn>>, st: State, r: Request)
    requires LiveRequest(committed, st, r)
    ensures SpanExact(committed, Extracted(r, Last(st, r.session)))
  {
  }

  lemma SpansSnoc(committed: map<Session, seq<Turn>>, log: seq<Extraction>, e: Extraction)
    requires SpansExact(committed, log) && SpanExact(committed, e)
    ensures SpansExact(committed, log + [e])
  {
  }

  /** A live request moves its boundary to its own end, never past it. */
  lemma FinishedState(committed: map<Session, seq<Turn>>, st: State, r: Request, success: bool)
    requires LiveRequest(committed, st, r)
    ensures Finish(st, r, success)
         == TakePending(st.(last := if success then st.last[r.session := r.completed] else st.last))
  {
  }

  lemma HandedOver(
    committed: map<Session, seq<Turn>>, st: State, done: Request, last: map<Session, nat>, workers: map<nat, Worker>)
    requires st.current == Some(done.Key()) && LiveRequest(committed, st, done)
    requires st.pending.Some? ==>
               && LiveRequest(committed, st, st.pending.value)
               && !Covers(st.current, st.pending.value.session, st.pending.value.completed)
    requires last == st.last || last == st.last[done.session := done.completed]
    requires forall a | a in workers :: st.pending.Some? && workers[a] == Starting(st.pending.value)
    ensures Requests(committed, TakePending(st.(last := last)).state, workers)
  {
  }

  /** A successful extraction moves the boundary and the log together. */
  lemma LoggedExtraction(committed: map<Session, seq<Turn>>, st: State, log: seq<Extraction>, r: Request)
    requires Tiled(committed, st.last, log) && SpansExact(committed, log) && LiveRequest(committed, st, r)
    ensures Tiled(committed, st.last[r.session := r.completed], log + [Extracted(r, Last(st, r.session))])
    ensures SpansExact(committed, log + [Extracted(r, Last(st, r.session))])
  {
    ExtractionKeepsTiling(committed, st, log, r);
    ExtractedIsExact(committed, st, r);
    SpansSnoc(committed, log, Extracted(r, Last(st, r.session)));
  }

  /** Whatever a worker's end did to the boundary and the log, the rest of the invariant follows. */
  lemma EndingKeeps(sys: System, id: nat, last: map<Session, nat>, log: seq<Extraction>)
    requires Inv(sys) && id in sys.workers
    requires
      var r := sys.workers[id].request;
      last == sys.state.last || last == sys.state.last[r.session := r.completed]
    requires Tiled(sys.committed, last, log) && SpansExact(sys.committed, log)
    ensures Inv(Advance(sys.(log := log), id, TakePending(sys.state.(last := last))))
  {
    assert WorkerLive(sys.committed, sys.state, sys.workers[id]);
    var o := TakePending(sys.state.(last := last));
    AdvanceKeeps(sys.(log := log), id, o);
    HandedOver(sys.committed, sys.state, sys.workers[id].request, last, Advance(sys.(log := log), id, o).workers);
  }

  lemma FinishKeeps(sys: System, id: nat, summarized: bool)
    requires Inv(sys) && id in sys.workers && sys.workers[id].Working?
    ensures Inv(Step(sys, FinishWork(id, summarized)))
  {
    var Working(r, start) := sys.workers[id];
    assert WorkerLive(sys.committed, sys.state, sys.workers[id]);
    if Succeeds(r, start, summarized) {
      FinishedState(sys.committed, sys.state, r, true);
      LoggedExtraction(sys.committed, sys.state, sys.log, r);
      EndingKeeps(sys, id, sys.state.last[r.session := r.completed], sys.log + [Extracted(r, start)]);
    } else {
      FinishedState(sys.committed, sys.state, r, false);
      EndingKeeps(sys, id, sys.state.last, sys.log);
    }
  }

  lemma UnwindKeeps(sys: System, id: nat)
    requires Inv(sys) && id in sys.workers && sys.workers[id].Unwinding?
    ensures Inv(Step(sys, Unwind(id)))
  {
    EndingKeeps(sys, id, sys.state.last, sys.log);
  }

  /** A worker that changes phase but not its request. */
  lemma RephaseKeeps(sys: System, id: nat, w: Worker)
    requires Inv(sys) && id in sys.workers && w.request == sys.workers[id].request
    requires w.Working? ==> w.start == Last(sys.state, w.request.session)
    ensures Inv(sys.(workers := sys.workers[id := w]))
  {
  }

  lemma StepKeeps(sys: System, e: Event)
    requires Inv(sys)
    ensures Inv(Step(sys, e))
  {
    match e
    case Commit(s, t) => CommitKeeps(sys, s, t);
    case NotifyTurn(s) => NotifyKeeps(sys, s);
    case ReadStart(id) =>
      if id in sys.workers && sys.workers[id].Starting? {
        var r := sys.workers[id].request;
        RephaseKeeps(sys, id, Working(r, Last(sys.state, r.session)));
      }
    case FinishWork(id, summarized) =>
      if id in sys.workers && sys.workers[id].Working? { FinishKeeps(sys, id, summarized); }
    case Panic(id) =>
      if id in sys.workers { RephaseKeeps(sys, id, Unwinding(sys.workers[id].request)); }
    case Unwind(id) =>
      if id in sys.workers && sys.workers[id].Unwinding? { UnwindKeeps(sys, id); }
    case Subscribe(_) =>
    case CheckIdle(_) =>
    case Wake(_) =>
  }

  lemma {:induction false} RunKeeps(sys: System, events: seq<Event>)
    requires Inv(sys)
    ensures Inv(Run(sys, events))
    decreases |events|
  {
    if events != [] {
      StepKeeps(sys, events[0]);
      RunKeeps(Step(sys, events[0]), events[1..]);
    }
  }

  // ---------------------------------------------------------------------------
  // What it means for runs
  // ---------------------------------------------------------------------------

  /**
   Tiling.  In every run the windows of the successful extractions of a session, in order,
   are exactly its first `last` turns, and each extraction's span names the turns it processed.
   */
  lemma ExtractionsTileEverySession(sys: System, events: seq<Event>, s: Session)
    requires Initial(sys)
    ensures
      var z := Run(sys, events);
      && Last(z.state, s) <= |TurnsOf(z.committed, s)|
      && WindowsOf(z.log, s) == TurnsOf(z.committed, s)[..Last(z.state, s)]
      && forall e | e in z.log ::
           && e.start <= e.end <= |TurnsOf(z.committed, e.session)|
           && e.turns == TurnsOf(z.committed, e.session)[e.start..e.end]
           && e.span == if e.start < 0xFFFF_FFFF && e.end <= 0xFFFF_FFFF then Some(Span(e.start + 1, e.end)) else None
  {
    InitialInv(sys);
    RunKeeps(sys, events);
    var z := Run(sys, events);
    assert TiledFor(z.committed, z.state.last, z.log, s);
    assert forall e | e in z.log :: SpanExact(z.committed, e);
  }

  /** The turns a session commits in a run. */
  function Commits(events: seq<Event>, s: Session): seq<Turn> {
    if events == [] then []
    else (if events[0].Commit? && events[0].session == s then [events[0].turn] else []) + Commits(events[1..], s)
  }

  lemma Regroup(a: seq<Turn>, b: seq<Turn>, c: seq<Turn>)
    ensures a + (b + c) == a + b + c
  {
  }

  lemma TurnsAfterStep(sys: System, e: Event, s: Session)
    ensures TurnsOf(Step(sys, e).committed, s)
            == TurnsOf(sys.committed, s) + if e.Commit? && e.session == s then [e.turn] else []
  {
    match e {
      case Commit(_, _) =>
      case _ => assert Step(sys, e).committed == sys.committed;
    }
  }

  /** The transcript of a session is what it committed, whatever the scheduler does. */
  lemma {:induction false} TurnsAreCommits(sys: System, events: seq<Event>, s: Session)
    ensures TurnsOf(Run(sys, events).committed, s) == TurnsOf(sys.committed, s) + Commits(events, s)
    decreases |events|
  {
    if events != [] {
      var one := if events[0].Commit? && events[0].session == s then [events[0].turn] else [];
      TurnsAreCommits(Step(sys, events[0]), events[1..], s);
      TurnsAfterStep(sys, events[0], s);
      Regroup(TurnsOf(sys.committed, s), one, Commits(events[1..], s));
    }
  }

  lemma StepIsMonotone(sys: System, e: Event, s: Session)
    ensures Last(sys.state, s) <= Last(Step(sys, e).state, s)
    ensures TurnsOf(sys.committed, s) <= TurnsOf(Step(sys, e).committed, s)
  {
    match e {
      case Commit(_, _) =>
      case FinishWork(_, _) =>
      case _ => assert Step(sys, e).committed == sys.committed && Step(sys, e).state.last == sys.state.last;
    }
  }

  /** The extraction boundary of a session never moves back, and committed turns are never lost. */
  lemma {:induction false} BoundaryNeverDecreases(sys: System, events: seq<Event>, s: Session)
    ensures Last(sys.state, s) <= Last(Run(sys, events).state, s)
    ensures TurnsOf(sys.committed, s) <= TurnsOf(Run(sys, events).committed, s)
    decreases |events|
  {
    if events != [] {
      StepIsMonotone(sys, events[0], s);
      BoundaryNeverDecreases(Step(sys, events[0]), events[1..], s);
    }
  }

  /**
   At most one worker, and a wakeup for every waiter: in every run, work is marked as running
   exactly when one worker owns a request with that key, and no waiter sleeps on the present
   epoch of an idle service, so `Wake` is enabled for every sleeper.
   */
  lemma SingleWorkerAndNoLostWakeup(sys: System, events: seq<Event>)
    requires Initial(sys)
    ensures
      var z := Run(sys, events);
      && (z.state.pending.Some? ==> z.state.current.Some?)
      && (z.state.current.Some? <==> |z.workers| == 1)
      && (z.state.current.None? <==> z.workers == map[])
      && (forall a | a in z.workers :: z.state.current == Some(z.workers[a].request.Key()))
      && (Idle(z.state) ==> forall w | w in z.waiters && z.waiters[w].Asleep? ::
            Step(z, Wake(w)).waiters[w] == Subscribed(z.epoch)
            && Step(Step(z, Wake(w)), CheckIdle(w)).waiters[w] == Drained)
  {
    InitialInv(sys);
    RunKeeps(sys, events);
    var z := Run(sys, events);
    if z.state.current.None? { NoWorkers(z); }
  }

  function Load(st: State): nat {
    (if st.current.Some? then 1 else 0) + (if st.pending.Some? then 1 else 0)
  }

  /** Whether an event ends a request: a worker finishing it, or a panicked worker's guard dropping it. */
  predicate EndsRequest(sys: System, e: Event) {
    || (e.FinishWork? && e.worker in sys.workers && sys.workers[e.worker].Working?)
    || (e.Unwind? && e.worker in sys.workers && sys.workers[e.worker].Unwinding?)
  }

  function RequestsEnded(sys: System, events: seq<Event>): nat
    decreases |events|
  {
    if events == [] then 0
    else (if EndsRequest(sys, events[0]) then 1 else 0) + RequestsEnded(Step(sys, events[0]), events[1..])
  }

  lemma StepUsesLoad(sys: System, e: Event)
    requires SingleWorker(sys.state, sys.workers, sys.nextWorker) && !e.NotifyTurn?
    ensures Load(Step(sys, e).state) + (if EndsRequest(sys, e) then 1 else 0) == Load(sys.state)
  {
  }

  /** Without further notifications every ended request uses up one of at most two. */
  lemma {:induction false} WorkerLoopEnds(sys: System, events: seq<Event>)
    requires Inv(sys)
    requires forall i | 0 <= i < |events| :: !events[i].NotifyTurn?
    ensures RequestsEnded(sys, events) + Load(Run(sys, events).state) == Load(sys.state) <= 2
    decreases |events|
  {
    if events != [] {
      var next := Step(sys, events[0]);
      assert Inv(next) by { StepKeeps(sys, events[0]); }
      assert Load(next.state) + (if EndsRequest(sys, events[0]) then 1 else 0) == Load(sys.state) by {
        StepUsesLoad(sys, events[0]);
      }
      WorkerLoopEnds(next, events[1..]);
    }
  }
}
