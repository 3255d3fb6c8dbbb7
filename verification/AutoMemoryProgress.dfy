/**
 What becomes of a notification: every fifth turn is extracted unless a worker fails on it or a
 notification of another session takes its place in the queue.
 */
module AutoMemoryProgress {
  import opened Prelude
  import opened AutoMemory
  import opened AutoMemoryRuns

  // ---------- One transition ----------

  predicate Reached(st: State, s: Session, n: nat) {
    s in st.last && st.last[s] >= n
  }

  predicate Running(st: State, s: Session, n: nat) {
    st.current.Some? && st.current.value.session == s && st.current.value.completed >= n
  }

  predicate Queued(st: State, s: Session, n: nat) {
    st.pending.Some? && st.pending.value.session == s && st.pending.value.completed >= n
  }

  /** The first `n` turns of the session are extracted, or a request that reaches them is under way. */
  predicate TakenCareOf(st: State, s: Session, n: nat) {
    Reached(st, s, n) || Running(st, s, n) || Queued(st, s, n)
  }

  /**
   A notification counts if and only if the number of turns is a positive multiple of five that
   is not taken care of yet; it is then run at once, or queued while a worker runs.
   */
  lemma NotificationOutcome(st: State, s: Session, turns: seq<Turn>)
    ensures
      var o, n := Notify(st, s, turns), |turns|;
      var counts := n > 0 && n % 5 == 0 && !TakenCareOf(st, s, n);
      && (n > 0 && n % 5 == 0 ==> TakenCareOf(o.state, s, n))
      && (o.next.Some? <==> counts && st.current.None?)
      && (counts ==> if st.current.None? then Running(o.state, s, n) else Queued(o.state, s, n))
      && (!counts ==> o.state == st)
      && o.state.last == st.last
      && (st.current.Some? ==> o.state.current == st.current)
      && (st.current.None? ==> o.state.pending == st.pending)
  {
  }

  /** The request asks for exactly the turns from the boundary on. */
  lemma NotifiedRequest(st: State, s: Session, turns: seq<Turn>)
    ensures
      var o := Notify(st, s, turns);
      var r := if o.next.Some? then o.next else if o.state.pending != st.pending then o.state.pending else None;
      r.Some? ==>
        && r.value.session == s && r.value.completed == |turns|
        && (s in st.last ==> r.value.baseline == st.last[s] <= |turns| && r.value.turns == turns[st.last[s]..])
        && (s !in st.last ==> r.value.baseline == 0 && r.value.turns == turns)
  {
    assert turns[0..|turns|] == turns;
  }

  /** Nothing in the turns was said by the user or the assistant. */
  predicate Silent(turns: seq<Turn>) {
    forall t, e | t in turns && e in t.entries :: e.role !in ["You", "user", "Agent", "assistant"]
  }

  /** An extraction succeeds if the summarizer does, or if there is nothing to summarize. */
  lemma SucceedsIff(r: Request, start: nat, summarized: bool)
    requires r.baseline <= start <= r.baseline + |r.turns|
    ensures Succeeds(r, start, summarized) <==> summarized || Silent(r.turns[start - r.baseline..])
  {
    var turns := r.turns[start - r.baseline..];
    assert forall role: string :: Conversational(role) <==> role in ["You", "user", "Agent", "assistant"];
    assert Window(r, start) == turns;
    if HasMessages(turns) {
      var t :| t in turns && exists e | e in t.entries :: Conversational(e.role);
      var e :| e in t.entries && Conversational(e.role);
    } else {
      forall t, e | t in turns && e in t.entries ensures !Conversational(e.role) {
      }
    }
  }

  /** The end of a request moves its boundary exactly on success, and hands over what is queued. */
  lemma FinishOutcome(st: State, r: Request, success: bool, s: Session, n: nat)
    requires n > 0
    ensures
      var o := Finish(st, r, success);
      && o.next == st.pending && o.state.pending.None?
      && (Reached(o.state, s, n) <==> Reached(st, s, n) || (success && r.session == s && r.completed >= n))
      && (Running(o.state, s, n) <==> Queued(st, s, n))
      && (o.state.current.Some? <==> st.pending.Some?)
  {
  }

  // ---------- Which events lose a notification ----------

  /** The notification of another session counts and takes the one place in the queue. */
  predicate Displaces(sys: System, other: Session) {
    var n := |TurnsOf(sys.committed, other)|;
    sys.state.current.Some? && n > 0 && n % 5 == 0 && !TakenCareOf(sys.state, other, n)
  }

  /** The worker ends without having extracted its request. */
  predicate Fails(sys: System, e: Event) {
    match e
    case FinishWork(id, summarized) =>
      && id in sys.workers && sys.workers[id].Working?
      && !Succeeds(sys.workers[id].request, sys.workers[id].start, summarized)
    case Unwind(id) => id in sys.workers && sys.workers[id].Unwinding?
    case _ => false
  }

  /** The turns were only queued and are displaced, or only running and not extracted. */
  predicate Loses(sys: System, e: Event, s: Session, n: nat) {
    && !Reached(sys.state, s, n)
    && (|| (e.NotifyTurn? && e.session != s && Displaces(sys, e.session) && !Running(sys.state, s, n))
        || (Fails(sys, e) && !Queued(sys.state, s, n)))
  }

  lemma NotifyLosesIff(sys: System, other: Session, s: Session, n: nat)
    requires Inv(sys) && n > 0 && TakenCareOf(sys.state, s, n)
    requires n <= |TurnsOf(sys.committed, s)|
    ensures !TakenCareOf(Step(sys, NotifyTurn(other)).state, s, n) <==> Loses(sys, NotifyTurn(other), s, n)
  {
    NotificationOutcome(sys.state, other, TurnsOf(sys.committed, other));
    NotifiedRequest(sys.state, other, TurnsOf(sys.committed, other));
  }

  lemma EndLosesIff(sys: System, e: Event, s: Session, n: nat)
    requires Inv(sys) && n > 0 && TakenCareOf(sys.state, s, n) && (e.FinishWork? || e.Unwind?)
    ensures !TakenCareOf(Step(sys, e).state, s, n) <==> Loses(sys, e, s, n)
  {
    if e.worker in sys.workers {
      assert WorkerLive(sys.committed, sys.state, sys.workers[e.worker]);
      if e.FinishWork? && sys.workers[e.worker].Working? {
        var Working(r, start) := sys.workers[e.worker];
        FinishOutcome(sys.state, r, Succeeds(r, start, e.summarized), s, n);
      }
    }
  }

  /** Turns that are taken care of stay so unless one of those events happens, and exactly then not. */
  lemma StepLosesIff(sys: System, e: Event, s: Session, n: nat)
    requires Inv(sys) && n > 0 && TakenCareOf(sys.state, s, n)
    requires n <= |TurnsOf(sys.committed, s)|
    ensures !TakenCareOf(Step(sys, e).state, s, n) <==> Loses(sys, e, s, n)
  {
    match e
    case NotifyTurn(other) => NotifyLosesIff(sys, other, s, n);
    case FinishWork(_, _) => EndLosesIff(sys, e, s, n);
    case Unwind(_) => EndLosesIff(sys, e, s, n);
    case _ =>
  }

  // ---------- Runs ----------

  ghost predicate NeverLoses(sys: System, events: seq<Event>, s: Session, n: nat)
    decreases |events|
  {
    events != [] ==> !Loses(sys, events[0], s, n) && NeverLoses(Step(sys, events[0]), events[1..], s, n)
  }

  lemma {:induction false} StaysTakenCareOf(sys: System, events: seq<Event>, s: Session, n: nat)
    requires Inv(sys) && n > 0 && TakenCareOf(sys.state, s, n)
    requires n <= |TurnsOf(sys.committed, s)| && NeverLoses(sys, events, s, n)
    ensures TakenCareOf(Run(sys, events).state, s, n)
    decreases |events|
  {
    if events != [] {
      StepLosesIff(sys, events[0], s, n);
      StepKeeps(sys, events[0]);
      StepIsMonotone(sys, events[0], s);
      StaysTakenCareOf(Step(sys, events[0]), events[1..], s, n);
    }
  }

  /**
   Every notification of a fifth turn leads to an extraction: after any run, and whatever happens
   then but the events that lose it, its turns are extracted or on their way, and extracted once
   the service is idle.
   */
  lemma NotifiedTurnsAreExtracted(sys: System, before: seq<Event>, s: Session, after: seq<Event>)
    requires Initial(sys)
    requires var n := |TurnsOf(Run(sys, before).committed, s)|;
             n > 0 && n % 5 == 0 && NeverLoses(Step(Run(sys, before), NotifyTurn(s)), after, s, n)
    ensures
      var y := Run(sys, before);
      var turns, z := TurnsOf(y.committed, s), Run(Step(y, NotifyTurn(s)), after);
      && TakenCareOf(z.state, s, |turns|)
      && (Idle(z.state) ==> Reached(z.state, s, |turns|) && turns <= WindowsOf(z.log, s))
  {
    var y := Run(sys, before);
    var turns, next := TurnsOf(y.committed, s), Step(y, NotifyTurn(s));
    InitialInv(sys);
    RunKeeps(sys, before);
    NotificationOutcome(y.state, s, turns);
    StepKeeps(y, NotifyTurn(s));
    StaysTakenCareOf(next, after, s, |turns|);
    RunKeeps(next, after);
    BoundaryNeverDecreases(next, after, s);
    var z := Run(next, after);
    assert TiledFor(z.committed, z.state.last, z.log, s);
  }

  /** Workers that only succeed, without further notifications, lose nothing. */
  predicate Succeeding(e: Event) {
    !e.NotifyTurn? && !e.Unwind? && (e.FinishWork? ==> e.summarized)
  }

  lemma {:induction false} SucceedingLosesNothing(sys: System, events: seq<Event>, s: Session, n: nat)
    requires forall e | e in events :: Succeeding(e)
    ensures NeverLoses(sys, events, s, n)
    decreases |events|
  {
    if events != [] {
      assert events[0] in events;
      SucceedingLosesNothing(Step(sys, events[0]), events[1..], s, n);
    }
  }

  lemma RunTwo(sys: System, a: Event, b: Event, rest: seq<Event>)
    ensures Run(sys, [a, b] + rest) == Run(Step(Step(sys, a), b), rest)
  {
    assert ([a, b] + rest)[1..] == [b] + rest && ([b] + rest)[1..] == rest;
  }

  lemma OneWorker(sys: System) returns (id: nat)
    requires Inv(sys) && sys.state.current.Some?
    ensures id in sys.workers && sys.workers.Keys == {id}
  {
    assert |sys.workers.Keys| == 1;
    id :| id in sys.workers;
  }

  /** A worker that reads its start and succeeds: one request is done. */
  lemma WorkerSucceeds(sys: System, id: nat)
    requires Inv(sys) && id in sys.workers && sys.workers[id].Starting?
    ensures var z := Step(Step(sys, ReadStart(id)), FinishWork(id, true));
            && Inv(z) && z.state.pending.None? && (z.state.current.Some? <==> sys.state.pending.Some?)
            && forall a | a in z.workers :: z.workers[a].Starting?
  {
    StepKeeps(sys, ReadStart(id));
    StepKeeps(Step(sys, ReadStart(id)), FinishWork(id, true));
  }

  /** The workers can always finish: from a started worker, at most two of its successes reach idle. */
  lemma WorkersCanFinish(sys: System) returns (events: seq<Event>)
    requires Inv(sys) && forall a | a in sys.workers :: sys.workers[a].Starting?
    ensures forall e | e in events :: Succeeding(e)
    ensures Idle(Run(sys, events).state)
    decreases Load(sys.state)
  {
    events := [];
    if sys.state.current.Some? {
      var id := OneWorker(sys);
      WorkerSucceeds(sys, id);
      var rest := WorkersCanFinish(Step(Step(sys, ReadStart(id)), FinishWork(id, true)));
      events := [ReadStart(id), FinishWork(id, true)] + rest;
      RunTwo(sys, ReadStart(id), FinishWork(id, true), rest);
    }
  }

  /** Hence, if the workers then succeed without further notifications, the turns are extracted at idle. */
  lemma SucceedingWorkersExtract(sys: System, before: seq<Event>, s: Session, after: seq<Event>)
    requires Initial(sys) && forall e | e in after :: Succeeding(e)
    requires var n := |TurnsOf(Run(sys, before).committed, s)|; n > 0 && n % 5 == 0
    ensures
      var y := Run(sys, before);
      var z := Run(Step(y, NotifyTurn(s)), after);
      Idle(z.state) ==> Reached(z.state, s, |TurnsOf(y.committed, s)|)
  {
    var y := Run(sys, before);
    SucceedingLosesNothing(Step(y, NotifyTurn(s)), after, s, |TurnsOf(y.committed, s)|);
    NotifiedTurnsAreExtracted(sys, before, s, after);
  }
}
