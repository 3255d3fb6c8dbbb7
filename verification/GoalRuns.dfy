/**
 Whole runs over any number of goal stores: creation, every locked operation with any
 write outcome, inheritance between stores, and dropping a store.
 */
module GoalRuns {
  import opened Prelude
  import opened Goals

  datatype Op =
    | DoMutate(turn: Option<Turn>, change: Change<()>)
    | DoDefer
    | DoTurnStarted
    | DoEdit(ticket: Ticket, objective: string)
    | DoReplace(ticket: Ticket, goal: Goal)
    | DoClaim(ticket: Ticket, mode: Mode)
    | DoDisable(reason: string)
    | DoRestore(row: RowKey)

  type StoreId = nat

  datatype Event =
    | Create(id: StoreId)
    | Drop(id: StoreId)
    | Inherit(id: StoreId, from: StoreId)
    | Do(id: StoreId, op: Op, ok: bool)

  datatype World = World(stores: map<StoreId, Store>, env: Env)

  datatype Effect = Effect(store: Store, env: Env)

  ghost function Apply(op: Op, s: Store, env: Env, ok: bool): Effect {
    match op
    case DoMutate(turn, change) => var o := Mutate(s, env, turn, change, ok); Effect(o.store, o.env)
    case DoDefer => var o := Defer(s, env, ok); Effect(o.store, o.env)
    case DoTurnStarted => var o := RecordTurnStarted(s, env, ok); Effect(o.store, o.env)
    case DoEdit(t, text) => var o := EditObjective(s, env, t, text, ok); Effect(o.store, o.env)
    case DoReplace(t, g) => var o := ReplaceConfirmed(s, env, t, g, ok); Effect(o.store, o.env)
    case DoClaim(t, m) => var o := Claim(s, env, t, m, ok); Effect(o.store, o.env)
    case DoDisable(r) => var o := Disable(s, env, r); Effect(o.store, o.env)
    case DoRestore(k) => var o := Restore(s, env, k, ok); Effect(o.store, o.env)
  }

  ghost function Step(w: World, e: Event): World {
    match e
    case Create(id) =>
      if id in w.stores then w
      else World(w.stores[id := Store(None, InMemory, false, w.env.next, w.env.next + 1)],
                 w.env.(next := w.env.next + 2))
    case Drop(id) => w.(stores := w.stores - {id})
    case Inherit(id, from) =>
      if id in w.stores && from in w.stores then w.(stores := w.stores[id := w.stores[from]]) else w
    case Do(id, op, ok) =>
      if id !in w.stores then w
      else
        var r := Apply(op, w.stores[id], w.env, ok);
        World(w.stores[id := r.store], r.env)
  }

  ghost function Run(w: World, events: seq<Event>): World
    decreases |events|
  {
    if events == [] then w else Run(Step(w, events[0]), events[1..])
  }

  /** No store yet; the database may hold anything. */
  ghost predicate Initial(w: World) {
    w.stores == map[]
  }

  // ---------------------------------------------------------------------------
  // Inheriting in two critical sections
  // ---------------------------------------------------------------------------

  predicate Avoids(e: Event, t: StoreId) {
    match e
    case Create(id) => id != t
    case Drop(id) => id != t
    case Inherit(id, from) => id != t && from != t
    case Do(id, _, _) => id != t
  }

  lemma {:induction false} AvoidedStays(w: World, events: seq<Event>, t: StoreId)
    requires t in w.stores && forall e | e in events :: Avoids(e, t)
    ensures t in Run(w, events).stores && Run(w, events).stores[t] == w.stores[t]
    decreases |events|
  {
    if events != [] {
      assert events[0] in events;
      AvoidedStays(Step(w, events[0]), events[1..], t);
    }
  }

  /**
   The source copies the state under one lock and stores it under the other. A run in which other
   events come between the two is a run here too: the copy is a store `t` that nobody else uses.
   */
  lemma InheritInTwoSections(w: World, from: StoreId, middle: seq<Event>, id: StoreId, t: StoreId)
    requires from in w.stores && t !in w.stores && t != from && t != id
    requires forall e | e in middle :: Avoids(e, t)
    ensures var copied := Step(Step(w, Create(t)), Inherit(t, from));
            var before := Run(copied, middle);
            id in before.stores ==>
              && id in Step(before, Inherit(id, t)).stores
              && Step(before, Inherit(id, t)).stores[id] == w.stores[from]
  {
    AvoidedStays(Step(Step(w, Create(t)), Inherit(t, from)), middle, t);
  }

  // ---------------------------------------------------------------------------
  // Tokens determine state
  // ---------------------------------------------------------------------------

  /** The creation time of the goal a store holds; absent when it holds none. */
  function Created(s: Store): Option<nat> {
    if s.goal.Some? then Some(s.goal.value.createdAt) else None
  }

  /** What a shared token says about the two states that carry it. */
  predicate TokensAgree(s: Store, t: Store) {
    && (s.admission == t.admission ==> s == t)
    && (s.membership == t.membership ==> Created(s) == Created(t))
  }

  /** Every state of the earlier world agrees with every state of the later one. */
  ghost predicate Coherent(w: World, later: World) {
    && w.env.next <= later.env.next
    && (forall a | a in w.stores :: w.stores[a].admission < w.env.next && w.stores[a].membership < w.env.next)
    && (forall b | b in later.stores ::
          later.stores[b].admission < later.env.next && later.stores[b].membership < later.env.next)
    && (forall a, b | a in w.stores && b in later.stores :: TokensAgree(w.stores[a], later.stores[b]))
  }

  /** One operation either leaves the state alone or takes an admission token nobody has seen. */
  lemma ApplyIsFresh(op: Op, s: Store, env: Env, ok: bool)
    requires s.admission < env.next && s.membership < env.next
    ensures
      var r := Apply(op, s, env, ok);
      && env.next <= r.env.next
      && r.store.admission < r.env.next && r.store.membership < r.env.next
      && (r.store == s || r.store.admission >= env.next)
      && (r.store.membership >= env.next || (r.store.membership == s.membership && Created(r.store) == Created(s)))
  {
  }

  lemma CoherentStep(w: World, later: World, e: Event)
    requires Coherent(w, later)
    ensures Coherent(w, Step(later, e))
  {
    if e.Do? && e.id in later.stores {
      ApplyIsFresh(e.op, later.stores[e.id], later.env, e.ok);
    }
  }

  lemma {:induction false} CoherentRun(w: World, later: World, events: seq<Event>)
    requires Coherent(w, later)
    ensures Coherent(w, Run(later, events))
    decreases |events|
  {
    if events != [] {
      CoherentStep(w, later, events[0]);
      CoherentRun(w, Step(later, events[0]), events[1..]);
    }
  }

  /** Reachable worlds are coherent with themselves: two stores with one token agree. */
  lemma {:induction false} ReachableCoherent(w: World, events: seq<Event>)
    requires Coherent(w, w)
    ensures Coherent(Run(w, events), Run(w, events))
    decreases |events|
  {
    if events != [] {
      var next := Step(w, events[0]);
      CoherentStep(w, w, events[0]);
      if events[0].Do? && events[0].id in w.stores {
        ApplyIsFresh(events[0].op, w.stores[events[0].id], w.env, events[0].ok);
      }
      assert Coherent(next, next);
      ReachableCoherent(next, events[1..]);
    }
  }

  /**
   Admission tokens determine state.  Take any run, any store `a` in the middle of it and
   any store `b` at its end: if `b` still carries the admission token `a` had, then `b`
   is in exactly the state `a` was in.  Membership tokens determine the creation time.
   */
  lemma TokensDetermineState(w0: World, before: seq<Event>, after: seq<Event>, a: StoreId, b: StoreId)
    requires Initial(w0)
    requires a in Run(w0, before).stores && b in Run(Run(w0, before), after).stores
    ensures
      var early, late := Run(w0, before).stores[a], Run(Run(w0, before), after).stores[b];
      && (early.admission == late.admission ==> early == late)
      && (early.membership == late.membership ==> Created(early) == Created(late))
  {
    ReachableCoherent(w0, before);
    CoherentRun(Run(w0, before), Run(w0, before), after);
  }

  /**
   A ticket issued by `a` and presented to `b` later: a claim, edit or replacement that
   changes anything works on exactly the goal and flag the ticket was issued for.
   */
  lemma TicketNeverActsOnAChangedGoal(
    w0: World, before: seq<Event>, after: seq<Event>, a: StoreId, b: StoreId,
    ticket: Ticket, mode: Mode, objective: string, goal: Goal, ok: bool)
    requires Initial(w0)
    requires a in Run(w0, before).stores && b in Run(Run(w0, before), after).stores
    requires ResumeTicket(Run(w0, before).stores[a]) == Some(ticket)
    ensures
      var issued, w := Run(w0, before).stores[a], Run(Run(w0, before), after);
      var s := w.stores[b];
      && (Claim(s, w.env, ticket, mode, ok).reply != Ok(None) ==> s == issued)
      && (Claim(s, w.env, ticket, mode, ok).reply.Ok? && Claim(s, w.env, ticket, mode, ok).reply.value.Some? ==>
            Claim(s, w.env, ticket, mode, ok).reply.value == Some(Budgeted(issued.goal.value)))
      && (EditObjective(s, w.env, ticket, objective, ok).reply.Ok? ==>
            && s == issued
            && EditObjective(s, w.env, ticket, objective, ok).store.goal
               == Some(issued.goal.value.(objective := objective)))
      && (ReplaceConfirmed(s, w.env, ticket, goal, ok).reply.Ok? ==> s == issued)
  {
    TokensDetermineState(w0, before, after, a, b);
  }

  /**
   A turn begun in store `a` and accounted in store `b` later contributes its tokens only
   to a goal of the membership it began under, hence one created at the same time.
   */
  lemma TurnIsChargedToItsOwnGoal(
    w0: World, before: seq<Event>, after: seq<Event>, a: StoreId, b: StoreId, prior: U32)
    requires Initial(w0)
    requires a in Run(w0, before).stores && b in Run(Run(w0, before), after).stores
    ensures
      var began, s := Run(w0, before).stores[a], Run(Run(w0, before), after).stores[b];
      var turn := BeginTurn(began, prior);
      turn.Some? && PriorTokens(s, turn).Some? ==>
        && s.membership == began.membership
        && s.goal.Some? && s.goal.value.createdAt == began.goal.value.createdAt
        && PriorTokens(s, turn) == Some(prior)
  {
    TokensDetermineState(w0, before, after, a, b);
  }

  /** Editing the objective keeps the membership, so a running turn stays chargeable. */
  lemma EditKeepsMembership(s: Store, env: Env, ticket: Ticket, objective: string, ok: bool, turn: Option<Turn>)
    ensures
      var r := EditObjective(s, env, ticket, objective, ok);
      && r.store.membership == s.membership
      && Created(r.store) == Created(s)
      && PriorTokens(r.store, turn) == PriorTokens(s, turn)
  {
  }

  // ---------------------------------------------------------------------------
  // Memory equals disk
  // ---------------------------------------------------------------------------

  /** A durable store and its row hold the same goal and the same flag. */
  ghost predicate Agrees(s: Store, env: Env) {
    s.persistence.Durable? ==>
      var k := s.persistence.row;
      if s.goal.Some? then k in env.rows && env.rows[k] == StoredRow(s.goal.value, s.deferred)
      else k !in env.rows && !s.deferred
  }

  ghost predicate AllAgree(w: World) {
    forall a | a in w.stores :: Agrees(w.stores[a], w.env)
  }

  /** Two stores bound to one durable row. */
  predicate ShareRow(s: Store, t: Store) {
    s.persistence.Durable? && s.persistence == t.persistence
  }

  /** The acting store of every operation is the only live writer of its row. */
  ghost predicate SoleWriters(w: World, events: seq<Event>)
    decreases |events|
  {
    events != [] ==>
      && (events[0].Do? && events[0].id in w.stores ==>
            forall b | b in w.stores && b != events[0].id :: !ShareRow(w.stores[events[0].id], w.stores[b]))
      && SoleWriters(Step(w, events[0]), events[1..])
  }

  /** One operation, its write failing or not, keeps its store in agreement and touches no other row. */
  lemma ApplyAgrees(op: Op, s: Store, env: Env, ok: bool)
    requires Agrees(s, env)
    ensures Agrees(Apply(op, s, env, ok).store, Apply(op, s, env, ok).env)
    ensures forall k | s.persistence != Durable(k) ::
              (k in Apply(op, s, env, ok).env.rows <==> k in env.rows)
              && (k in env.rows ==> Apply(op, s, env, ok).env.rows[k] == env.rows[k])
  {
  }

  /** After every event of a sole-writer run, whatever writes failed, memory and disk agree. */
  lemma {:induction false} MemoryEqualsDisk(w: World, events: seq<Event>)
    requires AllAgree(w) && SoleWriters(w, events)
    ensures AllAgree(Run(w, events))
    decreases |events|
  {
    if events != [] {
      if events[0].Do? && events[0].id in w.stores {
        ApplyAgrees(events[0].op, w.stores[events[0].id], w.env, events[0].ok);
      }
      MemoryEqualsDisk(Step(w, events[0]), events[1..]);
    }
  }

  /** Hence, from an empty world, restoring the row of a live durable store yields that store's goal and flag. */
  lemma RestartRecoversMemory(w0: World, events: seq<Event>, a: StoreId, other: Store)
    requires Initial(w0) && SoleWriters(w0, events)
    requires a in Run(w0, events).stores && Run(w0, events).stores[a].persistence.Durable?
    ensures
      var w := Run(w0, events);
      var s := w.stores[a];
      var r := Restore(other, w.env, s.persistence.row, true);
      && (r.reply.Ok? ==> r.store.goal == s.goal && r.store.deferred == s.deferred)
      && (r.reply.Err? <==> s.goal.Some? && (Blank(s.goal.value.objective) || s.goal.value.tokenBudget == Some(0)))
  {
    MemoryEqualsDisk(w0, events);
  }

  /** The store is neither restored, nor overwritten by another one, nor dropped. */
  predicate LeavesDisabled(e: Event, a: StoreId) {
    match e
    case Do(id, op, _) => id == a ==> !op.DoRestore?
    case Inherit(id, _) => id != a
    case Drop(id) => id != a
    case Create(_) => true
  }

  /** No event of the run that acts on the store writes a row. */
  ghost predicate WritesNothing(w: World, events: seq<Event>, a: StoreId)
    decreases |events|
  {
    events != [] ==>
      && (events[0].Do? && events[0].id == a ==> Step(w, events[0]).env.rows == w.env.rows)
      && WritesNothing(Step(w, events[0]), events[1..], a)
  }

  /**
   Once persistence is disabled, and whatever other stores do in between, no operation but a
   restore or an inheritance shows a goal in that store again or lets it write a row.
   */
  lemma {:induction false} DisabledStaysEmpty(w: World, events: seq<Event>, a: StoreId)
    requires a in w.stores && w.stores[a].persistence.Unavailable? && w.stores[a].goal.None?
    requires forall e | e in events :: LeavesDisabled(e, a)
    ensures
      var z := Run(w, events);
      a in z.stores && z.stores[a].persistence.Unavailable? && z.stores[a].goal.None?
    ensures WritesNothing(w, events, a)
    decreases |events|
  {
    if events != [] {
      assert events[0] in events;
      var next := Step(w, events[0]);
      assert a in next.stores && next.stores[a].persistence.Unavailable? && next.stores[a].goal.None?;
      DisabledStaysEmpty(next, events[1..], a);
    }
  }
}
