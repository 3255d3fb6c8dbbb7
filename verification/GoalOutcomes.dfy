/**
 What every operation of a goal store answers and leaves behind, told by the fields a caller can
 see beforehand, and what a restored store does to its row from then on.
 */
module GoalOutcomes {
  import opened Prelude
  import opened Goals
  import opened GoalRuns

  /** What the store has to write can be written. */
  predicate Writable(s: Store, ok: bool) {
    s.persistence.InMemory? || (s.persistence.Durable? && ok)
  }

  predicate IsSpent(g: Goal) {
    g.tokenBudget.Some? && g.tokenBudget.value <= g.tokensUsed
  }

  predicate MayContinue(s: Store, ticket: Ticket, mode: Mode) {
    && ticket == s.admission
    && s.goal.Some?
    && !(mode == Automatic && s.deferred)
    && (s.goal.value.status == Pursuing || (s.goal.value.status == BudgetLimited && mode == Requested))
  }

  /** Admitting lifts a deferral, and turns a spent goal budget-limited: both are written first. */
  predicate MustWrite(s: Store) {
    s.deferred || (s.goal.Some? && s.goal.value.status == Pursuing && IsSpent(s.goal.value))
  }

  /**
   A claim is admitted if and only if its ticket is current, there is a goal, an automatic claim
   meets no deferral, the goal is pursuing, or budget-limited and requested, and what must be
   written can be.
   */
  lemma ClaimAdmitsIff(s: Store, env: Env, ticket: Ticket, mode: Mode, ok: bool)
    ensures
      var r := Claim(s, env, ticket, mode, ok);
      && (r.reply.Ok? && r.reply.value.Some? <==> MayContinue(s, ticket, mode) && (MustWrite(s) ==> Writable(s, ok)))
      && (r.reply == Ok(None) <==> !MayContinue(s, ticket, mode))
      && (r.reply.Ok? && r.reply.value.Some? ==>
            && r.reply.value.value
               == s.goal.value.(status := if IsSpent(s.goal.value) then BudgetLimited else s.goal.value.status)
            && r.store == s.(goal := r.reply.value, deferred := false, admission := env.next))
      && (!(r.reply.Ok? && r.reply.value.Some?) ==> r.store == s && r.env == env)
  {
  }

  /** The goal stays the same one: same objective and creation time, and a complete one is not revived. */
  predicate Continued(before: Option<Goal>, after: Option<Goal>) {
    && before.Some? && after.Some?
    && before.value.objective == after.value.objective
    && before.value.createdAt == after.value.createdAt
    && (before.value.status == Complete ==> after.value.status != Pursuing)
  }

  /** The tokens a turn brings along reach the change exactly when the membership has not moved. */
  function Offered(s: Store, turn: Option<Turn>): Option<U32> {
    match turn
    case Some(Turn(membership, prior)) => if membership == s.membership then Some(prior) else None
    case None => None
  }

  /**
   A mutation takes effect if and only if the change accepts and, when it changes something, the
   write succeeds. The deferral survives exactly in the same goal, which also keeps its membership.
   */
  lemma MutationTakesEffectIff<R>(s: Store, env: Env, turn: Option<Turn>, change: Change<R>, ok: bool)
    requires s.admission < env.next && s.membership < env.next
    ensures
      var r, c := Mutate(s, env, turn, change, ok), change(s.goal, Offered(s, turn));
      && (r.reply.Ok? <==> c.Accept? && (c.next != s.goal ==> Writable(s, ok)))
      && (r.reply.Ok? ==> r.reply.value == c.reply && r.store.goal == c.next)
      && (r.reply.Ok? && c.next != s.goal ==>
            && r.store.admission != s.admission
            && (r.store.membership == s.membership <==> Continued(s.goal, c.next))
            && (r.store.deferred <==> s.deferred && Continued(s.goal, c.next)))
      && (r.reply.Err? || c.next == s.goal ==> r.store == s && r.env == env)
  {
  }

  /** A deferral takes effect whenever there is a goal to defer and the flag can be written. */
  lemma DeferralTakesEffectIff(s: Store, env: Env, ok: bool)
    requires s.admission < env.next
    ensures
      var r := Defer(s, env, ok);
      && (r.store.deferred <==> s.deferred || (s.goal.Some? && Writable(s, ok)))
      && (r.reply.Err? <==> s.goal.Some? && !s.deferred && !Writable(s, ok))
      && r.store.goal == s.goal && r.store.membership == s.membership && r.store.admission != s.admission
  {
  }

  /** A turn that starts lifts a deferral unless that cannot be written. */
  lemma TurnStartTakesEffectIff(s: Store, env: Env, ok: bool)
    requires s.admission < env.next
    ensures
      var r := RecordTurnStarted(s, env, ok);
      && (r.store.deferred <==> s.deferred && !Writable(s, ok))
      && (r.reply.Err? <==> s.deferred && !Writable(s, ok))
      && r.store.goal == s.goal && r.store.membership == s.membership && r.store.admission != s.admission
  {
  }

  /** A turn counts for the goal exactly when there is one to pursue; a ticket needs any goal. */
  lemma TurnBeginsIff(s: Store, prior: U32)
    ensures BeginTurn(s, prior).Some? <==> s.goal.Some? && s.goal.value.status == Pursuing
    ensures BeginTurn(s, prior).Some? ==> Offered(s, BeginTurn(s, prior)) == Some(prior)
    ensures ResumeTicket(s) == Some(s.admission) <==> s.goal.Some?
  {
  }

  lemma EditTakesEffectIff(s: Store, env: Env, ticket: Ticket, objective: string, ok: bool)
    requires s.admission < env.next
    ensures
      var r := EditObjective(s, env, ticket, objective, ok);
      && (r.reply.Ok? <==>
            && ticket == s.admission && s.goal.Some? && Writable(s, ok)
            && exists c | c in objective :: !IsWhitespace(c))
      && (r.reply.Ok? ==>
            && r.store.goal == Some(s.goal.value.(objective := objective))
            && r.store.deferred == s.deferred
            && r.store.membership == s.membership && r.store.admission != s.admission)
      && (r.reply.Err? ==> r.store == s && r.env == env)
  {
  }

  lemma ReplaceTakesEffectIff(s: Store, env: Env, ticket: Ticket, goal: Goal, ok: bool)
    requires s.admission < env.next && s.membership < env.next
    ensures
      var r := ReplaceConfirmed(s, env, ticket, goal, ok);
      && (r.reply.Ok? <==> ticket == s.admission && Writable(s, ok))
      && (r.reply.Ok? ==>
            && r.store.goal == Some(goal) && !r.store.deferred
            && r.store.membership != s.membership && r.store.admission != s.admission)
      && (r.reply.Err? ==> r.store == s && r.env == env)
  {
  }

  /** Disabling empties the store, invalidates ticket and turn, and leaves what is on disk. */
  lemma DisableTakesEffect(s: Store, env: Env, reason: string, op: Op, ok: bool)
    requires s.admission < env.next && s.membership < env.next
    ensures
      var r := Disable(s, env, reason);
      && r.store.goal.None? && r.env.rows == env.rows
      && r.store.membership != s.membership && r.store.admission != s.admission
      && (!op.DoRestore? ==>
            Apply(op, r.store, r.env, ok).store.goal.None? && Apply(op, r.store, r.env, ok).env.rows == env.rows)
  {
  }

  /** A row is restored exactly when it can be read and is absent or well formed. */
  lemma RestoreTakesEffectIff(s: Store, env: Env, k: RowKey, ok: bool)
    requires s.admission < env.next && s.membership < env.next
    ensures
      var r := Restore(s, env, k, ok);
      && (r.reply.Ok? <==>
            ok && (k in env.rows ==>
                     && env.rows[k] != Malformed
                     && (exists c | c in env.rows[k].goal.objective :: !IsWhitespace(c))
                     && env.rows[k].goal.tokenBudget != Some(0)))
      && (r.reply.Ok? ==>
            && r.reply.value == r.store.goal && r.env.rows == env.rows
            && (k in env.rows ==> env.rows[k] == StoredRow(r.store.goal.GetOr(env.rows[k].goal), r.store.deferred))
            && (r.store.goal.Some? <==> k in env.rows) && (k !in env.rows ==> !r.store.deferred)
            && r.store.membership != s.membership && r.store.admission != s.admission)
      && (r.reply.Err? ==> r.store == s && r.env == env)
  {
  }

  // ---------------------------------------------------------------------------
  // A restored store writes its row
  // ---------------------------------------------------------------------------

  /** The row holds goal and flag of the store, or is absent for no goal. */
  predicate RowIs(env: Env, k: RowKey, s: Store) {
    if s.goal.Some? then k in env.rows && env.rows[k] == StoredRow(s.goal.value, s.deferred) else k !in env.rows
  }

  lemma RestoredStoreIsBound(other: Store, env: Env, k: RowKey, ok: bool)
    requires Restore(other, env, k, ok).reply.Ok?
    ensures
      var r := Restore(other, env, k, ok);
      r.store.persistence == Durable(k) && Agrees(r.store, r.env)
  {
  }

  /** The very next operation writes the row of the thread restored, if it writes at all. */
  lemma RestoredStoreWritesItsRow(other: Store, env: Env, k: RowKey, ok: bool, op: Op, ok': bool)
    requires Restore(other, env, k, ok).reply.Ok? && !op.DoRestore? && !op.DoDisable?
    ensures
      var restored := Restore(other, env, k, ok);
      var after := Apply(op, restored.store, restored.env, ok');
      RowIs(after.env, k, after.store)
  {
    RestoredStoreIsBound(other, env, k, ok);
    ApplyAgrees(op, Restore(other, env, k, ok).store, Restore(other, env, k, ok).env, ok');
  }

  /** The store is neither bound elsewhere, nor disabled, nor overwritten, nor dropped. */
  predicate LeavesBound(e: Event, a: StoreId) {
    match e
    case Do(id, op, _) => id == a ==> !op.DoRestore? && !op.DoDisable?
    case Inherit(id, _) => id != a
    case Drop(id) => id != a
    case Create(_) => true
  }

  lemma OtherRowsStay(op: Op, s: Store, env: Env, ok: bool, k: RowKey)
    requires s.persistence != Durable(k)
    ensures k in Apply(op, s, env, ok).env.rows <==> k in env.rows
    ensures k in env.rows ==> Apply(op, s, env, ok).env.rows[k] == env.rows[k]
  {
  }

  /** One event of the run: the store itself acts, or somebody who writes another row. */
  lemma BoundStoreStep(w: World, e: Event, a: StoreId, k: RowKey)
    requires a in w.stores && w.stores[a].persistence == Durable(k) && Agrees(w.stores[a], w.env)
    requires e.Do? && e.id in w.stores && e.id != a ==> w.stores[e.id].persistence != Durable(k)
    requires LeavesBound(e, a)
    ensures
      var next := Step(w, e);
      a in next.stores && next.stores[a].persistence == Durable(k) && Agrees(next.stores[a], next.env)
  {
    if e.Do? && e.id in w.stores {
      if e.id == a {
        ApplyAgrees(e.op, w.stores[a], w.env, e.ok);
      } else {
        OtherRowsStay(e.op, w.stores[e.id], w.env, e.ok, k);
      }
    }
  }

  lemma {:induction false} BoundStoreFollows(w: World, events: seq<Event>, a: StoreId, k: RowKey)
    requires a in w.stores && w.stores[a].persistence == Durable(k) && Agrees(w.stores[a], w.env)
    requires SoleWriters(w, events) && forall e | e in events :: LeavesBound(e, a)
    ensures
      var z := Run(w, events);
      a in z.stores && z.stores[a].persistence == Durable(k) && Agrees(z.stores[a], z.env)
    decreases |events|
  {
    if events != [] {
      var e := events[0];
      assert e in events;
      if e.Do? && e.id in w.stores && e.id != a {
        assert !ShareRow(w.stores[e.id], w.stores[a]);
      }
      BoundStoreStep(w, e, a, k);
      BoundStoreFollows(Step(w, e), events[1..], a, k);
    }
  }

  /**
   From a restore of thread `k` on, and however its writes end, the row of `k` is at every moment
   what the store holds in memory, as long as nobody else writes that row.
   */
  lemma RestoredRowFollows(w: World, a: StoreId, k: RowKey, events: seq<Event>)
    requires a in w.stores && Restore(w.stores[a], w.env, k, true).reply.Ok?
    requires SoleWriters(Step(w, Do(a, DoRestore(k), true)), events)
    requires forall e | e in events :: LeavesBound(e, a)
    ensures
      var z := Run(Step(w, Do(a, DoRestore(k), true)), events);
      a in z.stores && RowIs(z.env, k, z.stores[a])
  {
    RestoredStoreIsBound(w.stores[a], w.env, k, true);
    BoundStoreFollows(Step(w, Do(a, DoRestore(k), true)), events, a, k);
  }
}
