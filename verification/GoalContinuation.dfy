/**
 Continuing a goal across turns: token accounting and the budget decision of
 `RuntimeClient::continue_goal`, and what automatic continuation may do over runs.
 */
module GoalContinuation {
  import opened Prelude
  import opened Goals
  import opened GoalRuns
  import opened GoalOutcomes

  datatype Continuation = NotActive | Continue(goal: Goal) | Exhausted(goal: Goal)

  /** What the agent reports when a turn has completed. */
  datatype TurnEnd = TurnEnd(
    totalInputTokens: U32,
    planTurnFinished: bool,
    interactionPending: bool,
    userInputPending: bool,
    approvalPending: bool)

  function TurnDelta(end: TurnEnd, prior: U32): U32 {
    SaturatingSub32(end.totalInputTokens, prior)
  }

  function Charged(g: Goal, end: TurnEnd, prior: Option<U32>): Goal {
    if prior.None? then g
    else g.(tokensUsed := SaturatingAdd32(g.tokensUsed, TurnDelta(end, prior.value)),
            turnsCompleted := SaturatingAdd32(g.turnsCompleted, 1))
  }

  function AccountTurn(end: TurnEnd): Change<Continuation> {
    (stored: Option<Goal>, prior: Option<U32>) =>
      if stored.None? then Accept(None, NotActive)
      else
        var g := Charged(stored.value, end, prior);
        if g.status != Pursuing || end.planTurnFinished || end.interactionPending
           || end.userInputPending || end.approvalPending
        then Accept(Some(g), NotActive)
        else if OverBudget(g) then
          var limited := g.(status := BudgetLimited);
          Accept(Some(limited), Exhausted(limited))
        else Accept(Some(g), Continue(g))
  }

  /** The deferral flag is read after the mutation and suppresses the continuation. */
  function ContinueGoal(s: Store, env: Env, turn: Option<Turn>, end: TurnEnd, ok: bool): Outcome<Continuation> {
    var o := Mutate(s, env, turn, AccountTurn(end), ok);
    if o.reply.Ok? && o.store.deferred then o.(reply := Ok(NotActive)) else o
  }

  method ContinueStoredGoal(store: GoalStore, turn: Option<Turn>, end: TurnEnd, ok: bool)
    returns (reply: Result<Continuation>)
    modifies store, store.shared
    ensures Outcome(store.View(), store.shared.View(), reply)
         == ContinueGoal(old(store.View()), old(store.shared.View()), turn, end, ok)
  {
    reply := store.MutateForTurn(turn, AccountTurn(end), ok);
    if reply.Ok? && store.deferred {
      reply := Ok(NotActive);
    }
  }

  // ---------------------------------------------------------------------------
  // Single operations
  // ---------------------------------------------------------------------------

  /**
   A claim that admits a goal consumes its ticket; one that fails to write leaves the
   ticket, the state and every row intact.  A goal admitted as pursuing is within budget.
   */
  lemma ClaimIsSafe(s: Store, env: Env, ticket: Ticket, mode: Mode, ok: bool)
    requires s.admission < env.next
    ensures
      var r := Claim(s, env, ticket, mode, ok);
      && (r.reply.Err? ==> r.store == s && r.env == env && s.admission == ticket)
      && (r.reply == Ok(None) ==> r.store == s && r.env == env)
      && (r.reply.Ok? && r.reply.value.Some? ==>
            && s.admission == ticket && r.store.admission != ticket
            && r.store.goal == r.reply.value && !r.store.deferred
            && (forall later: Mode, ok' :: Claim(r.store, r.env, ticket, later, ok').reply == Ok(None))
            && (r.reply.value.value.status == Pursuing ==> !OverBudget(r.reply.value.value))
            && (mode == Automatic ==>
                  (r.reply.value.value.status == BudgetLimited <==> OverBudget(r.reply.value.value))))
  {
  }

  /** Operations that lift a standing deferral, by the guards a caller can see. */
  ghost predicate Clears(op: Op, s: Store, env: Env, ok: bool) {
    var writable := Writable(s, ok);
    match op
    case DoTurnStarted => writable
    case DoClaim(t, mode) => writable && mode == Requested && MayContinue(s, t, mode)
    case DoReplace(t, _) => writable && t == s.admission
    case DoMutate(turn, change) =>
      var r := change(s.goal, Offered(s, turn));
      writable && r.Accept? && r.next != s.goal && !Continued(s.goal, r.next)
    case DoRestore(k) => ok && Restorable(env.rows, k) && !(k in env.rows && env.rows[k].deferred)
    case _ => false
  }

  /** A deferral ends exactly with a clearing operation. */
  lemma DeferralEndsExactlyByClearing(op: Op, s: Store, env: Env, ok: bool)
    requires s.deferred
    ensures !Apply(op, s, env, ok).store.deferred <==> Clears(op, s, env, ok)
  {
  }

  /** Events of a run that lift the deferral of store `a`, or remove the store. */
  ghost predicate ClearsIn(w: World, e: Event, a: StoreId)
    requires a in w.stores
  {
    match e
    case Do(id, op, ok) => id == a && Clears(op, w.stores[a], w.env, ok)
    case Inherit(id, from) => id == a && from in w.stores && !w.stores[from].deferred
    case Drop(id) => id == a
    case Create(_) => false
  }

  ghost predicate StaysDeferred(w: World, a: StoreId) {
    a in w.stores && w.stores[a].deferred
  }

  /** In a run of many stores a deferral ends exactly with such an event. */
  lemma DeferralEndsExactlyIn(w: World, e: Event, a: StoreId)
    requires StaysDeferred(w, a)
    ensures !StaysDeferred(Step(w, e), a) <==> ClearsIn(w, e, a)
  {
    if e.Do? && e.id == a {
      DeferralEndsExactlyByClearing(e.op, w.stores[a], w.env, e.ok);
    }
  }

  ghost predicate NeverClears(w: World, events: seq<Event>, a: StoreId)
    requires a in w.stores
    decreases |events|
  {
    events != [] ==>
      && !ClearsIn(w, events[0], a)
      && a in Step(w, events[0]).stores
      && NeverClears(Step(w, events[0]), events[1..], a)
  }

  /**
   A deferred goal is not admitted automatically, with any ticket, until something clears it,
   whatever other stores do, write or inherit in between.
   */
  lemma {:induction false} DeferredGoalIsNotAdmitted(
    w: World, events: seq<Event>, a: StoreId, ticket: Ticket, ok: bool)
    requires StaysDeferred(w, a) && NeverClears(w, events, a)
    ensures
      var z := Run(w, events);
      && StaysDeferred(z, a)
      && Claim(z.stores[a], z.env, ticket, Automatic, ok) == Outcome(z.stores[a], z.env, Ok(None))
    decreases |events|
  {
    if events != [] {
      DeferralEndsExactlyIn(w, events[0], a);
      DeferredGoalIsNotAdmitted(Step(w, events[0]), events[1..], a, ticket, ok);
    }
  }

  /** The accounting step charges exactly the turn's own delta, or nothing at all. */
  lemma ContinueChargesTheTurn(s: Store, env: Env, turn: Option<Turn>, end: TurnEnd, ok: bool)
    ensures
      var r := ContinueGoal(s, env, turn, end, ok);
      && (r.reply.Err? ==> r.store == s && r.env == env)
      && (r.reply.Ok? ==>
            && Created(r.store) == Created(s)
            && r.store.membership == s.membership && r.store.deferred == s.deferred)
      && (r.reply.Ok? && s.goal.Some? ==>
            r.store.goal.value.tokensUsed ==
              if PriorTokens(s, turn).Some?
              then SaturatingAdd32(s.goal.value.tokensUsed, TurnDelta(end, turn.value.priorInputTokens))
              else s.goal.value.tokensUsed)
      && (s.goal.Some? ==>
            && r.store.goal.Some? && r.store.goal.value.tokenBudget == s.goal.value.tokenBudget
            && (r.store.goal.value.status == s.goal.value.status
                || (s.goal.value.status == Pursuing && r.store.goal.value.status == BudgetLimited)))
      && (r.reply.Ok? && r.reply.value.Continue? ==>
            && r.store.goal == Some(r.reply.value.goal)
            && r.reply.value.goal.status == Pursuing && !OverBudget(r.reply.value.goal))
      && (r.reply.Ok? && r.reply.value.Exhausted? ==>
            && r.store.goal == Some(r.reply.value.goal)
            && r.reply.value.goal.status == BudgetLimited && OverBudget(r.reply.value.goal))
  {
  }

  function Used(g: Goal, end: TurnEnd, prior: Option<U32>): U32 {
    if prior.None? || end.totalInputTokens <= prior.value then g.tokensUsed
    else if g.tokensUsed + end.totalInputTokens - prior.value >= U32_MAX then U32_MAX
    else g.tokensUsed + end.totalInputTokens - prior.value
  }

  /** Nothing waits for the user, and the goal is pursued. */
  predicate GoesOn(s: Store, end: TurnEnd) {
    && s.goal.Some? && s.goal.value.status == Pursuing
    && !end.planTurnFinished && !end.interactionPending && !end.userInputPending && !end.approvalPending
  }

  /** The goal after the turn: charged, and budget-limited if it would go on and the budget is spent. */
  function AccountedGoal(s: Store, turn: Option<Turn>, end: TurnEnd): Goal
    requires s.goal.Some?
  {
    var g, prior := s.goal.value, Offered(s, turn);
    var turns := if prior.None? || g.turnsCompleted == U32_MAX then g.turnsCompleted else g.turnsCompleted + 1;
    var charged := g.(tokensUsed := Used(g, end, prior), turnsCompleted := turns);
    charged.(status := if GoesOn(s, end) && IsSpent(charged) then BudgetLimited else g.status)
  }

  lemma AccountedChange(s: Store, turn: Option<Turn>, end: TurnEnd)
    requires s.goal.Some?
    ensures
      var g := AccountedGoal(s, turn, end);
      && AccountTurn(end)(s.goal, PriorTokens(s, turn))
         == Accept(Some(g), if !GoesOn(s, end) then NotActive else if IsSpent(g) then Exhausted(g) else Continue(g))
      && SameGoal(s.goal, Some(g))
  {
  }

  /**
   What a turn's end leads to: the goal goes on if and only if it is pursued, not deferred, and
   nothing waits for the user; it is exhausted exactly when the charged turn reached the budget.
   */
  lemma ContinueAnswersIff(s: Store, env: Env, turn: Option<Turn>, end: TurnEnd, ok: bool)
    ensures
      var r := ContinueGoal(s, env, turn, end, ok);
      && (r.reply.Err? <==> s.goal.Some? && AccountedGoal(s, turn, end) != s.goal.value && !Writable(s, ok))
      && (r.reply.Ok? ==> r.store.goal == if s.goal.Some? then Some(AccountedGoal(s, turn, end)) else None)
      && (r.reply.Ok? ==>
            r.reply.value
            == if !GoesOn(s, end) || s.deferred then NotActive
               else if IsSpent(AccountedGoal(s, turn, end)) then Exhausted(AccountedGoal(s, turn, end))
               else Continue(AccountedGoal(s, turn, end)))
  {
    if s.goal.Some? {
      AccountedChange(s, turn, end);
    }
  }

  // ---------------------------------------------------------------------------
  // Automatic runs
  // ---------------------------------------------------------------------------

  /** A turn starts only once a continuation has been admitted. */
  datatype Phase = Idle | Admitted | InTurn(turn: Option<Turn>)

  /** `deltas` and `exhausted` are history: tokens charged so far, admissions returned as over budget. */
  datatype Auto = Auto(store: Store, env: Env, phase: Phase, deltas: seq<U32>, exhausted: nat)

  datatype AutoEvent =
    | ClaimNext(ok: bool)
    | StartTurn(totalInputTokens: U32, ok: bool)
    | FinishTurn(end: TurnEnd, ok: bool)
    | Interrupt(ok: bool)

  ghost function AutoStep(a: Auto, e: AutoEvent): Auto {
    match e
    case ClaimNext(ok) =>
      if !a.phase.Idle? || ResumeTicket(a.store).None? then a
      else
        var r := Claim(a.store, a.env, ResumeTicket(a.store).value, Automatic, ok);
        if r.reply.Ok? && r.reply.value.Some? then
          a.(store := r.store, env := r.env, phase := Admitted,
             exhausted := a.exhausted + if r.reply.value.value.status == BudgetLimited then 1 else 0)
        else a.(store := r.store, env := r.env)
    case StartTurn(total, ok) =>
      if !a.phase.Admitted? then a
      else
        var r := RecordTurnStarted(a.store, a.env, ok);
        a.(store := r.store, env := r.env, phase := InTurn(BeginTurn(r.store, total)))
    case FinishTurn(end, ok) =>
      if !a.phase.InTurn? then a
      else
        var r := ContinueGoal(a.store, a.env, a.phase.turn, end, ok);
        var prior := PriorTokens(a.store, a.phase.turn);
        var charged := r.reply.Ok? && prior.Some? && a.store.goal.Some?;
        a.(store := r.store, env := r.env,
           phase := if r.reply.Ok? && !r.reply.value.NotActive? then Admitted else Idle,
           deltas := if charged then a.deltas + [TurnDelta(end, prior.value)] else a.deltas,
           exhausted := a.exhausted + if r.reply.Ok? && r.reply.value.Exhausted? then 1 else 0)
    case Interrupt(ok) =>
      var r := Defer(a.store, a.env, ok);
      a.(store := r.store, env := r.env)
  }

  ghost function AutoRun(a: Auto, events: seq<AutoEvent>): Auto
    decreases |events|
  {
    if events == [] then a else AutoRun(AutoStep(a, events[0]), events[1..])
  }

  function Total(deltas: seq<U32>): nat {
    if deltas == [] then 0 else Total(deltas[..|deltas| - 1]) + deltas[|deltas| - 1]
  }

  function Saturated(n: nat): U32 {
    if n <= U32_MAX then n else U32_MAX
  }

  /** Tokens used are the saturating sum of the charges, and overshoot the budget by less than the last of them. */
  predicate Spent(used: U32, budget: Option<U32>, deltas: seq<U32>, start: U32) {
    && used == Saturated(start + Total(deltas))
    && (budget.Some? && deltas != [] ==> used < budget.value + deltas[|deltas| - 1])
  }

  /** The standing facts of an automatic run that began with `start` tokens on the goal. */
  ghost predicate AutoInvariant(a: Auto, start: U32) {
    a.store.goal.Some? &&
    var g := a.store.goal.value;
    && Spent(g.tokensUsed, g.tokenBudget, a.deltas, start)
    && a.exhausted <= 1
    && (a.exhausted == 1 ==> g.status == BudgetLimited)
    && (a.phase.Admitted? && g.status == Pursuing ==> !OverBudget(g))
    && (a.phase.InTurn? && a.phase.turn.Some? ==>
          && g.status == Pursuing && !OverBudget(g)
          && a.phase.turn.value.membership == a.store.membership)
  }

  lemma AdmissionKeepsInvariant(a: Auto, e: AutoEvent, start: U32)
    requires AutoInvariant(a, start) && (e.ClaimNext? || e.Interrupt?)
    ensures AutoInvariant(AutoStep(a, e), start)
    ensures AutoStep(a, e).store.goal.value.tokenBudget == a.store.goal.value.tokenBudget
  {
  }

  lemma StartKeepsInvariant(a: Auto, e: AutoEvent, start: U32)
    requires AutoInvariant(a, start) && e.StartTurn?
    ensures AutoInvariant(AutoStep(a, e), start)
    ensures AutoStep(a, e).store.goal.value.tokenBudget == a.store.goal.value.tokenBudget
  {
  }

  /** A turn charged on top of usage still within budget overshoots by less than itself. */
  lemma ChargeKeepsSpent(used: U32, budget: Option<U32>, deltas: seq<U32>, start: U32, d: U32)
    requires Spent(used, budget, deltas, start) && (budget.Some? ==> used < budget.value)
    ensures Spent(SaturatingAdd32(used, d), budget, deltas + [d], start)
  {
  }

  lemma FinishKeepsInvariant(a: Auto, end: TurnEnd, ok: bool, start: U32)
    requires AutoInvariant(a, start) && a.phase.InTurn?
    ensures AutoInvariant(AutoStep(a, FinishTurn(end, ok)), start)
    ensures AutoStep(a, FinishTurn(end, ok)).store.goal.value.tokenBudget == a.store.goal.value.tokenBudget
  {
    ContinueChargesTheTurn(a.store, a.env, a.phase.turn, end, ok);
    var prior, g := PriorTokens(a.store, a.phase.turn), a.store.goal.value;
    if prior.Some? {
      ChargeKeepsSpent(g.tokensUsed, g.tokenBudget, a.deltas, start, TurnDelta(end, prior.value));
    }
  }

  lemma AutoStepKeepsInvariant(a: Auto, e: AutoEvent, start: U32)
    requires AutoInvariant(a, start)
    ensures AutoInvariant(AutoStep(a, e), start)
    ensures AutoStep(a, e).store.goal.value.tokenBudget == a.store.goal.value.tokenBudget
  {
    match e
    case ClaimNext(_) => AdmissionKeepsInvariant(a, e, start);
    case Interrupt(_) => AdmissionKeepsInvariant(a, e, start);
    case StartTurn(_, _) => StartKeepsInvariant(a, e, start);
    case FinishTurn(end, ok) =>
      if a.phase.InTurn? { FinishKeepsInvariant(a, end, ok, start); }
  }

  /**
   Automatic continuation over whole runs: the tokens on the goal are the saturating sum of
   the charged turns, they exceed the budget by less than the last charged turn, and the
   over-budget wrap-up is admitted at most once.
   */
  lemma {:induction false} AutomaticRunRespectsBudget(a: Auto, events: seq<AutoEvent>, start: U32)
    requires AutoInvariant(a, start)
    ensures
      var z := AutoRun(a, events);
      && z.store.goal.Some?
      && z.store.goal.value.tokenBudget == a.store.goal.value.tokenBudget
      && z.store.goal.value.tokensUsed == Saturated(start + Total(z.deltas))
      && (z.store.goal.value.tokenBudget.Some? && z.deltas != [] ==>
            z.store.goal.value.tokensUsed < z.store.goal.value.tokenBudget.value + z.deltas[|z.deltas| - 1])
      && z.exhausted <= 1
    decreases |events|
  {
    if events != [] {
      AutoStepKeepsInvariant(a, events[0], start);
      AutomaticRunRespectsBudget(AutoStep(a, events[0]), events[1..], start);
    }
  }

  /** Every idle store with a goal is a legal start, whatever it has already spent. */
  lemma AutomaticRunFromIdle(s: Store, env: Env, events: seq<AutoEvent>)
    requires s.goal.Some?
    ensures
      var z := AutoRun(Auto(s, env, Idle, [], 0), events);
      && z.store.goal.Some?
      && z.exhausted <= 1
      && z.store.goal.value.tokenBudget == s.goal.value.tokenBudget
      && z.store.goal.value.tokensUsed == Saturated(s.goal.value.tokensUsed + Total(z.deltas))
      && (z.store.goal.value.tokenBudget.Some? && z.deltas != [] ==>
            z.store.goal.value.tokensUsed < z.store.goal.value.tokenBudget.value + z.deltas[|z.deltas| - 1])
  {
    AutomaticRunRespectsBudget(Auto(s, env, Idle, [], 0), events, s.goal.value.tokensUsed);
  }

  // ---------------------------------------------------------------------------
  // Progress
  // ---------------------------------------------------------------------------

  /** A turn nobody interrupts: the agent's input tokens when it starts and when it ends. */
  datatype CleanTurn = CleanTurn(from: U32, to: U32) {
    function Delta(): U32 { SaturatingSub32(to, from) }
  }

  ghost function AfterTurn(a: Auto, t: CleanTurn): Auto {
    AutoStep(AutoStep(a, StartTurn(t.from, true)), FinishTurn(TurnEnd(t.to, false, false, false, false), true))
  }

  ghost function AfterTurns(a: Auto, turns: seq<CleanTurn>): Auto {
    if turns == [] then a else AfterTurn(AfterTurns(a, turns[..|turns| - 1]), turns[|turns| - 1])
  }

  function Deltas(turns: seq<CleanTurn>): (deltas: seq<U32>)
    ensures |deltas| == |turns|
  {
    if turns == [] then [] else Deltas(turns[..|turns| - 1]) + [turns[|turns| - 1].Delta()]
  }

  /** Whether the turns so far have used up the budget. */
  predicate Exceeds(g: Goal, turns: seq<CleanTurn>) {
    g.tokenBudget.Some? && g.tokenBudget.value <= Saturated(g.tokensUsed + Total(Deltas(turns)))
  }

  /** The goal is pursued, nothing defers it, and what it writes can be written. */
  predicate Ready(s: Store) {
    s.goal.Some? && s.goal.value.status == Pursuing && !s.deferred && !s.persistence.Unavailable?
  }

  /** Admitted and within budget, a turn is charged and the next one admitted, once more when it spends the rest. */
  lemma PursuedTurn(a: Auto, t: CleanTurn)
    requires a.phase.Admitted? && Ready(a.store) && !IsSpent(a.store.goal.value)
    ensures
      var z, used := AfterTurn(a, t), SaturatingAdd32(a.store.goal.value.tokensUsed, t.Delta());
      var spent := a.store.goal.value.tokenBudget.Some? && a.store.goal.value.tokenBudget.value <= used;
      && z.phase.Admitted? && z.deltas == a.deltas + [t.Delta()]
      && !z.store.deferred && !z.store.persistence.Unavailable?
      && z.store.goal.Some? && z.store.goal.value.tokensUsed == used
      && z.store.goal.value.tokenBudget == a.store.goal.value.tokenBudget
      && z.store.goal.value.status == (if spent then BudgetLimited else Pursuing)
      && z.exhausted == a.exhausted + if spent then 1 else 0
  {
  }

  /** The wrap-up turn of a spent goal is not charged and admits no other. */
  lemma WrapUpTurn(a: Auto, t: CleanTurn)
    requires a.phase.Admitted? && a.store.goal.Some? && a.store.goal.value.status == BudgetLimited
    requires !a.store.deferred && !a.store.persistence.Unavailable?
    ensures
      var z := AfterTurn(a, t);
      && z.phase.Idle? && z.deltas == a.deltas && z.exhausted == a.exhausted && z.store.goal == a.store.goal
  {
  }

  lemma SaturatedSum(used: U32, before: nat, d: U32)
    ensures Saturated(used + before + d) == SaturatingAdd32(Saturated(used + before), d)
  {
  }

  /** Where the run stands after some turns, told by the tokens they used. */
  ghost predicate StandsAt(a: Auto, turns: seq<CleanTurn>, z: Auto)
    requires a.store.goal.Some?
  {
    var g := a.store.goal.value;
    && !z.store.deferred && !z.store.persistence.Unavailable?
    && z.store.goal.Some? && z.store.goal.value.tokenBudget == g.tokenBudget
    && (if !Exceeds(g, turns) then
          && z.phase.Admitted? && z.store.goal.value.status == Pursuing && z.exhausted == a.exhausted
          && z.store.goal.value.tokensUsed == Saturated(g.tokensUsed + Total(Deltas(turns)))
          && z.deltas == a.deltas + Deltas(turns)
        else
          && z.store.goal.value.status == BudgetLimited && z.exhausted == a.exhausted + 1
          && |turns| > 0
          && (z.phase.Idle? || z.phase.Admitted?)
          && (z.phase.Admitted? <==> !Exceeds(g, turns[..|turns| - 1])))
  }

  lemma StandsOn(a: Auto, turns: seq<CleanTurn>, y: Auto)
    requires a.phase.Admitted? && Ready(a.store) && !IsSpent(a.store.goal.value)
    requires turns != [] && StandsAt(a, turns[..|turns| - 1], y)
    ensures StandsAt(a, turns, AfterTurn(y, turns[|turns| - 1]))
  {
    var before, t := turns[..|turns| - 1], turns[|turns| - 1];
    assert Deltas(turns)[..|turns| - 1] == Deltas(before);
    SaturatedSum(a.store.goal.value.tokensUsed, Total(Deltas(before)), t.Delta());
    if !Exceeds(a.store.goal.value, before) {
      PursuedTurn(y, t);
    } else if y.phase.Admitted? {
      WrapUpTurn(y, t);
    }
  }

  /**
   Progress: from an admitted goal within its budget, uninterrupted turns are admitted and charged
   one after the other if and only if the budget is not used up; the turn that uses it up is
   followed by one more, and then the run is idle.
   */
  lemma {:induction false} RunContinuesExactlyWithinBudget(a: Auto, turns: seq<CleanTurn>)
    requires a.phase.Admitted? && Ready(a.store) && !IsSpent(a.store.goal.value)
    ensures StandsAt(a, turns, AfterTurns(a, turns))
  {
    if turns != [] {
      RunContinuesExactlyWithinBudget(a, turns[..|turns| - 1]);
      StandsOn(a, turns, AfterTurns(a, turns[..|turns| - 1]));
    }
  }

  /** Every such goal, restored or new, gets there from idle by one automatic claim. */
  lemma RunStartsFromIdle(s: Store, env: Env, turns: seq<CleanTurn>)
    requires Ready(s) && !IsSpent(s.goal.value)
    ensures
      var a := AutoStep(Auto(s, env, Idle, [], 0), ClaimNext(true));
      && a.store.goal == s.goal && a.deltas == [] && a.exhausted == 0
      && StandsAt(a, turns, AfterTurns(a, turns))
  {
    RunContinuesExactlyWithinBudget(AutoStep(Auto(s, env, Idle, [], 0), ClaimNext(true)), turns);
  }
}
