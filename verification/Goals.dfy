/**
 The goal store of `src/runtime_goals.rs`: a write-ahead state machine.

 Identity tokens (`Arc<()>` compared by pointer) are natural numbers handed out by
 a counter that never repeats.  Every durable write takes an outcome `ok`, chosen by
 the environment.  The functions are the specification of one locked operation; the
 class `GoalStore` carries the fields the source updates and is proved against them.
 */
module Goals {
  import opened Prelude

  datatype GoalStatus = Pursuing | Paused | Blocked | Complete | BudgetLimited

  datatype Goal = Goal(
    objective: string,
    status: GoalStatus,
    tokenBudget: Option<U32>,
    tokensUsed: U32,
    turnsCompleted: U32,
    createdAt: nat)

  type Token = nat

  /** A ticket to resume carries the admission token seen when it was issued. */
  type Ticket = Token

  datatype Turn = Turn(membership: Token, priorInputTokens: U32)

  datatype Mode = Automatic | Requested

  datatype RowKey = RowKey(db: nat, thread: string)

  datatype Persistence = InMemory | Durable(row: RowKey) | Unavailable(reason: string)

  /** A row of the goals table; `Malformed` stands for a row that does not decode. */
  datatype StoredRow = StoredRow(goal: Goal, deferred: bool) | Malformed

  datatype Store = Store(
    goal: Option<Goal>,
    persistence: Persistence,
    deferred: bool,
    admission: Token,
    membership: Token)

  /** What all stores share: the durable rows and the source of fresh tokens. */
  datatype Env = Env(rows: map<RowKey, StoredRow>, next: Token)

  datatype Outcome<R> = Outcome(store: Store, env: Env, reply: Result<R>)

  datatype ChangeResult<R> = Accept(next: Option<Goal>, reply: R) | Refuse

  type Change<!R> = (Option<Goal>, Option<U32>) -> ChangeResult<R>

  predicate OverBudget(g: Goal) {
    g.tokenBudget.Some? && g.tokensUsed >= g.tokenBudget.value
  }

  /** The row image of a goal and its deferral flag. */
  function Saved(rows: map<RowKey, StoredRow>, k: RowKey, goal: Option<Goal>, deferred: bool): map<RowKey, StoredRow> {
    if goal.Some? then rows[k := StoredRow(goal.value, deferred)] else rows - {k}
  }

  function Persist(s: Store, env: Env, goal: Option<Goal>, deferred: bool, ok: bool): Result<Env> {
    match s.persistence
    case InMemory => Ok(env)
    case Durable(k) => if ok then Ok(env.(rows := Saved(env.rows, k, goal, deferred))) else Err
    case Unavailable(_) => Err
  }

  /** Whether a mutation keeps the goal's identity, and with it membership and deferral. */
  predicate SameGoal(before: Option<Goal>, after: Option<Goal>) {
    match (before, after)
    case (Some(p), Some(n)) =>
      && p.objective == n.objective
      && p.createdAt == n.createdAt
      && !(p.status == Complete && n.status == Pursuing)
    case (None, None) => true
    case (None, Some(_)) => false
    case (Some(_), None) => false
  }

  /** The prior token count a turn contributes: none once the membership has moved on. */
  function PriorTokens(s: Store, turn: Option<Turn>): Option<U32> {
    if turn.Some? && turn.value.membership == s.membership then Some(turn.value.priorInputTokens) else None
  }

  function Mutate<R>(s: Store, env: Env, turn: Option<Turn>, change: Change<R>, ok: bool): Outcome<R> {
    match change(s.goal, PriorTokens(s, turn))
    case Refuse => Outcome(s, env, Err)
    case Accept(next, reply) =>
      if next == s.goal then Outcome(s, env, Ok(reply))
      else
        var same := SameGoal(s.goal, next);
        var deferred := same && s.deferred;
        match Persist(s, env, next, deferred, ok)
        case Err => Outcome(s, env, Err)
        case Ok(e) =>
          if same then
            Outcome(s.(goal := next, deferred := deferred, admission := e.next),
                    e.(next := e.next + 1), Ok(reply))
          else
            Outcome(s.(goal := next, deferred := deferred, admission := e.next, membership := e.next + 1),
                    e.(next := e.next + 2), Ok(reply))
  }

  function Defer(s: Store, env: Env, ok: bool): Outcome<()> {
    var s1, e1 := s.(admission := env.next), env.(next := env.next + 1);
    if s1.goal.None? || s1.deferred then Outcome(s1, e1, Ok(()))
    else
      match Persist(s1, e1, s1.goal, true, ok)
      case Err => Outcome(s1, e1, Err)
      case Ok(e) => Outcome(s1.(deferred := true), e, Ok(()))
  }

  function RecordTurnStarted(s: Store, env: Env, ok: bool): Outcome<()> {
    var s1, e1 := s.(admission := env.next), env.(next := env.next + 1);
    if !s1.deferred then Outcome(s1, e1, Ok(()))
    else
      match Persist(s1, e1, s1.goal, false, ok)
      case Err => Outcome(s1, e1, Err)
      case Ok(e) => Outcome(s1.(deferred := false), e, Ok(()))
  }

  function EditObjective(s: Store, env: Env, ticket: Ticket, objective: string, ok: bool): Outcome<()> {
    if s.admission != ticket || Blank(objective) || s.goal.None? then Outcome(s, env, Err)
    else
      var g := s.goal.value.(objective := objective);
      match Persist(s, env, Some(g), s.deferred, ok)
      case Err => Outcome(s, env, Err)
      case Ok(e) => Outcome(s.(goal := Some(g), admission := e.next), e.(next := e.next + 1), Ok(()))
  }

  function ReplaceConfirmed(s: Store, env: Env, ticket: Ticket, goal: Goal, ok: bool): Outcome<()> {
    if s.admission != ticket then Outcome(s, env, Err)
    else
      match Persist(s, env, Some(goal), false, ok)
      case Err => Outcome(s, env, Err)
      case Ok(e) =>
        Outcome(s.(goal := Some(goal), deferred := false, admission := e.next, membership := e.next + 1),
                e.(next := e.next + 2), Ok(()))
  }

  /** Statuses from which a continuation may be claimed. */
  predicate Claimable(status: GoalStatus, mode: Mode) {
    status == Pursuing || (status == BudgetLimited && mode == Requested)
  }

  function Budgeted(g: Goal): Goal {
    if OverBudget(g) then g.(status := BudgetLimited) else g
  }

  function Claim(s: Store, env: Env, ticket: Ticket, mode: Mode, ok: bool): Outcome<Option<Goal>> {
    if s.admission != ticket || (mode == Automatic && s.deferred) || s.goal.None?
       || !Claimable(s.goal.value.status, mode)
    then Outcome(s, env, Ok(None))
    else
      var g := Budgeted(s.goal.value);
      if Some(g) != s.goal || s.deferred then
        match Persist(s, env, Some(g), false, ok)
        case Err => Outcome(s, env, Err)
        case Ok(e) =>
          Outcome(s.(goal := Some(g), deferred := false, admission := e.next),
                  e.(next := e.next + 1), Ok(Some(g)))
      else
        Outcome(s.(admission := env.next), env.(next := env.next + 1), Ok(Some(g)))
  }

  function Disable(s: Store, env: Env, reason: string): Outcome<()> {
    Outcome(s.(goal := None, admission := env.next, membership := env.next + 1,
               persistence := Unavailable(reason)),
            env.(next := env.next + 2), Ok(()))
  }

  /** A row a restore accepts: absent, or decoded with an objective and no zero budget. */
  predicate Restorable(rows: map<RowKey, StoredRow>, k: RowKey) {
    k in rows ==>
      rows[k].StoredRow? && !Blank(rows[k].goal.objective) && rows[k].goal.tokenBudget != Some(0)
  }

  function Restore(s: Store, env: Env, k: RowKey, ok: bool): Outcome<Option<Goal>> {
    if !ok || !Restorable(env.rows, k) then Outcome(s, env, Err)
    else
      var goal := if k in env.rows then Some(env.rows[k].goal) else None;
      var deferred := k in env.rows && env.rows[k].deferred;
      Outcome(Store(goal, Durable(k), deferred, env.next, env.next + 1),
              env.(next := env.next + 2), Ok(goal))
  }

  function ResumeTicket(s: Store): Option<Ticket> {
    if s.goal.Some? then Some(s.admission) else None
  }

  function BeginTurn(s: Store, priorInputTokens: U32): Option<Turn> {
    if s.goal.Some? && s.goal.value.status == Pursuing then Some(Turn(s.membership, priorInputTokens)) else None
  }

  // ---------------------------------------------------------------------------
  // The mutable store
  // ---------------------------------------------------------------------------

  /** The database and the allocator behind all stores. */
  class Shared {
    var rows: map<RowKey, StoredRow>
    var next: Token

    /** A process starts with the rows its database already holds. */
    constructor (rows: map<RowKey, StoredRow>)
      ensures View() == Env(rows, 0) && forall t :: !Issued(t)
    {
      this.rows, next := rows, 0;
    }

    /** Whether a token has been handed out. */
    ghost predicate Issued(t: Token)
      reads this
    {
      t < next
    }

    ghost function View(): Env
      reads this
    {
      Env(rows, next)
    }

    /** `Arc::new(())`: a token nobody holds yet, and no other one. */
    method Fresh() returns (t: Token)
      modifies this`next
      ensures t == old(next) && next == old(next) + 1
      ensures !old(Issued(t)) && forall u :: Issued(u) <==> old(Issued(u)) || u == t
    {
      t := next;
      next := next + 1;
    }
  }

  class GoalStore {
    const shared: Shared
    var goal: Option<Goal>
    var persistence: Persistence
    var deferred: bool
    var admission: Token
    var membership: Token

    ghost function View(): Store
      reads this
    {
      Store(goal, persistence, deferred, admission, membership)
    }

    constructor (shared: Shared)
      modifies shared
      ensures this.shared == shared
      ensures View() == Store(None, InMemory, false, old(shared.next), old(shared.next) + 1)
      ensures shared.View() == old(shared.View()).(next := old(shared.next) + 2)
    {
      this.shared := shared;
      goal, persistence, deferred := None, InMemory, false;
      admission, membership := shared.next, shared.next + 1;
      new;
      shared.next := shared.next + 2;
    }

    method PersistRow(row: Option<Goal>, flag: bool, ok: bool) returns (written: bool)
      modifies shared
      ensures written == Persist(View(), old(shared.View()), row, flag, ok).Ok?
      ensures shared.View() == if written then Persist(View(), old(shared.View()), row, flag, ok).value
                               else old(shared.View())
    {
      match persistence {
        case InMemory =>
          written := true;
        case Durable(k) =>
          written := ok;
          if ok {
            match row {
              case Some(g) => shared.rows := shared.rows[k := StoredRow(g, flag)];
              case None => shared.rows := shared.rows - {k};
            }
          }
        case Unavailable(_) =>
          written := false;
      }
    }

    method MutateForTurn<R>(turn: Option<Turn>, change: Change<R>, ok: bool) returns (reply: Result<R>)
      modifies this, shared
      ensures Outcome(View(), shared.View(), reply) == Mutate(old(View()), old(shared.View()), turn, change, ok)
    {
      var prior := None;
      if turn.Some? && turn.value.membership == membership {
        prior := Some(turn.value.priorInputTokens);
      }
      var result := change(goal, prior);
      if result.Refuse? {
        return Err;
      }
      var next := result.next;
      if next == goal {
        return Ok(result.reply);
      }
      var same := SameGoal(goal, next);
      var flag := same && deferred;
      var written := PersistRow(next, flag, ok);
      if !written {
        return Err;
      }
      deferred := flag;
      admission := shared.Fresh();
      if !same {
        membership := shared.Fresh();
      }
      goal := next;
      return Ok(result.reply);
    }

    method DeferContinuation(ok: bool) returns (reply: Result<()>)
      modifies this, shared
      ensures Outcome(View(), shared.View(), reply) == Defer(old(View()), old(shared.View()), ok)
    {
      admission := shared.Fresh();
      if goal.None? || deferred {
        return Ok(());
      }
      var written := PersistRow(goal, true, ok);
      if !written {
        return Err;
      }
      deferred := true;
      return Ok(());
    }

    method TurnStarted(ok: bool) returns (reply: Result<()>)
      modifies this, shared
      ensures Outcome(View(), shared.View(), reply) == RecordTurnStarted(old(View()), old(shared.View()), ok)
    {
      admission := shared.Fresh();
      if deferred {
        var written := PersistRow(goal, false, ok);
        if !written {
          return Err;
        }
        deferred := false;
      }
      return Ok(());
    }

    method Edit(ticket: Ticket, objective: string, ok: bool) returns (reply: Result<()>)
      modifies this, shared
      ensures Outcome(View(), shared.View(), reply)
              == EditObjective(old(View()), old(shared.View()), ticket, objective, ok)
    {
      if admission != ticket || Blank(objective) || goal.None? {
        return Err;
      }
      var edited := goal.value.(objective := objective);
      var written := PersistRow(Some(edited), deferred, ok);
      if !written {
        return Err;
      }
      goal := Some(edited);
      admission := shared.Fresh();
      return Ok(());
    }

    method Replace(ticket: Ticket, replacement: Goal, ok: bool) returns (reply: Result<()>)
      modifies this, shared
      ensures Outcome(View(), shared.View(), reply)
              == ReplaceConfirmed(old(View()), old(shared.View()), ticket, replacement, ok)
    {
      if admission != ticket {
        return Err;
      }
      var written := PersistRow(Some(replacement), false, ok);
      if !written {
        return Err;
      }
      goal := Some(replacement);
      deferred := false;
      admission := shared.Fresh();
      membership := shared.Fresh();
      return Ok(());
    }

    method ClaimContinuation(ticket: Ticket, mode: Mode, ok: bool) returns (reply: Result<Option<Goal>>)
      modifies this, shared
      ensures Outcome(View(), shared.View(), reply) == Claim(old(View()), old(shared.View()), ticket, mode, ok)
    {
      if admission != ticket || (mode == Automatic && deferred) {
        return Ok(None);
      }
      if goal.None? {
        return Ok(None);
      }
      var claimed := goal.value;
      if !Claimable(claimed.status, mode) {
        return Ok(None);
      }
      if OverBudget(claimed) {
        claimed := claimed.(status := BudgetLimited);
      }
      if goal != Some(claimed) || deferred {
        var written := PersistRow(Some(claimed), false, ok);
        if !written {
          return Err;
        }
        goal := Some(claimed);
        deferred := false;
      }
      admission := shared.Fresh();
      return Ok(Some(claimed));
    }

    method DisableAfterPersistenceFailure(reason: string)
      modifies this, shared
      ensures Outcome(View(), shared.View(), Ok(())) == Disable(old(View()), old(shared.View()), reason)
    {
      goal := None;
      admission := shared.Fresh();
      membership := shared.Fresh();
      persistence := Unavailable(reason);
    }

    method RestoreForThread(k: RowKey, ok: bool) returns (reply: Result<Option<Goal>>)
      modifies this, shared
      ensures Outcome(View(), shared.View(), reply) == Restore(old(View()), old(shared.View()), k, ok)
    {
      if !ok {
        return Err;
      }
      var restored: Option<Goal> := None;
      var flag := false;
      if k in shared.rows {
        match shared.rows[k] {
          case Malformed =>
            return Err;
          case StoredRow(g, d) =>
            if Blank(g.objective) || g.tokenBudget == Some(0) {
              return Err;
            }
            restored, flag := Some(g), d;
        }
      }
      goal, persistence, deferred := restored, Durable(k), flag;
      admission := shared.Fresh();
      membership := shared.Fresh();
      return Ok(goal);
    }

    method InheritFrom(previous: GoalStore)
      modifies this
      ensures View() == old(previous.View())
    {
      goal, persistence, deferred := previous.goal, previous.persistence, previous.deferred;
      admission, membership := previous.admission, previous.membership;
    }
  }
}
