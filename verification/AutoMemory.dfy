/**
 The auto-memory scheduler of `src/auto_memory.rs`: the state behind the service lock, the
 three locked transitions, and the window arithmetic of one extraction request.
 */
module AutoMemory {
  import opened Prelude

  const EXTRACTION_INTERVAL := 5

  type Session = string

  datatype Entry = Entry(role: string, message: string)
  datatype Turn = Turn(entries: seq<Entry>)

  datatype Request = Request(session: Session, baseline: nat, completed: nat, turns: seq<Turn>) {
    function Key(): RequestKey { RequestKey(session, completed) }
  }

  datatype RequestKey = RequestKey(session: Session, completed: nat)

  datatype State = State(last: map<Session, nat>, current: Option<RequestKey>, pending: Option<Request>)

  /** What a locked transition leaves behind and, if any, the request a worker goes on with. */
  datatype Outcome = Outcome(state: State, next: Option<Request>)

  function Last(st: State, s: Session): nat {
    if s in st.last then st.last[s] else 0
  }

  /** A request of the same session that already reaches `completed` turns makes a notification redundant. */
  predicate Covers(key: Option<RequestKey>, s: Session, completed: nat) {
    key.Some? && key.value.session == s && key.value.completed >= completed
  }

  /** Nothing runs and nothing waits: what a drain waits for. */
  predicate Idle(st: State) {
    st.current.None? && st.pending.None?
  }

  function PendingKey(st: State): Option<RequestKey> {
    if st.pending.Some? then Some(st.pending.value.Key()) else None
  }

  function Notify(st: State, s: Session, committed: seq<Turn>): Outcome {
    var n := |committed|;
    if n == 0 || n % EXTRACTION_INTERVAL != 0 || n <= Last(st, s)
       || Covers(st.current, s, n) || Covers(PendingKey(st), s, n)
    then Outcome(st, None)
    else
      var r := Request(s, Last(st, s), n, committed[Last(st, s)..n]);
      if st.current.Some? then Outcome(st.(pending := Some(r)), None)
      else Outcome(st.(current := Some(r.Key())), Some(r))
  }

  /** Hand the pending request to the worker, or go idle. */
  function TakePending(st: State): Outcome {
    Outcome(st.(current := PendingKey(st), pending := None), st.pending)
  }

  function Finish(st: State, r: Request, success: bool): Outcome {
    var reached := if Last(st, r.session) > r.completed then Last(st, r.session) else r.completed;
    TakePending(if success then st.(last := st.last[r.session := reached]) else st)
  }

  function Recover(st: State): Outcome {
    if st.current.None? then Outcome(st, None) else TakePending(st)
  }

  predicate Conversational(role: string) {
    role == "You" || role == "user" || role == "Agent" || role == "assistant"
  }

  /** Whether any entry of the turns becomes a message for the summarizer. */
  predicate HasMessages(turns: seq<Turn>) {
    exists t | t in turns :: exists e | e in t.entries :: Conversational(e.role)
  }

  /** Turns already covered when the worker picks the request up are skipped. */
  function Skipped(r: Request, start: nat): nat {
    var ahead := if start > r.baseline then start - r.baseline else 0;
    if ahead < |r.turns| then ahead else |r.turns|
  }

  function Window(r: Request, start: nat): seq<Turn> {
    r.turns[Skipped(r, start)..]
  }

  datatype Span = Span(startTurn: U32, endTurn: U32)

  /** One-based and inclusive; absent when an index does not fit 32 bits. */
  function SourceSpan(start: nat, end: nat): Option<Span> {
    if start + 1 <= U32_MAX && end <= U32_MAX then Some(Span(start + 1, end)) else None
  }

  /** An extraction without messages succeeds without asking the model. */
  predicate Succeeds(r: Request, start: nat, summarized: bool) {
    !HasMessages(Window(r, start)) || summarized
  }

  class AutoMemoryService {
    var last: map<Session, nat>
    var current: Option<RequestKey>
    var pending: Option<Request>
    /** How often `notify_waiters` has fired. */
    var epoch: nat

    constructor ()
      ensures View() == State(map[], None, None) && epoch == 0
    {
      last, current, pending, epoch := map[], None, None, 0;
    }

    ghost function View(): State
      reads this
    {
      State(last, current, pending)
    }

    method LastCompletedTurns(s: Session) returns (n: nat)
      ensures n == Last(View(), s)
    {
      n := 0;
      if s in last {
        n := last[s];
      }
    }

    method NotifyTurnCompleted(s: Session, committed: seq<Turn>) returns (spawn: Option<Request>)
      modifies this
      ensures Outcome(View(), spawn) == Notify(old(View()), s, committed)
      ensures epoch == old(epoch)
    {
      var n := |committed|;
      if n == 0 || n % EXTRACTION_INTERVAL != 0 {
        return None;
      }
      var done := LastCompletedTurns(s);
      if n <= done {
        return None;
      }
      if current.Some? && current.value.session == s && current.value.completed >= n {
        return None;
      }
      if pending.Some? && pending.value.session == s && pending.value.completed >= n {
        return None;
      }
      var request := Request(s, done, n, committed[done..n]);
      if current.Some? {
        pending := Some(request);
        return None;
      }
      current := Some(request.Key());
      return Some(request);
    }

    method FinishRequest(request: Request, success: bool) returns (next: Option<Request>)
      modifies this
      ensures Outcome(View(), next) == Finish(old(View()), request, success)
      ensures epoch == old(epoch) + if next.None? then 1 else 0
    {
      if success {
        var done := LastCompletedTurns(request.session);
        if done < request.completed {
          done := request.completed;
        }
        last := last[request.session := done];
      }
      next := pending;
      pending := None;
      if next.Some? {
        current := Some(next.value.Key());
      } else {
        current := None;
        epoch := epoch + 1;
      }
    }

    method RecoverWorkerExit() returns (next: Option<Request>)
      modifies this
      ensures Outcome(View(), next) == Recover(old(View()))
      ensures epoch == old(epoch) + if old(current).Some? && next.None? then 1 else 0
    {
      if current.None? {
        return None;
      }
      next := pending;
      pending := None;
      if next.Some? {
        current := Some(next.value.Key());
      } else {
        current := None;
        epoch := epoch + 1;
      }
    }

    method IsIdle() returns (idle: bool)
      ensures idle <==> Idle(View())
    {
      idle := current.None? && pending.None?;
    }

    /** One turn of the loop in `drain`: first the waiter notes the epoch, then it looks. */
    method DrainTurn() returns (subscribed: nat, drained: bool)
      ensures subscribed == epoch && (drained <==> Idle(View()))
    {
      subscribed := epoch;
      drained := IsIdle();
    }
  }
}
