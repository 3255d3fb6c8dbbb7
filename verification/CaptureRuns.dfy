/**
 Runs of session capture over the histories of the runtime: what is delivered, and when that is
 everything that was captured.
 */
module CaptureRuns {
  import opened Prelude
  import opened Capture

  datatype Event = Event(session: string, history: seq<Entry>, acked: bool)

  /** The state with the acknowledged batches and the snapshots whose capture succeeded. */
  datatype World = World(state: State, delivered: seq<Message>, captured: seq<Snapshot>)

  function Step(w: World, e: Event): World {
    var snapshot := SnapshotOf(e.session, e.history);
    var request := Prepare(w.state, snapshot);
    World(AfterCapture(w.state, snapshot, e.acked),
          if request.Some? && e.acked then w.delivered + request.value else w.delivered,
          if Succeeds(w.state, snapshot, e.acked) && e.session != "" then w.captured + [snapshot] else w.captured)
  }

  function Run(events: seq<Event>): World {
    if events == [] then World(State({}, None), [], [])
    else Step(Run(events[..|events| - 1]), events[|events| - 1])
  }

  /** Ids the runtime builds start with a letter. */
  predicate IsRuntimeId(id: string) {
    |id| > 0 && id[0] == 'r'
  }

  /** Every snapshot captured is sent, and everything delivered is of a captured snapshot. */
  predicate Covered(state: State, captured: seq<Snapshot>) {
    forall snapshot, id | snapshot in captured && id in Ids(snapshot.messages) :: id in state.sent
  }

  predicate FromCaptured(delivered: seq<Message>, captured: seq<Snapshot>) {
    forall m | m in delivered :: exists snapshot | snapshot in captured :: m in snapshot.messages
  }

  ghost predicate DeliveredOnce(state: State, delivered: seq<Message>) {
    && NoRepeats(Ids(delivered))
    && forall id :: id in state.sent <==> id in Ids(delivered)
  }

  predicate NeverSuppresses(state: State) {
    state.lastSignature.Some? ==> IsRuntimeId(state.lastSignature.value)
  }

  ghost predicate Kept(w: World) {
    && Covered(w.state, w.captured)
    && FromCaptured(w.delivered, w.captured)
    && DeliveredOnce(w.state, w.delivered)
    && NeverSuppresses(w.state)
  }

  lemma SnapshotIds(session: string, history: seq<Entry>)
    ensures NoRepeats(Ids(SnapshotOf(session, history).messages))
    ensures forall m | m in SnapshotOf(session, history).messages :: IsRuntimeId(m.externalId)
  {
    var messages := SnapshotOf(session, history).messages;
    IdsAt(messages);
    forall i, j | 0 <= i < j < |messages| ensures Ids(messages)[i] != Ids(messages)[j] {
      if RuntimeId(session, i) == RuntimeId(session, j) {
        RuntimeIdsDiffer(session, i, session, j);
      }
    }
    forall i | 0 <= i < |messages| ensures IsRuntimeId(messages[i].externalId) {
      assert RuntimeId(session, i)[0] == 'r';
    }
  }

  /** A signature starts with a digit and so never equals an id the runtime builds. */
  lemma NotSuppressed(s: State, batch: seq<Message>)
    requires NeverSuppresses(s)
    ensures !Suppressed(s, batch)
  {
  }

  lemma {:induction false} IdsConcat(a: seq<Message>, b: seq<Message>)
    ensures Ids(a + b) == Ids(a) + Ids(b)
  {
    if a == [] {
      assert a + b == b;
    } else {
      IdsConcat(a[1..], b);
      assert (a + b)[1..] == a[1..] + b;
    }
  }

  /** An acknowledged batch is new, and with it the snapshot is complete. */
  lemma AcknowledgedKeeps(s: State, delivered: seq<Message>, snapshot: Snapshot)
    requires DeliveredOnce(s, delivered) && NoRepeats(Ids(snapshot.messages))
    requires Prepare(s, snapshot).Some?
    ensures var batch := Prepare(s, snapshot).value;
            DeliveredOnce(Acknowledged(s, snapshot, batch), delivered + batch)
  {
    var batch := Prepare(s, snapshot).value;
    UnsentIds(snapshot.messages, s.sent);
    IdsConcat(delivered, batch);
    var ids, more := Ids(delivered), Ids(batch);
    forall i, j | 0 <= i < j < |ids + more| ensures (ids + more)[i] != (ids + more)[j] {
      if i < |ids| <= j {
        assert ids[i] in ids && more[j - |ids|] in more;
      }
    }
  }

  lemma StepKeeps(w: World, e: Event)
    requires Kept(w)
    ensures Kept(Step(w, e))
  {
    var snapshot := SnapshotOf(e.session, e.history);
    var batch := Unsent(snapshot.messages, w.state.sent);
    SnapshotIds(e.session, e.history);
    NotSuppressed(w.state, batch);
    UnsentIds(snapshot.messages, w.state.sent);
    var next := Step(w, e);
    if Prepare(w.state, snapshot).Some? {
      if e.acked {
        AcknowledgedKeeps(w.state, w.delivered, snapshot);
        assert batch[|batch| - 1] in snapshot.messages;
        forall m | m in next.delivered ensures exists s | s in next.captured :: m in s.messages {
          if m in w.delivered {
            var s :| s in w.captured && m in s.messages;
            assert s in next.captured;
          } else {
            assert m in snapshot.messages && snapshot in next.captured;
          }
        }
      }
    } else {
      assert batch == [] ==> Ids(batch) == [];
      forall m | m in next.delivered ensures exists s | s in next.captured :: m in s.messages {
        var s :| s in w.captured && m in s.messages;
        assert s in next.captured;
      }
    }
  }

  lemma {:induction false} RunKeeps(events: seq<Event>)
    ensures Kept(Run(events))
  {
    if events != [] {
      RunKeeps(events[..|events| - 1]);
      StepKeeps(Run(events[..|events| - 1]), events[|events| - 1]);
    }
  }

  lemma MessageHasId(messages: seq<Message>, m: Message)
    requires m in messages
    ensures m.externalId in Ids(messages)
  {
  }

  lemma IdHasMessage(messages: seq<Message>, id: string) returns (m: Message)
    requires id in Ids(messages)
    ensures m in messages && m.externalId == id
  {
    IdsAt(messages);
    var i :| 0 <= i < |messages| && Ids(messages)[i] == id;
    m := messages[i];
  }

  /**
   Over any sequence of captures of runtime histories, of any sessions, acknowledged or not:
   no message is ever delivered twice, and the delivered ids are exactly those of the snapshots
   whose capture was reported as successful.
   */
  lemma CapturedIsDeliveredOnce(events: seq<Event>, id: string)
    ensures NoRepeats(Ids(Run(events).delivered))
    ensures id in Ids(Run(events).delivered)
            <==> exists snapshot | snapshot in Run(events).captured :: id in Ids(snapshot.messages)
  {
    RunKeeps(events);
    var w := Run(events);
    if id in Ids(w.delivered) {
      var m := IdHasMessage(w.delivered, id);
      var snapshot :| snapshot in w.captured && m in snapshot.messages;
      MessageHasId(snapshot.messages, m);
    }
  }

  // ---------- Which captures succeed, by the events alone ----------

  /** How many positions of a session have been sent: those of its longest acknowledged history. */
  function Reach(events: seq<Event>, session: string): nat {
    if events == [] then 0
    else
      var e := events[|events| - 1];
      var before := Reach(events[..|events| - 1], session);
      if e.session == session && e.acked && |e.history| > before then |e.history| else before
  }

  /** A capture succeeds when the sink takes it, or when all its positions were sent before. */
  predicate SucceedsAfter(events: seq<Event>, e: Event) {
    e.session != "" && (e.acked || |e.history| <= Reach(events, e.session))
  }

  /** The snapshots whose capture is reported as successful. */
  function Captured(events: seq<Event>): seq<Snapshot> {
    if events == [] then []
    else
      var before, e := events[..|events| - 1], events[|events| - 1];
      Captured(before) + if SucceedsAfter(before, e) then [SnapshotOf(e.session, e.history)] else []
  }

  lemma IdInSnapshot(session: string, history: seq<Entry>, session': string, k: nat)
    ensures RuntimeId(session', k) in Ids(SnapshotOf(session, history).messages)
            <==> session' == session && k < |history|
  {
    var messages := SnapshotOf(session, history).messages;
    IdsAt(messages);
    assert k < |history| ==> Ids(messages)[k] == RuntimeId(session, k);
    if RuntimeId(session', k) in Ids(messages) {
      var i :| 0 <= i < |messages| && Ids(messages)[i] == RuntimeId(session', k);
      RuntimeIdsDiffer(session', k, session, i);
    }
  }

  /** The ids marked as sent are exactly those of the positions reached. */
  ghost predicate SentIsReach(events: seq<Event>) {
    forall session: string, k: nat | session != "" ::
      RuntimeId(session, k) in Run(events).state.sent <==> k < Reach(events, session)
  }

  lemma NothingLeft(events: seq<Event>, e: Event)
    requires SentIsReach(events) && Kept(Run(events)) && e.session != ""
    ensures Prepare(Run(events).state, SnapshotOf(e.session, e.history)).None?
            <==> |e.history| <= Reach(events, e.session)
  {
    var s, messages := Run(events).state, SnapshotOf(e.session, e.history).messages;
    var batch := Unsent(messages, s.sent);
    NotSuppressed(s, batch);
    UnsentIds(messages, s.sent);
    IdsAt(messages);
    if batch == [] {
      assert Ids(batch) == [];
      if messages != [] {
        var last := |messages| - 1;
        IdInSnapshot(e.session, e.history, e.session, last);
        assert RuntimeId(e.session, last) in s.sent;
      }
    } else {
      var m := batch[0];
      MessageHasId(batch, m);
      var k :| 0 <= k < |messages| && messages[k] == m;
      assert RuntimeId(e.session, k) !in s.sent;
    }
  }

  lemma {:induction false} SentReaches(events: seq<Event>)
    ensures SentIsReach(events)
  {
    if events != [] {
      var before, e := events[..|events| - 1], events[|events| - 1];
      SentReaches(before);
      RunKeeps(before);
      if e.session != "" {
        NothingLeft(before, e);
      }
      forall session: string, k: nat | session != ""
        ensures RuntimeId(session, k) in Run(events).state.sent <==> k < Reach(events, session)
      {
        assert RuntimeId(session, k) in Run(before).state.sent <==> k < Reach(before, session);
        IdInSnapshot(e.session, e.history, session, k);
      }
    }
  }

  /** The outcome of every capture is determined by the events before it. */
  lemma {:induction false} CapturedByEvents(events: seq<Event>)
    ensures Run(events).captured == Captured(events)
  {
    if events != [] {
      var before, e := events[..|events| - 1], events[|events| - 1];
      CapturedByEvents(before);
      SentReaches(before);
      RunKeeps(before);
      if e.session != "" {
        NothingLeft(before, e);
      }
    }
  }

  // ---------- Whole messages ----------

  /** Two snapshots of one session hold the same message wherever both have one. */
  predicate Agree(a: Snapshot, b: Snapshot) {
    a.session == b.session ==> forall k | 0 <= k < |a.messages| && k < |b.messages| :: a.messages[k] == b.messages[k]
  }

  predicate IsRuntimeSnapshot(s: Snapshot) {
    forall k | 0 <= k < |s.messages| :: s.messages[k].externalId == RuntimeId(s.session, k)
  }

  lemma {:induction false} CapturedAreRuntime(events: seq<Event>)
    ensures forall s | s in Captured(events) :: IsRuntimeSnapshot(s)
  {
    if events != [] {
      CapturedAreRuntime(events[..|events| - 1]);
    }
  }

  lemma SameIdSamePosition(a: Snapshot, b: Snapshot, i: nat, j: nat)
    requires IsRuntimeSnapshot(a) && IsRuntimeSnapshot(b) && i < |a.messages| && j < |b.messages|
    requires a.messages[i].externalId == b.messages[j].externalId
    ensures a.session == b.session && i == j
  {
    RuntimeIdsDiffer(a.session, i, b.session, j);
  }

  lemma SameIdDeliveredOnce(delivered: seq<Message>, m: Message, m': Message)
    requires NoRepeats(Ids(delivered)) && m in delivered && m' in delivered && m.externalId == m'.externalId
    ensures m == m'
  {
    IdsAt(delivered);
    var i :| 0 <= i < |delivered| && delivered[i] == m;
    var j :| 0 <= j < |delivered| && delivered[j] == m';
    assert Ids(delivered)[i] == Ids(delivered)[j];
  }

  /** Every message of every captured snapshot reached the sink. */
  predicate AllDelivered(delivered: seq<Message>, captured: seq<Snapshot>) {
    forall s, m | s in captured && m in s.messages :: m in delivered
  }

  predicate AllAgree(captured: seq<Snapshot>) {
    forall a, b | a in captured && b in captured :: Agree(a, b)
  }

  lemma DeliveredAgree(events: seq<Event>)
    requires AllDelivered(Run(events).delivered, Captured(events))
    ensures AllAgree(Captured(events))
  {
    var delivered, captured := Run(events).delivered, Captured(events);
    RunKeeps(events);
    CapturedAreRuntime(events);
    forall a, b | a in captured && b in captured ensures Agree(a, b) {
      forall k | a.session == b.session && 0 <= k < |a.messages| && k < |b.messages|
        ensures a.messages[k] == b.messages[k]
      {
        assert a.messages[k] in a.messages && b.messages[k] in b.messages;
        SameIdDeliveredOnce(delivered, a.messages[k], b.messages[k]);
      }
    }
  }

  lemma AgreeDelivered(events: seq<Event>, s: Snapshot, m: Message)
    requires AllAgree(Captured(events)) && s in Captured(events) && m in s.messages
    ensures m in Run(events).delivered
  {
    var w := Run(events);
    RunKeeps(events);
    CapturedByEvents(events);
    CapturedAreRuntime(events);
    MessageHasId(s.messages, m);
    var sent := IdHasMessage(w.delivered, m.externalId);
    var from :| from in w.captured && sent in from.messages;
    var i :| 0 <= i < |s.messages| && s.messages[i] == m;
    var j :| 0 <= j < |from.messages| && from.messages[j] == sent;
    SameIdSamePosition(s, from, i, j);
    assert Agree(s, from);
  }

  /**
   Conservation: what was delivered is all of what was captured if and only if captured histories
   of one session agree wherever both have a message, that is, no captured position was replaced.
   Which histories count as captured follows from the events alone.
   */
  lemma EveryMessageIsDeliveredIff(events: seq<Event>)
    ensures Run(events).captured == Captured(events)
    ensures forall m | m in Run(events).delivered :: exists s | s in Captured(events) :: m in s.messages
    ensures AllDelivered(Run(events).delivered, Captured(events)) <==> AllAgree(Captured(events))
  {
    RunKeeps(events);
    CapturedByEvents(events);
    if AllDelivered(Run(events).delivered, Captured(events)) {
      DeliveredAgree(events);
    }
    if AllAgree(Captured(events)) {
      forall s, m | s in Captured(events) && m in s.messages ensures m in Run(events).delivered {
        AgreeDelivered(events, s, m);
      }
    }
  }

  lemma FirstCapture(session: string, a: Entry)
    requires session != ""
    ensures var m := Message(a.role, a.content, RuntimeId(session, 0));
            && SnapshotOf(session, [a]).messages == [m]
            && Run([Event(session, [a], true)]).delivered == [m]
            && Run([Event(session, [a], true)]).state.sent == {m.externalId}
  {
    var e, m := Event(session, [a], true), Message(a.role, a.content, RuntimeId(session, 0));
    assert SnapshotOf(session, [a]).messages == [m];
    OneMessage(m, {});
    assert [e][..0] == [];
    assert Run([e]) == Step(Run([]), e);
    assert [] + [m] == [m];
  }

  /**
   When a captured history is replaced, as a compaction does within one session, the message that
   takes the place of one already sent is reported as captured and never reaches the sink.
   */
  lemma ReplacedMessageIsLost(session: string, a: Entry, b: Entry)
    requires session != "" && a != b
    ensures var w := Run([Event(session, [a], true)] + [Event(session, [b], true)]);
            && SnapshotOf(session, [b]) in w.captured
            && SnapshotOf(session, [b]).messages[0] !in w.delivered
  {
    var first, second := Event(session, [a], true), Event(session, [b], true);
    FirstCapture(session, a);
    FirstCapture(session, b);
    var m := SnapshotOf(session, [b]).messages[0];
    OneMessage(m, {m.externalId});
    assert ([first] + [second])[..1] == [first];
    assert Run([first] + [second]) == Step(Run([first]), second);
  }
}
