/**
 Session capture of `src/memory_lifecycle.rs`: each capture sends the messages whose ids were
 not sent before, and marks the whole snapshot as sent once the sink acknowledged.
 */
module Capture {
  import opened Prelude

  datatype Message = Message(role: string, content: string, externalId: string)

  datatype Snapshot = Snapshot(session: string, messages: seq<Message>)

  datatype State = State(sent: set<string>, lastSignature: Option<string>)

  function Ids(messages: seq<Message>): seq<string> {
    if messages == [] then [] else [messages[0].externalId] + Ids(messages[1..])
  }

  function Unsent(messages: seq<Message>, sent: set<string>): seq<Message> {
    if messages == [] then []
    else if messages[0].externalId in sent then Unsent(messages[1..], sent)
    else [messages[0]] + Unsent(messages[1..], sent)
  }

  function LastId(messages: seq<Message>): string {
    if messages == [] then "" else messages[|messages| - 1].externalId
  }

  function Signature(batch: seq<Message>): string {
    Decimal(|batch|) + ":" + LastId(batch)
  }

  /** The batch looks like the one sent last. */
  predicate Suppressed(s: State, batch: seq<Message>) {
    s.lastSignature == Some(Signature(batch))
  }

  function Prepare(s: State, snapshot: Snapshot): Option<seq<Message>> {
    if snapshot.session == "" || snapshot.messages == [] then None
    else
      var batch := Unsent(snapshot.messages, s.sent);
      if batch == [] || Suppressed(s, batch) then None else Some(batch)
  }

  /** What an acknowledged batch leaves: the signature kept is the bare id of its last message. */
  function Acknowledged(s: State, snapshot: Snapshot, batch: seq<Message>): State {
    State(s.sent + (set id | id in Ids(snapshot.messages)), Some(LastId(batch)))
  }

  function AfterCapture(s: State, snapshot: Snapshot, acked: bool): State {
    match Prepare(s, snapshot)
    case None => s
    case Some(batch) => if acked then Acknowledged(s, snapshot, batch) else s
  }

  predicate Succeeds(s: State, snapshot: Snapshot, acked: bool) {
    Prepare(s, snapshot).None? || acked
  }

  class MemoryLifecycleCoordinator {
    var sent: set<string>
    var lastSignature: Option<string>

    constructor ()
      ensures View() == State({}, None)
    {
      sent, lastSignature := {}, None;
    }

    ghost function View(): State
      reads this
    {
      State(sent, lastSignature)
    }

    method PrepareRequest(snapshot: Snapshot) returns (request: Option<seq<Message>>)
      ensures request == Prepare(View(), snapshot)
    {
      if snapshot.session == "" || |snapshot.messages| == 0 {
        return None;
      }
      var messages := [];
      for i := |snapshot.messages| downto 0
        invariant messages == Unsent(snapshot.messages[i..], sent)
      {
        assert snapshot.messages[i..][1..] == snapshot.messages[i + 1..];
        if snapshot.messages[i].externalId !in sent {
          messages := [snapshot.messages[i]] + messages;
        }
      }
      assert snapshot.messages[0..] == snapshot.messages;
      if |messages| == 0 || lastSignature == Some(Signature(messages)) {
        return None;
      }
      request := Some(messages);
    }

    /** `acked` is the answer of the sink; a timeout is a refusal. */
    method CaptureSnapshot(snapshot: Snapshot, acked: bool) returns (ok: bool)
      modifies this
      ensures View() == AfterCapture(old(View()), snapshot, acked)
      ensures ok == Succeeds(old(View()), snapshot, acked)
    {
      var request := PrepareRequest(snapshot);
      if request.None? {
        return true;
      }
      if !acked {
        return false;
      }
      sent := sent + (set id | id in Ids(snapshot.messages));
      lastSignature := Some(LastId(request.value));
      ok := true;
    }
  }

  // ---------- Ids as the runtime builds them ----------

  datatype Entry = Entry(role: string, content: string)

  /** `rara-msg-{session}-{index}` */
  function RuntimeId(session: string, index: nat): string {
    "rara-msg-" + session + "-" + Decimal(index)
  }

  /** The snapshot of a history, each message with the id of its position. */
  function SnapshotOf(session: string, history: seq<Entry>): Snapshot {
    Snapshot(session, seq(|history|, i requires 0 <= i < |history| =>
      Message(history[i].role, history[i].content, RuntimeId(session, i))))
  }

  lemma SplitAtLastDash(a: string, digits: string, b: string, digits': string)
    requires AllDigits(digits) && AllDigits(digits')
    requires a + "-" + digits == b + "-" + digits'
    ensures a == b && digits == digits'
  {
    var whole := a + "-" + digits;
    assert whole[|a|] == '-' && whole[|b|] == '-';
    assert forall i | |a| < i < |whole| :: whole[i] == digits[i - |a| - 1];
    assert forall i | |b| < i < |whole| :: whole[i] == digits'[i - |b| - 1];
    assert |a| == |b|;
    assert a == whole[..|a|] && b == whole[..|b|];
    assert digits == whole[|a| + 1..] && digits' == whole[|b| + 1..];
  }

  /** An id names one position of one session, whatever characters the session id has. */
  lemma RuntimeIdsDiffer(session: string, i: nat, session': string, j: nat)
    requires RuntimeId(session, i) == RuntimeId(session', j)
    ensures session == session' && i == j
  {
    SplitAtLastDash("rara-msg-" + session, Decimal(i), "rara-msg-" + session', Decimal(j));
    assert ("rara-msg-" + session)[9..] == session && ("rara-msg-" + session')[9..] == session';
    DecimalValue(i);
    DecimalValue(j);
  }

  // ---------- Batches ----------

  predicate NoRepeats(ids: seq<string>) {
    forall i, j | 0 <= i < j < |ids| :: ids[i] != ids[j]
  }

  lemma {:induction false} IdsAt(messages: seq<Message>)
    ensures |Ids(messages)| == |messages|
    ensures forall i | 0 <= i < |messages| :: Ids(messages)[i] == messages[i].externalId
  {
    if messages != [] {
      IdsAt(messages[1..]);
    }
  }

  lemma {:induction false} UnsentIds(messages: seq<Message>, sent: set<string>)
    ensures forall id :: id in Ids(Unsent(messages, sent)) <==> id in Ids(messages) && id !in sent
    ensures NoRepeats(Ids(messages)) ==> NoRepeats(Ids(Unsent(messages, sent)))
    ensures forall m | m in Unsent(messages, sent) :: m in messages
  {
    if messages != [] {
      var first, rest := messages[0].externalId, Unsent(messages[1..], sent);
      UnsentIds(messages[1..], sent);
      assert Ids(messages)[1..] == Ids(messages[1..]);
      if NoRepeats(Ids(messages)) && first !in sent {
        assert ([messages[0]] + rest)[1..] == rest;
        assert forall i | 0 < i < |Ids(messages)| :: Ids(messages)[0] != Ids(messages)[i];
        assert first !in Ids(messages[1..]);
      }
      assert ([messages[0]] + rest)[1..] == rest;
    }
  }

  lemma Regroup(a: seq<Message>, b: seq<Message>, c: seq<Message>)
    ensures a + (b + c) == a + b + c
  {
  }

  /** Each message is left out or sent by itself, so the batch keeps the order of the snapshot. */
  lemma {:induction false} UnsentConcat(a: seq<Message>, b: seq<Message>, sent: set<string>)
    ensures Unsent(a + b, sent) == Unsent(a, sent) + Unsent(b, sent)
  {
    if a == [] {
      assert a + b == b;
    } else {
      UnsentConcat(a[1..], b, sent);
      assert (a + b)[0] == a[0] && (a + b)[1..] == a[1..] + b;
      Regroup([a[0]], Unsent(a[1..], sent), Unsent(b, sent));
    }
  }

  /**
   For any ids: a successful capture covers its snapshot if and only if nothing was left to
   send, or the batch was not mistaken for the last one and the sink took it.
   */
  lemma CaptureCoversSnapshotIff(s: State, snapshot: Snapshot, acked: bool)
    requires snapshot.session != ""
    ensures var batch := Unsent(snapshot.messages, s.sent);
            (forall id | id in Ids(snapshot.messages) :: id in AfterCapture(s, snapshot, acked).sent)
            <==> batch == [] || (acked && !Suppressed(s, batch))
  {
    var batch := Unsent(snapshot.messages, s.sent);
    UnsentIds(snapshot.messages, s.sent);
    if batch == [] {
      assert Ids(batch) == [];
    } else {
      assert batch[0].externalId in Ids(batch);
    }
  }

  lemma OneMessage(m: Message, sent: set<string>)
    ensures Ids([m]) == [m.externalId]
    ensures Unsent([m], sent) == if m.externalId in sent then [] else [m]
  {
    assert [m][1..] == [];
  }

  /**
   With ids of another form, which the runtime never builds, a batch can be mistaken for the
   last one; it is then reported as captured and never sent.
   */
  lemma ForeignIdsCanBeSuppressed(first: Message, second: Message)
    requires first.externalId == "1:x" && second.externalId == "x"
    ensures var s := AfterCapture(State({}, None), Snapshot("s", [first]), true);
            var snapshot := Snapshot("s", [first, second]);
            Succeeds(s, snapshot, false) && second.externalId !in AfterCapture(s, snapshot, true).sent
  {
    OneMessage(first, {});
    var s := AfterCapture(State({}, None), Snapshot("s", [first]), true);
    assert s == State({"1:x"}, Some("1:x"));
    var two := [first, second];
    assert |second.externalId| != |first.externalId|;
    OneMessage(second, s.sent);
    assert two[0] == first && two[1..] == [second];
    assert Unsent(two, s.sent) == [second];
    assert Decimal(1) == "1";
    assert Signature([second]) == "1:x";
  }
}
