/** Whole runs of the task list: the dependency graph, revisions, rejections and ownership. */
module TaskListRuns {
  import opened Prelude
  import opened TaskList

  datatype Event =
    | Create(input: NewTask, highest: U64, now: nat)
    | Change(raw: TaskId, update: Update, now: nat)

  /** A creation is a legal event when it names the highest id present. */
  ghost function Step(tasks: Tasks, e: Event): Tasks {
    match e
    case Create(input, h, now) =>
      if IsHighest(tasks.Keys, h) && IdAfter(h) !in tasks
      then tasks[IdAfter(h) := NewRecord(IdAfter(h), input, now)] else tasks
    case Change(raw, u, now) => UpdateTask(tasks, raw, u, now).tasks
  }

  ghost function Run(tasks: Tasks, events: seq<Event>): Tasks
    decreases |events|
  {
    if events == [] then tasks else Run(Step(tasks, events[0]), events[1..])
  }

  // ---------------------------------------------------------------------------
  // The dependency graph
  // ---------------------------------------------------------------------------

  /** `a` names `b` as blocked by it, or as blocking it. */
  predicate Blocks(tasks: Tasks, a: TaskId, b: TaskId)
    requires a in tasks
  {
    b in tasks[a].blocks
  }

  predicate BlockedBy(tasks: Tasks, a: TaskId, b: TaskId)
    requires a in tasks
  {
    b in tasks[a].blockedBy
  }

  /** Every edge is recorded at both ends, both ends exist, and no task depends on itself. */
  ghost predicate Graph(tasks: Tasks) {
    && (forall a | a in tasks :: IsValidTaskId(a) && tasks[a].id == a)
    && (forall a, b | a in tasks && Blocks(tasks, a, b) :: b in tasks && a != b && BlockedBy(tasks, b, a))
    && (forall a, b | a in tasks && BlockedBy(tasks, a, b) :: b in tasks && a != b && Blocks(tasks, b, a))
  }

  lemma {:induction false} PushAllMembers(s: seq<TaskId>, xs: seq<TaskId>, x: TaskId)
    ensures x in PushAll(s, xs) <==> x in s || x in xs
  {
    if xs != [] {
      PushAllMembers(s, xs[..|xs| - 1], x);
      assert xs == xs[..|xs| - 1] + [xs[|xs| - 1]];
    }
  }

  lemma {:induction false} WithoutMembers(s: seq<TaskId>, gone: TaskId, x: TaskId)
    ensures x in Without(s, gone) <==> x in s && x != gone
  {
    if s != [] {
      WithoutMembers(s[..|s| - 1], gone, x);
      assert s == s[..|s| - 1] + [s[|s| - 1]];
    }
  }

  lemma DecimalIsValid(n: nat)
    ensures IsValidTaskId(Decimal(n))
  {
  }

  lemma NoFieldsNoChange(t: Task, u: Update, owner: Option<string>, touched: bool)
    requires AllFields(t, u, owner, touched) == {}
    requires !touched ==> owner == t.owner
    ensures u.addBlocks == [] && u.addBlockedBy == [] && LinkedTask(t, u, owner) == t
  {
  }

  /** One record after a successful update: the target, a neighbour, or untouched. */
  lemma UpdatedRecord(tasks: Tasks, id: TaskId, u: Update, owner: Option<string>, touched: bool, now: nat, k: TaskId)
    requires id in tasks && k in tasks
    requires !touched ==> owner == tasks[id].owner
    requires ValidDependencies(tasks, id, u.addBlocks) && ValidDependencies(tasks, id, u.addBlockedBy)
    ensures
      var after := ApplyUpdate(tasks, id, u, owner, touched, now).tasks;
      && after.Keys == tasks.Keys
      && after[k] ==
           if k != id then Neighbour(tasks[k], id, k in u.addBlocks, k in u.addBlockedBy, now)
           else if AllFields(tasks[id], u, owner, touched) == {} then tasks[id]
           else Bumped(LinkedTask(tasks[id], u, owner), now)
  {
  }

  /** The edges after a successful update: the old ones, and the named ones at both ends. */
  lemma UpdatedEdges(
    tasks: Tasks, id: TaskId, u: Update, owner: Option<string>, touched: bool, now: nat, a: TaskId, b: TaskId)
    requires id in tasks && a in tasks
    requires !touched ==> owner == tasks[id].owner
    requires ValidDependencies(tasks, id, u.addBlocks) && ValidDependencies(tasks, id, u.addBlockedBy)
    ensures
      var after := ApplyUpdate(tasks, id, u, owner, touched, now).tasks;
      && after.Keys == tasks.Keys && after[a].id == tasks[a].id
      && (Blocks(after, a, b) <==>
            Blocks(tasks, a, b) || (a == id && b in u.addBlocks) || (b == id && a in u.addBlockedBy))
      && (BlockedBy(after, a, b) <==>
            BlockedBy(tasks, a, b) || (a == id && b in u.addBlockedBy) || (b == id && a in u.addBlocks))
  {
    UpdatedRecord(tasks, id, u, owner, touched, now, a);
    if a == id {
      if AllFields(tasks[id], u, owner, touched) == {} {
        NoFieldsNoChange(tasks[id], u, owner, touched);
      }
      PushAllMembers(tasks[id].blocks, u.addBlocks, b);
      PushAllMembers(tasks[id].blockedBy, u.addBlockedBy, b);
    }
  }

  /** The new edges mirror each other because the old ones did and the named ones are written at both ends. */
  lemma UpdatedEdgesMirror(
    tasks: Tasks, id: TaskId, u: Update, owner: Option<string>, touched: bool, now: nat, a: TaskId, b: TaskId)
    requires Graph(tasks) && id in tasks && a in tasks && b in tasks
    requires !touched ==> owner == tasks[id].owner
    requires ValidDependencies(tasks, id, u.addBlocks) && ValidDependencies(tasks, id, u.addBlockedBy)
    ensures
      var after := ApplyUpdate(tasks, id, u, owner, touched, now).tasks;
      && after.Keys == tasks.Keys
      && (Blocks(after, a, b) <==> BlockedBy(after, b, a))
      && (Blocks(after, a, b) ==> a != b)
  {
    UpdatedEdges(tasks, id, u, owner, touched, now, a, b);
    UpdatedEdges(tasks, id, u, owner, touched, now, b, a);
    assert Blocks(tasks, a, b) <==> BlockedBy(tasks, b, a);
  }

  lemma UpdateKeepsGraph(tasks: Tasks, id: TaskId, u: Update, owner: Option<string>, touched: bool, now: nat)
    requires Graph(tasks) && id in tasks
    requires !touched ==> owner == tasks[id].owner
    requires ValidDependencies(tasks, id, u.addBlocks) && ValidDependencies(tasks, id, u.addBlockedBy)
    ensures Graph(ApplyUpdate(tasks, id, u, owner, touched, now).tasks)
  {
    var after := ApplyUpdate(tasks, id, u, owner, touched, now).tasks;
    forall a | a in tasks
      ensures a in after && after[a].id == a
      ensures forall b | Blocks(after, a, b) || BlockedBy(after, a, b) :: b in tasks
    {
      forall b | a in after && (Blocks(after, a, b) || BlockedBy(after, a, b))
        ensures b in tasks
      {
        UpdatedEdges(tasks, id, u, owner, touched, now, a, b);
      }
      UpdatedEdges(tasks, id, u, owner, touched, now, a, a);
    }
    UpdatedEdges(tasks, id, u, owner, touched, now, id, id);
    forall a, b | a in tasks && b in tasks
      ensures Blocks(after, a, b) <==> BlockedBy(after, b, a)
      ensures Blocks(after, a, b) ==> a != b
    {
      UpdatedEdgesMirror(tasks, id, u, owner, touched, now, a, b);
    }
  }

  /** By symmetry the listed neighbours are all neighbours, so no reference to a deleted task survives. */
  lemma DeletedEdges(tasks: Tasks, id: TaskId, a: TaskId, b: TaskId)
    requires Graph(tasks) && id in tasks && a in Delete(tasks, id)
    ensures
      var after := Delete(tasks, id);
      && after[a].id == tasks[a].id
      && (Blocks(after, a, b) <==> Blocks(tasks, a, b) && b != id)
      && (BlockedBy(after, a, b) <==> BlockedBy(tasks, a, b) && b != id)
  {
    WithoutMembers(tasks[a].blocks, id, b);
    WithoutMembers(tasks[a].blockedBy, id, b);
    assert Blocks(tasks, a, id) ==> BlockedBy(tasks, id, a);
    assert BlockedBy(tasks, a, id) ==> Blocks(tasks, id, a);
  }

  lemma DeleteKeepsGraph(tasks: Tasks, id: TaskId)
    requires Graph(tasks) && id in tasks
    ensures Graph(Delete(tasks, id))
  {
    var after := Delete(tasks, id);
    forall a, b | a in after
      ensures after[a].id == a
      ensures Blocks(after, a, b) ==> b in after && a != b && BlockedBy(after, b, a)
      ensures BlockedBy(after, a, b) ==> b in after && a != b && Blocks(after, b, a)
    {
      DeletedEdges(tasks, id, a, b);
      if b in after {
        DeletedEdges(tasks, id, b, a);
      }
    }
  }

  /** What a change does, by the guards of the update. */
  predicate Accepted(tasks: Tasks, e: Event) {
    && e.Change? && IsValidTaskId(Trim(e.raw)) && Trim(e.raw) in tasks && !e.update.delete
    && (e.update.expectedRevision.Some? ==> tasks[Trim(e.raw)].revision == e.update.expectedRevision.value)
    && ClaimOwner(tasks[Trim(e.raw)].owner, e.update.claimOwner, e.update.releaseOwner).Granted?
    && ValidDependencies(tasks, Trim(e.raw), e.update.addBlocks)
    && ValidDependencies(tasks, Trim(e.raw), e.update.addBlockedBy)
  }

  function Claim(tasks: Tasks, e: Event): ClaimOutcome
    requires Accepted(tasks, e)
  {
    ClaimOwner(tasks[Trim(e.raw)].owner, e.update.claimOwner, e.update.releaseOwner)
  }

  lemma ChangeCases(tasks: Tasks, e: Event)
    requires e.Change?
    ensures
      if Accepted(tasks, e) then
        Step(tasks, e)
        == ApplyUpdate(tasks, Trim(e.raw), e.update, Claim(tasks, e).owner, Claim(tasks, e).touched, e.now).tasks
        && UpdateTask(tasks, e.raw, e.update, e.now).outcome.Updated?
      else if IsValidTaskId(Trim(e.raw)) && Trim(e.raw) in tasks && e.update.delete then
        Step(tasks, e) == Delete(tasks, Trim(e.raw))
      else
        Step(tasks, e) == tasks && !UpdateTask(tasks, e.raw, e.update, e.now).outcome.Updated?
  {
  }

  lemma CreateKeepsGraph(tasks: Tasks, id: TaskId, input: NewTask, now: nat)
    requires Graph(tasks) && IsValidTaskId(id) && id !in tasks
    ensures Graph(tasks[id := NewRecord(id, input, now)])
  {
    var after := tasks[id := NewRecord(id, input, now)];
    forall a, b | a in after
      ensures Blocks(after, a, b) ==> b in after && a != b && BlockedBy(after, b, a)
      ensures BlockedBy(after, a, b) ==> b in after && a != b && Blocks(after, b, a)
    {
      if a != id {
        assert Blocks(after, a, b) <==> Blocks(tasks, a, b);
        assert BlockedBy(after, a, b) <==> BlockedBy(tasks, a, b);
      }
    }
  }

  lemma StepKeepsGraph(tasks: Tasks, e: Event)
    requires Graph(tasks)
    ensures Graph(Step(tasks, e))
  {
    match e
    case Create(input, h, now) =>
      DecimalIsValid(if h < U64_MAX then h + 1 else 0);
      if IsHighest(tasks.Keys, h) && IdAfter(h) !in tasks {
        CreateKeepsGraph(tasks, IdAfter(h), input, now);
      }
    case Change(raw, u, now) =>
      ChangeCases(tasks, e);
      if Accepted(tasks, e) {
        UpdateKeepsGraph(tasks, Trim(raw), u, Claim(tasks, e).owner, Claim(tasks, e).touched, now);
      } else if IsValidTaskId(Trim(raw)) && Trim(raw) in tasks && u.delete {
        DeleteKeepsGraph(tasks, Trim(raw));
      }
  }

  /**
   Over every run from an empty list, the two dependency lists mirror each other, name
   existing tasks only, and never the task itself.
   */
  lemma {:induction false} DependenciesStaySymmetric(tasks: Tasks, events: seq<Event>)
    requires Graph(tasks)
    ensures Graph(Run(tasks, events))
    decreases |events|
  {
    if events != [] {
      StepKeepsGraph(tasks, events[0]);
      DependenciesStaySymmetric(Step(tasks, events[0]), events[1..]);
    }
  }

  /** Below the 64-bit limit the allocated id is free, so a creation never fails. */
  lemma AllocatedIdIsFree(tasks: Tasks, h: U64)
    requires IsHighest(tasks.Keys, h) && h < U64_MAX
    ensures IdAfter(h) !in tasks
  {
    ParseDecimal(h + 1);
  }

  /** Hence a new task, even one that reuses the id of a deleted task, is referenced by nobody. */
  lemma NewTaskIsUnreferenced(events: seq<Event>, input: NewTask, h: U64, now: nat, other: TaskId)
    requires
      var tasks := Run(map[], events);
      IsHighest(tasks.Keys, h) && IdAfter(h) !in tasks && other in tasks
    ensures
      var tasks := Run(map[], events);
      var after := Step(tasks, Create(input, h, now));
      && IdAfter(h) in after && after[other] == tasks[other]
      && IdAfter(h) !in after[other].blocks && IdAfter(h) !in after[other].blockedBy
  {
    var none: Tasks := map[];
    assert Graph(none);
    DependenciesStaySymmetric(none, events);
    var tasks := Run(map[], events);
    assert !Blocks(tasks, other, IdAfter(h)) && !BlockedBy(tasks, other, IdAfter(h));
  }

  // ---------------------------------------------------------------------------
  // Revisions
  // ---------------------------------------------------------------------------

  predicate IsDelete(e: Event) {
    e.Change? && e.update.delete
  }

  /** A later record: the revision has not gone back, and an equal one below the limit means an equal record. */
  predicate Later(t: Task, t': Task) {
    && t.revision <= t'.revision
    && (t.revision == t'.revision < U64_MAX ==> t == t')
  }

  lemma StepMovesRevisions(tasks: Tasks, e: Event, k: TaskId)
    requires k in tasks && !IsDelete(e)
    ensures k in Step(tasks, e) && Later(tasks[k], Step(tasks, e)[k])
  {
    if e.Change? {
      ChangeCases(tasks, e);
      if Accepted(tasks, e) {
        UpdatedRecord(tasks, Trim(e.raw), e.update, Claim(tasks, e).owner, Claim(tasks, e).touched, e.now, k);
      }
    }
  }

  lemma {:induction false} RevisionsIdentifyRecords(tasks: Tasks, events: seq<Event>, k: TaskId)
    requires k in tasks
    requires forall i | 0 <= i < |events| :: !IsDelete(events[i])
    ensures k in Run(tasks, events) && Later(tasks[k], Run(tasks, events)[k])
    decreases |events|
  {
    if events != [] {
      StepMovesRevisions(tasks, events[0], k);
      RevisionsIdentifyRecords(Step(tasks, events[0]), events[1..], k);
    }
  }

  /**
   No lost update.  After an update that changed something, no update sent with the revision it
   was based on succeeds in the rest of a delete-free run.
   */
  lemma SecondUpdateIsStale(tasks: Tasks, first: Event, events: seq<Event>, second: Event)
    requires Accepted(tasks, first) && UpdateTask(tasks, first.raw, first.update, first.now).outcome.fields != {}
    requires first.update.expectedRevision.Some? && first.update.expectedRevision.value < U64_MAX
    requires second.Change? && second.raw == first.raw && !second.update.delete
    requires second.update.expectedRevision == first.update.expectedRevision
    requires forall i | 0 <= i < |events| :: !IsDelete(events[i])
    ensures
      var later := Run(Step(tasks, first), events);
      var r := UpdateTask(later, second.raw, second.update, second.now);
      r.outcome.Stale? && r.tasks == later
  {
    var id := Trim(first.raw);
    ChangeCases(tasks, first);
    UpdatedRecord(tasks, id, first.update, Claim(tasks, first).owner, Claim(tasks, first).touched, first.now, id);
    RevisionsIdentifyRecords(Step(tasks, first), events, id);
  }

  // ---------------------------------------------------------------------------
  // Rejections and ownership
  // ---------------------------------------------------------------------------

  /**
   Exactly which updates are accepted, by the guards in the order the source checks them, and
   that every other update, and every accepted one that reports no field, leaves all tasks alone.
   */
  lemma RejectionIsAtomic(tasks: Tasks, e: Event)
    requires e.Change?
    ensures
      var r := UpdateTask(tasks, e.raw, e.update, e.now);
      && (r.outcome.Updated? <==> Accepted(tasks, e))
      && (r.outcome.Deleted? <==> IsValidTaskId(Trim(e.raw)) && Trim(e.raw) in tasks && e.update.delete)
      && (!r.outcome.Updated? && !r.outcome.Deleted? ==> r.tasks == tasks)
      && (r.outcome.Updated? && r.outcome.fields == {} ==> r.tasks == tasks)
      && (r.outcome.Updated? && r.outcome.fields != {} && tasks[Trim(e.raw)].revision < U64_MAX ==>
            r.tasks[Trim(e.raw)].revision == tasks[Trim(e.raw)].revision + 1)
  {
    ChangeCases(tasks, e);
    if Accepted(tasks, e) {
      if AllFields(tasks[Trim(e.raw)], e.update, Claim(tasks, e).owner, Claim(tasks, e).touched) == {} {
        NoFieldsNoChange(tasks[Trim(e.raw)], e.update, Claim(tasks, e).owner, Claim(tasks, e).touched);
        assert Related(tasks, Trim(e.raw), [], [], e.now) == map[];
      } else {
        UpdatedRecord(tasks, Trim(e.raw), e.update, Claim(tasks, e).owner, Claim(tasks, e).touched, e.now, Trim(e.raw));
      }
    }
  }

  /** An update of `k` that lets go of the task as its holder. */
  predicate Releases(tasks: Tasks, e: Event, k: TaskId, holder: string) {
    && e.Change? && Trim(e.raw) == k && e.update.releaseOwner == Some(holder)
    && UpdateTask(tasks, e.raw, e.update, e.now).outcome.Updated?
  }

  /** Neither a deletion nor a direct owner override. */
  predicate Cooperative(e: Event) {
    e.Change? ==> !e.update.delete && e.update.owner.None?
  }

  ghost predicate EverReleased(tasks: Tasks, events: seq<Event>, k: TaskId, holder: string)
    decreases |events|
  {
    events != [] &&
    (Releases(tasks, events[0], k, holder) || EverReleased(Step(tasks, events[0]), events[1..], k, holder))
  }

  lemma HolderKeepsTask(tasks: Tasks, e: Event, k: TaskId, holder: string)
    requires k in tasks && tasks[k].owner == Some(holder) && Cooperative(e)
    ensures k in Step(tasks, e)
    ensures || Step(tasks, e)[k].owner == Some(holder)
            || (Step(tasks, e)[k].owner == None && Releases(tasks, e, k, holder))
  {
    if e.Change? {
      ChangeCases(tasks, e);
      if Accepted(tasks, e) {
        UpdatedRecord(tasks, Trim(e.raw), e.update, Claim(tasks, e).owner, Claim(tasks, e).touched, e.now, k);
      }
    }
  }

  /** Ownership is a lock: without overrides or deletions a task changes hands only after its holder released it. */
  lemma {:induction false} OwnershipIsALock(tasks: Tasks, events: seq<Event>, k: TaskId, holder: string)
    requires k in tasks && tasks[k].owner == Some(holder)
    requires forall i | 0 <= i < |events| :: Cooperative(events[i])
    ensures k in Run(tasks, events)
    ensures Run(tasks, events)[k].owner != Some(holder) ==> EverReleased(tasks, events, k, holder)
    decreases |events|
  {
    if events != [] {
      var next := Step(tasks, events[0]);
      HolderKeepsTask(tasks, events[0], k, holder);
      if next[k].owner == Some(holder) {
        OwnershipIsALock(next, events[1..], k, holder);
      } else {
        RevisionsIdentifyRecords(next, events[1..], k);
      }
    }
  }
}
