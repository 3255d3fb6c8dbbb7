/**
 The shared task list of `src/tasklist.rs`: a map from file name to record, guarded by one
 lock.  A record lists the tasks it blocks and the tasks that block it; the two lists of
 different records must mirror each other.
 */
module TaskList {
  import opened Prelude

  type TaskId = string

  datatype Status = Pending | InProgress | Completed

  datatype Json = Null | Value(text: string)

  datatype Task = Task(
    id: TaskId,
    subject: string,
    description: string,
    activeForm: Option<string>,
    owner: Option<string>,
    status: Status,
    revision: U64,
    updatedAt: nat,
    blocks: seq<TaskId>,
    blockedBy: seq<TaskId>,
    metadata: map<string, Json>)

  datatype NewTask = NewTask(
    subject: string, description: string, activeForm: Option<string>, metadata: map<string, Json>)

  datatype Update = Update(
    expectedRevision: Option<U64>,
    subject: Option<string>,
    description: Option<string>,
    activeForm: Option<Option<string>>,
    owner: Option<Option<string>>,
    claimOwner: Option<string>,
    releaseOwner: Option<string>,
    status: Option<Status>,
    metadata: map<string, Json>,
    addBlocks: seq<TaskId>,
    addBlockedBy: seq<TaskId>,
    delete: bool)

  /** The names an update reports back; the source sorts and deduplicates them. */
  datatype FieldName =
    | SubjectField | DescriptionField | ActiveFormField | OwnerField
    | StatusField | MetadataField | BlocksField | BlockedByField

  datatype Outcome =
    | Updated(fields: set<FieldName>, revision: U64, updatedAt: nat, statusFrom: Status, statusTo: Status)
    | Deleted
    | NotFound
    | Stale(revision: U64, updatedAt: nat)
    | Conflict(revision: U64, updatedAt: nat, holder: string)
    | Failed

  type Tasks = map<TaskId, Task>

  datatype Reply = Reply(tasks: Tasks, outcome: Outcome)

  predicate HasDotDot(s: string) {
    exists i | 0 <= i < |s| - 1 :: s[i] == '.' && s[i + 1] == '.'
  }

  predicate IsValidTaskId(raw: string) {
    var s := Trim(raw);
    s != [] && '/' !in s && '\\' !in s && !HasDotDot(s)
  }

  function Bumped(t: Task, now: nat): Task {
    t.(revision := if t.revision < U64_MAX then t.revision + 1 else U64_MAX, updatedAt := now)
  }

  function PushUnique(s: seq<TaskId>, x: TaskId): seq<TaskId> {
    if x in s then s else s + [x]
  }

  function PushAll(s: seq<TaskId>, xs: seq<TaskId>): seq<TaskId> {
    if xs == [] then s else PushUnique(PushAll(s, xs[..|xs| - 1]), xs[|xs| - 1])
  }

  function Without(s: seq<TaskId>, x: TaskId): seq<TaskId> {
    if s == [] then [] else Without(s[..|s| - 1], x) + if s[|s| - 1] == x then [] else [s[|s| - 1]]
  }

  // ---------------------------------------------------------------------------
  // Field edits
  // ---------------------------------------------------------------------------

  datatype ClaimOutcome = Refused(holder: string) | Granted(owner: Option<string>, touched: bool)

  /** First the claim, then the release; each is refused when somebody else holds the task. */
  function ClaimOwner(owner: Option<string>, claim: Option<string>, release: Option<string>): ClaimOutcome {
    if claim.Some? && owner.Some? && owner != claim then Refused(owner.value)
    else
      var held := if claim.Some? then claim else owner;
      if release.Some? && held.Some? && held != release then Refused(held.value)
      else if release.Some? && held.Some? then Granted(None, true)
      else Granted(held, held != owner)
  }

  function Merged(target: map<string, Json>, updates: map<string, Json>): map<string, Json> {
    map k | k in target.Keys + updates.Keys && (k in updates ==> updates[k] != Null) ::
      if k in updates then updates[k] else target[k]
  }

  function Or<T>(update: Option<T>, current: T): T {
    if update.Some? then update.value else current
  }

  /** The record after its own fields are edited; `owner` is what the claim left. */
  function EditedTask(t: Task, u: Update, owner: Option<string>): Task {
    t.(subject := Or(u.subject, t.subject),
       description := Or(u.description, t.description),
       activeForm := Or(u.activeForm, t.activeForm),
       owner := Or(u.owner, owner),
       status := Or(u.status, t.status),
       metadata := Merged(t.metadata, u.metadata))
  }

  function Field(changed: bool, name: FieldName): set<FieldName> {
    if changed then {name} else {}
  }

  function EditedFields(t: Task, u: Update, owner: Option<string>, touched: bool): set<FieldName> {
    Field(Or(u.subject, t.subject) != t.subject, SubjectField)
    + Field(Or(u.description, t.description) != t.description, DescriptionField)
    + Field(Or(u.activeForm, t.activeForm) != t.activeForm, ActiveFormField)
    + Field(touched || Or(u.owner, owner) != owner, OwnerField)
    + Field(Or(u.status, t.status) != t.status, StatusField)
    + Field(u.metadata != map[], MetadataField)
  }

  // ---------------------------------------------------------------------------
  // Dependencies
  // ---------------------------------------------------------------------------

  predicate ValidDependency(tasks: Tasks, id: TaskId, other: TaskId) {
    IsValidTaskId(id) && IsValidTaskId(other) && id != other && other in tasks
  }

  predicate ValidDependencies(tasks: Tasks, id: TaskId, others: seq<TaskId>) {
    forall k | k in others :: ValidDependency(tasks, id, k)
  }

  /** A neighbour after the two link loops; each link that is new costs it one revision. */
  function Neighbour(t: Task, id: TaskId, blocked: bool, blocker: bool, now: nat): Task {
    var t1 := if blocked && id !in t.blockedBy then Bumped(t.(blockedBy := t.blockedBy + [id]), now) else t;
    if blocker && id !in t1.blocks then Bumped(t1.(blocks := t1.blocks + [id]), now) else t1
  }

  lemma NeighbourInTwoSteps(t: Task, id: TaskId, blocked: bool, blocker: bool, now: nat)
    ensures Neighbour(Neighbour(t, id, blocked, false, now), id, false, blocker, now)
            == Neighbour(t, id, blocked, blocker, now)
  {
  }

  function Related(tasks: Tasks, id: TaskId, addBlocks: seq<TaskId>, addBlockedBy: seq<TaskId>, now: nat): Tasks {
    map k | k in tasks && (k in addBlocks || k in addBlockedBy) ::
      Neighbour(tasks[k], id, k in addBlocks, k in addBlockedBy, now)
  }

  /** Deleting a task repairs only the neighbours the deleted record lists. */
  function Listed(tasks: Tasks, id: TaskId): set<TaskId>
    requires id in tasks
  {
    set k | k in tasks && k != id && IsValidTaskId(k) && (k in tasks[id].blockedBy || k in tasks[id].blocks)
  }

  function Unlinked(t: Task, id: TaskId): Task {
    t.(blocks := Without(t.blocks, id), blockedBy := Without(t.blockedBy, id))
  }

  function Delete(tasks: Tasks, id: TaskId): Tasks
    requires id in tasks
  {
    map k | k in tasks && k != id :: if k in Listed(tasks, id) then Unlinked(tasks[k], id) else tasks[k]
  }

  // ---------------------------------------------------------------------------
  // The two operations
  // ---------------------------------------------------------------------------

  function AllFields(t: Task, u: Update, owner: Option<string>, touched: bool): set<FieldName> {
    EditedFields(t, u, owner, touched)
    + Field(u.addBlocks != [], BlocksField) + Field(u.addBlockedBy != [], BlockedByField)
  }

  /** The updated record before its revision moves. */
  function LinkedTask(t: Task, u: Update, owner: Option<string>): Task {
    EditedTask(t, u, owner).(
      blocks := PushAll(t.blocks, u.addBlocks), blockedBy := PushAll(t.blockedBy, u.addBlockedBy))
  }

  function ApplyUpdate(tasks: Tasks, id: TaskId, u: Update, owner: Option<string>, touched: bool, now: nat): Reply
    requires id in tasks
  {
    var t := tasks[id];
    var fields := AllFields(t, u, owner, touched);
    var edited := LinkedTask(t, u, owner);
    var linked := tasks + Related(tasks, id, u.addBlocks, u.addBlockedBy, now);
    var final := if fields == {} then edited else Bumped(edited, now);
    Reply(if fields == {} then linked else linked[id := final],
          Updated(fields, final.revision, final.updatedAt, t.status, final.status))
  }

  function UpdateTask(tasks: Tasks, raw: TaskId, u: Update, now: nat): Reply {
    var id := Trim(raw);
    if !IsValidTaskId(id) then Reply(tasks, Failed)
    else if id !in tasks then Reply(tasks, NotFound)
    else if u.delete then Reply(Delete(tasks, id), Deleted)
    else
      var t := tasks[id];
      if u.expectedRevision.Some? && t.revision != u.expectedRevision.value
      then Reply(tasks, Stale(t.revision, t.updatedAt))
      else
        match ClaimOwner(t.owner, u.claimOwner, u.releaseOwner)
        case Refused(holder) => Reply(tasks, Conflict(t.revision, t.updatedAt, holder))
        case Granted(owner, touched) =>
          if !ValidDependencies(tasks, id, u.addBlocks) || !ValidDependencies(tasks, id, u.addBlockedBy)
          then Reply(tasks, Failed)
          else ApplyUpdate(tasks, id, u, owner, touched, now)
  }

  /** The largest id that reads as a 64-bit number, zero when there is none. */
  ghost predicate IsHighest(ids: set<TaskId>, h: U64) {
    && (forall k | k in ids && ParseU64(k).Some? :: ParseU64(k).value <= h)
    && (h == 0 || exists k :: k in ids && ParseU64(k) == Some(h))
  }

  /** The id handed to the next task; the addition wraps at 64 bits. */
  function IdAfter(h: U64): TaskId {
    Decimal(if h < U64_MAX then h + 1 else 0)
  }

  function NewRecord(id: TaskId, input: NewTask, now: nat): Task {
    Task(id, input.subject, input.description, input.activeForm, None, Pending, 1, now, [], [], input.metadata)
  }

  class TaskListStore {
    var tasks: Tasks

    /** A store opens the list as it lies on disk. */
    constructor (tasks: Tasks)
      ensures this.tasks == tasks
    {
      this.tasks := tasks;
    }

    method HighestId() returns (h: U64)
      ensures IsHighest(tasks.Keys, h)
    {
      h := 0;
      var rest := tasks.Keys;
      while rest != {}
        invariant rest <= tasks.Keys
        invariant IsHighest(tasks.Keys - rest, h)
      {
        var k :| k in rest;
        rest := rest - {k};
        var n := ParseU64(k);
        if n.Some? && n.value > h {
          h := n.value;
        }
      }
      assert tasks.Keys - rest == tasks.Keys;
    }

    method CreateTask(input: NewTask, now: nat) returns (r: Result<Task>)
      modifies this
      ensures exists h: U64 ::
                && IsHighest(old(tasks.Keys), h)
                && r == (if IdAfter(h) in old(tasks) then Err else Ok(NewRecord(IdAfter(h), input, now)))
                && tasks == (if r.Ok? then old(tasks)[IdAfter(h) := r.value] else old(tasks))
    {
      var h := HighestId();
      var id := IdAfter(h);
      if id in tasks {
        return Err;
      }
      var task := NewRecord(id, input, now);
      tasks := tasks[id := task];
      return Ok(task);
    }

    method LoadDependencies(id: TaskId, others: seq<TaskId>, known: Tasks) returns (r: Result<Tasks>)
      requires forall k | k in known :: k in tasks && known[k] == tasks[k]
      ensures r.Ok? <==> ValidDependencies(tasks, id, others)
      ensures r.Ok? ==> forall k :: k in r.value <==> k in known || k in others
      ensures r.Ok? ==> forall k | k in r.value :: k in tasks && r.value[k] == tasks[k]
    {
      var related := known;
      for i := 0 to |others|
        invariant ValidDependencies(tasks, id, others[..i])
        invariant forall k :: k in related <==> k in known || k in others[..i]
        invariant forall k | k in related :: k in tasks && related[k] == tasks[k]
      {
        var other := others[i];
        assert other in others && others[..i + 1] == others[..i] + [other];
        if !IsValidTaskId(id) || !IsValidTaskId(other) || id == other || other !in tasks {
          return Err;
        }
        if other !in related {
          related := related[other := tasks[other]];
        }
      }
      assert others[..|others|] == others;
      return Ok(related);
    }

    method WriteAll(related: Tasks)
      modifies this
      ensures tasks == old(tasks) + related
    {
      var rest := related.Keys;
      while rest != {}
        invariant rest <= related.Keys
        invariant tasks == old(tasks) + (map k | k in related && k !in rest :: related[k])
      {
        var k :| k in rest;
        tasks := tasks[k := related[k]];
        rest := rest - {k};
      }
    }

    /** The loop over `add_blocks`: every named task learns that `id` blocks it. */
    static method LinkBlocked(id: TaskId, base: Tasks, own: seq<TaskId>, others: seq<TaskId>, now: nat)
      returns (related: Tasks, blocks: seq<TaskId>)
      requires forall k | k in others :: k in base
      ensures related.Keys == base.Keys
      ensures forall k | k in base :: related[k] == Neighbour(base[k], id, k in others, false, now)
      ensures blocks == PushAll(own, others)
    {
      related, blocks := base, own;
      for i := 0 to |others|
        invariant related.Keys == base.Keys
        invariant forall k | k in base :: related[k] == Neighbour(base[k], id, k in others[..i], false, now)
        invariant blocks == PushAll(own, others[..i])
      {
        var other := others[i];
        assert others[..i + 1] == others[..i] + [other] && others[..i + 1][..i] == others[..i];
        var blocked := related[other];
        if id !in blocked.blockedBy {
          related := related[other := Bumped(blocked.(blockedBy := blocked.blockedBy + [id]), now)];
        }
        blocks := PushUnique(blocks, other);
      }
      assert others[..|others|] == others;
    }

    /** The loop over `add_blocked_by`: every named task learns that it blocks `id`. */
    static method LinkBlockers(id: TaskId, base: Tasks, own: seq<TaskId>, others: seq<TaskId>, now: nat)
      returns (related: Tasks, blockedBy: seq<TaskId>)
      requires forall k | k in others :: k in base
      ensures related.Keys == base.Keys
      ensures forall k | k in base :: related[k] == Neighbour(base[k], id, false, k in others, now)
      ensures blockedBy == PushAll(own, others)
    {
      related, blockedBy := base, own;
      for i := 0 to |others|
        invariant related.Keys == base.Keys
        invariant forall k | k in base :: related[k] == Neighbour(base[k], id, false, k in others[..i], now)
        invariant blockedBy == PushAll(own, others[..i])
      {
        var other := others[i];
        assert others[..i + 1] == others[..i] + [other] && others[..i + 1][..i] == others[..i];
        var blocker := related[other];
        if id !in blocker.blocks {
          related := related[other := Bumped(blocker.(blocks := blocker.blocks + [id]), now)];
        }
        blockedBy := PushUnique(blockedBy, other);
      }
      assert others[..|others|] == others;
    }

    /** Load every named neighbour, then link both ways; nothing is written yet. */
    method LinkDependencies(id: TaskId, task: Task, addBlocks: seq<TaskId>, addBlockedBy: seq<TaskId>, now: nat)
      returns (r: Result<(Tasks, Task)>)
      ensures r.Ok? <==> ValidDependencies(tasks, id, addBlocks) && ValidDependencies(tasks, id, addBlockedBy)
      ensures r.Ok? ==> r.value.0 == Related(tasks, id, addBlocks, addBlockedBy, now)
      ensures r.Ok? ==>
                r.value.1 == task.(blocks := PushAll(task.blocks, addBlocks),
                                   blockedBy := PushAll(task.blockedBy, addBlockedBy))
    {
      var blocked := LoadDependencies(id, addBlocks, map[]);
      if blocked.Err? { return Err; }
      var loaded := LoadDependencies(id, addBlockedBy, blocked.value);
      if loaded.Err? { return Err; }
      var half, blocks := LinkBlocked(id, loaded.value, task.blocks, addBlocks, now);
      var related, blockedBy := LinkBlockers(id, half, task.blockedBy, addBlockedBy, now);
      forall k | k in related
        ensures related[k] == Neighbour(tasks[k], id, k in addBlocks, k in addBlockedBy, now)
      {
        NeighbourInTwoSteps(tasks[k], id, k in addBlocks, k in addBlockedBy, now);
      }
      return Ok((related, task.(blocks := blocks, blockedBy := blockedBy)));
    }

    /** The neighbours' files are written only when every check has passed. */
    method ApplyDependencies(id: TaskId, task: Task, addBlocks: seq<TaskId>, addBlockedBy: seq<TaskId>, now: nat)
      returns (r: Result<Task>)
      modifies this
      ensures r.Ok? <==> ValidDependencies(old(tasks), id, addBlocks) && ValidDependencies(old(tasks), id, addBlockedBy)
      ensures r.Err? ==> tasks == old(tasks)
      ensures r.Ok? ==> tasks == old(tasks) + Related(old(tasks), id, addBlocks, addBlockedBy, now)
      ensures r.Ok? ==>
                r.value == task.(blocks := PushAll(task.blocks, addBlocks),
                                 blockedBy := PushAll(task.blockedBy, addBlockedBy))
    {
      var linked := LinkDependencies(id, task, addBlocks, addBlockedBy, now);
      if linked.Err? { return Err; }
      WriteAll(linked.value.0);
      return Ok(linked.value.1);
    }

    method RemoveKnownReferences(id: TaskId)
      requires id in tasks
      modifies this
      ensures tasks.Keys == old(tasks.Keys)
      ensures forall k | k in tasks ::
                tasks[k] == if k in Listed(old(tasks), id) then Unlinked(old(tasks)[k], id) else old(tasks)[k]
    {
      var listed := tasks[id].blockedBy + tasks[id].blocks;
      var related: Tasks := map[];
      for i := 0 to |listed|
        invariant forall k :: k in related <==> k in listed[..i] && k in tasks && k != id && IsValidTaskId(k)
        invariant forall k | k in related :: related[k] == Unlinked(tasks[k], id)
      {
        var other := listed[i];
        assert listed[..i + 1] == listed[..i] + [other];
        if IsValidTaskId(other) && other != id && other !in related && other in tasks {
          related := related[other := Unlinked(tasks[other], id)];
        }
      }
      assert listed[..|listed|] == listed;
      assert related.Keys == Listed(tasks, id);
      WriteAll(related);
    }

    method Update(raw: TaskId, u: Update, now: nat) returns (outcome: Outcome)
      modifies this
      ensures Reply(tasks, outcome) == UpdateTask(old(tasks), raw, u, now)
    {
      var id := Trim(raw);
      if !IsValidTaskId(id) { return Failed; }
      if id !in tasks { return NotFound; }
      if u.delete {
        RemoveKnownReferences(id);
        tasks := tasks - {id};
        assert tasks == Delete(old(tasks), id);
        return Deleted;
      }
      var task := tasks[id];
      var before := task;
      if u.expectedRevision.Some? && task.revision != u.expectedRevision.value {
        return Stale(task.revision, task.updatedAt);
      }
      var claim := ClaimOwner(task.owner, u.claimOwner, u.releaseOwner);
      if claim.Refused? {
        return Conflict(task.revision, task.updatedAt, claim.holder);
      }
      var fields := EditedFields(task, u, claim.owner, claim.touched);
      task := EditedTask(task, u, claim.owner);
      var linked := ApplyDependencies(id, task, u.addBlocks, u.addBlockedBy, now);
      if linked.Err? { return Failed; }
      task := linked.value;
      fields := fields + Field(u.addBlocks != [], BlocksField) + Field(u.addBlockedBy != [], BlockedByField);
      if fields != {} {
        task := Bumped(task, now);
        tasks := tasks[id := task];
      }
      return Updated(fields, task.revision, task.updatedAt, before.status, task.status);
    }
  }
}
