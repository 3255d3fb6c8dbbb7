/**
 What an update of a task answers and what it leaves in each field of each record, told by the
 update itself.
 */
module TaskListOutcomes {
  import opened Prelude
  import opened TaskList
  import opened TaskListRuns

  // ---------- Which updates are accepted ----------

  /** A file name that stays in the directory of the list. */
  predicate WellFormed(id: TaskId) {
    id != "" && '/' !in id && '\\' !in id && forall i | 0 < i < |id| :: !(id[i - 1] == '.' && id[i] == '.')
  }

  lemma ValidIdIff(raw: TaskId)
    ensures IsValidTaskId(raw) <==> WellFormed(Trim(raw))
    ensures IsValidTaskId(Trim(raw)) <==> WellFormed(Trim(raw))
  {
    var s := Trim(raw);
    TrimmedTwice(raw);
    if HasDotDot(s) {
      var i :| 0 <= i < |s| - 1 && s[i] == '.' && s[i + 1] == '.';
      assert s[i + 1 - 1] == '.' && s[i + 1] == '.';
    }
    if i :| 0 < i < |s| && s[i - 1] == '.' && s[i] == '.' {
      assert s[i - 1] == '.' && s[i - 1 + 1] == '.';
    }
  }

  /** Who stands in the way of a claim or a release: whoever else holds the task, the claimer included. */
  function InTheWay(owner: Option<string>, claim: Option<string>, release: Option<string>): Option<string> {
    if owner.Some? && claim.Some? && claim != owner then owner
    else if claim.Some? && release.Some? && release != claim then claim
    else if owner.Some? && claim.None? && release.Some? && release != owner then owner
    else None
  }

  /** Every named task can be linked: a well-formed name, another task, and present. */
  predicate Linkable(tasks: Tasks, id: TaskId, others: seq<TaskId>) {
    forall k | k in others :: WellFormed(Trim(k)) && k != id && k in tasks
  }

  lemma LinkableIff(tasks: Tasks, id: TaskId, others: seq<TaskId>)
    requires IsValidTaskId(id)
    ensures Linkable(tasks, id, others) <==> ValidDependencies(tasks, id, others)
  {
    forall k | k in others ensures WellFormed(Trim(k)) <==> IsValidTaskId(k) {
      ValidIdIff(k);
    }
    assert Linkable(tasks, id, others) ==> forall k | k in others :: ValidDependency(tasks, id, k);
    assert ValidDependencies(tasks, id, others) ==> forall k | k in others :: ValidDependency(tasks, id, k);
  }

  lemma ClaimRefusedIff(owner: Option<string>, claim: Option<string>, release: Option<string>)
    ensures match ClaimOwner(owner, claim, release)
            case Refused(holder) => InTheWay(owner, claim, release) == Some(holder)
            case Granted(_, _) => InTheWay(owner, claim, release) == None
  {
  }

  /** The outcome of an update, by the first of the checks it does not pass. */
  lemma UpdateOutcomeIff(tasks: Tasks, raw: TaskId, u: Update, now: nat)
    ensures
      var id, outcome := Trim(raw), UpdateTask(tasks, raw, u, now).outcome;
      if !WellFormed(id) then outcome == Failed
      else if id !in tasks then outcome == NotFound
      else if u.delete then outcome == Deleted
      else
        var t := tasks[id];
        var holder := InTheWay(t.owner, u.claimOwner, u.releaseOwner);
        if u.expectedRevision != None && u.expectedRevision != Some(t.revision)
        then outcome == Stale(t.revision, t.updatedAt)
        else if holder.Some? then outcome == Conflict(t.revision, t.updatedAt, holder.value)
        else if Linkable(tasks, id, u.addBlocks) && Linkable(tasks, id, u.addBlockedBy) then outcome.Updated?
        else outcome == Failed
  {
    ValidIdIff(raw);
    var id := Trim(raw);
    if WellFormed(id) {
      if id in tasks {
        ClaimRefusedIff(tasks[id].owner, u.claimOwner, u.releaseOwner);
      }
      LinkableIff(tasks, id, u.addBlocks);
      LinkableIff(tasks, id, u.addBlockedBy);
    }
  }

  // ---------- The updated record ----------

  /** The owner after claim and release: a claim takes, a release frees. */
  function HeldAfter(owner: Option<string>, u: Update): Option<string> {
    if u.releaseOwner != None then None else if u.claimOwner != None then u.claimOwner else owner
  }

  lemma GrantedOwner(owner: Option<string>, u: Update)
    requires ClaimOwner(owner, u.claimOwner, u.releaseOwner).Granted?
    ensures ClaimOwner(owner, u.claimOwner, u.releaseOwner).owner == HeldAfter(owner, u)
    ensures ClaimOwner(owner, u.claimOwner, u.releaseOwner).touched
            <==> (u.claimOwner != None && owner == None)
                 || (u.releaseOwner != None && (u.claimOwner != None || owner != None))
  {
  }

  /** Whether `after` is the supplied value, or `before` when none was supplied. */
  predicate Takes<T(==)>(before: T, supplied: Option<T>, after: T) {
    match supplied
    case Some(value) => after == value
    case None => after == before
  }

  /** Each supplied field is in the record, and what was not supplied stays. */
  lemma UpdateSetsFields(tasks: Tasks, raw: TaskId, u: Update, now: nat)
    requires UpdateTask(tasks, raw, u, now).outcome.Updated?
    ensures
      var id, r := Trim(raw), UpdateTask(tasks, raw, u, now);
      && id in tasks && id in r.tasks
      && var t, t' := tasks[id], r.tasks[id];
      && t'.id == t.id
      && Takes(t.subject, u.subject, t'.subject)
      && Takes(t.description, u.description, t'.description)
      && Takes(t.activeForm, u.activeForm, t'.activeForm)
      && Takes(HeldAfter(t.owner, u), u.owner, t'.owner)
      && Takes(t.status, u.status, t'.status)
  {
    var e, id := Change(raw, u, now), Trim(raw);
    ChangeCases(tasks, e);
    GrantedOwner(tasks[id].owner, u);
    UpdatedRecord(tasks, id, u, Claim(tasks, e).owner, Claim(tasks, e).touched, now, id);
    if AllFields(tasks[id], u, Claim(tasks, e).owner, Claim(tasks, e).touched) == {} {
      NoFieldsNoChange(tasks[id], u, Claim(tasks, e).owner, Claim(tasks, e).touched);
    }
  }

  /** A metadata key is set to the supplied value, removed by a null, and otherwise stays. */
  lemma UpdateMergesMetadata(tasks: Tasks, raw: TaskId, u: Update, now: nat, key: string)
    requires UpdateTask(tasks, raw, u, now).outcome.Updated?
    ensures
      var id, r := Trim(raw), UpdateTask(tasks, raw, u, now);
      && id in tasks && id in r.tasks
      && var m, m' := tasks[id].metadata, r.tasks[id].metadata;
      && (key in u.metadata && u.metadata[key] == Null ==> key !in m')
      && (key in u.metadata && u.metadata[key] != Null ==> key in m' && m'[key] == u.metadata[key])
      && (key !in u.metadata ==> (key in m' <==> key in m) && (key in m ==> m'[key] == m[key]))
  {
    var e, id := Change(raw, u, now), Trim(raw);
    ChangeCases(tasks, e);
    UpdatedRecord(tasks, id, u, Claim(tasks, e).owner, Claim(tasks, e).touched, now, id);
    if AllFields(tasks[id], u, Claim(tasks, e).owner, Claim(tasks, e).touched) == {} {
      NoFieldsNoChange(tasks[id], u, Claim(tasks, e).owner, Claim(tasks, e).touched);
    }
  }

  lemma {:induction false} PushAllAppends(s: seq<TaskId>, xs: seq<TaskId>)
    ensures s <= PushAll(s, xs)
    ensures forall i, j | 0 <= i < j < |PushAll(s, xs)| && j >= |s| :: PushAll(s, xs)[i] != PushAll(s, xs)[j]
  {
    if xs != [] {
      PushAllAppends(s, xs[..|xs| - 1]);
    }
  }

  lemma {:induction false} PushAllLength(s: seq<TaskId>, xs: seq<TaskId>)
    ensures |PushAll(s, xs)| <= |s| + |xs|
  {
    if xs != [] {
      PushAllLength(s, xs[..|xs| - 1]);
    }
  }

  /** New dependencies are appended, each once; the old ones keep their places. */
  lemma UpdateAppendsDependencies(tasks: Tasks, raw: TaskId, u: Update, now: nat, k: TaskId)
    requires UpdateTask(tasks, raw, u, now).outcome.Updated?
    ensures
      var id, r := Trim(raw), UpdateTask(tasks, raw, u, now);
      && id in tasks && id in r.tasks
      && tasks[id].blocks <= r.tasks[id].blocks && tasks[id].blockedBy <= r.tasks[id].blockedBy
      && (k in r.tasks[id].blocks <==> k in tasks[id].blocks || k in u.addBlocks)
      && (k in r.tasks[id].blockedBy <==> k in tasks[id].blockedBy || k in u.addBlockedBy)
      && |r.tasks[id].blocks| <= |tasks[id].blocks| + |u.addBlocks|
      && |r.tasks[id].blockedBy| <= |tasks[id].blockedBy| + |u.addBlockedBy|
  {
    var e, id := Change(raw, u, now), Trim(raw);
    ChangeCases(tasks, e);
    UpdatedRecord(tasks, id, u, Claim(tasks, e).owner, Claim(tasks, e).touched, now, id);
    if AllFields(tasks[id], u, Claim(tasks, e).owner, Claim(tasks, e).touched) == {} {
      NoFieldsNoChange(tasks[id], u, Claim(tasks, e).owner, Claim(tasks, e).touched);
    }
    PushAllMembers(tasks[id].blocks, u.addBlocks, k);
    PushAllMembers(tasks[id].blockedBy, u.addBlockedBy, k);
    PushAllAppends(tasks[id].blocks, u.addBlocks);
    PushAllAppends(tasks[id].blockedBy, u.addBlockedBy);
    PushAllLength(tasks[id].blocks, u.addBlocks);
    PushAllLength(tasks[id].blockedBy, u.addBlockedBy);
  }

  // ---------- What is reported ----------

  lemma InField(changed: bool, field: FieldName, name: FieldName)
    ensures name in Field(changed, field) <==> changed && name == field
  {
  }

  lemma EditReports(t: Task, u: Update, owner: Option<string>, touched: bool, name: FieldName)
    ensures name in EditedFields(t, u, owner, touched) <==>
              match name
              case SubjectField => Or(u.subject, t.subject) != t.subject
              case DescriptionField => Or(u.description, t.description) != t.description
              case ActiveFormField => Or(u.activeForm, t.activeForm) != t.activeForm
              case OwnerField => touched || Or(u.owner, owner) != owner
              case StatusField => Or(u.status, t.status) != t.status
              case MetadataField => u.metadata != map[]
              case _ => false
  {
    InField(Or(u.subject, t.subject) != t.subject, SubjectField, name);
    InField(Or(u.description, t.description) != t.description, DescriptionField, name);
    InField(Or(u.activeForm, t.activeForm) != t.activeForm, ActiveFormField, name);
    InField(touched || Or(u.owner, owner) != owner, OwnerField, name);
    InField(Or(u.status, t.status) != t.status, StatusField, name);
    InField(u.metadata != map[], MetadataField, name);
  }

  lemma DependenciesReported(t: Task, u: Update, owner: Option<string>, touched: bool, name: FieldName)
    ensures name in AllFields(t, u, owner, touched) <==>
              || name in EditedFields(t, u, owner, touched)
              || (name == BlocksField && u.addBlocks != []) || (name == BlockedByField && u.addBlockedBy != [])
  {
    InField(u.addBlocks != [], BlocksField, name);
    InField(u.addBlockedBy != [], BlockedByField, name);
  }

  /** Why an update of `t` to `t'` reports a field. */
  predicate Reports(t: Task, t': Task, u: Update, name: FieldName) {
    match name
    case SubjectField => t'.subject != t.subject
    case DescriptionField => t'.description != t.description
    case ActiveFormField => t'.activeForm != t.activeForm
    case StatusField => t'.status != t.status
    case OwnerField =>
      || (u.claimOwner != None && t.owner == None)
      || (u.releaseOwner != None && (u.claimOwner != None || t.owner != None))
      || t'.owner != HeldAfter(t.owner, u)
    case MetadataField => u.metadata != map[]
    case BlocksField => u.addBlocks != []
    case BlockedByField => u.addBlockedBy != []
  }

  /**
   Exactly the changed fields are reported, but metadata and dependencies whenever any were
   supplied, and the owner also when a claim or release took hold and was overridden or undone.
   */
  lemma UpdateReportsIff(tasks: Tasks, raw: TaskId, u: Update, now: nat, name: FieldName)
    requires UpdateTask(tasks, raw, u, now).outcome.Updated?
    ensures
      var id, r := Trim(raw), UpdateTask(tasks, raw, u, now);
      && id in tasks && id in r.tasks
      && (name in r.outcome.fields <==> Reports(tasks[id], r.tasks[id], u, name))
      && (r.tasks[id].owner != tasks[id].owner ==> Reports(tasks[id], r.tasks[id], u, OwnerField))
  {
    var e, id := Change(raw, u, now), Trim(raw);
    ChangeCases(tasks, e);
    GrantedOwner(tasks[id].owner, u);
    UpdateSetsFields(tasks, raw, u, now);
    EditReports(tasks[id], u, Claim(tasks, e).owner, Claim(tasks, e).touched, name);
    DependenciesReported(tasks[id], u, Claim(tasks, e).owner, Claim(tasks, e).touched, name);
    assert UpdateTask(tasks, raw, u, now).outcome.fields
           == AllFields(tasks[id], u, Claim(tasks, e).owner, Claim(tasks, e).touched);
  }

  /** An update that reports something moves revision and time, another one neither. */
  lemma UpdateMovesRevisionIff(tasks: Tasks, raw: TaskId, u: Update, now: nat)
    requires UpdateTask(tasks, raw, u, now).outcome.Updated?
    ensures
      var id, r := Trim(raw), UpdateTask(tasks, raw, u, now);
      && id in tasks && id in r.tasks
      && var t, t' := tasks[id], r.tasks[id];
      && r.outcome.revision == t'.revision && r.outcome.updatedAt == t'.updatedAt
      && r.outcome.statusFrom == t.status && r.outcome.statusTo == t'.status
      && (r.outcome.fields != {} ==>
            && t'.updatedAt == now
            && t'.revision == if t.revision == 0xFFFF_FFFF_FFFF_FFFF then t.revision else t.revision + 1)
      && (r.outcome.fields == {} ==> r.tasks == tasks)
  {
    var e, id := Change(raw, u, now), Trim(raw);
    ChangeCases(tasks, e);
    RejectionIsAtomic(tasks, e);
    UpdatedRecord(tasks, id, u, Claim(tasks, e).owner, Claim(tasks, e).touched, now, id);
    if AllFields(tasks[id], u, Claim(tasks, e).owner, Claim(tasks, e).touched) == {} {
      NoFieldsNoChange(tasks[id], u, Claim(tasks, e).owner, Claim(tasks, e).touched);
    }
  }

  // ---------- Other records ----------

  /** Apart from its place in the graph, and the revision and time that go with it. */
  predicate SameButLinks(t: Task, t': Task) {
    t'.(blocks := t.blocks, blockedBy := t.blockedBy, revision := t.revision, updatedAt := t.updatedAt) == t
  }

  predicate AppendedIf(list: seq<TaskId>, id: TaskId, named: bool, after: seq<TaskId>) {
    after == if named && id !in list then list + [id] else list
  }

  function Links(t: Task, t': Task): nat {
    (if t'.blocks != t.blocks then 1 else 0) + (if t'.blockedBy != t.blockedBy then 1 else 0)
  }

  /** A record after `links` links were added to it. */
  predicate MovedBy(t: Task, t': Task, links: nat, now: nat) {
    && t'.revision == (if t.revision + links <= 0xFFFF_FFFF_FFFF_FFFF then t.revision + links
                       else 0xFFFF_FFFF_FFFF_FFFF)
    && t'.updatedAt == (if links == 0 then t.updatedAt else now)
  }

  lemma NeighbourLinks(t: Task, id: TaskId, blocked: bool, blocker: bool, now: nat)
    ensures
      var t' := Neighbour(t, id, blocked, blocker, now);
      && SameButLinks(t, t')
      && AppendedIf(t.blockedBy, id, blocked, t'.blockedBy) && AppendedIf(t.blocks, id, blocker, t'.blocks)
      && MovedBy(t, t', Links(t, t'), now)
  {
  }

  /** A neighbour learns of each new link at its end, at one revision for each; all others stay as they are. */
  lemma UpdateLinksNeighbours(tasks: Tasks, raw: TaskId, u: Update, now: nat, k: TaskId)
    requires UpdateTask(tasks, raw, u, now).outcome.Updated? && k in tasks && k != Trim(raw)
    ensures
      var id, r := Trim(raw), UpdateTask(tasks, raw, u, now);
      && r.tasks.Keys == tasks.Keys
      && var t, t' := tasks[k], r.tasks[k];
      && SameButLinks(t, t')
      && AppendedIf(t.blockedBy, id, k in u.addBlocks, t'.blockedBy)
      && AppendedIf(t.blocks, id, k in u.addBlockedBy, t'.blocks)
      && MovedBy(t, t', Links(t, t'), now)
  {
    var e := Change(raw, u, now);
    ChangeCases(tasks, e);
    UpdatedRecord(tasks, Trim(raw), u, Claim(tasks, e).owner, Claim(tasks, e).touched, now, k);
    NeighbourLinks(tasks[k], Trim(raw), k in u.addBlocks, k in u.addBlockedBy, now);
  }

  lemma {:induction false} WithoutConcat(a: seq<TaskId>, b: seq<TaskId>, x: TaskId)
    ensures Without(a + b, x) == Without(a, x) + Without(b, x)
  {
    if b == [] {
      assert a + b == a;
    } else {
      WithoutConcat(a, b[..|b| - 1], x);
      assert (a + b)[..|a + b| - 1] == a + b[..|b| - 1];
    }
  }

  lemma CountLast(s: seq<TaskId>, y: TaskId)
    requires s != []
    ensures multiset(s)[y] == multiset(s[..|s| - 1])[y] + if s[|s| - 1] == y then 1 else 0
  {
    assert s == s[..|s| - 1] + [s[|s| - 1]];
  }

  lemma WithoutLast(s: seq<TaskId>, x: TaskId, y: TaskId)
    requires s != []
    ensures multiset(Without(s, x))[y]
            == multiset(Without(s[..|s| - 1], x))[y] + if s[|s| - 1] == y && y != x then 1 else 0
  {
    var before, last := Without(s[..|s| - 1], x), s[|s| - 1];
    if last == x {
      assert Without(s, x) == before;
    } else {
      CountLast(before + [last], y);
    }
  }

  /** Everything else in the list stays, in its order and as often as it was there. */
  lemma {:induction false} WithoutKeepsOthers(s: seq<TaskId>, x: TaskId, y: TaskId)
    ensures multiset(Without(s, x))[y] == if y == x then 0 else multiset(s)[y]
  {
    if s != [] {
      WithoutKeepsOthers(s[..|s| - 1], x, y);
      WithoutLast(s, x, y);
      CountLast(s, y);
    }
  }

  lemma {:induction false} NothingToRemove(s: seq<TaskId>, x: TaskId)
    requires x !in s
    ensures Without(s, x) == s
  {
    if s != [] {
      NothingToRemove(s[..|s| - 1], x);
    }
  }

  /** Tasks that are not listed do not refer to the deleted one either, so all of them are repaired. */
  lemma DeletedNeighbour(tasks: Tasks, id: TaskId, k: TaskId)
    requires Graph(tasks) && id in tasks && k in tasks && k != id
    ensures k in Delete(tasks, id) && Delete(tasks, id)[k] == Unlinked(tasks[k], id)
  {
    if k !in Listed(tasks, id) {
      assert Blocks(tasks, k, id) ==> BlockedBy(tasks, id, k);
      assert BlockedBy(tasks, k, id) ==> Blocks(tasks, id, k);
      NothingToRemove(tasks[k].blocks, id);
      NothingToRemove(tasks[k].blockedBy, id);
    }
  }

  /** A deletion removes one record, and from the others nothing but references to it. */
  lemma DeleteLeavesTheRest(tasks: Tasks, raw: TaskId, u: Update, now: nat, k: TaskId)
    requires Graph(tasks) && Trim(raw) in tasks && u.delete && k in tasks && k != Trim(raw)
    ensures
      var id, r := Trim(raw), UpdateTask(tasks, raw, u, now);
      && r.outcome == Deleted && r.tasks.Keys == tasks.Keys - {id} && k in r.tasks
      && r.tasks[k] == tasks[k].(blocks := Without(tasks[k].blocks, id), blockedBy := Without(tasks[k].blockedBy, id))
  {
    assert IsValidTaskId(Trim(raw)) by { ValidIdIff(raw); }
    DeletedNeighbour(tasks, Trim(raw), k);
  }

  /** A new task: the next number, the supplied texts, pending, unowned and without links. */
  lemma CreatedRecord(tasks: Tasks, input: NewTask, h: U64, now: nat)
    requires IsHighest(tasks.Keys, h) && h < U64_MAX
    ensures
      var after := Step(tasks, Create(input, h, now));
      var id := IdAfter(h);
      && ParseU64(id) == Some(h + 1) && id !in tasks && after.Keys == tasks.Keys + {id}
      && (forall k | k in tasks :: after[k] == tasks[k])
      && after[id].id == id && after[id].subject == input.subject && after[id].description == input.description
      && after[id].activeForm == input.activeForm && after[id].metadata == input.metadata
      && after[id].owner == None && after[id].status == Pending && after[id].revision == 1
      && after[id].updatedAt == now && after[id].blocks == [] && after[id].blockedBy == []
  {
    AllocatedIdIsFree(tasks, h);
    ParseDecimal(h + 1);
  }

  /** Past the largest number the ids start again from zero, which may be taken. */
  lemma LastIdWraps()
    ensures IdAfter(U64_MAX) == "0"
  {
  }

  // ---------- Ownership ----------

  /** Whoever has an update with a claim accepted owns the task. */
  lemma ClaimTakesHold(tasks: Tasks, raw: TaskId, u: Update, now: nat, a: string)
    requires UpdateTask(tasks, raw, u, now).outcome.Updated?
    requires u.claimOwner == Some(a) && u.releaseOwner == None && u.owner == None
    ensures Trim(raw) in UpdateTask(tasks, raw, u, now).tasks
    ensures UpdateTask(tasks, raw, u, now).tasks[Trim(raw)].owner == Some(a)
  {
    UpdateSetsFields(tasks, raw, u, now);
  }

  /**
   Claims are exclusive: after an accepted claim, and any run without deletions, overrides and
   releases by the claimer, every claim of somebody else is refused, and it is told who holds the task.
   */
  lemma ClaimsAreExclusive(
    tasks: Tasks, raw: TaskId, u: Update, now: nat, a: string, events: seq<Event>, raw': TaskId, u': Update, now': nat)
    requires UpdateTask(tasks, raw, u, now).outcome.Updated?
    requires u.claimOwner == Some(a) && u.releaseOwner == None && u.owner == None
    requires forall i | 0 <= i < |events| :: Cooperative(events[i])
    requires !EverReleased(UpdateTask(tasks, raw, u, now).tasks, events, Trim(raw), a)
    requires Trim(raw') == Trim(raw) && !u'.delete && u'.expectedRevision == None
    requires u'.claimOwner != None && u'.claimOwner != Some(a)
    ensures
      var later := Run(UpdateTask(tasks, raw, u, now).tasks, events);
      var r := UpdateTask(later, raw', u', now');
      && Trim(raw) in later && later[Trim(raw)].owner == Some(a)
      && r == Reply(later, Conflict(later[Trim(raw)].revision, later[Trim(raw)].updatedAt, a))
  {
    ClaimTakesHold(tasks, raw, u, now, a);
    OwnershipIsALock(UpdateTask(tasks, raw, u, now).tasks, events, Trim(raw), a);
    var later := Run(UpdateTask(tasks, raw, u, now).tasks, events);
    UpdateOutcomeIff(tasks, raw, u, now);
    UpdateOutcomeIff(later, raw', u', now');
    RejectionIsAtomic(later, Change(raw', u', now'));
  }

  /** And when the holder releases it, the next claim takes it. */
  lemma ReleaseFrees(tasks: Tasks, raw: TaskId, u: Update, now: nat, a: string)
    requires Trim(raw) in tasks && tasks[Trim(raw)].owner == Some(a) && WellFormed(Trim(raw))
    requires u.releaseOwner == Some(a) && u.claimOwner == None && u.owner == None && u.expectedRevision == None
    requires u.addBlocks == [] && u.addBlockedBy == [] && !u.delete
    ensures
      var r := UpdateTask(tasks, raw, u, now);
      && r.outcome.Updated? && OwnerField in r.outcome.fields
      && Trim(raw) in r.tasks && r.tasks[Trim(raw)].owner == None
  {
    UpdateOutcomeIff(tasks, raw, u, now);
    UpdateSetsFields(tasks, raw, u, now);
    UpdateReportsIff(tasks, raw, u, now, OwnerField);
  }
}
