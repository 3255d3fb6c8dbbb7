/**
 Memory records of `src/memory_records.rs` and `src/memory_store_helpers.rs`: the record file
 as a list, the map readers get, and the operations that run under the file lock.
 */
module MemoryRecords {
  import opened Prelude

  datatype Label = Insight | Decision | Fact | Procedure | Experience
  datatype Source =
    | AgentTurn | UserCreated | ThreadDistill | SessionDistill | FileImport | ProtocolWrite | FromAutoMemory
  datatype MemoryScope = User | Workspace | Project | Thread | Session
  datatype SourceSpan = SourceSpan(startTurn: U32, endTurn: U32)

  datatype Record = Record(
    id: string,
    title: string,
    content: string,
    labels: seq<Label>,
    importance: real,
    pinned: bool,
    source: Source,
    scope: MemoryScope,
    sessionId: Option<string>,
    threadId: Option<string>,
    sourceSpan: Option<SourceSpan>,
    createdAt: U64,
    updatedAt: U64
  )

  datatype Patch = Patch(
    title: Option<string>,
    content: Option<string>,
    labels: Option<seq<Label>>,
    importance: Option<real>,
    pinned: Option<bool>,
    scope: Option<MemoryScope>,
    sessionId: Option<Option<string>>,
    threadId: Option<Option<string>>,
    sourceSpan: Option<Option<SourceSpan>>
  )

  datatype Change = SetPinned(pinned: bool) | ApplyPatch(patch: Patch)

  datatype Op =
    | Upsert(record: Record)
    | Update(id: string, change: Change, now: U64)
    | Delete(id: string)

  // ---------- One record ----------

  /** An empty title is ignored; every other field that is given replaces the old value. */
  function Patched(r: Record, p: Patch): Record {
    r.(title := if p.title.Some? && p.title.value != "" then p.title.value else r.title,
       content := p.content.GetOr(r.content),
       labels := p.labels.GetOr(r.labels),
       importance := p.importance.GetOr(r.importance),
       pinned := p.pinned.GetOr(r.pinned),
       scope := p.scope.GetOr(r.scope),
       sessionId := p.sessionId.GetOr(r.sessionId),
       threadId := p.threadId.GetOr(r.threadId),
       sourceSpan := p.sourceSpan.GetOr(r.sourceSpan))
  }

  /** The record after a change; the time of the update moves exactly when a field changed. */
  function Changed(r: Record, change: Change, now: U64): Record {
    var next := match change
      case SetPinned(pinned) => r.(pinned := pinned)
      case ApplyPatch(patch) => Patched(r, patch);
    if next == r then r else next.(updatedAt := now)
  }

  /** A change keeps the identity of its record, and repeating it changes nothing more. */
  lemma ChangeIsIdempotent(r: Record, change: Change, now: U64, later: U64)
    ensures Changed(r, change, now).id == r.id
    ensures Changed(Changed(r, change, now), change, later) == Changed(r, change, now)
  {
  }

  /** A field that was supplied replaces the old value; one that was not leaves it. */
  predicate Takes<T(==)>(before: T, supplied: Option<T>, after: T) {
    match supplied
    case Some(value) => after == value
    case None => after == before
  }

  /**
   What a patch does to each field. An empty title counts as none, identity, source and creation
   time never change, and the time of the update moves exactly when something else did.
   */
  lemma PatchSetsFields(r: Record, p: Patch, now: U64)
    ensures
      var r' := Changed(r, ApplyPatch(p), now);
      && Takes(r.title, if p.title == Some("") then None else p.title, r'.title)
      && Takes(r.content, p.content, r'.content) && Takes(r.labels, p.labels, r'.labels)
      && Takes(r.importance, p.importance, r'.importance) && Takes(r.pinned, p.pinned, r'.pinned)
      && Takes(r.scope, p.scope, r'.scope)
      && Takes(r.sessionId, p.sessionId, r'.sessionId) && Takes(r.threadId, p.threadId, r'.threadId)
      && Takes(r.sourceSpan, p.sourceSpan, r'.sourceSpan)
      && r'.id == r.id && r'.source == r.source && r'.createdAt == r.createdAt
      && (r' == r || r'.updatedAt == now)
      && (r'.(updatedAt := r.updatedAt) == r ==> r' == r)
  {
  }

  /** Pinning changes the pin and nothing else. */
  lemma PinSetsPin(r: Record, pinned: bool, now: U64)
    ensures Changed(r, SetPinned(pinned), now)
            == if r.pinned == pinned then r else r.(pinned := pinned, updatedAt := now)
  {
  }

  // ---------- The record list ----------

  /** The first record of that id. */
  function Position(records: seq<Record>, id: string): Option<nat> {
    if records == [] then None
    else if records[0].id == id then Some(0)
    else
      var rest := Position(records[1..], id);
      if rest.Some? then Some(rest.value + 1) else None
  }

  lemma {:induction false} PositionIsFirst(records: seq<Record>, id: string)
    ensures match Position(records, id)
            case None => forall i | 0 <= i < |records| :: records[i].id != id
            case Some(k) => k < |records| && records[k].id == id && forall i | 0 <= i < k :: records[i].id != id
  {
    if records != [] && records[0].id != id {
      PositionIsFirst(records[1..], id);
      assert forall i | 0 < i < |records| :: records[i] == records[1..][i - 1];
    }
  }

  function Removed(records: seq<Record>, k: nat): seq<Record>
    requires k < |records|
  {
    records[..k] + records[k + 1..]
  }

  /** What the file holds after an operation; nothing when the operation does not write. */
  function Effect(records: seq<Record>, op: Op): Option<seq<Record>> {
    match op
    case Upsert(record) =>
      PositionIsFirst(records, record.id);
      var at := Position(records, record.id);
      Some(if at.Some? then records[at.value := record] else records + [record])
    case Update(id, change, now) =>
      PositionIsFirst(records, id);
      var at := Position(records, id);
      if at.None? then None
      else
        var next := Changed(records[at.value], change, now);
        if next == records[at.value] then None else Some(records[at.value := next])
    case Delete(id) =>
      PositionIsFirst(records, id);
      var at := Position(records, id);
      if at.None? then None else Some(Removed(records, at.value))
  }

  function After(records: seq<Record>, op: Op): seq<Record> {
    Effect(records, op).GetOr(records)
  }

  // ---------- The map readers get ----------

  /** Of several records with one id the last one counts. */
  function MapOf(records: seq<Record>): map<string, Record> {
    if records == [] then map[]
    else
      var last := records[|records| - 1];
      MapOf(records[..|records| - 1])[last.id := last]
  }

  /** The same operation on a plain map. */
  function MapAfter(m: map<string, Record>, op: Op): map<string, Record> {
    match op
    case Upsert(record) => m[record.id := record]
    case Update(id, change, now) => if id in m then m[id := Changed(m[id], change, now)] else m
    case Delete(id) => m - {id}
  }

  predicate UniqueIds(records: seq<Record>) {
    forall i, j | 0 <= i < j < |records| :: records[i].id != records[j].id
  }

  function Target(op: Op): string {
    match op case Upsert(r) => r.id case Update(id, _, _) => id case Delete(id) => id
  }

  predicate Repeated(records: seq<Record>, id: string) {
    exists i, j | 0 <= i < j < |records| :: records[i].id == id && records[j].id == id
  }

  predicate LaterTwin(records: seq<Record>, k: nat, id: string) {
    exists j | k < j < |records| :: records[j].id == id
  }

  lemma LaterTwinInPrefix(records: seq<Record>, k: nat, id: string)
    requires records != []
    ensures LaterTwin(records, k, id) <==>
              LaterTwin(records[..|records| - 1], k, id) || (k < |records| - 1 && records[|records| - 1].id == id)
  {
    var n := |records| - 1;
    if LaterTwin(records, k, id) {
      var j :| k < j < |records| && records[j].id == id;
      assert j < n ==> records[..n][j].id == id;
    }
    if LaterTwin(records[..n], k, id) {
      var j :| k < j < n && records[..n][j].id == id;
      assert records[j].id == id;
    }
  }

  /** Only the first record of an id can have been repeated later. */
  lemma FirstIsRepeatedLater(records: seq<Record>, id: string, k: nat)
    requires Position(records, id) == Some(k)
    ensures k < |records| && records[k].id == id
    ensures Repeated(records, id) <==> LaterTwin(records, k, id)
  {
    PositionIsFirst(records, id);
  }

  lemma {:induction false} InMap(records: seq<Record>, k: nat)
    requires k < |records|
    ensures records[k].id in MapOf(records)
    ensures !LaterTwin(records, k, records[k].id) ==> MapOf(records)[records[k].id] == records[k]
  {
    var n := |records| - 1;
    if k < n {
      InMap(records[..n], k);
      LaterTwinInPrefix(records, k, records[k].id);
    }
  }

  lemma {:induction false} NotInMap(records: seq<Record>, id: string)
    requires forall i | 0 <= i < |records| :: records[i].id != id
    ensures id !in MapOf(records)
  {
    if records != [] {
      NotInMap(records[..|records| - 1], id);
    }
  }

  lemma {:induction false} ReplaceInMap(records: seq<Record>, k: nat, r: Record)
    requires k < |records| && records[k].id == r.id
    ensures MapOf(records[k := r]) == if LaterTwin(records, k, r.id) then MapOf(records) else MapOf(records)[r.id := r]
  {
    var n := |records| - 1;
    if k == n {
      assert records[k := r][..n] == records[..n];
    } else {
      ReplaceInMap(records[..n], k, r);
      LaterTwinInPrefix(records, k, r.id);
      assert records[k := r][..n] == records[..n][k := r];
    }
  }

  lemma AddInMap(records: seq<Record>, r: Record)
    ensures MapOf(records + [r]) == MapOf(records)[r.id := r]
  {
    assert (records + [r])[..|records|] == records;
  }

  lemma RemovedLast(records: seq<Record>, k: nat)
    requires k < |records| - 1
    ensures Removed(records, k) == Removed(records[..|records| - 1], k) + [records[|records| - 1]]
  {
  }

  lemma SetAfterRemoval(m: map<string, Record>, id: string, r: Record)
    ensures (m - {id})[r.id := r] == if r.id == id then m[r.id := r] else m[r.id := r] - {id}
  {
  }

  lemma {:induction false} RemoveInMap(records: seq<Record>, k: nat)
    requires k < |records| && forall i | 0 <= i < k :: records[i].id != records[k].id
    ensures MapOf(Removed(records, k))
            == if LaterTwin(records, k, records[k].id) then MapOf(records) else MapOf(records) - {records[k].id}
  {
    var n := |records| - 1;
    if k == n {
      assert Removed(records, k) == records[..n];
      NotInMap(records[..n], records[k].id);
    } else {
      RemoveInMap(records[..n], k);
      LaterTwinInPrefix(records, k, records[k].id);
      RemovedLast(records, k);
      AddInMap(Removed(records[..n], k), records[n]);
      SetAfterRemoval(MapOf(records[..n]), records[k].id, records[n]);
    }
  }

  // ---------- When readers see an operation ----------

  /**
   Readers see an upsert exactly when its id is not repeated in the list, or the last record of
   that id already was the new one: the operation replaces the first one, readers use the last.
   */
  lemma UpsertIsSeenIff(records: seq<Record>, r: Record)
    ensures MapOf(After(records, Upsert(r))) == MapAfter(MapOf(records), Upsert(r))
            <==> !Repeated(records, r.id) || (r.id in MapOf(records) && MapOf(records)[r.id] == r)
  {
    PositionIsFirst(records, r.id);
    match Position(records, r.id)
    case None => AddInMap(records, r);
    case Some(k) =>
      FirstIsRepeatedLater(records, r.id, k);
      ReplaceInMap(records, k, r);
      InMap(records, k);
  }

  /** Likewise an update, unless it would not have changed the last record of the id. */
  lemma UpdateIsSeenIff(records: seq<Record>, id: string, change: Change, now: U64)
    ensures MapOf(After(records, Update(id, change, now))) == MapAfter(MapOf(records), Update(id, change, now))
            <==> !Repeated(records, id)
                 || (id in MapOf(records) && Changed(MapOf(records)[id], change, now) == MapOf(records)[id])
  {
    PositionIsFirst(records, id);
    match Position(records, id)
    case None => NotInMap(records, id);
    case Some(k) =>
      FirstIsRepeatedLater(records, id, k);
      ChangeIsIdempotent(records[k], change, now, now);
      ReplaceInMap(records, k, Changed(records[k], change, now));
      InMap(records, k);
      if Changed(records[k], change, now) == records[k] {
        assert records[k := records[k]] == records;
      }
  }

  /** A deletion is seen exactly when the id is not repeated; otherwise readers see no change at all. */
  lemma DeleteIsSeenIff(records: seq<Record>, id: string)
    ensures MapOf(After(records, Delete(id))) == MapAfter(MapOf(records), Delete(id)) <==> !Repeated(records, id)
    ensures Repeated(records, id) ==> MapOf(After(records, Delete(id))) == MapOf(records) && id in MapOf(records)
  {
    PositionIsFirst(records, id);
    match Position(records, id)
    case None =>
      NotInMap(records, id);
      assert MapOf(records) - {id} == MapOf(records);
    case Some(k) =>
      FirstIsRepeatedLater(records, id, k);
      RemoveInMap(records, k);
      InMap(records, k);
  }

  /** For instance, of two records with one id the deleted one leaves the other for readers to find. */
  lemma DeletedIdStaysVisible(first: Record, last: Record)
    requires first.id == last.id
    ensures After([first, last], Delete(first.id)) == [last]
    ensures first.id in MapOf(After([first, last], Delete(first.id)))
  {
    var records := [first, last];
    assert records[0].id == first.id && records[1].id == first.id;
    assert Repeated(records, first.id);
    DeleteIsSeenIff(records, first.id);
    assert Removed(records, 0) == [last];
  }

  lemma RemovedAt(records: seq<Record>, k: nat)
    requires k < |records|
    ensures forall i: nat | i < |records| - 1 :: Removed(records, k)[i] == records[if i < k then i else i + 1]
  {
  }

  lemma UniqueAfter(records: seq<Record>, op: Op)
    requires UniqueIds(records)
    ensures UniqueIds(After(records, op))
  {
    PositionIsFirst(records, Target(op));
    match Position(records, Target(op))
    case None =>
    case Some(k) =>
      if op.Update? {
        ChangeIsIdempotent(records[k], op.change, op.now, op.now);
      } else if op.Delete? {
        RemovedAt(records, k);
      }
  }

  /**
   On a list without repeated ids every operation is the operation on a plain map, and no id
   is ever repeated afterwards.
   */
  lemma OperationRefinesMap(records: seq<Record>, op: Op)
    requires UniqueIds(records)
    ensures UniqueIds(After(records, op))
    ensures MapOf(After(records, op)) == MapAfter(MapOf(records), op)
  {
    UniqueAfter(records, op);
    match op
    case Upsert(r) => UpsertIsSeenIff(records, r);
    case Update(id, change, now) => UpdateIsSeenIff(records, id, change, now);
    case Delete(id) => DeleteIsSeenIff(records, id);
  }

  /** In the list an operation touches the first record of its id, or adds one; the others stay where they are. */
  lemma OtherRecordsStay(records: seq<Record>, op: Op, i: nat)
    requires i < |records|
    ensures
      var after := After(records, op);
      var first := records[i].id == Target(op) && forall j | 0 <= j < i :: records[j].id != Target(op);
      if op.Delete? then
        if first then after == records[..i] + records[i + 1..]
        else records[i].id != Target(op) ==> records[i] in after
      else i < |after| && after[i] ==
             if !first then records[i]
             else if op.Upsert? then op.record
             else Changed(records[i], op.change, op.now)
  {
    PositionIsFirst(records, Target(op));
    var at := Position(records, Target(op));
    if op.Delete? && at.Some? {
      assert records == records[..at.value] + [records[at.value]] + records[at.value + 1..];
    }
  }

  /** The file is written unless there is nothing to do: no such record, or an update that changes nothing. */
  lemma WritesIff(records: seq<Record>, op: Op)
    ensures Effect(records, op).Some? <==>
              match op
              case Upsert(_) => true
              case Delete(id) => exists i | 0 <= i < |records| :: records[i].id == id
              case Update(id, change, now) =>
                exists i | 0 <= i < |records| ::
                  && records[i].id == id && (forall j | 0 <= j < i :: records[j].id != id)
                  && Changed(records[i], change, now) != records[i]
  {
    PositionIsFirst(records, Target(op));
  }

  // ---------- The store ----------

  datatype CacheEntry = CacheEntry(stamp: nat, records: map<string, Record>)

  datatype UpdateResult = Updated(record: Record) | NotFound

  /**
   The store as one process uses it while nobody else writes. `stamp` is the file state a stat
   reports: a missing file has stamp 0 and no records, and every write has a stamp of its own.
   */
  class MemoryRecordFileStore {
    var records: seq<Record>
    var stamp: nat
    var cache: Option<CacheEntry>

    /** A process starts with the file as it is and an empty cache. */
    constructor (records: seq<Record>, stamp: nat)
      ensures Coherent() && this.records == records && this.stamp == stamp && cache == None
    {
      this.records, this.stamp, cache := records, stamp, None;
    }

    ghost predicate Coherent()
      reads this
    {
      cache.Some? ==>
        && cache.value.stamp <= stamp
        && (cache.value.stamp == stamp ==> cache.value.records == MapOf(records))
    }

    method RecordMap() returns (m: map<string, Record>)
      ensures m == MapOf(records)
    {
      m := map[];
      for i := 0 to |records|
        invariant m == MapOf(records[..i])
      {
        assert records[..i + 1][..i] == records[..i];
        m := m[records[i].id := records[i]];
      }
      assert records[..|records|] == records;
    }

    method Find(id: string) returns (at: Option<nat>)
      ensures at == Position(records, id)
    {
      PositionIsFirst(records, id);
      for i := 0 to |records|
        invariant forall k | 0 <= k < i :: records[k].id != id
      {
        if records[i].id == id {
          return Some(i);
        }
      }
      at := None;
    }

    /** Replace the file, stat it, and publish what was written. */
    method WriteRecords(next: seq<Record>)
      requires Coherent()
      modifies this
      ensures Coherent() && records == next && stamp == old(stamp) + 1
      ensures cache == Some(CacheEntry(stamp, MapOf(next)))
    {
      records, stamp := next, stamp + 1;
      var m := RecordMap();
      cache := Some(CacheEntry(stamp, m));
    }

    method UpsertRecord(record: Record)
      requires Coherent()
      modifies this
      ensures Coherent() && stamp == old(stamp) + 1
      ensures Effect(old(records), Upsert(record)) == Some(records)
    {
      PositionIsFirst(records, record.id);
      var at := Find(record.id);
      WriteRecords(if at.Some? then records[at.value := record] else records + [record]);
    }

    method UpdateRecord(id: string, change: Change, now: U64) returns (result: UpdateResult)
      requires Coherent()
      modifies this
      ensures Coherent() && records == After(old(records), Update(id, change, now))
      ensures stamp == old(stamp) + if Effect(old(records), Update(id, change, now)).Some? then 1 else 0
      ensures match old(Position(records, id))
              case None => result == NotFound
              case Some(k) => k < |records| && result == Updated(records[k]) && result.record.id == id
    {
      PositionIsFirst(records, id);
      var at := Find(id);
      if at.None? {
        return NotFound;
      }
      var updated := Changed(records[at.value], change, now);
      ChangeIsIdempotent(records[at.value], change, now, now);
      if updated != records[at.value] {
        WriteRecords(records[at.value := updated]);
      }
      result := Updated(updated);
    }

    method DeleteRecord(id: string) returns (deleted: Option<Record>)
      requires Coherent()
      modifies this
      ensures Coherent() && records == After(old(records), Delete(id))
      ensures stamp == old(stamp) + if deleted.Some? then 1 else 0
      ensures match old(Position(records, id))
              case None => deleted == None
              case Some(k) => k < |old(records)| && deleted == Some(old(records)[k])
    {
      PositionIsFirst(records, id);
      var at := Find(id);
      if at.None? {
        return None;
      }
      deleted := Some(records[at.value]);
      WriteRecords(Removed(records, at.value));
    }

    method LoadRecordMapCached() returns (m: map<string, Record>)
      requires Coherent()
      modifies `cache
      ensures Coherent() && m == MapOf(records)
      ensures cache == Some(CacheEntry(stamp, m))
    {
      if cache.Some? && cache.value.stamp == stamp {
        return cache.value.records;
      }
      m := RecordMap();
      cache := Some(CacheEntry(stamp, m));
    }
  }
}
