/**
 The record cache under concurrency: readers stat, check the cache, read and publish without
 the file lock; writers hold it while they load, replace, stat and publish. Each event is one
 of those steps, for any number of readers and in any order.
 */
module RecordCacheRuns {
  import opened Prelude
  import opened MemoryRecords

  /** A stamp is the number of the version it was taken of. `origin` records which version was read. */
  datatype Entry = Entry(stamp: nat, records: map<string, Record>, origin: nat)

  datatype Reader = Idle | Statted(stamp: nat) | Missed(stamp: nat) | Loaded(entry: Entry)

  datatype Writer =
    | Free
    | Locked(op: Op)
    | Read(op: Op, records: seq<Record>)
    | Replaced(records: seq<Record>)
    | Stamped(stamp: nat, records: seq<Record>)

  /** What a reader returned, the version it stat'ed and the current version when it returned. */
  datatype Answer = Answer(entry: Entry, now: nat, hit: bool)

  datatype World = World(
    versions: seq<seq<Record>>,
    writes: seq<Op>,
    cache: Option<Entry>,
    writer: Writer,
    readers: map<nat, Reader>,
    answers: seq<Answer>
  )

  function Initial(records: seq<Record>): World {
    World([records], [], None, Free, map[], [])
  }

  datatype Event =
    | ReaderStat(r: nat)
    | ReaderCheck(r: nat)
    | ReaderRead(r: nat)
    | ReaderPublish(r: nat)
    | WriterLock(op: Op)
    | WriterLoad
    | WriterReplace
    | WriterStat
    | WriterPublish
    | WriterFail

  function ReaderState(w: World, r: nat): Reader {
    if r in w.readers then w.readers[r] else Idle
  }

  function ReaderStep(w: World, e: Event): World
    requires w.versions != []
    requires e.ReaderStat? || e.ReaderCheck? || e.ReaderRead? || e.ReaderPublish?
  {
    var current := |w.versions| - 1;
    match (e, ReaderState(w, e.r))
    case (ReaderStat(r), Idle) =>
      w.(readers := w.readers[r := Statted(current)])
    case (ReaderCheck(r), Statted(s)) =>
      if w.cache.Some? && w.cache.value.stamp == s
      then w.(readers := w.readers[r := Idle], answers := w.answers + [Answer(w.cache.value, current, true)])
      else w.(readers := w.readers[r := Missed(s)])
    case (ReaderRead(r), Missed(s)) =>
      w.(readers := w.readers[r := Loaded(Entry(s, MapOf(w.versions[current]), current))])
    case (ReaderPublish(r), Loaded(entry)) =>
      w.(readers := w.readers[r := Idle], cache := Some(entry), answers := w.answers + [Answer(entry, current, false)])
    case _ => w
  }

  function WriterStep(w: World, e: Event): World
    requires w.versions != []
  {
    var current := |w.versions| - 1;
    match (e, w.writer)
    case (WriterLock(op), Free) => w.(writer := Locked(op))
    case (WriterLoad, Locked(op)) => w.(writer := Read(op, w.versions[current]))
    case (WriterReplace, Read(op, records)) =>
      var next := Effect(records, op);
      if next.None? then w.(writer := Free)
      else w.(versions := w.versions + [next.value], writes := w.writes + [op], writer := Replaced(next.value))
    case (WriterStat, Replaced(records)) => w.(writer := Stamped(current, records))
    case (WriterPublish, Stamped(s, records)) => w.(writer := Free, cache := Some(Entry(s, MapOf(records), s)))
    case (WriterFail, _) => w.(writer := Free)
    case _ => w
  }

  function Step(w: World, e: Event): (next: World)
    requires w.versions != []
    ensures next.versions != []
  {
    if e.ReaderStat? || e.ReaderCheck? || e.ReaderRead? || e.ReaderPublish? then ReaderStep(w, e) else WriterStep(w, e)
  }

  function Run(w: World, events: seq<Event>): (last: World)
    requires w.versions != []
    ensures last.versions != []
  {
    if events == [] then w else Step(Run(w, events[..|events| - 1]), events[|events| - 1])
  }

  // ---------- What every run keeps ----------

  /** An entry holds a version that was current at its stat or became so later. */
  predicate Sound(versions: seq<seq<Record>>, entry: Entry) {
    entry.stamp <= entry.origin < |versions| && entry.records == MapOf(versions[entry.origin])
  }

  predicate ReaderSound(versions: seq<seq<Record>>, reader: Reader) {
    match reader
    case Idle => true
    case Statted(s) => s < |versions|
    case Missed(s) => s < |versions|
    case Loaded(entry) => Sound(versions, entry)
  }

  predicate AnswerSound(versions: seq<seq<Record>>, a: Answer) {
    Sound(versions, a.entry) && a.entry.origin <= a.now < |versions|
  }

  predicate ReadsSound(
    versions: seq<seq<Record>>, cache: Option<Entry>, readers: map<nat, Reader>, answers: seq<Answer>)
  {
    && (cache.Some? ==> Sound(versions, cache.value))
    && (forall r | r in readers :: ReaderSound(versions, readers[r]))
    && (forall a | a in answers :: AnswerSound(versions, a))
  }

  /** The lock holder works on the current version. */
  predicate WriterSound(versions: seq<seq<Record>>, writer: Writer)
    requires versions != []
  {
    match writer
    case Free => true
    case Locked(_) => true
    case Read(_, records) => records == versions[|versions| - 1]
    case Replaced(records) => records == versions[|versions| - 1]
    case Stamped(s, records) => s == |versions| - 1 && records == versions[s]
  }

  /** Every version is the previous one with one whole operation applied. */
  predicate WritesInSequence(versions: seq<seq<Record>>, writes: seq<Op>) {
    && |versions| == |writes| + 1
    && forall i | 0 <= i < |writes| :: Effect(versions[i], writes[i]) == Some(versions[i + 1])
  }

  predicate Kept(w: World) {
    && w.versions != []
    && ReadsSound(w.versions, w.cache, w.readers, w.answers)
    && WriterSound(w.versions, w.writer)
    && WritesInSequence(w.versions, w.writes)
  }

  lemma ReadsSoundExtend(
    versions: seq<seq<Record>>, next: seq<Record>,
    cache: Option<Entry>, readers: map<nat, Reader>, answers: seq<Answer>)
    requires ReadsSound(versions, cache, readers, answers)
    ensures ReadsSound(versions + [next], cache, readers, answers)
  {
  }

  lemma ReaderStepKeeps(w: World, e: Event)
    requires Kept(w)
    requires e.ReaderStat? || e.ReaderCheck? || e.ReaderRead? || e.ReaderPublish?
    ensures Kept(ReaderStep(w, e))
  {
  }

  lemma WriterStepKeeps(w: World, e: Event)
    requires Kept(w)
    ensures Kept(WriterStep(w, e))
  {
    var next := WriterStep(w, e);
    if next.versions != w.versions {
      var added := next.versions[|w.versions|];
      assert next.versions == w.versions + [added];
      ReadsSoundExtend(w.versions, added, w.cache, w.readers, w.answers);
    }
  }

  lemma {:induction false} RunKeeps(records: seq<Record>, events: seq<Event>)
    ensures Kept(Run(Initial(records), events))
  {
    if events != [] {
      var before := events[..|events| - 1];
      RunKeeps(records, before);
      var w := Run(Initial(records), before);
      var e := events[|events| - 1];
      if e.ReaderStat? || e.ReaderCheck? || e.ReaderRead? || e.ReaderPublish? {
        ReaderStepKeeps(w, e);
      } else {
        WriterStepKeeps(w, e);
      }
    }
  }

  /** The answer is what the file held at some version from the stat'ed one to the current one. */
  predicate Linearizable(versions: seq<seq<Record>>, a: Answer) {
    exists v | a.entry.stamp <= v <= a.now < |versions| :: a.entry.records == MapOf(versions[v])
  }

  lemma SoundIsLinearizable(versions: seq<seq<Record>>, a: Answer)
    requires AnswerSound(versions, a)
    ensures Linearizable(versions, a)
    ensures a.entry.stamp == a.now ==> a.entry.records == MapOf(versions[a.now])
  {
  }

  /**
   Reads are linearizable in every interleaving: whatever a reader returns, from the cache or
   from the file, was the content of the file at some moment between its stat and its return.
   In particular a read that no write overlaps returns exactly the version it stat'ed.
   */
  lemma ReadsAreLinearizable(records: seq<Record>, events: seq<Event>)
    ensures var w := Run(Initial(records), events);
            forall a | a in w.answers ::
              && Linearizable(w.versions, a)
              && (a.entry.stamp == a.now ==> a.entry.records == MapOf(w.versions[a.now]))
  {
    RunKeeps(records, events);
    var w := Run(Initial(records), events);
    forall a | a in w.answers
      ensures Linearizable(w.versions, a)
      ensures a.entry.stamp == a.now ==> a.entry.records == MapOf(w.versions[a.now])
    {
      SoundIsLinearizable(w.versions, a);
    }
  }

  // ---------- When a hit is exact ----------

  lemma RunLast(w: World, events: seq<Event>, e: Event)
    requires w.versions != []
    ensures Run(w, events + [e]) == Step(Run(w, events), e)
  {
    assert (events + [e])[..|events|] == events;
  }

  /** A write was replaced between a reader's stat and its read of the file. */
  predicate Overtaken(w: World, e: Event) {
    && e.ReaderRead?
    && ReaderState(w, e.r).Missed?
    && ReaderState(w, e.r).stamp != |w.versions| - 1
  }

  /**
   One read of the file loads the version its reader stat'ed if and only if no write overtook it,
   or the writes that did left the same records.
   */
  lemma ReadIsExactIff(w: World, r: nat)
    requires Kept(w) && ReaderState(w, r).Missed?
    ensures ReaderState(Step(w, ReaderRead(r)), r).Loaded?
    ensures var stamp := ReaderState(w, r).stamp;
            var entry := ReaderState(Step(w, ReaderRead(r)), r).entry;
            && stamp < |w.versions|
            && (entry.origin == entry.stamp <==> !Overtaken(w, ReaderRead(r)))
            && (entry.records == MapOf(w.versions[stamp])
                <==> !Overtaken(w, ReaderRead(r)) || MapOf(w.versions[|w.versions| - 1]) == MapOf(w.versions[stamp]))
  {
    assert ReaderSound(w.versions, ReaderState(w, r));
  }

  predicate NeverOvertaken(records: seq<Record>, events: seq<Event>) {
    forall i | 0 <= i < |events| :: !Overtaken(Run(Initial(records), events[..i]), events[i])
  }

  predicate Exact(cache: Option<Entry>, readers: map<nat, Reader>, answers: seq<Answer>) {
    && (cache.Some? ==> cache.value.origin == cache.value.stamp)
    && (forall r | r in readers :: readers[r].Loaded? ==> readers[r].entry.origin == readers[r].entry.stamp)
    && (forall a | a in answers :: a.entry.origin == a.entry.stamp)
  }

  lemma ExactStep(w: World, e: Event)
    requires w.versions != [] && Exact(w.cache, w.readers, w.answers) && !Overtaken(w, e)
    ensures var next := Step(w, e); Exact(next.cache, next.readers, next.answers)
  {
    if e.ReaderStat? || e.ReaderCheck? || e.ReaderRead? || e.ReaderPublish? {
      var next := ReaderStep(w, e);
      assert forall r | r in next.readers && r != e.r :: r in w.readers && next.readers[r] == w.readers[r];
      assert ReaderState(next, e.r).Loaded? ==>
          ReaderState(next, e.r).entry.origin == ReaderState(next, e.r).entry.stamp;
    }
  }

  lemma NeverOvertakenPrefix(records: seq<Record>, events: seq<Event>, i: nat)
    requires NeverOvertaken(records, events) && i <= |events|
    ensures NeverOvertaken(records, events[..i])
  {
    forall j | 0 <= j < i ensures !Overtaken(Run(Initial(records), events[..i][..j]), events[..i][j]) {
      assert events[..i][..j] == events[..j];
    }
  }

  lemma {:induction false} NeverOvertakenIsExact(records: seq<Record>, events: seq<Event>)
    requires NeverOvertaken(records, events)
    ensures var w := Run(Initial(records), events); Exact(w.cache, w.readers, w.answers)
  {
    if events != [] {
      var n := |events| - 1;
      NeverOvertakenPrefix(records, events, n);
      NeverOvertakenIsExact(records, events[..n]);
      assert !Overtaken(Run(Initial(records), events[..n]), events[n]);
      ExactStep(Run(Initial(records), events[..n]), events[n]);
    }
  }

  predicate AllLoadsExact(readers: map<nat, Reader>) {
    forall r | r in readers :: readers[r].Loaded? ==> readers[r].entry.origin == readers[r].entry.stamp
  }

  /** Every entry a reader ever loads holds the version it stat'ed. */
  predicate LoadsExact(records: seq<Record>, events: seq<Event>) {
    forall i | 0 <= i <= |events| :: AllLoadsExact(Run(Initial(records), events[..i]).readers)
  }

  lemma OvertakenLoadsInexact(records: seq<Record>, events: seq<Event>, i: nat)
    requires i < |events| && Overtaken(Run(Initial(records), events[..i]), events[i])
    ensures !AllLoadsExact(Run(Initial(records), events[..i + 1]).readers)
  {
    var w := Run(Initial(records), events[..i]);
    RunKeeps(records, events[..i]);
    RunLast(Initial(records), events[..i], events[i]);
    assert events[..i + 1] == events[..i] + [events[i]];
    ReadIsExactIff(w, events[i].r);
    assert events[i].r in Step(w, events[i]).readers;
  }

  /**
   All loads of a run are exact if and only if no read of it was overtaken by a write, and then
   every answer, hits included, is the content of the version that was stat'ed.
   */
  lemma LoadsAreExactIff(records: seq<Record>, events: seq<Event>)
    ensures LoadsExact(records, events) <==> NeverOvertaken(records, events)
    ensures var w := Run(Initial(records), events);
            NeverOvertaken(records, events) ==> forall a | a in w.answers ::
              a.entry.stamp < |w.versions| && a.entry.records == MapOf(w.versions[a.entry.stamp])
  {
    var w := Run(Initial(records), events);
    RunKeeps(records, events);
    assert forall a | a in w.answers :: AnswerSound(w.versions, a);
    if NeverOvertaken(records, events) {
      NeverOvertakenIsExact(records, events);
      forall i | 0 <= i <= |events| ensures AllLoadsExact(Run(Initial(records), events[..i]).readers) {
        NeverOvertakenPrefix(records, events, i);
        NeverOvertakenIsExact(records, events[..i]);
      }
    }
    if LoadsExact(records, events) {
      forall i | 0 <= i < |events| ensures !Overtaken(Run(Initial(records), events[..i]), events[i]) {
        if Overtaken(Run(Initial(records), events[..i]), events[i]) {
          OvertakenLoadsInexact(records, events, i);
        }
      }
    }
  }

  // ---------- Where an answer comes from ----------

  /** Event `i` is the read of the file that loaded the entry. */
  predicate ReadAt(records: seq<Record>, events: seq<Event>, i: nat, entry: Entry) {
    && i < |events|
    && events[i].ReaderRead?
    && var w := Run(Initial(records), events[..i]);
       && ReaderState(w, events[i].r).Missed?
       && ReaderState(Step(w, events[i]), events[i].r) == Loaded(entry)
  }

  /** A reader loaded the entry, or a writer published what it had just written. */
  predicate HasSource(records: seq<Record>, events: seq<Event>, entry: Entry) {
    entry.origin == entry.stamp || exists i | 0 <= i < |events| :: ReadAt(records, events, i, entry)
  }

  predicate AllHaveSource(records: seq<Record>, events: seq<Event>, w: World) {
    && (w.cache.Some? ==> HasSource(records, events, w.cache.value))
    && (forall r | r in w.readers && w.readers[r].Loaded? :: HasSource(records, events, w.readers[r].entry))
    && (forall a | a in w.answers :: HasSource(records, events, a.entry))
  }

  lemma SourceStays(records: seq<Record>, events: seq<Event>, e: Event, entry: Entry)
    requires HasSource(records, events, entry)
    ensures HasSource(records, events + [e], entry)
  {
    if entry.origin != entry.stamp {
      var i :| 0 <= i < |events| && ReadAt(records, events, i, entry);
      assert (events + [e])[..i] == events[..i];
      assert ReadAt(records, events + [e], i, entry);
    }
  }

  lemma LoadHasSource(records: seq<Record>, events: seq<Event>, e: Event)
    requires e.ReaderRead? && ReaderState(Run(Initial(records), events), e.r).Missed?
    ensures ReaderState(Step(Run(Initial(records), events), e), e.r).Loaded?
    ensures HasSource(records, events + [e], ReaderState(Step(Run(Initial(records), events), e), e.r).entry)
  {
    assert (events + [e])[..|events|] == events;
    assert ReadAt(records, events + [e], |events|, ReaderState(Step(Run(Initial(records), events), e), e.r).entry);
  }

  lemma SourcesKept(records: seq<Record>, events: seq<Event>, e: Event)
    requires AllHaveSource(records, events, Run(Initial(records), events))
    ensures AllHaveSource(records, events + [e], Step(Run(Initial(records), events), e))
  {
    var w := Run(Initial(records), events);
    var next := Step(w, e);
    if w.cache.Some? {
      SourceStays(records, events, e, w.cache.value);
    }
    forall r | r in w.readers && w.readers[r].Loaded? ensures HasSource(records, events + [e], w.readers[r].entry) {
      SourceStays(records, events, e, w.readers[r].entry);
    }
    forall a | a in w.answers ensures HasSource(records, events + [e], a.entry) {
      SourceStays(records, events, e, a.entry);
    }
    if e.ReaderRead? && ReaderState(w, e.r).Missed? {
      LoadHasSource(records, events, e);
    }
  }

  lemma {:induction false} RunHasSources(records: seq<Record>, events: seq<Event>)
    ensures AllHaveSource(records, events, Run(Initial(records), events))
  {
    if events != [] {
      var before, e := events[..|events| - 1], events[|events| - 1];
      RunHasSources(records, before);
      SourcesKept(records, before, e);
      assert events == before + [e];
    }
  }

  /** The entry was loaded by a read that a write had overtaken and to other records. */
  predicate OvertakenSource(records: seq<Record>, events: seq<Event>, i: nat, entry: Entry) {
    && ReadAt(records, events, i, entry)
    && var w := Run(Initial(records), events[..i]);
       && Overtaken(w, events[i])
       && entry.stamp < |w.versions|
       && MapOf(w.versions[|w.versions| - 1]) != MapOf(w.versions[entry.stamp])
  }

  lemma StepKeepsVersions(w: World, e: Event)
    requires w.versions != []
    ensures w.versions <= Step(w, e).versions
  {
  }

  lemma {:induction false} VersionsGrow(w: World, events: seq<Event>, i: nat)
    requires w.versions != [] && i <= |events|
    ensures Run(w, events[..i]).versions <= Run(w, events).versions
  {
    if i < |events| {
      var before := events[..|events| - 1];
      VersionsGrow(w, before, i);
      StepKeepsVersions(Run(w, before), events[|events| - 1]);
      assert before[..i] == events[..i];
    } else {
      assert events[..i] == events;
    }
  }

  lemma SourceDecides(records: seq<Record>, events: seq<Event>, i: nat, entry: Entry)
    requires ReadAt(records, events, i, entry)
    ensures var versions := Run(Initial(records), events).versions;
            && entry.stamp < |versions|
            && (OvertakenSource(records, events, i, entry) <==> entry.records != MapOf(versions[entry.stamp]))
  {
    var w := Run(Initial(records), events[..i]);
    RunKeeps(records, events[..i]);
    ReadIsExactIff(w, events[i].r);
    VersionsGrow(Initial(records), events, i);
  }

  /**
   In general: an answer differs from the version its reader stat'ed if and only if the read that
   loaded its entry had been overtaken by a write that left other records.
   */
  lemma AnswerDiffersIff(records: seq<Record>, events: seq<Event>, a: Answer)
    requires a in Run(Initial(records), events).answers
    ensures var versions := Run(Initial(records), events).versions;
            && a.entry.stamp < |versions|
            && (a.entry.records != MapOf(versions[a.entry.stamp])
                <==> exists i | 0 <= i < |events| :: OvertakenSource(records, events, i, a.entry))
  {
    RunKeeps(records, events);
    RunHasSources(records, events);
    var w := Run(Initial(records), events);
    assert AnswerSound(w.versions, a) && HasSource(records, events, a.entry);
    if a.entry.records != MapOf(w.versions[a.entry.stamp]) {
      var i :| 0 <= i < |events| && ReadAt(records, events, i, a.entry);
      SourceDecides(records, events, i, a.entry);
    }
    if i :| 0 <= i < |events| && OvertakenSource(records, events, i, a.entry) {
      SourceDecides(records, events, i, a.entry);
    }
  }

  function Readers(one: Reader, two: Reader): map<nat, Reader> {
    map[1 := one, 2 := two]
  }

  /** Two readers stat the missing file, then a writer creates it. */
  function TwoStats(): seq<Event> {
    [] + [ReaderStat(1)] + [ReaderStat(2)]
  }

  function UpToTheWrite(r: Record): seq<Event> {
    TwoStats() + [WriterLock(Upsert(r))] + [WriterLoad] + [WriterReplace]
  }

  lemma AfterTwoStats()
    ensures Run(Initial([]), TwoStats()) == World([[]], [], None, Free, Readers(Statted(0), Statted(0)), [])
  {
    RunLast(Initial([]), [], ReaderStat(1));
    RunLast(Initial([]), [] + [ReaderStat(1)], ReaderStat(2));
  }

  lemma FirstUpsert(r: Record)
    ensures Effect([], Upsert(r)) == Some([r])
  {
    assert [] + [r] == [r];
  }

  lemma WriteAfterTwoStats(r: Record)
    ensures Run(Initial([]), UpToTheWrite(r))
            == World([[], [r]], [Upsert(r)], None, Replaced([r]), Readers(Statted(0), Statted(0)), [])
  {
    var w := Initial([]);
    AfterTwoStats();
    FirstUpsert(r);
    RunLast(w, TwoStats(), WriterLock(Upsert(r)));
    RunLast(w, TwoStats() + [WriterLock(Upsert(r))], WriterLoad);
    assert Run(w, TwoStats() + [WriterLock(Upsert(r))] + [WriterLoad])
        == World([[]], [], None, Read(Upsert(r), []), Readers(Statted(0), Statted(0)), []);
    RunLast(w, TwoStats() + [WriterLock(Upsert(r))] + [WriterLoad], WriterReplace);
    assert [] + [Upsert(r)] == [Upsert(r)];
  }

  /** The second reader reads after the write and publishes under its older stamp. */
  function UpToThePublish(r: Record): seq<Event> {
    UpToTheWrite(r) + [ReaderCheck(2)] + [ReaderRead(2)] + [ReaderPublish(2)]
  }

  lemma OvertakenReadLoads(r: Record)
    ensures Run(Initial([]), UpToTheWrite(r) + [ReaderCheck(2)] + [ReaderRead(2)])
            == World([[], [r]], [Upsert(r)], None, Replaced([r]),
                     Readers(Statted(0), Loaded(Entry(0, MapOf([r]), 1))), [])
  {
    var w, events := Initial([]), UpToTheWrite(r);
    WriteAfterTwoStats(r);
    RunLast(w, events, ReaderCheck(2));
    assert Run(w, events + [ReaderCheck(2)])
        == World([[], [r]], [Upsert(r)], None, Replaced([r]), Readers(Statted(0), Missed(0)), []);
    RunLast(w, events + [ReaderCheck(2)], ReaderRead(2));
  }

  lemma OvertakenReadPublishes(r: Record)
    ensures var entry := Entry(0, MapOf([r]), 1);
            Run(Initial([]), UpToThePublish(r))
            == World([[], [r]], [Upsert(r)], Some(entry), Replaced([r]),
                     Readers(Statted(0), Idle), [Answer(entry, 1, false)])
  {
    OvertakenReadLoads(r);
    RunLast(Initial([]), UpToTheWrite(r) + [ReaderCheck(2)] + [ReaderRead(2)], ReaderPublish(2));
  }

  /**
   With an overtaken read a hit can be newer than its stat: the first reader, whose stat is just
   as old, gets a record that the version it stat'ed did not have.
   */
  lemma HitCanBeNewerThanItsStat(r: Record)
    ensures var w := Run(Initial([]), UpToThePublish(r) + [ReaderCheck(1)]);
            && |w.answers| == 2 && w.versions == [[], [r]]
            && var a := w.answers[1];
               a.hit && a.entry.stamp == 0 && a.entry.records == MapOf([r]) && a.entry.records != MapOf([])
  {
    OvertakenReadPublishes(r);
    RunLast(Initial([]), UpToThePublish(r), ReaderCheck(1));
    assert [r][0] == r && r.id in MapOf([r]);
  }

  // ---------- No update is lost ----------

  function MapRun(m: map<string, Record>, ops: seq<Op>): map<string, Record> {
    if ops == [] then m else MapAfter(MapRun(m, ops[..|ops| - 1]), ops[|ops| - 1])
  }

  lemma {:induction false} VersionsRefineMap(versions: seq<seq<Record>>, writes: seq<Op>, n: nat)
    requires WritesInSequence(versions, writes) && UniqueIds(versions[0]) && n <= |writes|
    ensures UniqueIds(versions[n])
    ensures MapOf(versions[n]) == MapRun(MapOf(versions[0]), writes[..n])
  {
    if n > 0 {
      VersionsRefineMap(versions, writes, n - 1);
      OperationRefinesMap(versions[n - 1], writes[n - 1]);
      assert Effect(versions[n - 1], writes[n - 1]) == Some(versions[n]);
      assert writes[..n][..n - 1] == writes[..n - 1];
    }
  }

  lemma {:induction false} FirstVersion(records: seq<Record>, events: seq<Event>)
    ensures Run(Initial(records), events).versions[0] == records
  {
    if events != [] {
      FirstVersion(records, events[..|events| - 1]);
    }
  }

  /**
   From a file without repeated ids, a missing file included, the file is at any moment what
   the completed writes make of a plain map, one after the other, and ids stay unique.
   */
  lemma NoUpdateIsLost(records: seq<Record>, events: seq<Event>)
    requires UniqueIds(records)
    ensures var w := Run(Initial(records), events);
            && UniqueIds(w.versions[|w.versions| - 1])
            && MapOf(w.versions[|w.versions| - 1]) == MapRun(MapOf(records), w.writes)
  {
    RunKeeps(records, events);
    FirstVersion(records, events);
    var w := Run(Initial(records), events);
    VersionsRefineMap(w.versions, w.writes, |w.writes|);
    assert w.writes[..|w.writes|] == w.writes;
  }

  // ---------- What nobody comes between ----------

  /** A whole load by one reader; after a hit the last two steps have nothing to do. */
  function Loading(w: World, r: nat): World
    requires w.versions != []
  {
    Step(Step(Step(Step(w, ReaderStat(r)), ReaderCheck(r)), ReaderRead(r)), ReaderPublish(r))
  }

  /** The load answered, with the current records, and left them in the cache. */
  predicate LoadedBy(w: World, r: nat, z: World, hit: bool)
    requires w.versions != []
  {
    var current := |w.versions| - 1;
    && z.versions == w.versions && z.writer == w.writer
    && |z.answers| == |w.answers| + 1 && z.answers[..|w.answers|] == w.answers
    && z.answers[|w.answers|] == Answer(Entry(current, MapOf(w.versions[current]), current), current, hit)
    && z.cache == Some(Entry(current, MapOf(w.versions[current]), current))
    && ReaderState(z, r) == Idle
  }

  lemma LoadAnswers(w: World, r: nat)
    requires Kept(w) && ReaderState(w, r) == Idle
    ensures LoadedBy(w, r, Loading(w, r), w.cache.Some? && w.cache.value.stamp == |w.versions| - 1)
  {
  }

  lemma LoadingKeeps(w: World, r: nat)
    requires Kept(w)
    ensures Kept(Loading(w, r))
  {
    var a := Step(w, ReaderStat(r));
    var b := Step(a, ReaderCheck(r));
    ReaderStepKeeps(w, ReaderStat(r));
    ReaderStepKeeps(a, ReaderCheck(r));
    ReaderStepKeeps(b, ReaderRead(r));
    ReaderStepKeeps(Step(b, ReaderRead(r)), ReaderPublish(r));
  }

  lemma OthersStayIdle(w: World, r: nat, other: nat)
    requires w.versions != [] && ReaderState(w, other) == Idle && ReaderState(w, r) == Idle
    ensures ReaderState(Loading(w, r), other) == Idle
  {
  }

  /** An uninterrupted load always answers, with the current records; the next one is served by the cache. */
  lemma UninterruptedLoadAnswers(records: seq<Record>, events: seq<Event>, r: nat, next: nat)
    requires ReaderState(Run(Initial(records), events), r) == Idle
    requires ReaderState(Run(Initial(records), events), next) == Idle
    ensures var w := Run(Initial(records), events);
            && LoadedBy(w, r, Loading(w, r), w.cache.Some? && w.cache.value.stamp == |w.versions| - 1)
            && LoadedBy(Loading(w, r), next, Loading(Loading(w, r), next), true)
  {
    var w := Run(Initial(records), events);
    RunKeeps(records, events);
    LoadAnswers(w, r);
    LoadingKeeps(w, r);
    OthersStayIdle(w, r, next);
    LoadAnswers(Loading(w, r), next);
  }

  /** A whole operation by the lock holder. */
  function Writing(w: World, op: Op): World
    requires w.versions != []
  {
    Step(Step(Step(Step(Step(w, WriterLock(op)), WriterLoad), WriterReplace), WriterStat), WriterPublish)
  }

  /** Whoever gets the lock writes what the operation makes of the current records, and publishes it. */
  lemma UninterruptedWriteTakesEffect(w: World, op: Op)
    requires Kept(w) && w.writer.Free?
    ensures var z, current := Writing(w, op), w.versions[|w.versions| - 1];
            && z.writer.Free? && z.readers == w.readers && z.answers == w.answers
            && match Effect(current, op)
               case None => z.versions == w.versions && z.cache == w.cache
               case Some(next) =>
                 && z.versions == w.versions + [next] && z.writes == w.writes + [op]
                 && z.cache == Some(Entry(|w.versions|, MapOf(next), |w.versions|))
  {
  }
}
