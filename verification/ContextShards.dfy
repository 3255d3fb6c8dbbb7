/**
 Session context shards of `src/session_context.rs`: append-only files of checkpoints, one per
 session directory, with a cache whose entries are vouched for by the length of the file.
 */
module ContextShards {
  import opened Prelude
  import opened StampedCache

  datatype Checkpoint = Checkpoint(session: string, turn: U32, text: string, recordedAt: int)

  /** A line of the file with its length in bytes, the newline included. */
  datatype Line = Line(bytes: nat, checkpoint: Option<Checkpoint>)

  type Shard = s: seq<Line> | forall line | line in s :: line.bytes > 0 witness []

  function Length(lines: seq<Line>): nat {
    if lines == [] then 0 else Length(lines[..|lines| - 1]) + lines[|lines| - 1].bytes
  }

  /** The length of a file is that of its parts, and of one line what the line has. */
  lemma {:induction false} LengthIsAdditive(a: seq<Line>, b: seq<Line>, line: Line)
    ensures Length(a + b) == Length(a) + Length(b)
    ensures Length([line]) == line.bytes
  {
    assert [line][..0] == [];
    if b == [] {
      assert a + b == a;
    } else {
      LengthIsAdditive(a, b[..|b| - 1], line);
      assert (a + b)[..|a + b| - 1] == a + b[..|b| - 1];
    }
  }

  /** Lines that do not parse are skipped. */
  function Checkpoints(lines: seq<Line>): seq<Checkpoint> {
    if lines == [] then []
    else
      var last := lines[|lines| - 1].checkpoint;
      Checkpoints(lines[..|lines| - 1]) + if last.Some? then [last.value] else []
  }

  /** The file grows with every append, so its length tells its versions apart. */
  lemma {:induction false} LengthGrows(shard: Shard, i: nat, j: nat)
    requires i <= j <= |shard|
    ensures Length(shard[..i]) <= Length(shard[..j])
    ensures Length(shard[..i]) == Length(shard[..j]) ==> i == j
    decreases j - i
  {
    if i < j {
      LengthGrows(shard, i, j - 1);
      assert shard[..j][..j - 1] == shard[..j - 1];
      assert shard[..j][j - 1] in shard;
    }
  }

  // ---------- Readers and writers interleaved ----------

  /**
   A cached load: taken when the file had `statted` lines, read when it had `read` lines.
   Only `bytes` and `content` are stored; the counts say where they came from.
   */
  datatype Entry = Entry(bytes: nat, content: seq<Checkpoint>, statted: nat, read: nat)

  datatype Reader = Idle | Statted(bytes: nat, lines: nat) | Missed(bytes: nat, lines: nat) | Loaded(entry: Entry)

  datatype Answer = Answer(content: seq<Checkpoint>, statted: nat, now: nat)

  datatype World = World(file: Shard, cache: Option<Entry>, readers: map<nat, Reader>, answers: seq<Answer>)

  /** Appending and dropping the cache entry are two steps; a prune may drop it at any time. */
  datatype Event = AppendLine(line: Line) | DropEntry | Stat(r: nat) | Check(r: nat) | Read(r: nat) | Publish(r: nat)

  function ReaderState(w: World, r: nat): Reader {
    if r in w.readers then w.readers[r] else Idle
  }

  function Step(w: World, e: Event): World {
    match e
    case AppendLine(line) => if line.bytes > 0 then w.(file := w.file + [line]) else w
    case DropEntry => w.(cache := None)
    case Stat(r) =>
      if ReaderState(w, r).Idle?
      then w.(readers := w.readers[r := Statted(Length(w.file), |w.file|)]) else w
    case Check(r) =>
      (match ReaderState(w, r)
       case Statted(bytes, lines) =>
         if w.cache.Some? && w.cache.value.bytes == bytes
         then w.(readers := w.readers[r := Idle],
                 answers := w.answers + [Answer(w.cache.value.content, lines, |w.file|)])
         else w.(readers := w.readers[r := Missed(bytes, lines)])
       case _ => w)
    case Read(r) =>
      (match ReaderState(w, r)
       case Missed(bytes, lines) =>
         w.(readers := w.readers[r := Loaded(Entry(bytes, Checkpoints(w.file), lines, |w.file|))])
       case _ => w)
    case Publish(r) =>
      (match ReaderState(w, r)
       case Loaded(entry) =>
         w.(readers := w.readers[r := Idle], cache := Some(entry),
            answers := w.answers + [Answer(entry.content, entry.statted, |w.file|)])
       case _ => w)
  }

  function Run(file: Shard, events: seq<Event>): World {
    if events == [] then World(file, None, map[], [])
    else Step(Run(file, events[..|events| - 1]), events[|events| - 1])
  }

  /** The lines appended by a run. */
  function AppendedLines(events: seq<Event>): Shard {
    if events == [] then []
    else
      var e := events[|events| - 1];
      AppendedLines(events[..|events| - 1]) + if e.AppendLine? && e.line.bytes > 0 then [e.line] else []
  }

  /** Appends are all that happens to a file, whatever readers and cache do. */
  lemma {:induction false} FileIsItsAppends(file: Shard, events: seq<Event>)
    ensures Run(file, events).file == file + AppendedLines(events)
  {
    if events != [] {
      FileIsItsAppends(file, events[..|events| - 1]);
    }
  }

  predicate Sound(file: Shard, entry: Entry) {
    && entry.statted <= entry.read <= |file|
    && entry.bytes == Length(file[..entry.statted])
    && entry.content == Checkpoints(file[..entry.read])
  }

  predicate ReaderSound(file: Shard, reader: Reader) {
    match reader
    case Idle => true
    case Statted(bytes, lines) => lines <= |file| && bytes == Length(file[..lines])
    case Missed(bytes, lines) => lines <= |file| && bytes == Length(file[..lines])
    case Loaded(entry) => Sound(file, entry)
  }

  /** The answer is what a direct load would have given at some moment of the read. */
  predicate Linearizable(file: Shard, a: Answer) {
    exists n | a.statted <= n <= a.now <= |file| :: a.content == Checkpoints(file[..n])
  }

  predicate Kept(w: World) {
    && (w.cache.Some? ==> Sound(w.file, w.cache.value))
    && (forall r | r in w.readers :: ReaderSound(w.file, w.readers[r]))
    && (forall a | a in w.answers :: Linearizable(w.file, a))
  }

  lemma Extended(file: Shard, line: Line, n: nat)
    requires n <= |file| && line.bytes > 0
    ensures (file + [line])[..n] == file[..n]
  {
  }

  lemma AppendKeeps(w: World, line: Line)
    requires Kept(w) && line.bytes > 0
    ensures Kept(w.(file := w.file + [line]))
  {
    var file: Shard := w.file + [line];
    forall n: nat | n <= |w.file| ensures file[..n] == w.file[..n] {
      Extended(w.file, line, n);
    }
    forall r | r in w.readers ensures ReaderSound(file, w.readers[r]) {
      assert ReaderSound(w.file, w.readers[r]);
    }
    forall a | a in w.answers ensures Linearizable(file, a) {
      assert Linearizable(w.file, a);
      var n :| a.statted <= n <= a.now <= |w.file| && a.content == Checkpoints(w.file[..n]);
      assert a.content == Checkpoints(file[..n]);
    }
  }

  /** A reader that gets a cached entry stat'ed the very version the entry was stat'ed of. */
  lemma HitIsSameVersion(file: Shard, entry: Entry, bytes: nat, lines: nat)
    requires Sound(file, entry) && ReaderSound(file, Statted(bytes, lines)) && entry.bytes == bytes
    ensures entry.statted == lines
    ensures Linearizable(file, Answer(entry.content, lines, |file|))
  {
    if lines <= entry.statted {
      LengthGrows(file, lines, entry.statted);
    } else {
      LengthGrows(file, entry.statted, lines);
    }
    assert entry.content == Checkpoints(file[..entry.read]);
  }

  lemma ReaderKeeps(w: World, e: Event)
    requires Kept(w) && (e.Stat? || e.Check? || e.Read? || e.Publish?)
    ensures Kept(Step(w, e))
  {
    var next := Step(w, e);
    var reader := ReaderState(w, e.r);
    assert ReaderSound(w.file, reader);
    assert w.file[..|w.file|] == w.file;
    if e.Check? && reader.Statted? && w.cache.Some? && w.cache.value.bytes == reader.bytes {
      HitIsSameVersion(w.file, w.cache.value, reader.bytes, reader.lines);
    }
    if e.Publish? && reader.Loaded? {
      assert reader.entry.content == Checkpoints(w.file[..reader.entry.read]);
      assert Linearizable(w.file, Answer(reader.entry.content, reader.entry.statted, |w.file|));
    }
    assert ReaderSound(w.file, ReaderState(next, e.r));
    assert forall r | r in next.readers && r != e.r :: r in w.readers && next.readers[r] == w.readers[r];
  }

  lemma {:induction false} RunKeeps(file: Shard, events: seq<Event>)
    ensures Kept(Run(file, events))
  {
    if events != [] {
      var w := Run(file, events[..|events| - 1]);
      var e := events[|events| - 1];
      RunKeeps(file, events[..|events| - 1]);
      match e
      case AppendLine(line) => if line.bytes > 0 { AppendKeeps(w, line); }
      case DropEntry =>
      case Stat(_) => ReaderKeeps(w, e);
      case Check(_) => ReaderKeeps(w, e);
      case Read(_) => ReaderKeeps(w, e);
      case Publish(_) => ReaderKeeps(w, e);
    }
  }

  /**
   However appends, evictions and readers interleave, a cached load answers with what a direct
   load would have read at some moment between the reader's stat and its return; without an
   append in between that is exactly the present content.
   */
  lemma CachedLoadIsDirectLoad(file: Shard, events: seq<Event>)
    ensures var w := Run(file, events);
            forall a | a in w.answers ::
              && Linearizable(w.file, a)
              && (a.statted == a.now ==> a.now <= |w.file| && a.content == Checkpoints(w.file[..a.now]))
  {
    RunKeeps(file, events);
  }

  /** A whole load by one reader; after a hit the last two steps have nothing to do. */
  function Loading(w: World, r: nat): World {
    Step(Step(Step(Step(w, Stat(r)), Check(r)), Read(r)), Publish(r))
  }

  /** The load answered with what the file holds, and the cache vouches for it. */
  predicate LoadedBy(w: World, r: nat, z: World) {
    && z.file == w.file && ReaderState(z, r) == Idle
    && |z.answers| == |w.answers| + 1 && z.answers[..|w.answers|] == w.answers
    && z.answers[|w.answers|] == Answer(Checkpoints(w.file), |w.file|, |w.file|)
    && z.cache.Some? && z.cache.value.bytes == Length(w.file) && z.cache.value.content == Checkpoints(w.file)
  }

  lemma VouchedIsCurrent(file: Shard, entry: Entry)
    requires Sound(file, entry) && entry.bytes == Length(file)
    ensures entry.content == Checkpoints(file)
  {
    assert file[..|file|] == file;
    LengthGrows(file, entry.statted, |file|);
  }

  /** An uninterrupted load always answers, with the present content. */
  lemma LoadAnswers(w: World, r: nat)
    requires Kept(w) && ReaderState(w, r) == Idle
    ensures LoadedBy(w, r, Loading(w, r))
  {
    if w.cache.Some? && w.cache.value.bytes == Length(w.file) {
      VouchedIsCurrent(w.file, w.cache.value);
    }
  }

  lemma UninterruptedLoadAnswers(file: Shard, events: seq<Event>, r: nat)
    requires ReaderState(Run(file, events), r) == Idle
    ensures LoadedBy(Run(file, events), r, Loading(Run(file, events), r))
  {
    RunKeeps(file, events);
    LoadAnswers(Run(file, events), r);
  }

  /** Once a load has filled the cache, the next one takes its content from there without reading. */
  lemma NextLoadHits(w: World, r: nat)
    requires w.cache.Some? && w.cache.value.bytes == Length(w.file) && ReaderState(w, r) == Idle
    ensures var checked := Step(Step(w, Stat(r)), Check(r));
            && ReaderState(checked, r) == Idle && checked.cache == w.cache
            && checked.answers == w.answers + [Answer(w.cache.value.content, |w.file|, |w.file|)]
  {
  }

  // ---------- The shard store ----------

  method LoadContextCheckpointFile(shard: Shard) returns (checkpoints: seq<Checkpoint>)
    ensures checkpoints == Checkpoints(shard)
  {
    checkpoints := [];
    for i := 0 to |shard|
      invariant checkpoints == Checkpoints(shard[..i])
    {
      assert shard[..i + 1][..i] == shard[..i];
      if shard[i].checkpoint.Some? {
        checkpoints := checkpoints + [shard[i].checkpoint.value];
      }
    }
    assert shard[..|shard|] == shard;
  }

  predicate OwnSession(session: string, shard: Shard) {
    forall c | c in Checkpoints(shard) :: c.session == session
  }

  lemma CheckpointsSnoc(shard: Shard, bytes: nat, checkpoint: Checkpoint)
    ensures Checkpoints(shard + [Line(bytes, Some(checkpoint))]) == Checkpoints(shard) + [checkpoint]
  {
    assert (shard + [Line(bytes, Some(checkpoint))])[..|shard|] == shard;
  }

  lemma AppendOwn(session: string, shard: Shard, bytes: nat, checkpoint: Checkpoint)
    requires bytes > 0 && OwnSession(session, shard) && checkpoint.session == session
    ensures OwnSession(session, shard + [Line(bytes, Some(checkpoint))])
    ensures Checkpoints(shard + [Line(bytes, Some(checkpoint))]) == Checkpoints(shard) + [checkpoint]
  {
    CheckpointsSnoc(shard, bytes, checkpoint);
  }

  lemma Evict<K, V>(cache: map<K, V>, k: K)
    ensures |cache - {k}| <= |cache|
  {
    assert (cache - {k}).Keys == cache.Keys - {k};
  }

  predicate ValidEntry(shard: Shard, entry: Cached<seq<Checkpoint>>) {
    exists n | 0 <= n <= |shard| :: entry.stamp == Length(shard[..n]) && entry.content == Checkpoints(shard[..n])
  }

  lemma EntryVouched(shard: Shard, entry: Cached<seq<Checkpoint>>)
    requires ValidEntry(shard, entry) && entry.stamp == Length(shard)
    ensures entry.content == Checkpoints(shard)
  {
    var n :| 0 <= n <= |shard| && entry.stamp == Length(shard[..n]) && entry.content == Checkpoints(shard[..n]);
    assert shard[..|shard|] == shard;
    LengthGrows(shard, n, |shard|);
  }

  /** All shards by session directory, with the cache in front of them, while one thread uses them. */
  class ContextShardStore {
    var shards: map<string, Shard>
    var cache: map<string, Cached<seq<Checkpoint>>>

    /** A process starts with the shards as they are and an empty cache. */
    constructor (shards: map<string, Shard>)
      requires forall d | d in shards :: OwnSession(d, shards[d])
      ensures Valid() && this.shards == shards && cache == map[]
    {
      this.shards, cache := shards, map[];
    }

    /**
     Every cached load is the load of the file when it had the cached length, and a shard holds
     checkpoints of its own session only.
     */
    ghost predicate Valid()
      reads this
    {
      && |cache| <= MAX_ENTRIES
      && (forall d | d in cache && d in shards :: ValidEntry(shards[d], cache[d]))
      && (forall d | d in shards :: OwnSession(d, shards[d]))
    }

    method AppendContextCheckpoint(session: string, turn: U32, text: string, recordedAt: int, bytes: nat)
      requires Valid() && bytes > 0
      modifies this
      ensures Valid()
      ensures session in shards && Checkpoints(shards[session])
              == old(if session in shards then Checkpoints(shards[session]) else [])
                 + [Checkpoint(session, turn, text, recordedAt)]
      ensures shards - {session} == old(shards) - {session}
    {
      var before: Shard := if session in shards then shards[session] else [];
      var checkpoint := Checkpoint(session, turn, text, recordedAt);
      var after: Shard := before + [Line(bytes, Some(checkpoint))];
      AppendOwn(session, before, bytes, checkpoint);
      shards := shards[session := after];
      Evict(cache, session);
      cache := cache - {session};
    }

    method LoadContextCheckpointFileCached(session: string) returns (checkpoints: seq<Checkpoint>)
      requires Valid() && session in shards
      modifies `cache
      ensures Valid()
      ensures checkpoints == Checkpoints(shards[session])
      ensures session in cache
    {
      var shard := shards[session];
      var bytes := Length(shard);
      assert shard[..|shard|] == shard;
      if session in cache && cache[session].stamp == bytes {
        EntryVouched(shard, cache[session]);
        return cache[session].content;
      }
      checkpoints := LoadContextCheckpointFile(shard);
      var pruned := Prune(cache, session);
      cache := pruned[session := Cached(bytes, checkpoints)];
      assert cache.Keys == pruned.Keys + {session};
      assert |cache.Keys| <= |pruned.Keys| + 1;
    }
  }
}
