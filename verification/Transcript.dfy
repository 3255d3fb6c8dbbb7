/**
 Session transcripts of `src/session_transcript.rs`: a file of newline-terminated JSON lines,
 the cached load, and the checkpoint that either appends what is new or rewrites the file.
 */
module Transcript {
  import opened Prelude
  import opened StampedCache

  const SCHEMA_VERSION := 1

  /** `content` is the JSON value as text. */
  datatype Message = Message(role: string, content: string)

  datatype Scope = Scope(
    sessionId: string,
    parentSessionId: Option<string>,
    agentId: Option<string>,
    isSidechain: bool
  )

  function MainScope(sessionId: string): Scope {
    Scope(sessionId, None, None, false)
  }

  datatype Entry =
    | SessionMeta(schemaVersion: nat, scope: Scope)
    | MessageEntry(
        id: string, parent: Option<string>, sessionId: string, agentId: Option<string>,
        isSidechain: bool, message: Message)
    | SpawnAgent(eventId: string, spawnedBy: string, child: Option<string>, status: string)

  /** One newline-terminated line, as the loader sees it. */
  datatype Line = Parsed(entry: Entry) | Malformed | BlankLine

  /** What follows the last newline: a whole entry, a part that does not parse, or white space. */
  datatype Tail = NoTail | WholeTail(entry: Entry) | TornTail | BlankTail

  datatype File = File(lines: seq<Line>, tail: Tail)

  const EMPTY_FILE := File([], NoTail)

  datatype Load = Load(entries: seq<Entry>, parseErrors: U64)

  // ---------- Loading ----------

  /** The loader reads an unterminated rest as one more line. */
  function AllLines(f: File): seq<Line> {
    match f.tail
    case NoTail => f.lines
    case WholeTail(e) => f.lines + [Parsed(e)]
    case TornTail => f.lines + [Malformed]
    case BlankTail => f.lines + [BlankLine]
  }

  function Entries(lines: seq<Line>): seq<Entry> {
    if lines == [] then []
    else
      var last := lines[|lines| - 1];
      Entries(lines[..|lines| - 1]) + if last.Parsed? then [last.entry] else []
  }

  function Errors(lines: seq<Line>): U64 {
    if lines == [] then 0
    else
      var before := Errors(lines[..|lines| - 1]);
      if lines[|lines| - 1].Malformed? && before < U64_MAX then before + 1 else before
  }

  function LoadOf(f: File): Load {
    Load(Entries(AllLines(f)), Errors(AllLines(f)))
  }

  /** A path without a file loads as an empty transcript. */
  function LoadAt(f: Option<File>): Load {
    if f.Some? then LoadOf(f.value) else Load([], 0)
  }

  method LoadTranscript(f: File) returns (load: Load)
    ensures load == LoadOf(f)
  {
    var lines := AllLines(f);
    var entries, parseErrors: U64 := [], 0;
    for i := 0 to |lines|
      invariant entries == Entries(lines[..i]) && parseErrors == Errors(lines[..i])
    {
      assert lines[..i + 1][..i] == lines[..i];
      match lines[i]
      case Parsed(e) => entries := entries + [e];
      case Malformed => if parseErrors < U64_MAX { parseErrors := parseErrors + 1; }
      case BlankLine =>
    }
    assert lines[..|lines|] == lines;
    load := Load(entries, parseErrors);
  }

  /** The messages the model sees: main-chain messages, in file order. */
  function Visible(entries: seq<Entry>): seq<Message> {
    if entries == [] then []
    else
      var last := entries[|entries| - 1];
      Visible(entries[..|entries| - 1]) +
      if last.MessageEntry? && !last.isSidechain then [last.message] else []
  }

  function VisibleHistory(f: File): seq<Message> {
    Visible(LoadOf(f).entries)
  }

  // ---------- Writing ----------

  function Zeros(n: nat): string {
    seq(n, _ => '0')
  }

  /** `msg-{idx:06}` */
  function MessageId(idx: nat): string {
    var digits := Decimal(idx);
    "msg-" + Zeros(if |digits| < 6 then 6 - |digits| else 0) + digits
  }

  function MetaEntry(scope: Scope): Entry {
    SessionMeta(SCHEMA_VERSION, scope)
  }

  function EntryOf(scope: Scope, idx: nat, message: Message): Entry {
    MessageEntry(MessageId(idx), if idx == 0 then None else Some(MessageId(idx - 1)),
                 scope.sessionId, scope.agentId, scope.isSidechain, message)
  }

  /** The entries of `history[start..]`. */
  function EntriesFrom(scope: Scope, history: seq<Message>, start: nat): seq<Entry>
    requires start <= |history|
  {
    var n := |history|;
    if start == n then [] else EntriesFrom(scope, history[..n - 1], start) + [EntryOf(scope, n - 1, history[n - 1])]
  }

  lemma EntriesFromStep(scope: Scope, history: seq<Message>, start: nat, idx: nat)
    requires start <= idx < |history|
    ensures EntriesFrom(scope, history[..idx + 1], start)
            == EntriesFrom(scope, history[..idx], start) + [EntryOf(scope, idx, history[idx])]
  {
    assert history[..idx + 1][..idx] == history[..idx];
  }

  function Wrap(entries: seq<Entry>): seq<Line> {
    var n := |entries|;
    if n == 0 then [] else Wrap(entries[..n - 1]) + [Parsed(entries[n - 1])]
  }

  function EntriesForMessages(scope: Scope, history: seq<Message>): seq<Entry> {
    [MetaEntry(scope)] + EntriesFrom(scope, history, 0)
  }

  /** The whole file a rewrite leaves. */
  function Rewritten(scope: Scope, history: seq<Message>): File {
    File(Wrap(EntriesForMessages(scope, history)), NoTail)
  }

  /** An appended line continues whatever follows the last newline. */
  function Append(f: File, e: Entry): File {
    File(f.lines + [if f.tail.NoTail? || f.tail.BlankTail? then Parsed(e) else Malformed], NoTail)
  }

  function AppendAll(f: File, entries: seq<Entry>): File {
    if entries == [] then f
    else Append(AppendAll(f, entries[..|entries| - 1]), entries[|entries| - 1])
  }

  /** Appending nothing does not create a file. */
  function Appended(f: Option<File>, entries: seq<Entry>): Option<File> {
    if entries == [] then f else Some(AppendAll(f.GetOr(EMPTY_FILE), entries))
  }

  lemma AppendedStep(f: Option<File>, entries: seq<Entry>, e: Entry)
    ensures Appended(f, entries + [e]) == Some(Append(Appended(f, entries).GetOr(EMPTY_FILE), e))
  {
    assert (entries + [e])[..|entries|] == entries;
  }

  /** One turn of the loop over the history. */
  lemma AppendStep(f: Option<File>, scope: Scope, history: seq<Message>, start: nat, idx: nat)
    requires start <= idx < |history|
    ensures var before := EntriesFrom(scope, history[..idx], start);
            var after := EntriesFrom(scope, history[..idx + 1], start);
            && after == before + [EntryOf(scope, idx, history[idx])]
            && Appended(f, after)
               == Some(Append(Appended(f, before).GetOr(EMPTY_FILE), EntryOf(scope, idx, history[idx])))
  {
    EntriesFromStep(scope, history, start, idx);
    AppendedStep(f, EntriesFrom(scope, history[..idx], start), EntryOf(scope, idx, history[idx]));
  }

  // ---------- The checkpoint ----------

  /** A file without entries first gets its meta entry. */
  function Header(scope: Scope, load: Load): seq<Entry> {
    if load.entries == [] then [MetaEntry(scope)] else []
  }

  /** What a checkpoint adds to a file that loads as `load`. */
  function News(scope: Scope, load: Load, history: seq<Message>): seq<Entry>
    requires Visible(load.entries) <= history
  {
    Header(scope, load) + EntriesFrom(scope, history, |Visible(load.entries)|)
  }

  predicate Extends(load: Load, history: seq<Message>) {
    load.parseErrors == 0 && Visible(load.entries) <= history
  }

  method ExtendsHistory(load: Load, history: seq<Message>) returns (ok: bool)
    ensures ok <==> Extends(load, history)
  {
    var visible := Visible(load.entries);
    ok := load.parseErrors == 0 && |visible| <= |history| && visible == history[..|visible|];
  }

  /** The checkpoint, given what the cache or the file told about the present content. */
  function SyncWith(scope: Scope, f: Option<File>, load: Load, history: seq<Message>): File {
    if f.Some? && Extends(load, history)
    then AppendAll(f.value, News(scope, load, history))
    else Rewritten(scope, history)
  }

  function Sync(scope: Scope, f: Option<File>, history: seq<Message>): File {
    SyncWith(scope, f, LoadAt(f), history)
  }

  /** What the cache holds for the file after a checkpoint. */
  function SyncLoad(scope: Scope, f: Option<File>, load: Load, history: seq<Message>): Load {
    if f.Some? && Extends(load, history)
    then Load(load.entries + News(scope, load, history), 0)
    else LoadOf(Rewritten(scope, history))
  }

  // ---------- Loading what was written ----------

  lemma {:induction false} EntriesConcat(a: seq<Line>, b: seq<Line>)
    ensures Entries(a + b) == Entries(a) + Entries(b)
  {
    if b == [] {
      assert a + b == a;
    } else {
      EntriesConcat(a, b[..|b| - 1]);
      assert (a + b)[..|a + b| - 1] == a + b[..|b| - 1];
    }
  }

  lemma {:induction false} NoErrors(lines: seq<Line>)
    ensures Errors(lines) == 0 <==> Malformed !in lines
  {
    if lines != [] {
      NoErrors(lines[..|lines| - 1]);
      assert lines == lines[..|lines| - 1] + [lines[|lines| - 1]];
    }
  }

  lemma {:induction false} WrapIsGood(entries: seq<Entry>)
    ensures Entries(Wrap(entries)) == entries
    ensures Malformed !in Wrap(entries)
  {
    if entries != [] {
      WrapIsGood(entries[..|entries| - 1]);
      assert Wrap(entries)[..|Wrap(entries)| - 1] == Wrap(entries[..|entries| - 1]);
    }
  }

  lemma LoadOfWrapped(entries: seq<Entry>)
    ensures LoadOf(File(Wrap(entries), NoTail)) == Load(entries, 0)
  {
  }

  lemma {:induction false} AppendAllConcat(f: File, a: seq<Entry>, b: seq<Entry>)
    ensures AppendAll(f, a + b) == AppendAll(AppendAll(f, a), b)
  {
    if b == [] {
      assert a + b == a;
    } else {
      AppendAllConcat(f, a, b[..|b| - 1]);
      assert (a + b)[..|a + b| - 1] == a + b[..|b| - 1];
    }
  }

  lemma NewsSteps(f: File, scope: Scope, load: Load, history: seq<Message>)
    requires Visible(load.entries) <= history
    ensures var later := EntriesFrom(scope, history, |Visible(load.entries)|);
            && AppendAll(AppendAll(f, Header(scope, load)), later) == AppendAll(f, News(scope, load, history))
            && load.entries + Header(scope, load) + later == load.entries + News(scope, load, history)
  {
    AppendAllConcat(f, Header(scope, load), EntriesFrom(scope, history, |Visible(load.entries)|));
  }

  /** The line that the first appended entry becomes. */
  function Joined(tail: Tail, e: Entry): Line {
    if tail.NoTail? || tail.BlankTail? then Parsed(e) else Malformed
  }

  lemma {:induction false} AppendAllLines(f: File, entries: seq<Entry>)
    requires entries != []
    ensures AppendAll(f, entries) == File(f.lines + [Joined(f.tail, entries[0])] + Wrap(entries[1..]), NoTail)
  {
    var n := |entries| - 1;
    if n > 0 {
      AppendAllLines(f, entries[..n]);
      assert entries[1..][..n - 1] == entries[..n][1..];
    }
  }

  lemma {:induction false} AppendAllTerminated(f: File, entries: seq<Entry>)
    requires entries != [] && (f.tail.NoTail? || f.tail.BlankTail?)
    ensures AppendAll(f, entries) == File(f.lines + Wrap(entries), NoTail)
  {
    var n := |entries| - 1;
    if n > 0 {
      AppendAllTerminated(f, entries[..n]);
    }
  }

  /** The checkpoint is about to append to an entry whose newline never reached the file. */
  predicate Merges(f: Option<File>, history: seq<Message>) {
    && f.Some?
    && f.value.tail.WholeTail?
    && Extends(LoadOf(f.value), history)
    && VisibleHistory(f.value) != history
  }

  lemma LinesSplit(f: File)
    ensures LoadOf(f).entries == Entries(f.lines) + if f.tail.WholeTail? then [f.tail.entry] else []
    ensures LoadOf(f).parseErrors == 0 <==> Malformed !in f.lines && !f.tail.TornTail?
  {
    NoErrors(AllLines(f));
    assert f.tail.TornTail? ==> Malformed in AllLines(f);
    assert !f.tail.NoTail? ==> AllLines(f)[..|AllLines(f)| - 1] == f.lines;
  }

  lemma LoadOfLines(lines: seq<Line>, entries: seq<Entry>)
    ensures LoadOf(File(lines + Wrap(entries), NoTail)).entries == Entries(lines) + entries
    ensures LoadOf(File(lines + Wrap(entries), NoTail)).parseErrors == 0 <==> Malformed !in lines
  {
    EntriesConcat(lines, Wrap(entries));
    WrapIsGood(entries);
    NoErrors(lines + Wrap(entries));
  }

  lemma LoadTerminated(f: File, entries: seq<Entry>)
    requires entries != [] && Malformed !in f.lines && (f.tail.NoTail? || f.tail.BlankTail?)
    ensures LoadOf(AppendAll(f, entries)) == Load(Entries(f.lines) + entries, 0)
  {
    AppendAllTerminated(f, entries);
    LoadOfLines(f.lines, entries);
  }

  /** Appending to terminated lines adds exactly the entries. */
  lemma LoadAppended(f: File, entries: seq<Entry>)
    requires LoadOf(f).parseErrors == 0
    requires entries == [] || !f.tail.WholeTail?
    ensures LoadOf(AppendAll(f, entries)) == Load(LoadOf(f).entries + entries, 0)
  {
    var load := LoadOf(f);
    if entries == [] {
      assert load.entries + entries == load.entries;
    } else {
      LinesSplit(f);
      assert load.entries == Entries(f.lines);
      LoadTerminated(f, entries);
    }
  }

  lemma EntriesSkipMalformed(lines: seq<Line>)
    ensures Entries(lines + [Malformed]) == Entries(lines)
    ensures Malformed in lines + [Malformed]
  {
  }

  /** An entry without its newline is lost together with the one appended behind it. */
  lemma LoadMerged(f: File, entries: seq<Entry>)
    requires f.tail.WholeTail? && entries != []
    ensures LoadOf(AppendAll(f, entries)).parseErrors > 0
    ensures LoadOf(AppendAll(f, entries)).entries == Entries(f.lines) + entries[1..]
  {
    AppendAllLines(f, entries);
    LoadOfLines(f.lines + [Malformed], entries[1..]);
    EntriesSkipMalformed(f.lines);
  }

  /** The load kept in the cache is that of the file exactly when no entry was merged away. */
  lemma AppendedLoad(scope: Scope, f: File, history: seq<Message>)
    requires Extends(LoadOf(f), history)
    ensures SyncLoad(scope, Some(f), LoadOf(f), history) == LoadOf(Sync(scope, Some(f), history))
            <==> !Merges(Some(f), history)
  {
    var news := News(scope, LoadOf(f), history);
    LinesSplit(f);
    if f.tail.WholeTail? && news != [] {
      LoadMerged(f, news);
    } else {
      LoadAppended(f, news);
    }
  }

  /** What a checkpoint caches is the load of what it writes exactly when it merges nothing. */
  lemma SyncCoherence(scope: Scope, f: Option<File>, history: seq<Message>)
    ensures SyncLoad(scope, f, LoadAt(f), history) == LoadOf(Sync(scope, f, history)) <==> !Merges(f, history)
  {
    if f.Some? && Extends(LoadOf(f.value), history) {
      AppendedLoad(scope, f.value, history);
    }
  }

  type Path = string

  datatype Stored = Stored(file: File, stamp: nat)

  /**
   The transcript files and the cache in front of them. A stamp stands for modification time
   and length together; every write of a file gives it a stamp no file had before.
   */
  class TranscriptStore {
    var files: map<Path, Stored>
    var cache: map<Path, Cached<Load>>
    var clock: nat

    /** A process starts with the files as they are and an empty cache. */
    constructor (files: map<Path, Stored>, clock: nat)
      requires forall p | p in files :: files[p].stamp < clock
      ensures Valid() && Coherent() && this.files == files && cache == map[]
    {
      this.files, cache, this.clock := files, map[], clock;
    }

    ghost predicate Valid()
      reads this
    {
      && (forall p | p in files :: files[p].stamp < clock)
      && (forall p | p in cache :: cache[p].stamp < clock)
      && |cache| <= MAX_ENTRIES
    }

    /** A cached load that its stamp still vouches for is the load of the file. */
    ghost predicate CoherentAt(p: Path)
      reads this
    {
      p in cache && p in files && cache[p].stamp == files[p].stamp ==> cache[p].content == LoadOf(files[p].file)
    }

    ghost predicate Coherent()
      reads this
    {
      forall p :: CoherentAt(p)
    }

    function FileAt(p: Path): Option<File>
      reads this`files
    {
      if p in files then Some(files[p].file) else None
    }

    /** What a cached load of the file reports: the cached value as long as its stamp is the file's. */
    ghost function Known(p: Path): Load
      reads this
    {
      if p in files && p in cache && cache[p].stamp == files[p].stamp
      then cache[p].content
      else LoadAt(FileAt(p))
    }

    method Remember(path: Path, load: Load)
      requires Valid() && path in files
      modifies `cache
      ensures Valid()
      ensures Known(path) == load
      ensures old(Coherent()) ==> (Coherent() <==> load == LoadOf(files[path].file))
    {
      var pruned := Prune(cache, path);
      cache := pruned[path := Cached(files[path].stamp, load)];
      assert cache.Keys == pruned.Keys + {path};
      assert |cache.Keys| <= |pruned.Keys| + 1;
      if old(Coherent()) {
        assert CoherentAt(path) <==> load == LoadOf(files[path].file);
        forall p | p != path ensures CoherentAt(p) {
          assert old(CoherentAt(p));
        }
      }
    }

    method LoadCached(path: Path) returns (load: Load)
      requires Valid()
      modifies `cache
      ensures Valid()
      ensures load == old(Known(path)) == Known(path)
      ensures old(Coherent()) ==> Coherent() && load == LoadAt(FileAt(path))
    {
      if path !in files {
        return Load([], 0);
      }
      if path in cache && cache[path].stamp == files[path].stamp {
        assert old(Coherent()) ==> CoherentAt(path);
        return cache[path].content;
      }
      load := LoadTranscript(files[path].file);
      Remember(path, load);
    }

    /** Replace or create one file; its stamp is new. */
    method Write(path: Path, file: File)
      requires Valid()
      modifies `files, `clock
      ensures Valid() && clock == old(clock) + 1
      ensures files == old(files)[path := Stored(file, old(clock))]
      ensures old(Coherent()) ==> Coherent()
    {
      files, clock := files[path := Stored(file, clock)], clock + 1;
      if old(Coherent()) {
        forall p ensures CoherentAt(p) {
          assert old(CoherentAt(p));
        }
      }
    }

    method AppendEntry(path: Path, entry: Entry)
      requires Valid()
      modifies this
      ensures Valid()
      ensures FileAt(path) == Some(Append(old(FileAt(path)).GetOr(EMPTY_FILE), entry))
      ensures files - {path} == old(files) - {path}
      ensures cache == old(cache) - {path}
      ensures old(Coherent()) ==> Coherent()
    {
      Write(path, Append(FileAt(path).GetOr(EMPTY_FILE), entry));
      ghost var kept := cache;
      cache := cache - {path};
      assert cache.Keys == kept.Keys - {path};
      if old(Coherent()) {
        forall p ensures CoherentAt(p) {
          assert old(CoherentAt(p));
        }
      }
    }

    method AppendHistoryFrom(path: Path, scope: Scope, history: seq<Message>, start: nat)
        returns (appended: seq<Entry>)
      requires Valid() && start <= |history|
      modifies this
      ensures Valid()
      ensures appended == EntriesFrom(scope, history, start)
      ensures FileAt(path) == Appended(old(FileAt(path)), appended)
      ensures files - {path} == old(files) - {path}
      ensures old(Coherent()) ==> Coherent()
    {
      ghost var f, others, coherent := FileAt(path), files - {path}, Coherent();
      appended := [];
      for idx := start to |history|
        invariant Valid() && (coherent ==> Coherent())
        invariant appended == EntriesFrom(scope, history[..idx], start)
        invariant FileAt(path) == Appended(f, appended)
        invariant files - {path} == others
      {
        AppendStep(f, scope, history, start, idx);
        AppendEntry(path, EntryOf(scope, idx, history[idx]));
        appended := appended + [EntryOf(scope, idx, history[idx])];
      }
      assert history[..|history|] == history;
    }

    method RewriteHistory(path: Path, scope: Scope, history: seq<Message>)
      requires Valid()
      modifies this
      ensures Valid()
      ensures FileAt(path) == Some(Rewritten(scope, history))
      ensures Known(path) == LoadOf(Rewritten(scope, history))
      ensures files - {path} == old(files) - {path}
      ensures old(Coherent()) ==> Coherent()
    {
      var entries := EntriesForMessages(scope, history);
      LoadOfWrapped(entries);
      Write(path, File(Wrap(entries), NoTail));
      Remember(path, Load(entries, 0));
    }

    method AppendHeader(path: Path, scope: Scope, load: Load) returns (entries: seq<Entry>)
      requires Valid() && path in files
      modifies this
      ensures Valid() && path in files
      ensures entries == load.entries + Header(scope, load)
      ensures files[path].file == AppendAll(old(files[path].file), Header(scope, load))
      ensures files - {path} == old(files) - {path}
      ensures old(Coherent()) ==> Coherent()
    {
      entries := load.entries;
      if entries == [] {
        AppendedStep(FileAt(path), [], MetaEntry(scope));
        AppendEntry(path, MetaEntry(scope));
        entries := [MetaEntry(scope)];
      }
    }

    method AppendNews(path: Path, scope: Scope, load: Load, history: seq<Message>) returns (entries: seq<Entry>)
      requires Valid() && path in files && Visible(load.entries) <= history
      modifies this
      ensures Valid() && path in files
      ensures entries == load.entries + News(scope, load, history)
      ensures files[path].file == AppendAll(old(files[path].file), News(scope, load, history))
      ensures files - {path} == old(files) - {path}
      ensures old(Coherent()) ==> Coherent()
    {
      NewsSteps(files[path].file, scope, load, history);
      var header := AppendHeader(path, scope, load);
      var appended := AppendHistoryFrom(path, scope, history, |Visible(load.entries)|);
      entries := header + appended;
    }

    /** The append path, which then caches what it believes the file to hold. */
    method AppendCheckpoint(path: Path, scope: Scope, load: Load, history: seq<Message>)
      requires Valid() && path in files && Extends(load, history)
      modifies this
      ensures Valid()
      ensures FileAt(path) == Some(SyncWith(scope, old(FileAt(path)), load, history))
      ensures Known(path) == SyncLoad(scope, old(FileAt(path)), load, history)
      ensures files - {path} == old(files) - {path}
      ensures old(Coherent()) ==> (Coherent() <==> Known(path) == LoadAt(FileAt(path)))
    {
      var entries := AppendNews(path, scope, load, history);
      Remember(path, Load(entries, 0));
    }

    /** The rewrite path. */
    method RewriteCheckpoint(path: Path, scope: Scope, ghost load: Load, history: seq<Message>)
      requires Valid() && !(path in files && Extends(load, history))
      modifies this
      ensures Valid()
      ensures FileAt(path) == Some(SyncWith(scope, old(FileAt(path)), load, history))
      ensures Known(path) == SyncLoad(scope, old(FileAt(path)), load, history)
      ensures files - {path} == old(files) - {path}
      ensures old(Coherent()) ==> (Coherent() <==> Known(path) == LoadAt(FileAt(path)))
    {
      RewriteHistory(path, scope, history);
    }

    method SyncHistoryCheckpoint(path: Path, scope: Scope, history: seq<Message>)
      requires Valid()
      modifies this
      ensures Valid()
      ensures FileAt(path) == Some(SyncWith(scope, old(FileAt(path)), old(Known(path)), history))
      ensures Known(path) == SyncLoad(scope, old(FileAt(path)), old(Known(path)), history)
      ensures files - {path} == old(files) - {path}
      ensures old(Coherent()) ==> FileAt(path) == Some(Sync(scope, old(FileAt(path)), history))
      ensures old(Coherent()) ==> (Coherent() <==> !Merges(old(FileAt(path)), history))
    {
      ghost var known := Known(path);
      assert Coherent() ==> CoherentAt(path);
      SyncCoherence(scope, FileAt(path), history);
      var appends := false;
      var load := Load([], 0);
      if path in files {
        load := LoadCached(path);
        appends := ExtendsHistory(load, history);
      }
      if appends {
        AppendCheckpoint(path, scope, load, history);
      } else {
        RewriteCheckpoint(path, scope, known, history);
      }
    }
  }
}
