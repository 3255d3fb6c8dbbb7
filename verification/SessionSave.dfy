/**
 Saving and recovering a session in `src/session.rs`: the transcript is brought up to date
 first, the snapshot second, and recovery decides which of the two to believe.
 */
module SessionSave {
  import opened Prelude
  import opened Transcript
  import opened TranscriptRuns

  function Kept(m: Message): seq<Message> {
    if m.role == "System" then [] else [m]
  }

  /** The snapshot leaves messages of role `System` out. */
  function WithoutSystem(history: seq<Message>): (kept: seq<Message>)
    ensures |kept| <= |history|
  {
    if history == [] then [] else Kept(history[0]) + WithoutSystem(history[1..])
  }

  lemma Regroup(a: seq<Message>, b: seq<Message>, c: seq<Message>)
    ensures a + (b + c) == a + b + c
  {
  }

  /** Every message is kept or left out by itself, so the kept ones stay in their order. */
  lemma {:induction false} WithoutSystemConcat(a: seq<Message>, b: seq<Message>)
    ensures WithoutSystem(a + b) == WithoutSystem(a) + WithoutSystem(b)
  {
    if a == [] {
      assert a + b == b;
    } else {
      var all, rest := a + b, a[1..];
      WithoutSystemConcat(rest, b);
      assert all[0] == a[0] && all[1..] == rest + b;
      Regroup(Kept(a[0]), WithoutSystem(rest), WithoutSystem(b));
    }
  }

  lemma CountFirst(history: seq<Message>, m: Message)
    requires history != []
    ensures multiset(history)[m] == multiset(history[1..])[m] + if m == history[0] then 1 else 0
  {
    assert history == [history[0]] + history[1..];
  }

  /** Exactly the other messages are kept, each as often as it occurs. */
  lemma {:induction false} WithoutSystemKeepsOthers(history: seq<Message>, m: Message)
    ensures multiset(WithoutSystem(history))[m] == if m.role == "System" then 0 else multiset(history)[m]
  {
    if history != [] {
      WithoutSystemKeepsOthers(history[1..], m);
      CountFirst(history, m);
    }
  }

  /** A stored history, or a file that does not parse as one. */
  datatype Saved = Whole(history: seq<Message>) | Corrupt

  /** The durable state of one session. */
  datatype Disk = Disk(transcript: Option<File>, snapshot: Option<Saved>, legacy: Option<Saved>)

  /**
   A session as a running process has it: what lies on disk, and what the transcript cache of the
   process says the transcript holds.
   */
  datatype Live = Live(disk: Disk, known: Load)

  /** A process that starts, or whose cache evicts the transcript, will read the file again. */
  function Fresh(d: Disk): Live {
    Live(d, LoadAt(d.transcript))
  }

  /** Lines of the file are whole but not all of them parse. */
  predicate Damaged(f: File) {
    f.tail.NoTail? && LoadOf(f).parseErrors > 0
  }

  /** The cache knows the file, unless the file is damaged: then it may know what was lost. */
  predicate CacheSound(l: Live) {
    l.known == LoadAt(l.disk.transcript) || (l.disk.transcript.Some? && Damaged(l.disk.transcript.value))
  }

  datatype Source = FromTranscript | FromSnapshot | FromLegacy

  datatype Recovery = NotFound | Failed | Recovered(history: seq<Message>, source: Source)

  // ---------- Recovery ----------

  /** What recovery learns about a transcript; reading the file may fail. */
  datatype Seen = Absent | Unreadable | Seen(visible: seq<Message>, parseErrors: nat)

  function SeenIn(transcript: Option<File>, readable: bool): Seen {
    if transcript.None? then Absent
    else if !readable then Unreadable
    else Seen(VisibleHistory(transcript.value), LoadOf(transcript.value).parseErrors)
  }

  predicate ShorterThanSnapshot(snapshot: Option<Saved>, visible: seq<Message>) {
    && snapshot.Some?
    && snapshot.value.Whole?
    && |visible| < |snapshot.value.history|
    && visible <= snapshot.value.history
  }

  predicate HasFallback(snapshot: Option<Saved>, legacy: Option<Saved>) {
    snapshot.Some? || legacy.Some?
  }

  predicate Trusted(seen: Seen, snapshot: Option<Saved>, legacy: Option<Saved>) {
    && seen.Seen?
    && var fallback := HasFallback(snapshot, legacy);
       && !(fallback && (seen.visible == [] || seen.parseErrors > 0 || ShorterThanSnapshot(snapshot, seen.visible)))
       && (seen.parseErrors == 0 || !fallback)
  }

  function FromSaved(saved: Saved, source: Source): Recovery {
    if saved.Whole? then Recovered(saved.history, source) else Failed
  }

  function Fallback(snapshot: Option<Saved>, legacy: Option<Saved>): Recovery {
    if snapshot.Some? then FromSaved(snapshot.value, FromSnapshot)
    else if legacy.Some? then FromSaved(legacy.value, FromLegacy)
    else NotFound
  }

  function Decide(seen: Seen, snapshot: Option<Saved>, legacy: Option<Saved>): Recovery {
    if seen.Unreadable? && !HasFallback(snapshot, legacy) then Failed
    else if Trusted(seen, snapshot, legacy) then Recovered(seen.visible, FromTranscript)
    else Fallback(snapshot, legacy)
  }

  function Recover(d: Disk, readable: bool): Recovery {
    Decide(SeenIn(d.transcript, readable), d.snapshot, d.legacy)
  }

  /** A fallback is written back; mirroring it into the transcript may fail unnoticed. */
  function AfterFallback(l: Live, scope: Scope, mirrored: bool): Live {
    var d := l.disk;
    match Fallback(d.snapshot, d.legacy)
    case Recovered(history, source) =>
      if d.snapshot.None? && history == [] then l
      else
        var restored := d.(snapshot := if d.snapshot.Some? then d.snapshot else d.legacy);
        if mirrored then Fresh(restored.(transcript := Some(Rewritten(scope, history)))) else l.(disk := restored)
    case _ => l
  }

  function AfterRecovery(l: Live, scope: Scope, readable: bool, mirrored: bool): Live {
    if Trusted(SeenIn(l.disk.transcript, readable), l.disk.snapshot, l.disk.legacy) then l
    else AfterFallback(l, scope, mirrored)
  }

  // ---------- Saving, cut anywhere ----------

  /** How far a save came: into its appended lines, past the transcript, or to its end. */
  datatype Cut = Appending(lines: nat, tail: Tail) | TranscriptWritten | SnapshotWritten

  /** The lines a save appends one by one; a rewrite replaces the file in one step. */
  function Pending(scope: Scope, l: Live, history: seq<Message>): seq<Entry> {
    if l.disk.transcript.Some? && Extends(l.known, history) then News(scope, l.known, history) else []
  }

  predicate PossibleTail(news: seq<Entry>, lines: nat, tail: Tail) {
    && lines <= |news|
    && (tail.NoTail? || (lines < |news| && (tail.TornTail? || tail == WholeTail(news[lines]))))
  }

  predicate Possible(scope: Scope, l: Live, history: seq<Message>, cut: Cut) {
    cut.Appending? ==> PossibleTail(Pending(scope, l, history), cut.lines, cut.tail)
  }

  /** A part of a line continues whatever followed the last newline. */
  function Continued(before: Tail, part: Tail): Tail {
    if part.NoTail? then before
    else if before.NoTail? || before.BlankTail? then part
    else TornTail
  }

  function CutFile(f: File, news: seq<Entry>, lines: nat, tail: Tail): File
    requires lines <= |news|
  {
    var g := AppendAll(f, news[..lines]);
    g.(tail := Continued(g.tail, tail))
  }

  /** The disk after the checkpoint, and what the cache then says. */
  function Written(scope: Scope, l: Live, history: seq<Message>): Live {
    Live(l.disk.(transcript := Some(SyncWith(scope, l.disk.transcript, l.known, history))),
         SyncLoad(scope, l.disk.transcript, l.known, history))
  }

  /**
   A save that ends early. Once a part of a line has been appended, the file no longer has the
   stamp of the cache entry, or the entry is gone. The process may live on.
   */
  function CutSave(scope: Scope, l: Live, history: seq<Message>, cut: Cut): Live
    requires Possible(scope, l, history, cut)
  {
    match cut
    case Appending(lines, tail) =>
      if l.disk.transcript.None? || (lines == 0 && tail.NoTail?) then l
      else
        var f := CutFile(l.disk.transcript.value, Pending(scope, l, history), lines, tail);
        Fresh(l.disk.(transcript := Some(f)))
    case TranscriptWritten => Written(scope, l, history)
    case SnapshotWritten =>
      var w := Written(scope, l, history);
      w.(disk := w.disk.(snapshot := Some(Whole(WithoutSystem(history)))))
  }

  /** All lines are whole and the transcript shows exactly `history`. */
  predicate Holds(f: File, history: seq<Message>) {
    f.tail.NoTail? && LoadOf(f).parseErrors == 0 && VisibleHistory(f) == history
  }

  /** What a completed save leaves. */
  predicate Consistent(d: Disk, history: seq<Message>) {
    && d.transcript.Some?
    && Holds(d.transcript.value, history)
    && d.snapshot == Some(Whole(WithoutSystem(history)))
  }

  // ---------- What a cut file shows ----------

  lemma VisiblePart(entries: seq<Entry>, news: seq<Entry>, n: nat)
    requires n <= |news|
    ensures Visible(entries) <= Visible(entries + news[..n]) <= Visible(entries + news)
  {
    VisibleConcat(entries, news[..n]);
    VisibleConcat(entries + news[..n], news[n..]);
    assert entries + news == entries + news[..n] + news[n..];
  }

  /** How many of the news a cut file holds; a whole entry counts without its newline. */
  function Arrived(lines: nat, tail: Tail): nat {
    if tail.WholeTail? then lines + 1 else lines
  }

  lemma RetailLoad(f: File, tail: Tail)
    requires (f.tail.NoTail? || f.tail.BlankTail?) && LoadOf(f).parseErrors == 0 && !tail.BlankTail?
    ensures var load := LoadOf(f.(tail := Continued(f.tail, tail)));
            && load.entries == LoadOf(f).entries + (if tail.WholeTail? then [tail.entry] else [])
            && (load.parseErrors == 0 <==> !tail.TornTail?)
  {
    LinesSplit(f);
    LinesSplit(f.(tail := Continued(f.tail, tail)));
  }

  lemma OpenAfter(f: File, entries: seq<Entry>)
    requires f.tail.NoTail? || f.tail.BlankTail?
    ensures AppendAll(f, entries).tail.NoTail? || AppendAll(f, entries).tail.BlankTail?
  {
  }

  lemma ArrivedEntries(before: seq<Entry>, news: seq<Entry>, lines: nat, tail: Tail)
    requires PossibleTail(news, lines, tail)
    ensures Arrived(lines, tail) <= |news|
    ensures before + news[..lines] + (if tail.WholeTail? then [tail.entry] else [])
            == before + news[..Arrived(lines, tail)]
  {
  }

  /** Cut while lines are appended, a file holds a part of the news, and perhaps a torn line. */
  lemma CutFileLoad(f: File, news: seq<Entry>, lines: nat, tail: Tail)
    requires (f.tail.NoTail? || f.tail.BlankTail?) && LoadOf(f).parseErrors == 0
    requires PossibleTail(news, lines, tail)
    ensures Arrived(lines, tail) <= |news|
    ensures var load := LoadOf(CutFile(f, news, lines, tail));
            && (load.parseErrors == 0 <==> !tail.TornTail?)
            && load.entries == LoadOf(f).entries + news[..Arrived(lines, tail)]
  {
    LoadAppended(f, news[..lines]);
    OpenAfter(f, news[..lines]);
    RetailLoad(AppendAll(f, news[..lines]), tail);
    ArrivedEntries(LoadOf(f).entries, news, lines, tail);
  }

  /** Whatever is appended behind an unterminated entry, even in part, does not parse. */
  lemma CutBehindEntry(f: File, news: seq<Entry>, lines: nat, tail: Tail)
    requires f.tail.WholeTail? && PossibleTail(news, lines, tail) && !(lines == 0 && tail.NoTail?)
    ensures LoadOf(CutFile(f, news, lines, tail)).parseErrors > 0
  {
    var g := AppendAll(f, news[..lines]);
    LinesSplit(CutFile(f, news, lines, tail));
    if lines > 0 {
      LoadMerged(f, news[..lines]);
      AppendAllLines(f, news[..lines]);
      LinesSplit(g);
    }
  }

  /** Between the old and the new history, when the new one extends the old one. */
  predicate Between(h: seq<Message>, old_: seq<Message>, new_: seq<Message>) {
    old_ <= h <= new_
  }

  lemma CutTranscript(scope: Scope, f: File, history: seq<Message>, lines: nat, tail: Tail)
    requires !scope.isSidechain && (f.tail.NoTail? || f.tail.BlankTail?) && Extends(LoadOf(f), history)
    requires PossibleTail(News(scope, LoadOf(f), history), lines, tail)
    ensures var load := LoadOf(CutFile(f, News(scope, LoadOf(f), history), lines, tail));
            Between(Visible(load.entries), VisibleHistory(f), history)
  {
    var news := News(scope, LoadOf(f), history);
    CutFileLoad(f, news, lines, tail);
    VisibleWithNews(scope, LoadOf(f), history);
    VisiblePart(LoadOf(f).entries, news, Arrived(lines, tail));
  }

  /** A file cut anywhere shows a part of the new history, or does not parse and is not believed. */
  lemma CutAnywhere(scope: Scope, f: File, history: seq<Message>, lines: nat, tail: Tail)
    requires !scope.isSidechain && Extends(LoadOf(f), history)
    requires PossibleTail(News(scope, LoadOf(f), history), lines, tail)
    ensures var load := LoadOf(CutFile(f, News(scope, LoadOf(f), history), lines, tail));
            load.parseErrors > 0 || Between(Visible(load.entries), VisibleHistory(f), history)
  {
    LinesSplit(f);
    if lines == 0 && tail.NoTail? {
      assert CutFile(f, News(scope, LoadOf(f), history), lines, tail) == f;
    } else if f.tail.WholeTail? {
      CutBehindEntry(f, News(scope, LoadOf(f), history), lines, tail);
    } else {
      CutTranscript(scope, f, history, lines, tail);
    }
  }

  /** What is appended to a damaged file arrives, and the file stays damaged. */
  lemma AppendToDamaged(f: File, entries: seq<Entry>)
    requires Damaged(f)
    ensures Damaged(AppendAll(f, entries))
    ensures LoadOf(AppendAll(f, entries)).entries == LoadOf(f).entries + entries
  {
    if entries == [] {
      assert LoadOf(f).entries + entries == LoadOf(f).entries;
    } else {
      LinesSplit(f);
      AppendAllTerminated(f, entries);
      LoadOfLines(f.lines, entries);
    }
  }

  lemma DamagedRetail(f: File, tail: Tail)
    requires Damaged(f) && !tail.BlankTail?
    ensures var load := LoadOf(f.(tail := Continued(f.tail, tail)));
            && load.parseErrors > 0
            && load.entries == LoadOf(f).entries + if tail.WholeTail? then [tail.entry] else []
  {
    LinesSplit(f);
    LinesSplit(f.(tail := Continued(f.tail, tail)));
  }

  lemma DamagedCut(f: File, news: seq<Entry>, lines: nat, tail: Tail)
    requires Damaged(f) && PossibleTail(news, lines, tail)
    ensures Arrived(lines, tail) <= |news|
    ensures var load := LoadOf(CutFile(f, news, lines, tail));
            && load.parseErrors > 0
            && load.entries == LoadOf(f).entries + news[..Arrived(lines, tail)]
  {
    AppendToDamaged(f, news[..lines]);
    DamagedRetail(AppendAll(f, news[..lines]), tail);
    ArrivedEntries(LoadOf(f).entries, news, lines, tail);
  }

  lemma NothingCut(scope: Scope, l: Live, history: seq<Message>, cut: Cut)
    requires cut.Appending? && Possible(scope, l, history, cut) && Pending(scope, l, history) == []
    ensures CutSave(scope, l, history, cut) == l
  {
  }

  /**
   The checkpoint is about to append behind an unterminated entry, or to go on appending, on
   behalf of the cache, to a file that is damaged already.
   */
  predicate Loses(l: Live, history: seq<Message>) {
    || Merges(l.disk.transcript, history)
    || (&& l.disk.transcript.Some?
        && LoadOf(l.disk.transcript.value).parseErrors > 0
        && Extends(l.known, history))
  }

  lemma WrittenCoherent(scope: Scope, d: Disk, history: seq<Message>)
    requires !scope.isSidechain
    ensures var w := Written(scope, Fresh(d), history);
            if Merges(d.transcript, history) then Damaged(w.disk.transcript.value)
            else w == Fresh(w.disk) && SeenIn(w.disk.transcript, true) == Seen(history, 0)
  {
    CheckpointRefinesRewrite(scope, d.transcript, history);
    SyncCoherence(scope, d.transcript, history);
    if Merges(d.transcript, history) {
      MergedVisible(scope, d.transcript.value, history);
    }
  }

  lemma LosesCoherent(d: Disk, history: seq<Message>)
    ensures Loses(Fresh(d), history) <==> Merges(d.transcript, history)
  {
  }

  /** What the checkpoint of a save leaves in the transcript and in the cache. */
  lemma WrittenSeen(scope: Scope, l: Live, history: seq<Message>)
    requires !scope.isSidechain && CacheSound(l)
    ensures var w := Written(scope, l, history);
            if Loses(l, history) then Damaged(w.disk.transcript.value)
            else w == Fresh(w.disk) && SeenIn(w.disk.transcript, true) == Seen(history, 0)
  {
    if l.known == LoadAt(l.disk.transcript) {
      assert l == Fresh(l.disk);
      WrittenCoherent(scope, l.disk, history);
      LosesCoherent(l.disk, history);
    } else if Extends(l.known, history) {
      AppendToDamaged(l.disk.transcript.value, News(scope, l.known, history));
    } else {
      RewrittenLoad(scope, history);
    }
  }

  // ---------- One save ----------

  /** What any cut leaves in the transcript of a session whose lines are whole. */
  lemma CutSeen(scope: Scope, l: Live, saved: seq<Message>, history: seq<Message>, cut: Cut)
    requires !scope.isSidechain && Possible(scope, l, history, cut) && CacheSound(l)
    requires l.disk.transcript.Some? && Holds(l.disk.transcript.value, saved)
    ensures var seen := SeenIn(CutSave(scope, l, history, cut).disk.transcript, true);
            seen.Seen? && (seen.visible == saved || seen.visible == history || Between(seen.visible, saved, history))
    ensures !cut.Appending? ==> SeenIn(CutSave(scope, l, history, cut).disk.transcript, true) == Seen(history, 0)
  {
    if !cut.Appending? {
      WrittenSeen(scope, l, history);
    } else if Extends(l.known, history) {
      CutTranscript(scope, l.disk.transcript.value, history, cut.lines, cut.tail);
    } else {
      NothingCut(scope, l, history, cut);
    }
  }

  /** One of the histories a cut save may recover to. */
  predicate Acceptable(h: seq<Message>, saved: seq<Message>, history: seq<Message>) {
    h == saved || h == WithoutSystem(saved) || h == history || Between(h, saved, history)
  }

  lemma DecideAcceptable(seen: Seen, legacy: Option<Saved>, saved: seq<Message>, history: seq<Message>)
    requires seen.Seen? && (seen.visible == saved || seen.visible == history || Between(seen.visible, saved, history))
    ensures var r := Decide(seen, Some(Whole(WithoutSystem(saved))), legacy);
            r.Recovered? && Acceptable(r.history, saved, history)
  {
  }

  lemma DecideFirst(seen: Seen, legacy: Option<Saved>, history: seq<Message>)
    requires seen.Absent? || (seen.Seen? && seen.visible <= history)
    ensures match Decide(seen, None, legacy)
            case NotFound => seen.Absent? && legacy.None?
            case Failed => legacy == Some(Corrupt)
            case Recovered(h, _) => h <= history || legacy == Some(Whole(h))
  {
  }

  lemma DecideFresh(history: seq<Message>, legacy: Option<Saved>)
    ensures var r := Decide(Seen(history, 0), Some(Whole(WithoutSystem(history))), legacy);
            r.Recovered? && r.history == history
  {
  }

  lemma DecideUntrusted(seen: Seen, history: seq<Message>, legacy: Option<Saved>)
    requires seen.Unreadable? || (seen.Seen? && seen.parseErrors > 0)
    ensures Decide(seen, Some(Whole(history)), legacy) == Recovered(history, FromSnapshot)
  {
  }

  /**
   Cut a save at any point, between two lines, inside a line, after the transcript or before
   the snapshot: recovery yields the old history, the old snapshot, the new history, or a part
   of the new history that loses nothing of the old one.
   */
  lemma CrashSafeSave(scope: Scope, l: Live, saved: seq<Message>, history: seq<Message>, cut: Cut)
    requires !scope.isSidechain && CacheSound(l) && Consistent(l.disk, saved) && Possible(scope, l, history, cut)
    ensures var r := Recover(CutSave(scope, l, history, cut).disk, true);
            r.Recovered? && Acceptable(r.history, saved, history)
    ensures cut.SnapshotWritten? ==> Recover(CutSave(scope, l, history, cut).disk, true).history == history
  {
    CutSeen(scope, l, saved, history, cut);
    var after := CutSave(scope, l, history, cut).disk;
    if cut.SnapshotWritten? {
      DecideFresh(history, after.legacy);
    } else {
      DecideAcceptable(SeenIn(after.transcript, true), after.legacy, saved, history);
    }
  }

  /**
   The first save of a session: nothing, what the legacy history recovers to, or a part of the
   new one. Spawn events may have been recorded before it.
   */
  lemma CrashSafeFirstSave(scope: Scope, l: Live, history: seq<Message>, cut: Cut)
    requires !scope.isSidechain && CacheSound(l) && l.disk.snapshot.None?
    requires l.disk.transcript.Some? ==> Holds(l.disk.transcript.value, [])
    requires Possible(scope, l, history, cut)
    ensures match Recover(CutSave(scope, l, history, cut).disk, true)
            case NotFound => l.disk.transcript.None? && l.disk.legacy.None? && cut.Appending?
            case Failed => l.disk.legacy == Some(Corrupt)
            case Recovered(h, _) => h <= history || l.disk.legacy == Some(Whole(h))
  {
    var after := CutSave(scope, l, history, cut).disk;
    if l.disk.transcript.Some? {
      CutSeen(scope, l, [], history, cut);
    } else if cut.Appending? {
      NothingCut(scope, l, history, cut);
    } else {
      WrittenSeen(scope, l, history);
    }
    if !cut.SnapshotWritten? {
      DecideFirst(SeenIn(after.transcript, true), after.legacy, history);
    } else {
      DecideFresh(history, after.legacy);
    }
  }

  /**
   A completed save is what recovery finds, whatever the state it started from and whatever the
   process had cached; only the messages of role `System` can be missing, exactly when the
   checkpoint lost something or the transcript cannot be read.
   */
  lemma CompletedSaveIsRecovered(scope: Scope, l: Live, history: seq<Message>, readable: bool)
    requires !scope.isSidechain && CacheSound(l)
    ensures var r := Recover(CutSave(scope, l, history, SnapshotWritten).disk, readable);
            && r.Recovered?
            && r.history == (if Loses(l, history) || !readable then WithoutSystem(history) else history)
  {
    var after := CutSave(scope, l, history, SnapshotWritten).disk;
    WrittenSeen(scope, l, history);
    if Loses(l, history) || !readable {
      DecideUntrusted(SeenIn(after.transcript, readable), WithoutSystem(history), after.legacy);
    } else {
      DecideFresh(history, after.legacy);
    }
  }

  /** After a merge, the next save of the same process goes on losing, although no entry is unterminated. */
  lemma NextSaveLosesToo(scope: Scope, d: Disk, first: seq<Message>, second: seq<Message>)
    requires !scope.isSidechain && first <= second
    ensures var l := CutSave(scope, Fresh(d), first, SnapshotWritten);
            Merges(d.transcript, first) ==>
              && CacheSound(l) && !Merges(l.disk.transcript, second) && Loses(l, second)
              && Recover(CutSave(scope, l, second, SnapshotWritten).disk, true).Recovered?
              && Recover(CutSave(scope, l, second, SnapshotWritten).disk, true).history == WithoutSystem(second)
  {
    if Merges(d.transcript, first) {
      var l := CutSave(scope, Fresh(d), first, SnapshotWritten);
      WrittenCoherent(scope, d, first);
      VisibleWithNews(scope, LoadAt(d.transcript), first);
      assert Extends(l.known, second);
      CompletedSaveIsRecovered(scope, l, second, true);
    }
  }

  /** Of a rewritten transcript and its snapshot, recovery finds the history they share. */
  lemma DecideMirrored(history: seq<Message>, legacy: Option<Saved>)
    ensures var r := Decide(Seen(history, 0), Some(Whole(history)), legacy);
            r.Recovered? && r.history == history
  {
  }

  /** The recorder of a thread stores the whole history in the snapshot, and then nothing is missing. */
  lemma RecordedSaveIsRecovered(scope: Scope, l: Live, history: seq<Message>, readable: bool)
    requires !scope.isSidechain && CacheSound(l)
    ensures var saved := Written(scope, l, history).disk.(snapshot := Some(Whole(history)));
            Recover(saved, readable).Recovered? && Recover(saved, readable).history == history
  {
    var after := Written(scope, l, history).disk;
    WrittenSeen(scope, l, history);
    if Loses(l, history) || !readable {
      DecideUntrusted(SeenIn(after.transcript, readable), history, after.legacy);
    } else {
      DecideMirrored(history, after.legacy);
    }
  }

  lemma RewrittenSeen(scope: Scope, history: seq<Message>)
    requires !scope.isSidechain
    ensures SeenIn(Some(Rewritten(scope, history)), true) == Seen(history, 0)
  {
    RewrittenLoad(scope, history);
  }

  lemma FallbackStays(seen: Seen, snapshot: Option<Saved>, legacy: Option<Saved>)
    requires !Trusted(seen, snapshot, legacy) && Fallback(snapshot, legacy).Recovered?
    ensures var r := Decide(seen, if snapshot.Some? then snapshot else legacy, legacy);
            r.Recovered? && r.history == Fallback(snapshot, legacy).history
  {
  }

  /** What recovery writes back makes the next recovery find the same history. */
  lemma RecoveryIsIdempotent(scope: Scope, l: Live, readable: bool, mirrored: bool)
    requires !scope.isSidechain && Recover(l.disk, readable).Recovered?
    ensures var again := Recover(AfterRecovery(l, scope, readable, mirrored).disk, readable);
            again.Recovered? && again.history == Recover(l.disk, readable).history
  {
    var d := l.disk;
    if !Trusted(SeenIn(d.transcript, readable), d.snapshot, d.legacy) {
      var after := AfterFallback(l, scope, mirrored).disk;
      var history := Fallback(d.snapshot, d.legacy).history;
      if d.snapshot.None? && history == [] {
        assert after == d;
      } else if !mirrored {
        FallbackStays(SeenIn(d.transcript, readable), d.snapshot, d.legacy);
      } else if readable {
        RewrittenSeen(scope, history);
        DecideMirrored(history, after.legacy);
      } else {
        DecideUntrusted(Unreadable, history, after.legacy);
      }
    }
  }

  // ---------- The session manager ----------

  function TranscriptPath(session: string): Path {
    session + "/transcript.jsonl"
  }

  class SessionManager {
    const transcripts: TranscriptStore
    var snapshots: map<string, Saved>
    var legacy: map<string, Saved>

    /** A process starts with the files as they are. */
    constructor (transcripts: TranscriptStore, snapshots: map<string, Saved>, legacy: map<string, Saved>)
      ensures this.transcripts == transcripts && this.snapshots == snapshots && this.legacy == legacy
    {
      this.transcripts, this.snapshots, this.legacy := transcripts, snapshots, legacy;
    }

    ghost function DiskOf(session: string): Disk
      reads this, transcripts`files
    {
      Disk(transcripts.FileAt(TranscriptPath(session)),
           if session in snapshots then Some(snapshots[session]) else None,
           if session in legacy then Some(legacy[session]) else None)
    }

    /** The session as this process has it. */
    ghost function LiveOf(session: string): Live
      reads this, transcripts
    {
      Live(DiskOf(session), transcripts.Known(TranscriptPath(session)))
    }

    method SaveHistorySnapshot(session: string, history: seq<Message>)
      modifies `snapshots
      ensures snapshots == old(snapshots)[session := Whole(WithoutSystem(history))]
    {
      var filtered := [];
      for i := |history| downto 0
        invariant filtered == WithoutSystem(history[i..])
      {
        assert history[i..][1..] == history[i + 1..];
        filtered := Kept(history[i]) + filtered;
      }
      snapshots := snapshots[session := Whole(filtered)];
    }

    method SaveSession(session: string, history: seq<Message>)
      requires transcripts.Valid()
      modifies this, transcripts
      ensures transcripts.Valid()
      ensures LiveOf(session) == CutSave(MainScope(session), old(LiveOf(session)), history, SnapshotWritten)
      ensures old(transcripts.Coherent()) ==>
                (transcripts.Coherent() <==> !Merges(old(DiskOf(session)).transcript, history))
      ensures snapshots - {session} == old(snapshots) - {session} && legacy == old(legacy)
      ensures transcripts.files - {TranscriptPath(session)} == old(transcripts.files) - {TranscriptPath(session)}
    {
      transcripts.SyncHistoryCheckpoint(TranscriptPath(session), MainScope(session), history);
      SaveHistorySnapshot(session, history);
    }

    /** Whether the transcript of a session is believed over its fallbacks. */
    method Believes(session: string, load: Load) returns (trusted: bool)
      ensures trusted == Trusted(Seen(Visible(load.entries), load.parseErrors),
                                 DiskOf(session).snapshot, DiskOf(session).legacy)
    {
      var history := Visible(load.entries);
      var fallback := session in snapshots || session in legacy;
      var shorter := false;
      if session in snapshots && snapshots[session].Whole? {
        var snapshot := snapshots[session].history;
        shorter := |history| < |snapshot| && history <= snapshot;
      }
      trusted := !(fallback && (history == [] || load.parseErrors > 0 || shorter))
                 && (load.parseErrors == 0 || !fallback);
    }

    method FallBack(session: string, mirrored: bool) returns (r: Recovery)
      requires transcripts.Valid()
      modifies this, transcripts
      ensures transcripts.Valid()
      ensures r == old(Fallback(DiskOf(session).snapshot, DiskOf(session).legacy))
      ensures LiveOf(session) == old(AfterFallback(LiveOf(session), MainScope(session), mirrored))
    {
      if session in snapshots {
        if snapshots[session].Corrupt? {
          return Failed;
        }
        r := Recovered(snapshots[session].history, FromSnapshot);
      } else if session in legacy {
        if legacy[session].Corrupt? {
          return Failed;
        }
        r := Recovered(legacy[session].history, FromLegacy);
        if legacy[session].history == [] {
          return;
        }
        snapshots := snapshots[session := legacy[session]];
      } else {
        return NotFound;
      }
      if mirrored {
        transcripts.RewriteHistory(TranscriptPath(session), MainScope(session), r.history);
      }
    }

    /** `readable` and `mirrored`: whether reading and writing back the transcript succeed. */
    method LoadThreadHistoryMigration(session: string, readable: bool, mirrored: bool) returns (r: Recovery)
      requires transcripts.Valid()
      modifies this, transcripts
      ensures transcripts.Valid()
      ensures r == old(Recover(DiskOf(session), readable))
      ensures LiveOf(session) == old(AfterRecovery(LiveOf(session), MainScope(session), readable, mirrored))
    {
      if TranscriptPath(session) in transcripts.files {
        if readable {
          var load := LoadTranscript(transcripts.files[TranscriptPath(session)].file);
          var trusted := Believes(session, load);
          if trusted {
            return Recovered(Visible(load.entries), FromTranscript);
          }
        } else if session !in snapshots && session !in legacy {
          return Failed;
        }
      }
      r := FallBack(session, mirrored);
    }
  }
}
