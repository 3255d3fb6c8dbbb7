/**
 What checkpoints leave in a transcript: the fast append agrees with a plain rewrite, over any
 prior file and over whole runs.
 */
module TranscriptRuns {
  import opened Prelude
  import opened Transcript

  lemma {:induction false} VisibleConcat(a: seq<Entry>, b: seq<Entry>)
    ensures Visible(a + b) == Visible(a) + Visible(b)
  {
    if b == [] {
      assert a + b == a;
    } else {
      VisibleConcat(a, b[..|b| - 1]);
      assert (a + b)[..|a + b| - 1] == a + b[..|b| - 1];
    }
  }

  lemma {:induction false} VisibleIsShorter(entries: seq<Entry>)
    ensures |Visible(entries)| <= |entries|
  {
    if entries != [] {
      VisibleIsShorter(entries[..|entries| - 1]);
    }
  }

  lemma {:induction false} EntriesFromLength(scope: Scope, history: seq<Message>, start: nat)
    requires start <= |history|
    ensures |EntriesFrom(scope, history, start)| == |history| - start
  {
    if start < |history| {
      EntriesFromLength(scope, history[..|history| - 1], start);
    }
  }

  lemma {:induction false} VisibleOfHistory(scope: Scope, history: seq<Message>, start: nat)
    requires start <= |history| && !scope.isSidechain
    ensures Visible(EntriesFrom(scope, history, start)) == history[start..]
    decreases |history|
  {
    var n := |history|;
    if start < n {
      var before := EntriesFrom(scope, history[..n - 1], start);
      VisibleOfHistory(scope, history[..n - 1], start);
      assert (before + [EntryOf(scope, n - 1, history[n - 1])])[..|before|] == before;
    }
  }

  lemma VisibleOfHeader(scope: Scope, load: Load)
    ensures Visible(Header(scope, load)) == []
  {
  }

  lemma VisibleWithNews(scope: Scope, load: Load, history: seq<Message>)
    requires Visible(load.entries) <= history && !scope.isSidechain
    ensures Visible(load.entries + News(scope, load, history)) == history
  {
    var later := EntriesFrom(scope, history, |Visible(load.entries)|);
    VisibleOfHeader(scope, load);
    VisibleOfHistory(scope, history, |Visible(load.entries)|);
    VisibleConcat(Header(scope, load), later);
    VisibleConcat(load.entries, News(scope, load, history));
  }

  lemma RewrittenLoad(scope: Scope, history: seq<Message>)
    requires !scope.isSidechain
    ensures LoadOf(Rewritten(scope, history)) == Load(EntriesForMessages(scope, history), 0)
    ensures VisibleHistory(Rewritten(scope, history)) == history
  {
    LoadOfWrapped(EntriesForMessages(scope, history));
    VisibleOfHeader(scope, Load([], 0));
    VisibleOfHistory(scope, history, 0);
    VisibleConcat([MetaEntry(scope)], EntriesFrom(scope, history, 0));
  }

  /** A merge swallows the unterminated entry and the one appended behind it. */
  lemma MergedVisible(scope: Scope, f: File, history: seq<Message>)
    requires !scope.isSidechain && Merges(Some(f), history)
    ensures LoadOf(Sync(scope, Some(f), history)).parseErrors > 0
    ensures |VisibleHistory(Sync(scope, Some(f), history))| < |history|
    ensures Sync(scope, Some(f), history).tail.NoTail?
  {
    var load := LoadOf(f);
    var news := News(scope, load, history);
    LinesSplit(f);
    VisibleConcat(Entries(f.lines), [f.tail.entry]);
    assert |Visible(load.entries)| < |history|;
    EntriesFromLength(scope, history, |Visible(load.entries)|);
    LoadMerged(f, news);
    VisibleIsShorter(news[1..]);
    VisibleConcat(Entries(f.lines), news[1..]);
  }

  /**
   Whatever the transcript was before, malformed lines, spawn events, sidechain entries and a
   torn last line included, a checkpoint leaves a file whose visible messages are the history,
   as a rewrite would; the one exception is an append behind an unterminated whole entry.
   */
  lemma CheckpointRefinesRewrite(scope: Scope, f: Option<File>, history: seq<Message>)
    requires !scope.isSidechain
    ensures VisibleHistory(Rewritten(scope, history)) == history
    ensures VisibleHistory(Sync(scope, f, history)) == history <==> !Merges(f, history)
    ensures LoadOf(Sync(scope, f, history)).parseErrors == 0 <==> !Merges(f, history)
  {
    RewrittenLoad(scope, history);
    if f.Some? && Extends(LoadOf(f.value), history) {
      if Merges(f, history) {
        MergedVisible(scope, f.value, history);
      } else {
        AppendedLoad(scope, f.value, history);
        VisibleWithNews(scope, LoadOf(f.value), history);
      }
    }
  }

  /** Of a single entry exactly a main-chain message is visible; a sidechain message is not. */
  lemma VisibleIff(e: Entry)
    ensures Visible([e]) == match e
                            case MessageEntry(_, _, _, _, isSidechain, message) =>
                              if isSidechain then [] else [message]
                            case SessionMeta(_, _) => []
                            case SpawnAgent(_, _, _, _) => []
  {
    assert [e][..0] == [];
  }

  lemma VisibleOne(e: Entry)
    requires e.MessageEntry? && !e.isSidechain
    ensures Visible([e]) == [e.message]
  {
    VisibleIff(e);
  }

  lemma LastEntry(lines: seq<Line>, e: Entry)
    requires lines != []
    ensures multiset(lines)[Parsed(e)]
            == multiset(lines[..|lines| - 1])[Parsed(e)] + if lines[|lines| - 1] == Parsed(e) then 1 else 0
    ensures multiset(Entries(lines))[e]
            == multiset(Entries(lines[..|lines| - 1]))[e] + if lines[|lines| - 1] == Parsed(e) then 1 else 0
  {
    var n := |lines| - 1;
    assert lines == lines[..n] + [lines[n]];
    assert Entries(lines) == Entries(lines[..n]) + if lines[n].Parsed? then [lines[n].entry] else [];
  }

  /** Every line that parses is loaded, as often as it is there. */
  lemma {:induction false} LoadedIff(lines: seq<Line>, e: Entry)
    ensures multiset(Entries(lines))[e] == multiset(lines)[Parsed(e)]
  {
    if lines != [] {
      LoadedIff(lines[..|lines| - 1], e);
      LastEntry(lines, e);
    }
  }

  /** Every line that does not parse is counted, up to what the counter holds. */
  lemma {:induction false} MalformedLinesAreCounted(lines: seq<Line>)
    ensures Errors(lines) == if multiset(lines)[Malformed] <= U64_MAX then multiset(lines)[Malformed] else U64_MAX
  {
    if lines != [] {
      MalformedLinesAreCounted(lines[..|lines| - 1]);
      assert lines == lines[..|lines| - 1] + [lines[|lines| - 1]];
    }
  }

  lemma LoadOfUnterminated(e: Entry)
    requires e.MessageEntry? && !e.isSidechain
    ensures LoadOf(File([], WholeTail(e))) == Load([e], 0)
    ensures VisibleHistory(File([], WholeTail(e))) == [e.message]
  {
    LinesSplit(File([], WholeTail(e)));
    VisibleOne(e);
  }

  /** For instance, a transcript of one message without its newline, and a history of two. */
  lemma UnterminatedEntryIsLost(scope: Scope, a: Message, b: Message)
    requires !scope.isSidechain
    ensures var f := File([], WholeTail(EntryOf(scope, 0, a)));
            Merges(Some(f), [a, b]) && |VisibleHistory(Sync(scope, Some(f), [a, b]))| < 2
  {
    var f := File([], WholeTail(EntryOf(scope, 0, a)));
    LoadOfUnterminated(EntryOf(scope, 0, a));
    assert Merges(Some(f), [a, b]);
    MergedVisible(scope, f, [a, b]);
  }

  /** The next checkpoint that reads the file again repairs what an earlier one merged. */
  lemma RestartHeals(scope: Scope, f: Option<File>, first: seq<Message>, second: seq<Message>)
    requires !scope.isSidechain
    ensures Merges(f, first) ==> Sync(scope, Some(Sync(scope, f, first)), second) == Rewritten(scope, second)
    ensures Merges(f, first) ==> VisibleHistory(Sync(scope, Some(Sync(scope, f, first)), second)) == second
  {
    if Merges(f, first) {
      MergedVisible(scope, f.value, first);
      RewrittenLoad(scope, second);
    }
  }

  // ---------- Files written by checkpoints only ----------

  lemma {:induction false} WrapConcat(a: seq<Entry>, b: seq<Entry>)
    ensures Wrap(a + b) == Wrap(a) + Wrap(b)
  {
    if b == [] {
      assert a + b == a;
    } else {
      WrapConcat(a, b[..|b| - 1]);
      assert (a + b)[..|a + b| - 1] == a + b[..|b| - 1];
    }
  }

  lemma {:induction false} EntriesSplit(scope: Scope, short: seq<Message>, long: seq<Message>)
    requires short <= long
    ensures EntriesFrom(scope, long, 0) == EntriesFrom(scope, short, 0) + EntriesFrom(scope, long, |short|)
    decreases |long|
  {
    if short == long {
      assert EntriesFrom(scope, long, |short|) == [];
    } else {
      EntriesSplit(scope, short, long[..|long| - 1]);
    }
  }

  lemma RewrittenSplit(scope: Scope, short: seq<Message>, long: seq<Message>)
    requires short <= long
    ensures Rewritten(scope, long)
            == File(Rewritten(scope, short).lines + Wrap(EntriesFrom(scope, long, |short|)), NoTail)
  {
    EntriesSplit(scope, short, long);
    WrapConcat(EntriesForMessages(scope, short), EntriesFrom(scope, long, |short|));
    assert EntriesForMessages(scope, long)
        == EntriesForMessages(scope, short) + EntriesFrom(scope, long, |short|);
  }

  /** Appending the new part of a longer history is the same as rewriting it. */
  lemma AppendEqualsRewrite(scope: Scope, short: seq<Message>, long: seq<Message>)
    requires !scope.isSidechain && short <= long
    ensures Sync(scope, Some(Rewritten(scope, short)), long) == Rewritten(scope, long)
  {
    var f := Rewritten(scope, short);
    RewrittenLoad(scope, short);
    var news := News(scope, LoadOf(f), long);
    assert news == EntriesFrom(scope, long, |short|);
    RewrittenSplit(scope, short, long);
    if news == [] {
      EntriesFromLength(scope, long, |short|);
      assert short == long;
    } else {
      AppendAllTerminated(f, news);
    }
  }

  function AfterCheckpoints(scope: Scope, histories: seq<seq<Message>>): Option<File> {
    if histories == [] then None
    else
      var n := |histories| - 1;
      Some(Sync(scope, AfterCheckpoints(scope, histories[..n]), histories[n]))
  }

  /**
   Over any run of checkpoints, histories that grow, shrink or diverge included, the file is
   line for line what one rewrite of the last history would have produced.
   */
  lemma {:induction false} RunEqualsRewrite(scope: Scope, histories: seq<seq<Message>>)
    requires !scope.isSidechain && histories != []
    ensures AfterCheckpoints(scope, histories) == Some(Rewritten(scope, histories[|histories| - 1]))
  {
    var n := |histories| - 1;
    if n > 0 {
      var before := histories[n - 1];
      RunEqualsRewrite(scope, histories[..n]);
      RewrittenLoad(scope, before);
      if before <= histories[n] {
        AppendEqualsRewrite(scope, before, histories[n]);
      }
    }
  }

  lemma {:induction false} EntryAt(scope: Scope, history: seq<Message>, i: nat)
    requires i < |history|
    ensures |EntriesFrom(scope, history, 0)| == |history|
    ensures EntriesFrom(scope, history, 0)[i] == EntryOf(scope, i, history[i])
  {
    var n := |history| - 1;
    EntriesFromLength(scope, history, 0);
    EntriesFromLength(scope, history[..n], 0);
    if i < n {
      EntryAt(scope, history[..n], i);
    }
  }

  /** Message `i` carries id `i`, and its parent is the id of the message before it. */
  lemma MessagesFormAChain(scope: Scope, histories: seq<seq<Message>>, i: nat)
    requires !scope.isSidechain && histories != [] && i < |histories[|histories| - 1]|
    ensures AfterCheckpoints(scope, histories).Some?
    ensures var history := histories[|histories| - 1];
            var entries := LoadAt(AfterCheckpoints(scope, histories)).entries;
            && |entries| == 1 + |history|
            && entries[i + 1].MessageEntry?
            && entries[0] == SessionMeta(1, scope)
            && entries[i + 1].message == history[i]
            && entries[i + 1].sessionId == scope.sessionId && entries[i + 1].agentId == scope.agentId
            && !entries[i + 1].isSidechain
            && entries[i + 1].id == MessageId(i)
            && (i == 0 ==> entries[i + 1].parent == None)
            && (i > 0 ==> entries[i].MessageEntry? && entries[i + 1].parent == Some(entries[i].id))
  {
    var history := histories[|histories| - 1];
    RunEqualsRewrite(scope, histories);
    RewrittenLoad(scope, history);
    EntryAt(scope, history, i);
    if i > 0 {
      EntryAt(scope, history, i - 1);
    }
  }

  /** The entries of a session's own transcript name that session and no agent. */
  lemma MainChainEntries(session: string, histories: seq<seq<Message>>, i: nat)
    requires histories != [] && i < |histories[|histories| - 1]|
    ensures AfterCheckpoints(MainScope(session), histories).Some?
    ensures var entries := LoadAt(AfterCheckpoints(MainScope(session), histories)).entries;
            && i + 1 < |entries| && entries[i + 1].MessageEntry?
            && entries[0] == SessionMeta(1, Scope(session, None, None, false))
            && entries[i + 1].sessionId == session && entries[i + 1].agentId == None && !entries[i + 1].isSidechain
  {
    MessagesFormAChain(MainScope(session), histories, i);
  }

  /** A file without entries, be it missing, empty or blank, is given the entries of a rewrite, its meta entry first. */
  lemma FirstCheckpointIsComplete(scope: Scope, f: Option<File>, history: seq<Message>)
    requires !scope.isSidechain && LoadAt(f).entries == []
    ensures LoadOf(Sync(scope, f, history)) == LoadOf(Rewritten(scope, history))
  {
    if f.Some? && Extends(LoadOf(f.value), history) {
      LinesSplit(f.value);
      assert [] + News(scope, LoadOf(f.value), history) == EntriesForMessages(scope, history);
      AppendedLoad(scope, f.value, history);
      LoadOfWrapped(EntriesForMessages(scope, history));
    }
  }

  lemma {:induction false} LeadingZeros(n: nat, digits: string)
    requires AllDigits(digits)
    ensures AllDigits(Zeros(n) + digits)
    ensures DigitsValue(Zeros(n) + digits) == DigitsValue(digits)
    decreases |digits|, n
  {
    var all := Zeros(n) + digits;
    if digits != [] {
      LeadingZeros(n, digits[..|digits| - 1]);
      assert all[..|all| - 1] == Zeros(n) + digits[..|digits| - 1];
    } else if n > 0 {
      LeadingZeros(n - 1, []);
      assert all[..|all| - 1] == Zeros(n - 1) + [];
    }
  }

  lemma MessageIdValue(i: nat)
    ensures AllDigits(MessageId(i)[4..]) && DigitsValue(MessageId(i)[4..]) == i
  {
    var zeros := if |Decimal(i)| < 6 then 6 - |Decimal(i)| else 0;
    LeadingZeros(zeros, Decimal(i));
    DecimalValue(i);
    assert MessageId(i)[4..] == Zeros(zeros) + Decimal(i);
  }

  /** No two positions share an id, the ones too large for six digits included. */
  lemma MessageIdsDiffer(i: nat, j: nat)
    requires MessageId(i) == MessageId(j)
    ensures i == j
  {
    MessageIdValue(i);
    MessageIdValue(j);
  }

  // ---------- Checkpoints on a warm cache ----------

  /** The file and what the cache of the running process says it holds. */
  datatype Warm = Warm(file: File, cached: Load)

  function WarmStep(scope: Scope, w: Warm, history: seq<Message>): Warm {
    Warm(SyncWith(scope, Some(w.file), w.cached, history), SyncLoad(scope, Some(w.file), w.cached, history))
  }

  function WarmRun(scope: Scope, w: Warm, histories: seq<seq<Message>>): Warm {
    if histories == [] then w
    else
      var n := |histories| - 1;
      WarmStep(scope, WarmRun(scope, w, histories[..n]), histories[n])
  }

  function LastOf(first: seq<Message>, histories: seq<seq<Message>>): seq<Message> {
    if histories == [] then first else histories[|histories| - 1]
  }

  /** Every history extends the one before it. */
  predicate Growing(first: seq<Message>, histories: seq<seq<Message>>) {
    histories == [] ||
    var n := |histories| - 1;
    Growing(first, histories[..n]) && LastOf(first, histories[..n]) <= histories[n]
  }

  /** The cache vouches for a history of which the file misses a part. */
  predicate Short(w: Warm, history: seq<Message>) {
    && w.file.tail.NoTail?
    && |VisibleHistory(w.file)| < |history|
    && w.cached.parseErrors == 0
    && Visible(w.cached.entries) == history
  }

  predicate Sane(scope: Scope, w: Warm, history: seq<Message>) {
    w.file == Rewritten(scope, history) && w.cached == LoadOf(w.file)
  }

  lemma VisibleAppended(f: File, entries: seq<Entry>)
    requires f.tail.NoTail?
    ensures VisibleHistory(AppendAll(f, entries)) == VisibleHistory(f) + Visible(entries)
  {
    if entries != [] {
      AppendAllTerminated(f, entries);
      LoadOfLines(f.lines, entries);
      VisibleConcat(Entries(f.lines), entries);
    }
  }

  lemma TerminatedAfter(f: File, entries: seq<Entry>)
    requires f.tail.NoTail?
    ensures AppendAll(f, entries).tail.NoTail?
  {
  }

  /** The appended part has no more messages than the history grew by. */
  lemma ShortAppend(scope: Scope, w: Warm, history: seq<Message>, next: seq<Message>)
    requires !scope.isSidechain && Short(w, history) && history <= next
    ensures |VisibleHistory(AppendAll(w.file, News(scope, w.cached, next)))| < |next|
  {
    var later := EntriesFrom(scope, next, |history|);
    VisibleAppended(w.file, News(scope, w.cached, next));
    VisibleOfHeader(scope, w.cached);
    VisibleConcat(Header(scope, w.cached), later);
    VisibleOfHistory(scope, next, |history|);
  }

  lemma ShortStep(scope: Scope, w: Warm, history: seq<Message>, next: seq<Message>)
    requires !scope.isSidechain && Short(w, history)
    ensures if history <= next then Short(WarmStep(scope, w, next), next)
            else Sane(scope, WarmStep(scope, w, next), next)
  {
    if history <= next {
      var news := News(scope, w.cached, next);
      VisibleWithNews(scope, w.cached, next);
      ShortAppend(scope, w, history, next);
      TerminatedAfter(w.file, news);
    }
  }

  lemma SaneStep(scope: Scope, w: Warm, history: seq<Message>, next: seq<Message>)
    requires !scope.isSidechain && Sane(scope, w, history)
    ensures Sane(scope, WarmStep(scope, w, next), next)
  {
    RewrittenLoad(scope, history);
    SyncCoherence(scope, Some(w.file), next);
    if history <= next {
      AppendEqualsRewrite(scope, history, next);
    }
  }

  lemma {:induction false} WarmRunShortOrSane(scope: Scope, w: Warm, first: seq<Message>, later: seq<seq<Message>>)
    requires !scope.isSidechain && Short(w, first)
    ensures var last := WarmRun(scope, w, later);
            if Growing(first, later) then Short(last, LastOf(first, later)) else Sane(scope, last, LastOf(first, later))
  {
    if later != [] {
      var n := |later| - 1;
      WarmRunShortOrSane(scope, w, first, later[..n]);
      var before, history := WarmRun(scope, w, later[..n]), LastOf(first, later[..n]);
      if Growing(first, later[..n]) {
        ShortStep(scope, before, history, later[n]);
      } else {
        SaneStep(scope, before, history, later[n]);
      }
    }
  }

  /**
   After a merge, and as long as the process keeps its cached load, the file stays short of the
   history exactly while every further history extends the one before it; the first that does
   not is rewritten, and from then on nothing is missing.
   */
  lemma WarmCacheKeepsTheLoss(scope: Scope, f: Option<File>, first: seq<Message>, later: seq<seq<Message>>)
    requires !scope.isSidechain
    ensures var w := WarmRun(scope, Warm(Sync(scope, f, first), SyncLoad(scope, f, LoadAt(f), first)), later);
            Merges(f, first) ==> (VisibleHistory(w.file) == LastOf(first, later) <==> !Growing(first, later))
  {
    if Merges(f, first) {
      var w := Warm(Sync(scope, f, first), SyncLoad(scope, f, LoadAt(f), first));
      MergedVisible(scope, f.value, first);
      VisibleWithNews(scope, LoadAt(f), first);
      assert Short(w, first);
      WarmRunShortOrSane(scope, w, first, later);
      RewrittenLoad(scope, LastOf(first, later));
    }
  }
}
