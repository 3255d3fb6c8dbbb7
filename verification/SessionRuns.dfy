/**
 Runs of one session: saves that complete or end anywhere, in processes that live on or restart,
 with recoveries in between. What recovery then yields, before and after the first completed save.
 */
module SessionRuns {
  import opened Prelude
  import opened Transcript
  import opened TranscriptRuns
  import opened SessionSave

  /** `Forgetting`: the process restarts, or its cache evicts the transcript. */
  datatype Step = Saving(history: seq<Message>, cut: Cut) | Recovering(readable: bool, mirrored: bool) | Forgetting

  function AfterStep(scope: Scope, l: Live, step: Step): Live {
    match step
    case Saving(history, cut) => if Possible(scope, l, history, cut) then CutSave(scope, l, history, cut) else l
    case Recovering(readable, mirrored) => AfterRecovery(l, scope, readable, mirrored)
    case Forgetting => Fresh(l.disk)
  }

  function AfterSteps(scope: Scope, l: Live, steps: seq<Step>): Live {
    if steps == [] then l
    else AfterStep(scope, AfterSteps(scope, l, steps[..|steps| - 1]), steps[|steps| - 1])
  }

  predicate Completes(step: Step) {
    step.Saving? && step.cut.SnapshotWritten?
  }

  function NextBase(base: Option<seq<Message>>, step: Step): Option<seq<Message>> {
    if Completes(step) then Some(step.history) else base
  }

  function NextAttempted(attempted: seq<seq<Message>>, step: Step): seq<seq<Message>> {
    if Completes(step) then [] else if step.Saving? then attempted + [step.history] else attempted
  }

  /** The history of the last completed save, if any. */
  function Base(saved: Option<seq<Message>>, steps: seq<Step>): Option<seq<Message>> {
    if steps == [] then saved
    else NextBase(Base(saved, steps[..|steps| - 1]), steps[|steps| - 1])
  }

  /** The histories whose save was begun since then. */
  function Attempted(steps: seq<Step>): seq<seq<Message>> {
    if steps == [] then [] else NextAttempted(Attempted(steps[..|steps| - 1]), steps[|steps| - 1])
  }

  /** Nothing was written yet. */
  predicate Untouched(cut: Cut) {
    cut.Appending? && cut.lines == 0 && cut.tail.NoTail?
  }

  /**
   Whether the transcript has a hole: an append began behind an unterminated entry, and the file
   was not rewritten since.
   */
  predicate NextHole(scope: Scope, l: Live, hole: bool, step: Step) {
    if !step.Saving? || !Possible(scope, l, step.history, step.cut) || Untouched(step.cut) then hole
    else
      l.disk.transcript.Some? && Extends(l.known, step.history) && (hole || Merges(l.disk.transcript, step.history))
  }

  predicate Hole(scope: Scope, l: Live, steps: seq<Step>) {
    steps != [] &&
    var before := steps[..|steps| - 1];
    NextHole(scope, AfterSteps(scope, l, before), Hole(scope, l, before), steps[|steps| - 1])
  }

  // ---------- Parts of histories ----------

  predicate Candidate(h: seq<Message>, base: seq<Message>, attempted: seq<seq<Message>>) {
    h == base || h == WithoutSystem(base) || h in attempted
  }

  predicate Within(lo: seq<Message>, h: seq<Message>, hi: seq<Message>) {
    lo <= h <= hi
  }

  /** A saved or attempted history, or a part of an attempted one that still holds another of them. */
  ghost predicate PartOf(h: seq<Message>, base: seq<Message>, attempted: seq<seq<Message>>) {
    || Candidate(h, base, attempted)
    || exists lo, hi :: Within(lo, h, hi) && Candidate(lo, base, attempted) && hi in attempted
  }

  lemma CandidateMore(h: seq<Message>, base: seq<Message>, attempted: seq<seq<Message>>, a: seq<Message>)
    requires Candidate(h, base, attempted)
    ensures Candidate(h, base, attempted + [a])
  {
  }

  lemma PartMore(h: seq<Message>, base: seq<Message>, attempted: seq<seq<Message>>, a: seq<Message>)
    requires PartOf(h, base, attempted)
    ensures PartOf(h, base, attempted + [a])
  {
    if !Candidate(h, base, attempted) {
      var lo, hi :| Within(lo, h, hi) && Candidate(lo, base, attempted) && hi in attempted;
      CandidateMore(lo, base, attempted, a);
      assert hi in attempted + [a];
    }
  }

  /** What lies between a part and a new attempt is again a part. */
  lemma PartGrows(
    h: seq<Message>, longer: seq<Message>, base: seq<Message>, attempted: seq<seq<Message>>, a: seq<Message>)
    requires PartOf(h, base, attempted) && h <= longer <= a
    ensures PartOf(longer, base, attempted + [a])
  {
    assert a in attempted + [a];
    if Candidate(h, base, attempted) {
      CandidateMore(h, base, attempted, a);
      assert Within(h, longer, a);
    } else {
      var lo, hi :| Within(lo, h, hi) && Candidate(lo, base, attempted) && hi in attempted;
      CandidateMore(lo, base, attempted, a);
      assert Within(lo, longer, a);
    }
  }

  lemma PartLast(base: seq<Message>, attempted: seq<seq<Message>>, a: seq<Message>)
    ensures PartOf(a, base, attempted + [a])
  {
    assert a in attempted + [a];
  }

  /** If all attempts extended the base, nothing of it is lost but perhaps its system messages. */
  lemma PartLosesNothing(h: seq<Message>, base: seq<Message>, attempted: seq<seq<Message>>)
    requires PartOf(h, base, attempted) && forall a | a in attempted :: base <= a
    ensures base <= h || WithoutSystem(base) <= h
  {
    if !Candidate(h, base, attempted) {
      var lo, hi :| Within(lo, h, hi) && Candidate(lo, base, attempted) && hi in attempted;
    }
  }

  /** `h` with some of its messages left out. */
  predicate Thinned(v: seq<Message>, h: seq<Message>) {
    v == [] ||
    (h != [] &&
     var n := |h| - 1;
     Thinned(v, h[..n]) || (v[|v| - 1] == h[n] && Thinned(v[..|v| - 1], h[..n])))
  }

  lemma {:induction false} ThinnedGrows(v: seq<Message>, h: seq<Message>, more: seq<Message>)
    requires Thinned(v, h)
    ensures Thinned(v, h + more)
  {
    if more == [] {
      assert h + more == h;
    } else {
      ThinnedGrows(v, h, more[..|more| - 1]);
      assert (h + more)[..|h + more| - 1] == h + more[..|more| - 1];
    }
  }

  lemma ThinnedSnoc(v: seq<Message>, h: seq<Message>, m: Message)
    requires Thinned(v, h)
    ensures Thinned(v + [m], h + [m])
  {
    assert (h + [m])[..|h|] == h && (v + [m])[..|v|] == v;
  }

  lemma {:induction false} ThinnedBoth(v: seq<Message>, h: seq<Message>, more: seq<Message>)
    requires Thinned(v, h)
    ensures Thinned(v + more, h + more)
  {
    if more == [] {
      assert h + more == h && v + more == v;
    } else {
      var n := |more| - 1;
      ThinnedBoth(v, h, more[..n]);
      ThinnedSnoc(v + more[..n], h + more[..n], more[n]);
      assert v + more == v + more[..n] + [more[n]];
      assert h + more == h + more[..n] + [more[n]];
    }
  }

  lemma ThinnedPrefix(v: seq<Message>, h: seq<Message>)
    requires v <= h
    ensures Thinned(v, h)
  {
    ThinnedBoth([], [], v);
    assert [] + v == v;
    ThinnedGrows(v, v, h[|v|..]);
    assert v + h[|v|..] == h;
  }

  lemma ThinnedWithin(v: seq<Message>, shown: seq<Message>, h: seq<Message>)
    requires Thinned(v, shown) && shown <= h
    ensures Thinned(v, h)
  {
    ThinnedGrows(v, shown, h[|shown|..]);
    assert shown + h[|shown|..] == h;
  }

  predicate ThinnedOne(v: seq<Message>, attempted: seq<seq<Message>>) {
    v == [] || exists a | a in attempted :: Thinned(v, a)
  }

  lemma ThinnedOneMore(v: seq<Message>, attempted: seq<seq<Message>>, a: seq<Message>)
    requires ThinnedOne(v, attempted) || Thinned(v, a)
    ensures ThinnedOne(v, attempted + [a])
  {
    assert a in attempted + [a];
    if ThinnedOne(v, attempted) && v != [] {
      var x :| x in attempted && Thinned(v, x);
      assert x in attempted + [a];
    }
  }

  // ---------- What a cut file shows of the history ----------

  /** The cache knows the file, or the file is damaged and shows a thinned part of what is known. */
  predicate KnownThinned(f: File, known: Load) {
    known == LoadOf(f) || (Damaged(f) && Thinned(VisibleHistory(f), Visible(known.entries)))
  }

  lemma DamagedCutThinned(scope: Scope, f: File, known: Load, history: seq<Message>, lines: nat, tail: Tail)
    requires !scope.isSidechain && Extends(known, history)
    requires Damaged(f) && Thinned(VisibleHistory(f), Visible(known.entries))
    requires PossibleTail(News(scope, known, history), lines, tail)
    ensures Thinned(VisibleHistory(CutFile(f, News(scope, known, history), lines, tail)), history)
  {
    var news := News(scope, known, history);
    DamagedCut(f, news, lines, tail);
    var part := news[..Arrived(lines, tail)];
    VisibleConcat(LoadOf(f).entries, part);
    VisibleConcat(known.entries, part);
    VisibleWithNews(scope, known, history);
    VisiblePart(known.entries, news, Arrived(lines, tail));
    ThinnedBoth(VisibleHistory(f), Visible(known.entries), Visible(part));
    ThinnedWithin(VisibleHistory(f) + Visible(part), Visible(known.entries) + Visible(part), history);
  }

  lemma MergedAppend(f: File, entries: seq<Entry>)
    requires f.tail.WholeTail? && entries != []
    ensures Damaged(AppendAll(f, entries))
    ensures LoadOf(AppendAll(f, entries)).entries == Entries(f.lines) + entries[1..]
  {
    LoadMerged(f, entries);
    AppendAllLines(f, entries);
  }

  lemma ArrivedBehindFirst(before: seq<Entry>, news: seq<Entry>, lines: nat, tail: Tail)
    requires PossibleTail(news, lines, tail) && lines > 0
    ensures 1 <= Arrived(lines, tail) <= |news|
    ensures before + news[..lines][1..] + (if tail.WholeTail? then [tail.entry] else [])
            == before + news[1..Arrived(lines, tail)]
  {
  }

  /** Behind an unterminated entry: both it and the entry appended to it are missing, no others. */
  lemma MergedCutEntries(f: File, news: seq<Entry>, lines: nat, tail: Tail)
    requires f.tail.WholeTail? && PossibleTail(news, lines, tail) && lines > 0
    ensures 1 <= Arrived(lines, tail) <= |news|
    ensures LoadOf(CutFile(f, news, lines, tail)).entries == Entries(f.lines) + news[1..Arrived(lines, tail)]
  {
    MergedAppend(f, news[..lines]);
    DamagedRetail(AppendAll(f, news[..lines]), tail);
    ArrivedBehindFirst(Entries(f.lines), news, lines, tail);
  }

  lemma Regroup4(a: seq<Message>, b: seq<Message>, c: seq<Message>, d: seq<Message>)
    ensures a + b + (c + d) == a + (b + c) + d
  {
  }

  lemma MergedParts(
    kept: seq<Message>, lost: seq<Message>, lost': seq<Message>, later: seq<Message>, history: seq<Message>)
    requires kept + lost + (lost' + later) <= history
    ensures Thinned(kept + later, history)
  {
    ThinnedPrefix(kept, kept + (lost + lost'));
    ThinnedBoth(kept, kept + (lost + lost'), later);
    Regroup4(kept, lost, lost', later);
    ThinnedWithin(kept + later, kept + (lost + lost') + later, history);
  }

  lemma MergedCutThinned(scope: Scope, f: File, history: seq<Message>, lines: nat, tail: Tail)
    requires !scope.isSidechain && Extends(LoadOf(f), history) && f.tail.WholeTail? && lines > 0
    requires PossibleTail(News(scope, LoadOf(f), history), lines, tail)
    ensures Thinned(VisibleHistory(CutFile(f, News(scope, LoadOf(f), history), lines, tail)), history)
  {
    var entries, news, n := LoadOf(f).entries, News(scope, LoadOf(f), history), Arrived(lines, tail);
    MergedCutEntries(f, news, lines, tail);
    LinesSplit(f);
    VisibleConcat(Entries(f.lines), [f.tail.entry]);
    VisibleConcat(Entries(f.lines), news[1..n]);
    VisibleConcat(entries, news[..n]);
    VisibleConcat(news[..1], news[1..n]);
    assert news[..n] == news[..1] + news[1..n];
    VisibleWithNews(scope, LoadOf(f), history);
    VisiblePart(entries, news, n);
    MergedParts(Visible(Entries(f.lines)), Visible([f.tail.entry]), Visible(news[..1]), Visible(news[1..n]), history);
  }

  lemma TornEntryThinned(f: File, history: seq<Message>)
    requires f.tail.WholeTail? && VisibleHistory(f) <= history
    ensures Thinned(VisibleHistory(f.(tail := TornTail)), history)
  {
    LinesSplit(f);
    LinesSplit(f.(tail := TornTail));
    VisibleConcat(Entries(f.lines), [f.tail.entry]);
    assert Entries(f.lines) + [] == Entries(f.lines);
    ThinnedPrefix(Visible(Entries(f.lines)), history);
  }

  /** However a save ends, the transcript shows the new history with some messages left out. */
  lemma CutThinned(scope: Scope, f: File, known: Load, history: seq<Message>, lines: nat, tail: Tail)
    requires !scope.isSidechain && KnownThinned(f, known) && Extends(known, history)
    requires PossibleTail(News(scope, known, history), lines, tail)
    ensures Thinned(VisibleHistory(CutFile(f, News(scope, known, history), lines, tail)), history)
  {
    if known != LoadOf(f) {
      DamagedCutThinned(scope, f, known, history, lines, tail);
    } else if f.tail.WholeTail? && lines > 0 {
      MergedCutThinned(scope, f, history, lines, tail);
    } else if f.tail.WholeTail? && !tail.NoTail? {
      TornEntryThinned(f, history);
      assert CutFile(f, News(scope, known, history), lines, tail) == f.(tail := TornTail);
    } else if f.tail.WholeTail? {
      ThinnedPrefix(VisibleHistory(f), history);
      assert CutFile(f, News(scope, known, history), lines, tail) == f;
    } else {
      LinesSplit(f);
      CutTranscript(scope, f, history, lines, tail);
      ThinnedPrefix(VisibleHistory(CutFile(f, News(scope, known, history), lines, tail)), history);
    }
  }

  // ---------- What every run keeps ----------

  /** After a completed save: the snapshot holds it, and a transcript that parses shows a part. */
  ghost predicate Secured(l: Live, base: seq<Message>, attempted: seq<seq<Message>>) {
    && CacheSound(l)
    && l.disk.transcript.Some?
    && l.disk.snapshot == Some(Whole(WithoutSystem(base)))
    && (LoadOf(l.disk.transcript.value).parseErrors > 0
        || PartOf(VisibleHistory(l.disk.transcript.value), base, attempted))
  }

  /** Before it: there is only the transcript. */
  ghost predicate Unsecured(l: Live, attempted: seq<seq<Message>>, hole: bool) {
    && l.disk.snapshot.None?
    && l.disk.legacy.None?
    && (l.disk.transcript.None? ==> l == Fresh(l.disk))
    && (l.disk.transcript.Some? ==>
          && var f := l.disk.transcript.value;
          && KnownThinned(f, l.known)
          && ThinnedOne(VisibleHistory(f), attempted)
          && (!hole ==> l.known == LoadOf(f) && PartOf(VisibleHistory(f), [], attempted)))
  }

  ghost predicate Recoverable(l: Live, base: Option<seq<Message>>, attempted: seq<seq<Message>>, hole: bool) {
    if base.Some? then Secured(l, base.value, attempted) else Unsecured(l, attempted, hole)
  }

  lemma UnsecuredIsSound(l: Live, attempted: seq<seq<Message>>, hole: bool)
    requires Unsecured(l, attempted, hole)
    ensures CacheSound(l)
  {
  }

  lemma SecuredAppending(
    scope: Scope, l: Live, base: seq<Message>, attempted: seq<seq<Message>>, history: seq<Message>, cut: Cut)
    requires !scope.isSidechain && Secured(l, base, attempted)
    requires cut.Appending? && Possible(scope, l, history, cut)
    ensures Secured(CutSave(scope, l, history, cut), base, attempted + [history])
  {
    var f := l.disk.transcript.value;
    if LoadOf(f).parseErrors == 0 {
      PartMore(VisibleHistory(f), base, attempted, history);
    }
    if !Extends(l.known, history) {
      NothingCut(scope, l, history, cut);
    } else if l.known == LoadOf(f) {
      CutAnywhere(scope, f, history, cut.lines, cut.tail);
      var g := CutFile(f, News(scope, l.known, history), cut.lines, cut.tail);
      if LoadOf(g).parseErrors == 0 {
        PartGrows(VisibleHistory(f), VisibleHistory(g), base, attempted, history);
      }
    } else {
      DamagedCut(f, News(scope, l.known, history), cut.lines, cut.tail);
    }
  }

  lemma SecuredWritten(scope: Scope, l: Live, base: seq<Message>, attempted: seq<seq<Message>>, history: seq<Message>)
    requires !scope.isSidechain && Secured(l, base, attempted)
    ensures Secured(CutSave(scope, l, history, TranscriptWritten), base, attempted + [history])
  {
    WrittenSeen(scope, l, history);
    PartLast(base, attempted, history);
  }

  lemma Completed(scope: Scope, l: Live, history: seq<Message>)
    requires !scope.isSidechain && CacheSound(l)
    ensures Secured(CutSave(scope, l, history, SnapshotWritten), history, [])
  {
    WrittenSeen(scope, l, history);
  }

  lemma SecuredRecovery(
    scope: Scope, l: Live, base: seq<Message>, attempted: seq<seq<Message>>, readable: bool, mirrored: bool)
    requires !scope.isSidechain && Secured(l, base, attempted)
    ensures Secured(AfterRecovery(l, scope, readable, mirrored), base, attempted)
  {
    RewrittenSeen(scope, WithoutSystem(base));
  }

  lemma SecuredIdle(l: Live, base: seq<Message>, attempted: seq<seq<Message>>, history: seq<Message>)
    requires Secured(l, base, attempted)
    ensures Secured(l, base, attempted + [history])
  {
    if LoadOf(l.disk.transcript.value).parseErrors == 0 {
      PartMore(VisibleHistory(l.disk.transcript.value), base, attempted, history);
    }
  }

  lemma SecuredStep(scope: Scope, l: Live, base: seq<Message>, attempted: seq<seq<Message>>, step: Step)
    requires !scope.isSidechain && Secured(l, base, attempted) && !Completes(step)
    ensures Secured(AfterStep(scope, l, step), base, NextAttempted(attempted, step))
  {
    match step
    case Forgetting =>
    case Recovering(readable, mirrored) => SecuredRecovery(scope, l, base, attempted, readable, mirrored);
    case Saving(history, cut) =>
      if !cut.Appending? {
        SecuredWritten(scope, l, base, attempted, history);
      } else if Possible(scope, l, history, cut) {
        SecuredAppending(scope, l, base, attempted, history, cut);
      } else {
        SecuredIdle(l, base, attempted, history);
      }
  }

  lemma UnsecuredIdle(l: Live, attempted: seq<seq<Message>>, hole: bool, history: seq<Message>)
    requires Unsecured(l, attempted, hole)
    ensures Unsecured(l, attempted + [history], hole)
  {
    if l.disk.transcript.Some? {
      ThinnedOneMore(VisibleHistory(l.disk.transcript.value), attempted, history);
      if !hole {
        PartMore(VisibleHistory(l.disk.transcript.value), [], attempted, history);
      }
    }
  }

  lemma UnmergedCut(scope: Scope, f: File, history: seq<Message>, lines: nat, tail: Tail)
    requires !scope.isSidechain && Extends(LoadOf(f), history) && !Merges(Some(f), history)
    requires PossibleTail(News(scope, LoadOf(f), history), lines, tail) && !(lines == 0 && tail.NoTail?)
    ensures var g := CutFile(f, News(scope, LoadOf(f), history), lines, tail);
            Between(VisibleHistory(g), VisibleHistory(f), history)
  {
    LinesSplit(f);
    if f.tail.WholeTail? {
      EntriesFromLength(scope, history, |history|);
    } else {
      CutTranscript(scope, f, history, lines, tail);
    }
  }

  /** A cut append that does not merge leaves a part; any one leaves a thinned history. */
  lemma UnsecuredAppending(
    scope: Scope, l: Live, attempted: seq<seq<Message>>, hole: bool, history: seq<Message>, cut: Cut)
    requires !scope.isSidechain && Unsecured(l, attempted, hole)
    requires cut.Appending? && !Untouched(cut) && Possible(scope, l, history, cut)
    ensures Unsecured(CutSave(scope, l, history, cut), attempted + [history],
                      hole || Merges(l.disk.transcript, history))
  {
    if l.disk.transcript.None? || !Extends(l.known, history) {
      NothingCut(scope, l, history, cut);
      UnsecuredIdle(l, attempted, hole, history);
    } else {
      var f := l.disk.transcript.value;
      var g := CutFile(f, News(scope, l.known, history), cut.lines, cut.tail);
      CutThinned(scope, f, l.known, history, cut.lines, cut.tail);
      ThinnedOneMore(VisibleHistory(g), attempted, history);
      if !hole && !Merges(l.disk.transcript, history) {
        UnmergedCut(scope, f, history, cut.lines, cut.tail);
        PartGrows(VisibleHistory(f), VisibleHistory(g), [], attempted, history);
      }
    }
  }

  /** All the news appended and nothing cut is what the checkpoint writes on its append path. */
  lemma WholeAppend(scope: Scope, l: Live, history: seq<Message>)
    requires l.disk.transcript.Some? && Extends(l.known, history)
    ensures var news := News(scope, l.known, history);
            CutFile(l.disk.transcript.value, news, |news|, NoTail) == Written(scope, l, history).disk.transcript.value
  {
    var news := News(scope, l.known, history);
    assert news[..|news|] == news;
  }

  lemma UnsecuredWritten(scope: Scope, l: Live, attempted: seq<seq<Message>>, hole: bool, history: seq<Message>)
    requires !scope.isSidechain && Unsecured(l, attempted, hole)
    ensures Unsecured(Written(scope, l, history), attempted + [history],
                      && l.disk.transcript.Some?
                      && Extends(l.known, history)
                      && (hole || Merges(l.disk.transcript, history)))
  {
    var w := Written(scope, l, history);
    var g := w.disk.transcript.value;
    UnsecuredIsSound(l, attempted, hole);
    WrittenSeen(scope, l, history);
    if Loses(l, history) {
      var news := News(scope, l.known, history);
      CutThinned(scope, l.disk.transcript.value, l.known, history, |news|, NoTail);
      WholeAppend(scope, l, history);
      ThinnedOneMore(VisibleHistory(g), attempted, history);
      VisibleWithNews(scope, l.known, history);
    } else {
      ThinnedPrefix(history, history);
      ThinnedOneMore(history, attempted, history);
      PartLast([], attempted, history);
    }
  }

  lemma UnsecuredStep(scope: Scope, l: Live, attempted: seq<seq<Message>>, hole: bool, step: Step)
    requires !scope.isSidechain && Unsecured(l, attempted, hole) && !Completes(step)
    ensures Unsecured(AfterStep(scope, l, step), NextAttempted(attempted, step), NextHole(scope, l, hole, step))
  {
    match step
    case Forgetting =>
    case Recovering(_, _) =>
    case Saving(history, cut) =>
      if !Possible(scope, l, history, cut) || Untouched(cut) {
        UnsecuredIdle(l, attempted, hole, history);
      } else if cut.Appending? {
        UnsecuredAppending(scope, l, attempted, hole, history, cut);
      } else {
        UnsecuredWritten(scope, l, attempted, hole, history);
      }
  }

  lemma StepKeeps(
    scope: Scope, l: Live, base: Option<seq<Message>>, attempted: seq<seq<Message>>, hole: bool, step: Step)
    requires !scope.isSidechain && Recoverable(l, base, attempted, hole)
    ensures Recoverable(AfterStep(scope, l, step), NextBase(base, step), NextAttempted(attempted, step),
                        NextHole(scope, l, hole, step))
  {
    if base.None? {
      UnsecuredIsSound(l, attempted, hole);
    }
    if Completes(step) {
      Completed(scope, l, step.history);
    } else if base.Some? {
      SecuredStep(scope, l, base.value, attempted, step);
    } else {
      UnsecuredStep(scope, l, attempted, hole, step);
    }
  }

  // ---------- Runs ----------

  /** A session with one completed save, or one that was never saved. */
  predicate Begins(l: Live, saved: Option<seq<Message>>) {
    && CacheSound(l)
    && match saved
       case Some(history) => Consistent(l.disk, history)
       case None =>
         && l.disk.snapshot.None?
         && l.disk.legacy.None?
         && (l.disk.transcript.Some? ==> Holds(l.disk.transcript.value, []))
  }

  lemma {:induction false} StepsKeep(scope: Scope, l: Live, saved: Option<seq<Message>>, steps: seq<Step>)
    requires !scope.isSidechain && Begins(l, saved)
    ensures Recoverable(AfterSteps(scope, l, steps), Base(saved, steps), Attempted(steps), Hole(scope, l, steps))
  {
    if steps != [] {
      var before := steps[..|steps| - 1];
      StepsKeep(scope, l, saved, before);
      StepKeeps(scope, AfterSteps(scope, l, before), Base(saved, before), Attempted(before),
                Hole(scope, l, before), steps[|steps| - 1]);
    }
  }

  lemma RecoverSecured(l: Live, base: seq<Message>, attempted: seq<seq<Message>>, readable: bool)
    requires Secured(l, base, attempted)
    ensures Recover(l.disk, readable).Recovered? && PartOf(Recover(l.disk, readable).history, base, attempted)
  {
  }

  /**
   After any run of saves, completed or cut at any point, by processes that live on with what they
   have cached or restart, with recoveries in between. Once a save has completed, recovery yields
   the last completed history, with or without its system messages, an attempted one, or a part
   of an attempted one that still holds another of these; if all attempts extended the completed
   one, nothing of it is lost but perhaps its system messages. Before that there may be nothing yet, and
   as long as no append began behind an unterminated entry the same holds, from nothing; in any case
   recovery only leaves messages out of one attempted history.
   */
  lemma RecoveryAfterAnyRun(
    scope: Scope, l: Live, saved: Option<seq<Message>>, steps: seq<Step>, readable: bool)
    requires !scope.isSidechain && Begins(l, saved)
    ensures var z, base, attempted := AfterSteps(scope, l, steps).disk, Base(saved, steps), Attempted(steps);
            var r := Recover(z, readable);
            if base.Some? then
              && r.Recovered?
              && PartOf(r.history, base.value, attempted)
              && ((forall a | a in attempted :: base.value <= a) ==>
                    base.value <= r.history || WithoutSystem(base.value) <= r.history)
            else match r
                 case NotFound => z.transcript.None?
                 case Failed => z.transcript.Some? && !readable
                 case Recovered(h, _) =>
                   && ThinnedOne(h, attempted)
                   && (Hole(scope, l, steps) || PartOf(h, [], attempted))
  {
    StepsKeep(scope, l, saved, steps);
    var z, base := AfterSteps(scope, l, steps), Base(saved, steps);
    if base.Some? {
      RecoverSecured(z, base.value, Attempted(steps), readable);
      if forall a | a in Attempted(steps) :: base.value <= a {
        PartLosesNothing(Recover(z.disk, readable).history, base.value, Attempted(steps));
      }
    }
  }

  /** Over the same runs, a completed save always ends with nothing lost but system messages. */
  lemma CompletedAfterAnyRun(
    scope: Scope, l: Live, saved: Option<seq<Message>>, steps: seq<Step>, history: seq<Message>, readable: bool)
    requires !scope.isSidechain && Begins(l, saved)
    ensures var before := AfterSteps(scope, l, steps);
            var r := Recover(AfterSteps(scope, l, steps + [Saving(history, SnapshotWritten)]).disk, readable);
            && r.Recovered?
            && r.history == (if Loses(before, history) || !readable then WithoutSystem(history) else history)
  {
    var before := AfterSteps(scope, l, steps);
    StepsKeep(scope, l, saved, steps);
    if Base(saved, steps).None? {
      UnsecuredIsSound(before, Attempted(steps), Hole(scope, l, steps));
    }
    CompletedSaveIsRecovered(scope, before, history, readable);
    assert (steps + [Saving(history, SnapshotWritten)])[..|steps|] == steps;
  }

  // ---------- A hole before the first completed save ----------

  lemma AfterLast(scope: Scope, l: Live, steps: seq<Step>, step: Step)
    ensures AfterSteps(scope, l, steps + [step]) == AfterStep(scope, AfterSteps(scope, l, steps), step)
    ensures Attempted(steps + [step]) == NextAttempted(Attempted(steps), step)
    ensures Base(None, steps + [step]) == NextBase(Base(None, steps), step)
    ensures Hole(scope, l, steps + [step])
            <==> NextHole(scope, AfterSteps(scope, l, steps), Hole(scope, l, steps), step)
  {
    assert (steps + [step])[..|steps|] == steps;
  }

  const NEVER_SAVED := Disk(None, None, None)

  function FirstCutSave(m: Message): seq<Step> {
    [] + [Saving([m], TranscriptWritten)]
  }

  function SecondCutSave(scope: Scope, m: Message, a: Message): Step {
    Saving([m, a], Appending(0, WholeTail(EntryOf(scope, 1, a))))
  }

  /** A first save without its snapshot, and a second one that stops before its newline. */
  function TwoCutSaves(scope: Scope, m: Message, a: Message): seq<Step> {
    FirstCutSave(m) + [SecondCutSave(scope, m, a)]
  }

  lemma OneNew(scope: Scope, m: Message, a: Message)
    ensures EntriesFrom(scope, [m, a], 1) == [EntryOf(scope, 1, a)]
  {
    assert [m, a][..1] == [m];
  }

  lemma TwoNew(scope: Scope, m: Message, a: Message, b: Message, c: Message)
    ensures EntriesFrom(scope, [m, a, b, c], 2) == [EntryOf(scope, 2, b), EntryOf(scope, 3, c)]
  {
    var h := [m, a, b, c];
    assert h[..3][..2] == h[..2] && h[..3][2] == b;
    assert EntriesFrom(scope, h[..3], 2) == [] + [EntryOf(scope, 2, b)];
  }

  lemma AfterFirstCutSave(scope: Scope, m: Message)
    requires !scope.isSidechain
    ensures var steps := FirstCutSave(m);
            && AfterSteps(scope, Fresh(NEVER_SAVED), steps)
               == Fresh(NEVER_SAVED.(transcript := Some(Rewritten(scope, [m]))))
            && Attempted(steps) == [[m]]
            && Base(None, steps) == None
  {
    AfterLast(scope, Fresh(NEVER_SAVED), [], Saving([m], TranscriptWritten));
    assert [] + [[m]] == [[m]];
  }

  lemma SecondNews(scope: Scope, m: Message, a: Message)
    requires !scope.isSidechain
    ensures var known := LoadOf(Rewritten(scope, [m]));
            Extends(known, [m, a]) && News(scope, known, [m, a]) == [EntryOf(scope, 1, a)]
  {
    RewrittenLoad(scope, [m]);
    OneNew(scope, m, a);
    assert [m] <= [m, a];
  }

  lemma SecondSave(scope: Scope, m: Message, a: Message)
    requires !scope.isSidechain
    ensures var l := Fresh(NEVER_SAVED.(transcript := Some(Rewritten(scope, [m]))));
            var f := Rewritten(scope, [m]).(tail := WholeTail(EntryOf(scope, 1, a)));
            AfterStep(scope, l, SecondCutSave(scope, m, a))
            == Fresh(NEVER_SAVED.(transcript := Some(f)))
  {
    var l := Fresh(NEVER_SAVED.(transcript := Some(Rewritten(scope, [m]))));
    SecondNews(scope, m, a);
    assert Pending(scope, l, [m, a]) == [EntryOf(scope, 1, a)];
    assert Possible(scope, l, [m, a], Appending(0, WholeTail(EntryOf(scope, 1, a))));
  }

  lemma AfterTwoCutSaves(scope: Scope, m: Message, a: Message)
    requires !scope.isSidechain
    ensures var steps := TwoCutSaves(scope, m, a);
            var f := Rewritten(scope, [m]).(tail := WholeTail(EntryOf(scope, 1, a)));
            && AfterSteps(scope, Fresh(NEVER_SAVED), steps) == Fresh(NEVER_SAVED.(transcript := Some(f)))
            && Attempted(steps) == [[m], [m, a]]
            && Base(None, steps) == None
  {
    AfterFirstCutSave(scope, m);
    SecondSave(scope, m, a);
    AfterLast(scope, Fresh(NEVER_SAVED), FirstCutSave(m), SecondCutSave(scope, m, a));
    assert [[m]] + [[m, a]] == [[m], [m, a]];
  }

  lemma UnterminatedSecond(scope: Scope, m: Message, a: Message)
    requires !scope.isSidechain
    ensures var f := Rewritten(scope, [m]).(tail := WholeTail(EntryOf(scope, 1, a)));
            && LoadOf(f) == Load(EntriesForMessages(scope, [m]) + [EntryOf(scope, 1, a)], 0)
            && Entries(f.lines) == EntriesForMessages(scope, [m])
            && VisibleHistory(f) == [m] + [a]
  {
    var f := Rewritten(scope, [m]).(tail := WholeTail(EntryOf(scope, 1, a)));
    LinesSplit(f);
    LinesSplit(Rewritten(scope, [m]));
    RewrittenLoad(scope, [m]);
    VisibleConcat(EntriesForMessages(scope, [m]), [EntryOf(scope, 1, a)]);
    VisibleOne(EntryOf(scope, 1, a));
  }

  lemma MergedThird(scope: Scope, m: Message, a: Message, b: Message, c: Message)
    requires !scope.isSidechain
    ensures var f := Rewritten(scope, [m]).(tail := WholeTail(EntryOf(scope, 1, a)));
            && Merges(Some(f), [m, a, b, c])
            && VisibleHistory(Sync(scope, Some(f), [m, a, b, c])) == [m] + [c]
  {
    var f := Rewritten(scope, [m]).(tail := WholeTail(EntryOf(scope, 1, a)));
    UnterminatedSecond(scope, m, a);
    TwoNew(scope, m, a, b, c);
    var news := [EntryOf(scope, 2, b), EntryOf(scope, 3, c)];
    assert News(scope, LoadOf(f), [m, a, b, c]) == news;
    MergedAppend(f, news);
    assert news[1..] == [EntryOf(scope, 3, c)];
    RewrittenLoad(scope, [m]);
    VisibleConcat(EntriesForMessages(scope, [m]), [EntryOf(scope, 3, c)]);
    VisibleOne(EntryOf(scope, 3, c));
  }

  lemma NotAPart(m: Message, a: Message, b: Message, c: Message)
    requires a != c
    ensures !PartOf([m, c], [], [[m], [m, a], [m, a, b, c]])
  {
    var attempted := [[m], [m, a], [m, a, b, c]];
    forall hi | hi in attempted ensures !([m, c] <= hi) {
      assert [m, c][1] == c;
    }
  }

  lemma ThirdSave(scope: Scope, m: Message, a: Message, b: Message, c: Message)
    requires !scope.isSidechain
    ensures var steps, third := TwoCutSaves(scope, m, a), Saving([m, a, b, c], TranscriptWritten);
            && Hole(scope, Fresh(NEVER_SAVED), steps + [third])
            && Attempted(steps + [third]) == [[m], [m, a], [m, a, b, c]]
            && AfterSteps(scope, Fresh(NEVER_SAVED), steps + [third])
               == AfterStep(scope, AfterSteps(scope, Fresh(NEVER_SAVED), steps), third)
  {
    AfterTwoCutSaves(scope, m, a);
    AfterLast(scope, Fresh(NEVER_SAVED), TwoCutSaves(scope, m, a), Saving([m, a, b, c], TranscriptWritten));
    MergedThird(scope, m, a, b, c);
    assert [[m], [m, a]] + [[m, a, b, c]] == [[m], [m, a], [m, a, b, c]];
  }

  lemma RecoverAlone(f: File)
    ensures Recover(NEVER_SAVED.(transcript := Some(f)), true) == Recovered(VisibleHistory(f), FromTranscript)
  {
  }

  /**
   The exception happens: when a third save appends behind the second one's unterminated entry,
   and no snapshot exists yet, recovery yields the first message and the last one.
   */
  lemma HoleBeforeFirstSnapshot(scope: Scope, m: Message, a: Message, b: Message, c: Message)
    requires !scope.isSidechain && a != c
    ensures var steps := TwoCutSaves(scope, m, a) + [Saving([m, a, b, c], TranscriptWritten)];
            && Begins(Fresh(NEVER_SAVED), None) && Hole(scope, Fresh(NEVER_SAVED), steps)
            && Recover(AfterSteps(scope, Fresh(NEVER_SAVED), steps).disk, true) == Recovered([m] + [c], FromTranscript)
            && !PartOf([m, c], [], Attempted(steps))
  {
    var f := Rewritten(scope, [m]).(tail := WholeTail(EntryOf(scope, 1, a)));
    ThirdSave(scope, m, a, b, c);
    AfterTwoCutSaves(scope, m, a);
    MergedThird(scope, m, a, b, c);
    RecoverAlone(Sync(scope, Some(f), [m, a, b, c]));
    NotAPart(m, a, b, c);
  }
}
