/**
 The bounded diagnostic queue of `src/diagnostics.rs`: the oldest record makes room for the
 newest, repeats of the last record are ignored, and a drain reports how many were omitted.
 */
module Diagnostics {
  import opened Prelude

  const MAX_PENDING := 256

  datatype Level = Error | Warn

  datatype Diagnostic = Diagnostic(level: Level, message: string)

  function OverflowNote(dropped: nat): Diagnostic {
    Diagnostic(Warn, "Diagnostic queue overflow: " + Decimal(dropped) + " earlier messages were omitted.")
  }

  datatype State = State(records: seq<Diagnostic>, last: Option<Diagnostic>, dropped: U64)

  const EMPTY := State([], None, 0)

  function Push(s: State, d: Diagnostic): State {
    if s.last == Some(d) then s
    else if |s.records| == MAX_PENDING then
      State(s.records[1..] + [d], Some(d), if s.dropped < U64_MAX then s.dropped + 1 else U64_MAX)
    else State(s.records + [d], Some(d), s.dropped)
  }

  function Drained(s: State): seq<Diagnostic> {
    s.records + if s.dropped != 0 then [OverflowNote(s.dropped)] else []
  }

  class PendingDiagnostics {
    var records: seq<Diagnostic>
    var last: Option<Diagnostic>
    var dropped: U64

    constructor ()
      ensures View() == EMPTY
    {
      records, last, dropped := [], None, 0;
    }

    ghost function View(): State
      reads this
    {
      State(records, last, dropped)
    }

    method PushDiagnostic(d: Diagnostic)
      modifies this
      ensures View() == Push(old(View()), d)
    {
      if last == Some(d) {
        return;
      }
      last := Some(d);
      if |records| == MAX_PENDING {
        records := records[1..];
        if dropped < U64_MAX {
          dropped := dropped + 1;
        }
      }
      records := records + [d];
    }

    method Drain() returns (drained: seq<Diagnostic>)
      modifies this
      ensures drained == Drained(old(View()))
      ensures View() == old(View()).(records := [], dropped := 0)
    {
      drained := records;
      records := [];
      if dropped != 0 {
        drained := drained + [OverflowNote(dropped)];
        dropped := 0;
      }
    }
  }

  // ---------- Runs ----------

  datatype Event = Pushed(d: Diagnostic) | DrainAll

  /**
   The queue together with what an observer knows: every record accepted so far, how many of them
   before the last drain, and what each drain returned, with the records accepted before it and
   after the previous one.
   */
  datatype World = World(
    state: State, accepted: seq<Diagnostic>, mark: nat, drains: seq<seq<Diagnostic>>, batches: seq<seq<Diagnostic>>)

  function Step(w: World, e: Event): World {
    match e
    case Pushed(d) =>
      w.(state := Push(w.state, d), accepted := if w.state.last == Some(d) then w.accepted else w.accepted + [d])
    case DrainAll =>
      World(w.state.(records := [], dropped := 0), w.accepted, |w.accepted|,
            w.drains + [Drained(w.state)],
            w.batches + [w.accepted[if w.mark <= |w.accepted| then w.mark else 0..]])
  }

  function Run(events: seq<Event>): World {
    if events == [] then World(EMPTY, [], 0, [], [])
    else Step(Run(events[..|events| - 1]), events[|events| - 1])
  }

  /** How many of the records accepted since the last drain no longer fit. */
  function Overflow(w: World): int {
    |w.accepted| - w.mark - |w.state.records|
  }

  /** The newest `n` elements. */
  function Newest(all: seq<Diagnostic>, n: nat): seq<Diagnostic>
    requires n <= |all|
  {
    all[|all| - n..]
  }

  predicate Kept(w: World) {
    && w.mark <= |w.accepted|
    && |w.state.records| == (if |w.accepted| - w.mark < MAX_PENDING then |w.accepted| - w.mark else MAX_PENDING)
    && w.state.records == Newest(w.accepted, |w.state.records|)
    && w.state.dropped == (if Overflow(w) < U64_MAX then Overflow(w) else U64_MAX)
    && w.state.last == (if w.accepted == [] then None else Some(w.accepted[|w.accepted| - 1]))
  }

  lemma NewestGrows(all: seq<Diagnostic>, n: nat, d: Diagnostic)
    requires n <= |all|
    ensures Newest(all + [d], n + 1) == Newest(all, n) + [d]
    ensures n > 0 ==> Newest(all + [d], n) == Newest(all, n)[1..] + [d]
  {
  }

  lemma NewestOfRest(all: seq<Diagnostic>, mark: nat, n: nat)
    requires n <= |all| - mark
    ensures Newest(all[mark..], n) == Newest(all, n)
  {
  }

  lemma StepKeeps(w: World, e: Event)
    requires Kept(w)
    ensures Kept(Step(w, e))
  {
    if e.Pushed? {
      NewestGrows(w.accepted, |w.state.records|, e.d);
    }
  }

  lemma {:induction false} RunKeeps(events: seq<Event>)
    ensures Kept(Run(events))
  {
    if events != [] {
      RunKeeps(events[..|events| - 1]);
      StepKeeps(Run(events[..|events| - 1]), events[|events| - 1]);
    }
  }

  /**
   At any moment the queue holds exactly the newest records accepted since the last drain, at
   most 256 of them, and the counter says how many older ones were pushed out, up to the
   largest number it can hold.
   */
  lemma {:induction false} QueueIsNewestSuffix(events: seq<Event>)
    ensures var w := Run(events);
            var recent := w.accepted[if w.mark <= |w.accepted| then w.mark else 0..];
            var kept := if |recent| < MAX_PENDING then |recent| else MAX_PENDING;
            && w.mark <= |w.accepted|
            && w.state.records == recent[|recent| - kept..]
            && w.state.dropped == if |recent| - kept < U64_MAX then |recent| - kept else U64_MAX
  {
    RunKeeps(events);
  }

  /** No record is accepted twice in a row, drains in between included. */
  lemma {:induction false} RepeatsAreIgnored(events: seq<Event>, i: nat)
    requires i + 1 < |Run(events).accepted|
    ensures Run(events).accepted[i] != Run(events).accepted[i + 1]
  {
    var before := Run(events[..|events| - 1]);
    RunKeeps(events[..|events| - 1]);
    if i + 1 < |before.accepted| {
      RepeatsAreIgnored(events[..|events| - 1], i);
    }
  }

  /** The note that tells how many records were omitted. */
  predicate IsNote(d: Diagnostic, omitted: nat) {
    && d.level == Warn
    && d.message == "Diagnostic queue overflow: " + Decimal(omitted) + " earlier messages were omitted."
  }

  /** The newest of the records that fit, in order, and a note on how many older ones there were. */
  predicate Reports(drained: seq<Diagnostic>, batch: seq<Diagnostic>) {
    if |batch| <= 256 then drained == batch
    else
      && |drained| == 257 && drained[..256] == Newest(batch, 256)
      && IsNote(drained[256], if |batch| - 256 <= U64_MAX then |batch| - 256 else U64_MAX)
  }

  function Flattened(batches: seq<seq<Diagnostic>>): seq<Diagnostic> {
    if batches == [] then [] else Flattened(batches[..|batches| - 1]) + batches[|batches| - 1]
  }

  ghost predicate DrainsReport(w: World) {
    && |w.drains| == |w.batches|
    && (forall i | 0 <= i < |w.drains| :: Reports(w.drains[i], w.batches[i]))
    && w.mark <= |w.accepted|
    && Flattened(w.batches) == w.accepted[..w.mark]
  }

  lemma NoteIsNote(omitted: nat)
    ensures IsNote(OverflowNote(omitted), omitted)
  {
  }

  lemma AllFit(s: State, batch: seq<Diagnostic>)
    requires |batch| <= 256 && s.dropped == 0 && |s.records| == |batch| && s.records == Newest(batch, |batch|)
    ensures Drained(s) == batch
  {
  }

  lemma SomeOmitted(s: State, batch: seq<Diagnostic>)
    requires |batch| > 256 && |s.records| == 256 && s.records == Newest(batch, 256)
    requires s.dropped == if |batch| - 256 <= U64_MAX then |batch| - 256 else U64_MAX
    ensures Reports(Drained(s), batch)
  {
    NoteIsNote(s.dropped);
    assert Drained(s) == s.records + [OverflowNote(s.dropped)];
    assert (s.records + [OverflowNote(s.dropped)])[..256] == s.records;
  }

  lemma DrainReports(w: World)
    requires Kept(w)
    ensures Reports(Drained(w.state), w.accepted[w.mark..])
  {
    var batch := w.accepted[w.mark..];
    NewestOfRest(w.accepted, w.mark, |w.state.records|);
    if |batch| <= 256 {
      AllFit(w.state, batch);
    } else {
      SomeOmitted(w.state, batch);
    }
  }

  lemma FlattenedSnoc(batches: seq<seq<Diagnostic>>, batch: seq<Diagnostic>)
    ensures Flattened(batches + [batch]) == Flattened(batches) + batch
  {
    assert (batches + [batch])[..|batches|] == batches;
  }

  lemma BatchEnds(batches: seq<seq<Diagnostic>>, all: seq<Diagnostic>, mark: nat)
    requires mark <= |all| && Flattened(batches) == all[..mark]
    ensures Flattened(batches + [all[mark..]]) == all[..|all|]
  {
    FlattenedSnoc(batches, all[mark..]);
    assert all[..mark] + all[mark..] == all;
  }

  lemma PushedReports(w: World, d: Diagnostic)
    requires DrainsReport(w)
    ensures DrainsReport(Step(w, Pushed(d)))
  {
    assert (w.accepted + [d])[..w.mark] == w.accepted[..w.mark];
  }

  lemma DrainedReports(w: World)
    requires Kept(w) && DrainsReport(w)
    ensures DrainsReport(Step(w, DrainAll))
  {
    DrainReports(w);
    BatchEnds(w.batches, w.accepted, w.mark);
  }

  lemma StepReports(w: World, e: Event)
    requires Kept(w) && DrainsReport(w)
    ensures DrainsReport(Step(w, e))
  {
    match e
    case Pushed(d) => PushedReports(w, d);
    case DrainAll => DrainedReports(w);
  }

  lemma {:induction false} RunReports(events: seq<Event>)
    ensures DrainsReport(Run(events))
  {
    if events != [] {
      var before := events[..|events| - 1];
      RunReports(before);
      RunKeeps(before);
      StepReports(Run(before), events[|events| - 1]);
    }
  }

  lemma Together(a: seq<Diagnostic>, all: seq<Diagnostic>, mark: nat)
    requires mark <= |all| && a == all[..mark]
    ensures a + all[mark..] == all
  {
  }

  /**
   Conservation: every accepted record belongs to exactly one drain, or to the next one, and each
   drain returns the newest 256 of its records in order and says how many older ones it omits.
   */
  lemma DrainsAccountForEveryRecord(events: seq<Event>)
    ensures
      var w := Run(events);
      && |w.drains| == |w.batches| && w.mark <= |w.accepted|
      && (forall i | 0 <= i < |w.drains| :: Reports(w.drains[i], w.batches[i]))
      && Flattened(w.batches) + w.accepted[w.mark..] == w.accepted
  {
    var w := Run(events);
    RunReports(events);
    Together(Flattened(w.batches), w.accepted, w.mark);
  }

  /** A record is accepted unless it repeats the one accepted last, drained or not. */
  lemma PushIsAcceptedIff(events: seq<Event>, d: Diagnostic)
    ensures
      var w, next := Run(events), Run(events + [Pushed(d)]);
      next.accepted == if w.accepted != [] && w.accepted[|w.accepted| - 1] == d then w.accepted else w.accepted + [d]
  {
    RunKeeps(events);
    assert (events + [Pushed(d)])[..|events|] == events;
  }
}
