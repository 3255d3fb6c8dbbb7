/**
 Which of transcript, snapshot and legacy history recovery believes, told by what lies on disk, and
 what it leaves there for the next time.
 */
module SessionRecovery {
  import opened Prelude
  import opened Transcript
  import opened TranscriptRuns
  import opened SessionSave

  predicate NoFallback(d: Disk) {
    d.snapshot == None && d.legacy == None
  }

  /** `h` is `x` with something missing at its end. */
  predicate ProperPrefix(h: seq<Message>, x: seq<Message>) {
    |h| < |x| && h == x[..|h|]
  }

  /**
   The transcript is believed if and only if it can be read and, should there be a snapshot or a
   legacy history, all of it parses, it shows a message, and it is not a snapshot cut short.
   */
  lemma TranscriptIsBelievedIff(d: Disk, readable: bool)
    ensures
      var r := Recover(d, readable);
      && (r.Recovered? && r.source == FromTranscript <==>
            && d.transcript.Some? && readable
            && (!NoFallback(d) ==>
                  && VisibleHistory(d.transcript.value) != []
                  && LoadOf(d.transcript.value).parseErrors == 0
                  && forall x | d.snapshot == Some(Whole(x)) :: !ProperPrefix(VisibleHistory(d.transcript.value), x)))
      && (r.Recovered? && r.source == FromTranscript ==> r.history == VisibleHistory(d.transcript.value))
  {
    var visible := if d.transcript.Some? then VisibleHistory(d.transcript.value) else [];
    if d.snapshot.Some? && d.snapshot.value.Whole? {
      assert d.snapshot == Some(Whole(d.snapshot.value.history));
      assert visible <= d.snapshot.value.history <==>
               |visible| <= |d.snapshot.value.history| && visible == d.snapshot.value.history[..|visible|];
    }
  }

  /** Otherwise the snapshot counts, then the legacy history; a file that does not parse is a failure. */
  lemma FallbackOtherwise(d: Disk, readable: bool)
    ensures
      var r := Recover(d, readable);
      !(r.Recovered? && r.source == FromTranscript) ==>
        && (forall x | d.snapshot == Some(Whole(x)) :: r == Recovered(x, FromSnapshot))
        && (forall x | d.snapshot == None && d.legacy == Some(Whole(x)) :: r == Recovered(x, FromLegacy))
        && (r == Failed <==>
              || d.snapshot == Some(Corrupt)
              || (d.snapshot == None && d.legacy == Some(Corrupt))
              || (NoFallback(d) && d.transcript.Some?))
        && (r == NotFound <==> NoFallback(d) && d.transcript.None?)
  {
    if d.snapshot.Some? && d.snapshot.value.Whole? {
      assert d.snapshot == Some(Whole(d.snapshot.value.history));
    }
    if d.legacy.Some? && d.legacy.value.Whole? {
      assert d.legacy == Some(Whole(d.legacy.value.history));
    }
  }

  /** With an intact snapshot recovery succeeds, and never with less than a part of the snapshot. */
  lemma NeverLessThanTheSnapshot(d: Disk, readable: bool, x: seq<Message>)
    requires d.snapshot == Some(Whole(x))
    ensures Recover(d, readable).Recovered? && !ProperPrefix(Recover(d, readable).history, x)
    ensures x != [] ==> Recover(d, readable).history != []
  {
    TranscriptIsBelievedIff(d, readable);
    FallbackOtherwise(d, readable);
  }

  /** Nor does an empty transcript hide a legacy history. */
  lemma LegacyIsNotHidden(d: Disk, readable: bool, x: seq<Message>)
    requires d.snapshot == None && d.legacy == Some(Whole(x)) && x != []
    ensures Recover(d, readable).Recovered? && Recover(d, readable).history != []
  {
    TranscriptIsBelievedIff(d, readable);
    FallbackOtherwise(d, readable);
  }

  /** A transcript that cannot be read, with nothing to fall back on, is a failure and not a new session. */
  lemma UnreadableIsNotNew(d: Disk)
    requires d.transcript.Some? && NoFallback(d)
    ensures Recover(d, false) == Failed
  {
  }

  /**
   A fallback is written back: whatever it recovered from, it is in the snapshot afterwards, unless
   it is an empty legacy history; and once mirrored, the transcript shows it without errors.
   */
  lemma FallbackIsWrittenBack(l: Live, scope: Scope, readable: bool, mirrored: bool)
    requires !scope.isSidechain
    requires Recover(l.disk, readable).Recovered? && Recover(l.disk, readable).source != FromTranscript
    ensures
      var h, after := Recover(l.disk, readable).history, AfterRecovery(l, scope, readable, mirrored).disk;
      if l.disk.snapshot == None && h == [] then after == l.disk
      else
        && after.snapshot == Some(Whole(h)) && after.legacy == l.disk.legacy
        && (mirrored ==> after.transcript.Some? && Holds(after.transcript.value, h))
        && (!mirrored ==> after.transcript == l.disk.transcript)
  {
    TranscriptIsBelievedIff(l.disk, readable);
    FallbackOtherwise(l.disk, readable);
    RewrittenLoad(scope, Recover(l.disk, readable).history);
  }

  /** Recovery that fails, finds nothing or believes the transcript writes nothing. */
  lemma OtherwiseNothingIsWritten(l: Live, scope: Scope, readable: bool, mirrored: bool)
    requires !(Recover(l.disk, readable).Recovered? && Recover(l.disk, readable).source != FromTranscript)
    ensures AfterRecovery(l, scope, readable, mirrored) == l
  {
  }

  /** From then on the transcript is believed again, and the same history is found without the legacy file. */
  lemma NextRecoveryNeedsNoLegacy(l: Live, scope: Scope, readable: bool)
    requires !scope.isSidechain
    requires Recover(l.disk, readable).Recovered? && Recover(l.disk, readable).source != FromTranscript
    requires Recover(l.disk, readable).history != []
    ensures
      var after := AfterRecovery(l, scope, readable, true).disk;
      Recover(after.(legacy := None), true) == Recovered(Recover(l.disk, readable).history, FromTranscript)
  {
    FallbackIsWrittenBack(l, scope, readable, true);
    TranscriptIsBelievedIff(AfterRecovery(l, scope, readable, true).disk.(legacy := None), true);
  }
}
