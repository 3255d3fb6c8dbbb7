/** Scrubbing reaches a normal form, keeps clean text, and removes exactly blocks and markers. */
module ControlTokensNormalForm {
  import opened Prelude
  import opened ControlTokens

  /** A pattern without whitespace: no inserted newline can be part of it. */
  predicate Solid(pat: string) {
    pat != [] && forall i | 0 <= i < |pat| :: !IsWhitespace(pat[i])
  }

  predicate IsMarker(m: string) {
    |m| >= 4 && MarkerAt(m, 0, |m| - 2)
  }

  ghost predicate NormalForm(s: string) {
    && !Contains(s, "<agent_runtime>") && !Contains(s, "<agent_runtime_error>")
    && !Contains(s, "<rara_internal_history_context>")
    && forall m | IsMarker(m) :: !Contains(s, m)
  }

  /** The name in a marker is made of ASCII letters and digits, `_` and `-`, here by their codes. */
  lemma NamesAreAscii(c: char)
    ensures NameChar(c) <==>
              48 <= c as int <= 57 || 65 <= c as int <= 90 || 97 <= c as int <= 122 || c as int == 95 || c as int == 45
  {
  }

  /** Nothing can straddle the place where `a` and `b` meet. */
  predicate Broken(a: string, b: string) {
    !EndsVisible(a) || !StartsVisible(b)
  }

  lemma AtInSubtext(s: string, lo: nat, hi: nat, pat: string, i: nat)
    requires lo <= hi <= |s| && At(s[lo..hi], pat, i)
    ensures At(s, pat, lo + i)
  {
  }

  lemma SubtextContainsLess(s: string, lo: nat, hi: nat, pat: string)
    requires lo <= hi <= |s| && !Contains(s, pat)
    ensures !Contains(s[lo..hi], pat)
  {
    if Contains(s[lo..hi], pat) {
      var i: nat :| i <= hi - lo && At(s[lo..hi], pat, i);
      AtInSubtext(s, lo, hi, pat, i);
    }
  }

  /** A solid occurrence across the seam makes both sides of it visible. */
  lemma StraddleIsVisible(a: string, b: string, pat: string, i: nat)
    requires Solid(pat) && At(a + b, pat, i) && i < |a| < i + |pat|
    ensures EndsVisible(a) && StartsVisible(b)
  {
    assert pat[|a| - 1 - i] == (a + b)[|a| - 1];
    assert pat[|a| - i] == (a + b)[|a|];
  }

  lemma OccurrenceHasASide(a: string, b: string, pat: string, i: nat)
    requires Solid(pat) && Broken(a, b) && At(a + b, pat, i)
    ensures Contains(a, pat) || Contains(b, pat)
  {
    if i + |pat| <= |a| {
      assert (a + b)[..|a|] == a;
      assert At(a, pat, i);
    } else if |a| <= i {
      assert forall k | 0 <= k < |pat| :: pat[k] == (a + b)[i + k] == b[i - |a| + k];
      assert At(b, pat, i - |a|);
    } else {
      StraddleIsVisible(a, b, pat, i);
    }
  }

  /** Joining two texts at a broken place creates no new occurrence of a solid pattern. */
  lemma JoinCreatesNothing(a: string, b: string, pat: string)
    requires Solid(pat) && Broken(a, b)
    requires !Contains(a, pat) && !Contains(b, pat)
    ensures !Contains(a + b, pat)
  {
    if Contains(a + b, pat) {
      var i: nat :| i <= |a + b| && At(a + b, pat, i);
      OccurrenceHasASide(a, b, pat, i);
    }
  }

  lemma NewlineContainsNothing(pat: string)
    requires Solid(pat)
    ensures !Contains("\n", pat) && !Contains("", pat)
  {
    forall i: nat | i <= 1
      ensures !At("\n", pat, i)
    {
      var first := pat[0];
      assert !IsWhitespace(first);
    }
  }

  /** Up to its first occurrence from `pos` on, a text does not contain the pattern. */
  lemma NothingBeforeFirst(s: string, pat: string, pos: nat, start: nat)
    requires pos <= start <= |s| && forall j | pos <= j < start :: !At(s, pat, j)
    requires pat != []
    ensures !Contains(s[pos..start], pat)
  {
    if Contains(s[pos..start], pat) {
      var i: nat :| i <= start - pos && At(s[pos..start], pat, i);
      AtInSubtext(s, pos, start, pat, i);
    }
  }

  /** No occurrence of the pattern opens inside the piece. */
  ghost predicate Free(s: string, p: Piece, pat: string) {
    Within(p, s) && !Contains(s[p.lo..p.hi], pat)
  }

  /** Appending a free piece, with the newline where visible text would be joined, creates nothing. */
  lemma JoinedCreatesNothing(pass: Pass, cleaned: string, s: string, p: Piece, pat: string)
    requires Solid(pat) && !Contains(cleaned, pat) && Free(s, p, pat)
    ensures !Contains(Joined(pass, cleaned, s, p), pat)
  {
    var piece := s[p.lo..p.hi];
    if NeedsNewline(pass, cleaned, s, p.lo) {
      NewlineContainsNothing(pat);
      JoinCreatesNothing(cleaned, "\n", pat);
      JoinCreatesNothing(cleaned + "\n", piece, pat);
    } else {
      JoinCreatesNothing(cleaned, piece, pat);
    }
  }

  lemma {:induction false} RenderCreatesNothing(pass: Pass, cleaned: string, s: string, pieces: seq<Piece>, pat: string)
    requires Solid(pat) && !Contains(cleaned, pat)
    requires forall p | p in pieces :: Within(p, s) && Free(s, p, pat)
    ensures !Contains(Render(pass, cleaned, s, pieces), pat)
    decreases |pieces|
  {
    if pieces != [] {
      JoinedCreatesNothing(pass, cleaned, s, pieces[0], pat);
      RenderCreatesNothing(pass, Joined(pass, cleaned, s, pieces[0]), s, pieces[1..], pat);
    }
  }

  /** No opening tag occurs in what the block pass keeps. */
  lemma {:induction false} BlockPiecesAreFree(s: string, pos: nat, tag: Tag)
    requires pos <= |s| && tag.open != []
    ensures forall p | p in BlockPieces(s, pos, tag) :: Free(s, p, tag.open)
    decreases |s| - pos
  {
    match Find(s, tag.open, pos) {
      case None => NothingBeforeFirst(s, tag.open, pos, |s|);
      case Some(start) =>
        NothingBeforeFirst(s, tag.open, pos, start);
        var close := Find(s, tag.close, start + |tag.open|);
        if close.Some? {
          BlockPiecesAreFree(s, close.value + |tag.close|, tag);
        }
    }
  }

  lemma SubpiecesAreFree(s: string, pieces: seq<Piece>, pat: string)
    requires !Contains(s, pat) && forall p | p in pieces :: Within(p, s)
    ensures forall p | p in pieces :: Free(s, p, pat)
  {
    forall p | p in pieces
      ensures Free(s, p, pat)
    {
      SubtextContainsLess(s, p.lo, p.hi, pat);
    }
  }

  /**
   Cutting the blocks of a tag leaves no opening tag of its own, and brings in no solid pattern
   that was not in the text before.
   */
  lemma BlockPassCreatesNothing(s: string, tag: Tag, pat: string)
    requires Solid(pat) && tag.open != []
    requires pat == tag.open || !Contains(s, pat)
    ensures !Contains(StripBlocks(s, tag), pat)
  {
    if pat == tag.open {
      BlockPiecesAreFree(s, 0, tag);
    } else {
      SubpiecesAreFree(s, BlockPieces(s, 0, tag), pat);
    }
    NewlineContainsNothing(pat);
    RenderCreatesNothing(Blocks, "", s, BlockPieces(s, 0, tag), pat);
  }

  lemma PrintingIsSolid(pat: string)
    requires pat != [] && forall i | 0 <= i < |pat| :: '!' <= pat[i] <= '~'
    ensures Solid(pat)
  {
  }

  lemma RuntimeTagsAreSolid()
    ensures Solid(RUNTIME.open) && Solid(RUNTIME_ERROR.open)
  {
    PrintingIsSolid(RUNTIME.open);
    PrintingIsSolid(RUNTIME_ERROR.open);
  }

  lemma HistoryTagIsSolid()
    ensures Solid(HISTORY.open)
  {
    PrintingIsSolid(HISTORY.open);
  }

  lemma TagsAreSolid()
    ensures Solid(RUNTIME.open) && Solid(RUNTIME_ERROR.open) && Solid(HISTORY.open)
  {
    RuntimeTagsAreSolid();
    HistoryTagIsSolid();
  }

  /** After the three block passes none of the three opening tags is left, whichever pass removed text around it. */
  lemma InternalPassRemovesTags(message: string)
    ensures
      var out := StripInternal(message);
      !Contains(out, RUNTIME.open) && !Contains(out, RUNTIME_ERROR.open) && !Contains(out, HISTORY.open)
  {
    TagsAreSolid();
    var one := StripBlocks(message, RUNTIME);
    var two := StripBlocks(one, RUNTIME_ERROR);
    BlockPassCreatesNothing(message, RUNTIME, RUNTIME.open);
    BlockPassCreatesNothing(one, RUNTIME_ERROR, RUNTIME.open);
    BlockPassCreatesNothing(one, RUNTIME_ERROR, RUNTIME_ERROR.open);
    BlockPassCreatesNothing(two, HISTORY, RUNTIME.open);
    BlockPassCreatesNothing(two, HISTORY, RUNTIME_ERROR.open);
    BlockPassCreatesNothing(two, HISTORY, HISTORY.open);
  }

  // ---------------------------------------------------------------------------
  // Markers
  // ---------------------------------------------------------------------------

  lemma MarkersAreSolid(m: string)
    requires IsMarker(m)
    ensures Solid(m)
  {
  }

  lemma OccurringMarkerOpens(s: string, i: nat, m: string)
    requires IsMarker(m) && At(s, m, i)
    ensures MarkerAt(s, i, i + |m| - 2)
  {
    assert m[0] == s[i] && m[|m| - 2] == s[i + |m| - 2] && m[|m| - 1] == s[i + |m| - 1];
    forall j | i < j < i + |m| - 2
      ensures NameChar(s[j])
    {
      assert m[j - i] == s[i + (j - i)];
    }
  }

  lemma OpenMarkerOccurs(s: string, i: nat, e: nat)
    requires MarkerAt(s, i, e)
    ensures IsMarker(s[i..e + 2]) && Contains(s, s[i..e + 2])
  {
    assert At(s, s[i..e + 2], i);
  }

  lemma UnmarkedContainsNoMarker(s: string, pos: nat, end: nat, m: string)
    requires pos <= end <= |s| && NoMarkerBetween(s, pos, end) && IsMarker(m)
    ensures !Contains(s[pos..end], m)
  {
    if Contains(s[pos..end], m) {
      var k: nat :| k <= end - pos && At(s[pos..end], m, k);
      AtInSubtext(s, pos, end, m, k);
      OccurringMarkerOpens(s, pos + k, m);
    }
  }

  /** No marker opens in what the marker pass keeps. */
  lemma {:induction false} MarkerPiecesAreFree(s: string, pos: nat, m: string)
    requires pos <= |s| && IsMarker(m)
    ensures forall p | p in MarkerPieces(s, pos) :: Free(s, p, m)
    decreases |s| - pos
  {
    match NextMarker(s, pos) {
      case None => UnmarkedContainsNoMarker(s, pos, |s|, m);
      case Some(first) =>
        UnmarkedContainsNoMarker(s, pos, first.start, m);
        MarkerPiecesAreFree(s, first.end + 2, m);
    }
  }

  /** Cutting markers leaves none, and brings in no solid pattern that was not in the text before. */
  lemma MarkerPassCreatesNothing(s: string, pat: string)
    requires Solid(pat)
    requires IsMarker(pat) || !Contains(s, pat)
    ensures !Contains(StripMarkers(s), pat)
  {
    if IsMarker(pat) {
      MarkerPiecesAreFree(s, 0, pat);
    } else {
      SubpiecesAreFree(s, MarkerPieces(s, 0), pat);
    }
    NewlineContainsNothing(pat);
    RenderCreatesNothing(Markers, "", s, MarkerPieces(s, 0), pat);
  }

  lemma RenderWhole(pass: Pass, s: string)
    ensures Render(pass, "", s, [Piece(0, |s|)]) == s
  {
  }

  /** A text in which no marker opens passes the scan unchanged. */
  lemma NoMarkersNoChange(s: string)
    requires NoMarkerBetween(s, 0, |s|)
    ensures StripMarkers(s) == s
  {
    RenderWhole(Markers, s);
  }

  // ---------------------------------------------------------------------------
  // The scrubber
  // ---------------------------------------------------------------------------

  /** The shortcut for text without an angle bracket agrees with the full scan. */
  lemma ShortcutAgreesWithScan(message: string)
    ensures Scrub(message) == StripMarkers(StripInternal(message))
  {
    var visible := StripInternal(message);
    if '<' !in visible {
      NoMarkersNoChange(visible);
    }
  }

  /** The output contains none of the opening tags and no marker. */
  lemma ScrubReachesNormalForm(message: string)
    ensures NormalForm(Scrub(message))
  {
    ShortcutAgreesWithScan(message);
    var visible := StripInternal(message);
    InternalPassRemovesTags(message);
    TagsAreSolid();
    forall pat | pat == RUNTIME.open || pat == RUNTIME_ERROR.open || pat == HISTORY.open || IsMarker(pat)
      ensures !Contains(Scrub(message), pat)
    {
      if IsMarker(pat) { MarkersAreSolid(pat); }
      MarkerPassCreatesNothing(visible, pat);
    }
  }

  lemma UntaggedIsKept(message: string, tag: Tag)
    requires tag.open != [] && !Contains(message, tag.open)
    ensures StripBlocks(message, tag) == message
  {
    RenderWhole(Blocks, message);
  }

  /** Clean text is left alone. */
  lemma ScrubKeepsCleanText(message: string)
    requires NormalForm(message)
    ensures Scrub(message) == message
  {
    assert StripInternal(message) == message by {
      UntaggedIsKept(message, RUNTIME);
      UntaggedIsKept(message, RUNTIME_ERROR);
      UntaggedIsKept(message, HISTORY);
    }
    forall j: nat, e: nat
      ensures !MarkerAt(message, j, e)
    {
      if MarkerAt(message, j, e) {
        OpenMarkerOccurs(message, j, e);
      }
    }
    ShortcutAgreesWithScan(message);
    NoMarkersNoChange(message);
  }

  lemma ScrubIsIdempotent(message: string)
    ensures Scrub(Scrub(message)) == Scrub(message)
  {
    ScrubReachesNormalForm(message);
    ScrubKeepsCleanText(Scrub(message));
  }

  // ---------------------------------------------------------------------------
  // What is kept
  // ---------------------------------------------------------------------------

  lemma FindIs(s: string, pat: string, pos: nat, i: nat)
    requires FirstAt(s, pat, pos, i)
    ensures Find(s, pat, pos) == Some(i)
  {
  }

  ghost predicate NowhereFrom(s: string, pat: string, pos: nat) {
    forall i: nat | pos <= i :: !At(s, pat, i)
  }

  lemma RenderTwo(pass: Pass, s: string, p: Piece, q: Piece)
    requires Within(p, s) && Within(q, s) && p.lo == 0
    ensures Render(pass, "", s, [p] + [q]) == Joined(pass, s[..p.hi], s, q)
  {
    RenderStep(pass, "", s, p, [q]);
    RenderLast(pass, Joined(pass, "", s, p), s, q);
    assert "" + s[0..p.hi] == s[..p.hi];
  }

  /** Exactly the block goes: the text around it stays, with a newline only where visible text would be joined. */
  lemma BalancedBlockIsCut(s: string, tag: Tag, start: nat, end: nat)
    requires tag.open != [] && FirstAt(s, tag.open, 0, start) && FirstAt(s, tag.close, start + |tag.open|, end)
    requires NowhereFrom(s, tag.open, end + |tag.close|)
    ensures
      var before, after := s[..start], s[end + |tag.close|..];
      StripBlocks(s, tag) == before + (if EndsVisible(before) && StartsVisible(after) then "\n" else "") + after
  {
    var next := end + |tag.close|;
    FindIs(s, tag.open, 0, start);
    FindIs(s, tag.close, start + |tag.open|, end);
    var p, q := Piece(0, start), Piece(next, |s|);
    assert BlockPieces(s, 0, tag) == [p] + [q];
    RenderTwo(Blocks, s, p, q);
    assert s[next..] == s[next..|s|];
    assert next < |s| ==> s[next] == s[next..][0];
  }

  /** An unclosed block takes everything after its opening tag, and nothing before it. */
  lemma OpenBlockIsCut(s: string, tag: Tag, start: nat)
    requires tag.open != [] && FirstAt(s, tag.open, 0, start) && NowhereFrom(s, tag.close, start + |tag.open|)
    ensures StripBlocks(s, tag) == s[..start]
  {
    FindIs(s, tag.open, 0, start);
    var p := Piece(0, start);
    assert BlockPieces(s, 0, tag) == [p];
    RenderLast(Blocks, "", s, p);
    assert "" + s[0..start] == s[..start];
  }

  /** Exactly the only marker goes; the text around it stays. */
  lemma MarkerIsCut(s: string, m: Marker)
    requires FirstMarker(s, 0, m) && NoMarkerBetween(s, m.end + 2, |s|)
    ensures StripMarkers(s) == s[..m.start] + (if EndsVisible(s[..m.start]) then "\n" else "") + s[m.end + 2..]
  {
    FirstMarkerIsUnique(s, 0, m);
    var p, q := Piece(0, m.start), Piece(m.end + 2, |s|);
    assert MarkerPieces(s, m.end + 2) == [q];
    assert MarkerPieces(s, 0) == [p] + [q];
    RenderTwo(Markers, s, p, q);
  }
}
