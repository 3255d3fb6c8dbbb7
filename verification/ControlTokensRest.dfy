/**
 Texts with any number of blocks and markers: behind the first one the scan goes on as if the rest
 were a text of its own, so every text in between is kept.
 */
module ControlTokensRest {
  import opened Prelude
  import opened ControlTokens
  import opened ControlTokensNormalForm

  /** `t` is what follows position `n` of `s`. */
  ghost predicate Rest(s: string, n: nat, t: string) {
    n + |t| == |s| && forall i | 0 <= i < |t| :: t[i] == s[n + i]
  }

  lemma DropIsRest(s: string, n: nat)
    requires n <= |s|
    ensures Rest(s, n, s[n..])
  {
  }

  lemma AtInRest(s: string, n: nat, t: string, pat: string, i: nat)
    requires Rest(s, n, t)
    ensures At(t, pat, i) <==> At(s, pat, n + i)
  {
    if At(t, pat, i) {
      forall k | 0 <= k < |pat| ensures pat[k] == s[n + i + k] {
        assert t[i + k] == s[n + (i + k)];
      }
    }
    if At(s, pat, n + i) {
      forall k | 0 <= k < |pat| ensures pat[k] == t[i + k] {
        assert t[i + k] == s[n + (i + k)];
      }
    }
  }

  lemma FindInRest(s: string, n: nat, t: string, pat: string, pos: nat)
    requires Rest(s, n, t)
    ensures match Find(t, pat, pos)
            case Some(i) => Find(s, pat, n + pos) == Some(n + i)
            case None => Find(s, pat, n + pos) == None
  {
    var found := Find(t, pat, pos);
    var end := if found.Some? then n + found.value else |s| + 1;
    forall j: nat | n + pos <= j && (found.Some? ==> j < end) ensures !At(s, pat, j) {
      AtInRest(s, n, t, pat, j - n);
    }
    if found.Some? {
      AtInRest(s, n, t, pat, found.value);
      FindIs(s, pat, n + pos, end);
    }
  }

  function Moved(p: Piece, n: nat): Piece {
    Piece(p.lo + n, p.hi + n)
  }

  function Shifted(pieces: seq<Piece>, n: nat): seq<Piece> {
    if pieces == [] then [] else [Moved(pieces[0], n)] + Shifted(pieces[1..], n)
  }

  lemma ShiftedStep(part: seq<Piece>, whole: seq<Piece>, p: Piece, rest: seq<Piece>, more: seq<Piece>, n: nat)
    requires part == [p] + rest && whole == [Moved(p, n)] + more && more == Shifted(rest, n)
    ensures whole == Shifted(part, n)
  {
    assert part[1..] == rest;
  }

  lemma ShiftedOne(p: Piece, n: nat)
    ensures Shifted([p], n) == [Moved(p, n)]
  {
    assert [p] + [] == [p] && [Moved(p, n)] + [] == [Moved(p, n)];
    ShiftedStep([p], [Moved(p, n)], p, [], [], n);
  }

  lemma FindWithin(s: string, pat: string, pos: nat, i: nat)
    requires Find(s, pat, pos) == Some(i)
    ensures pos <= i && i + |pat| <= |s|
  {
  }

  lemma BlockPiecesFrom(s: string, pos: nat, tag: Tag, start: nat, end: nat, next: nat)
    requires tag.open != [] && Find(s, tag.open, pos) == Some(start)
    requires Find(s, tag.close, start + |tag.open|) == Some(end) && next == end + |tag.close|
    ensures pos <= start <= next <= |s|
    ensures BlockPieces(s, pos, tag) == [Piece(pos, start)] + BlockPieces(s, next, tag)
  {
    FindWithin(s, tag.open, pos, start);
    FindWithin(s, tag.close, start + |tag.open|, end);
  }

  /** One block found in the rest is the block found in the whole text. */
  lemma BlockInRest(s: string, n: nat, t: string, pos: nat, tag: Tag, start: nat, end: nat, next: nat)
    requires Rest(s, n, t) && pos <= |t| && tag.open != []
    requires Find(t, tag.open, pos) == Some(start)
    requires Find(t, tag.close, start + |tag.open|) == Some(end) && next == end + |tag.close|
    ensures Find(s, tag.open, n + pos) == Some(n + start)
    ensures Find(s, tag.close, n + start + |tag.open|) == Some(n + end)
  {
    FindInRest(s, n, t, tag.open, pos);
    FindInRest(s, n, t, tag.close, start + |tag.open|);
  }

  lemma LastPieceInRest(s: string, n: nat, t: string, pos: nat, tag: Tag, hi: nat)
    requires Rest(s, n, t) && pos <= |t| && tag.open != []
    requires match Find(t, tag.open, pos)
             case None => hi == |t|
             case Some(start) => hi == start && Find(t, tag.close, start + |tag.open|).None?
    ensures BlockPieces(t, pos, tag) == [Piece(pos, hi)]
    ensures BlockPieces(s, n + pos, tag) == [Moved(Piece(pos, hi), n)]
  {
    FindInRest(s, n, t, tag.open, pos);
    if Find(t, tag.open, pos).Some? {
      FindInRest(s, n, t, tag.close, Find(t, tag.open, pos).value + |tag.open|);
    }
  }

  lemma BlockStepShifts(s: string, n: nat, t: string, pos: nat, tag: Tag, start: nat, end: nat, next: nat)
    requires Rest(s, n, t) && pos <= next <= |t| && tag.open != []
    requires Find(t, tag.open, pos) == Some(start)
    requires Find(t, tag.close, start + |tag.open|) == Some(end) && next == end + |tag.close|
    requires BlockPieces(s, n + next, tag) == Shifted(BlockPieces(t, next, tag), n)
    ensures BlockPieces(s, n + pos, tag) == Shifted(BlockPieces(t, pos, tag), n)
  {
    BlockInRest(s, n, t, pos, tag, start, end, next);
    var rest, more := BlockPieces(t, next, tag), BlockPieces(s, n + next, tag);
    BlockPiecesFrom(t, pos, tag, start, end, next);
    BlockPiecesFrom(s, n + pos, tag, n + start, n + end, n + next);
    ShiftedStep(BlockPieces(t, pos, tag), BlockPieces(s, n + pos, tag), Piece(pos, start), rest, more, n);
  }

  /** The pieces kept of the rest of a text are those found in it as a text of its own. */
  lemma {:induction false} BlockPiecesShift(s: string, n: nat, t: string, pos: nat, tag: Tag)
    requires Rest(s, n, t) && pos <= |t| && tag.open != []
    ensures BlockPieces(s, n + pos, tag) == Shifted(BlockPieces(t, pos, tag), n)
    decreases |t| - pos
  {
    var open := Find(t, tag.open, pos);
    var close := if open.Some? then Find(t, tag.close, open.value + |tag.open|) else None;
    if close.None? {
      var hi := if open.Some? then open.value else |t|;
      LastPieceInRest(s, n, t, pos, tag, hi);
      ShiftedOne(Piece(pos, hi), n);
    } else {
      var next := close.value + |tag.close|;
      FindWithin(t, tag.open, pos, open.value);
      FindWithin(t, tag.close, open.value + |tag.open|, close.value);
      BlockPiecesShift(s, n, t, next, tag);
      BlockStepShifts(s, n, t, pos, tag, open.value, close.value, next);
    }
  }

  lemma JoinedShifts(pass: Pass, cleaned: string, s: string, n: nat, t: string, p: Piece)
    requires Rest(s, n, t) && Within(p, t)
    ensures Within(Moved(p, n), s) && Joined(pass, cleaned, s, Moved(p, n)) == Joined(pass, cleaned, t, p)
  {
    assert s[p.lo + n..p.hi + n] == t[p.lo..p.hi];
  }

  lemma {:induction false} RenderShifts(pass: Pass, cleaned: string, s: string, n: nat, t: string, pieces: seq<Piece>)
    requires Rest(s, n, t) && forall p | p in pieces :: Within(p, t)
    ensures forall p | p in Shifted(pieces, n) :: Within(p, s)
    ensures Render(pass, cleaned, s, Shifted(pieces, n)) == Render(pass, cleaned, t, pieces)
    decreases |pieces|
  {
    if pieces != [] {
      JoinedShifts(pass, cleaned, s, n, t, pieces[0]);
      RenderShifts(pass, Joined(pass, cleaned, t, pieces[0]), s, n, t, pieces[1..]);
      RenderStep(pass, cleaned, s, Moved(pieces[0], n), Shifted(pieces[1..], n));
    }
  }

  lemma EndsBehind(kept: string, cleaned: string)
    requires cleaned == "" ==> !EndsVisible(kept)
    ensures EndsVisible(kept + cleaned) <==> EndsVisible(cleaned)
  {
    assert cleaned == "" ==> kept + cleaned == kept;
  }

  lemma JoinedBehind(pass: Pass, kept: string, cleaned: string, s: string, p: Piece)
    requires Within(p, s) && (cleaned == "" ==> !EndsVisible(kept))
    ensures Joined(pass, kept + cleaned, s, p) == kept + Joined(pass, cleaned, s, p)
    ensures Joined(pass, cleaned, s, p) == "" ==> !EndsVisible(kept)
  {
    EndsBehind(kept, cleaned);
    assert kept + cleaned + "\n" == kept + (cleaned + "\n");
    var separated := Separated(pass, cleaned, s, p.lo);
    assert kept + separated + s[p.lo..p.hi] == kept + (separated + s[p.lo..p.hi]);
  }

  /** What was kept before does not change what follows, unless it ends visibly and nothing follows yet. */
  lemma {:induction false} RenderBehind(pass: Pass, kept: string, cleaned: string, s: string, pieces: seq<Piece>)
    requires forall p | p in pieces :: Within(p, s)
    requires cleaned == "" ==> !EndsVisible(kept)
    ensures Render(pass, kept + cleaned, s, pieces) == kept + Render(pass, cleaned, s, pieces)
    decreases |pieces|
  {
    if pieces != [] {
      JoinedBehind(pass, kept, cleaned, s, pieces[0]);
      RenderBehind(pass, kept, Joined(pass, cleaned, s, pieces[0]), s, pieces[1..]);
    }
  }

  /** What stands between the text before a cut and the text after it. */
  function Seam(pass: Pass, before: string, after: string): string {
    if EndsVisible(before) && (pass.Blocks? ==> StartsVisible(after)) then "\n" else ""
  }

  lemma FirstJoined(pass: Pass, before: string, after: string, hi: nat)
    requires hi <= |after|
    ensures Joined(pass, before, after, Piece(0, hi)) == before + Seam(pass, before, after) + after[..hi]
    ensures Joined(pass, "", after, Piece(0, hi)) == after[..hi]
  {
    assert after[0..hi] == after[..hi] && before + "" == before && "" + after[..hi] == after[..hi];
  }

  lemma SeamEnds(pass: Pass, before: string, after: string)
    requires pass.Markers? || StartsVisible(after) || !EndsVisible(before)
    ensures !EndsVisible(before + Seam(pass, before, after))
  {
  }

  /** The rest is rendered by itself; the seam in front of it depends on its first character only. */
  lemma RenderAfter(pass: Pass, before: string, after: string, hi: nat, rest: seq<Piece>)
    requires hi <= |after| && forall p | p in rest :: Within(p, after)
    requires rest != [] && hi == 0 ==> pass.Markers? || StartsVisible(after)
    ensures forall p | p in [Piece(0, hi)] + rest :: Within(p, after)
    ensures Render(pass, before, after, [Piece(0, hi)] + rest)
            == before + Seam(pass, before, after) + Render(pass, "", after, [Piece(0, hi)] + rest)
  {
    FirstJoined(pass, before, after, hi);
    RenderStep(pass, before, after, Piece(0, hi), rest);
    RenderStep(pass, "", after, Piece(0, hi), rest);
    if rest != [] {
      if hi == 0 {
        SeamEnds(pass, before, after);
      }
      RenderBehind(pass, before + Seam(pass, before, after), after[..hi], after, rest);
    }
  }

  // ---------- Blocks ----------

  lemma TagIsVisible(s: string, tag: Tag)
    requires StartsVisible(tag.open) && At(s, tag.open, 0)
    ensures StartsVisible(s)
  {
    assert tag.open[0] == s[0 + 0];
  }

  /** The pieces start with what precedes the first block; if that is nothing, the text starts with a tag. */
  lemma FirstPiece(s: string, tag: Tag) returns (hi: nat, rest: seq<Piece>)
    requires StartsVisible(tag.open)
    ensures hi <= |s| && (forall p | p in rest :: Within(p, s))
    ensures BlockPieces(s, 0, tag) == [Piece(0, hi)] + rest
    ensures rest != [] && hi == 0 ==> StartsVisible(s)
  {
    var open := Find(s, tag.open, 0);
    hi := if open.Some? then open.value else |s|;
    rest := BlockPieces(s, 0, tag)[1..];
    if open == Some(0) {
      TagIsVisible(s, tag);
    }
  }

  lemma BlocksBehind(before: string, after: string, tag: Tag)
    requires StartsVisible(tag.open)
    ensures Render(Blocks, before, after, BlockPieces(after, 0, tag))
            == before + Seam(Blocks, before, after) + StripBlocks(after, tag)
  {
    var hi, rest := FirstPiece(after, tag);
    RenderAfter(Blocks, before, after, hi, rest);
  }

  lemma RenderFirst(pass: Pass, s: string, start: nat, next: nat, after: string, pieces: seq<Piece>)
    requires start <= |s| && Rest(s, next, after) && forall p | p in pieces :: Within(p, after)
    ensures forall p | p in [Piece(0, start)] + Shifted(pieces, next) :: Within(p, s)
    ensures Render(pass, "", s, [Piece(0, start)] + Shifted(pieces, next)) == Render(pass, s[..start], after, pieces)
  {
    RenderShifts(pass, s[..start], s, next, after, pieces);
    RenderStep(pass, "", s, Piece(0, start), Shifted(pieces, next));
    FirstJoined(pass, "", s, start);
  }

  lemma AfterFirstBlock(s: string, tag: Tag, start: nat, end: nat, next: nat)
    requires tag.open != [] && Find(s, tag.open, 0) == Some(start)
    requires Find(s, tag.close, start + |tag.open|) == Some(end) && next == end + |tag.close|
    ensures start <= next <= |s|
    ensures StripBlocks(s, tag) == Render(Blocks, s[..start], s[next..], BlockPieces(s[next..], 0, tag))
  {
    BlockPiecesFrom(s, 0, tag, start, end, next);
    var after := s[next..];
    DropIsRest(s, next);
    BlockPiecesShift(s, next, after, 0, tag);
    RenderFirst(Blocks, s, start, next, after, BlockPieces(after, 0, tag));
  }

  lemma BlockSeam(s: string, tag: Tag, start: nat, end: nat, next: nat)
    requires StartsVisible(tag.open) && Find(s, tag.open, 0) == Some(start)
    requires Find(s, tag.close, start + |tag.open|) == Some(end) && next == end + |tag.close|
    ensures start <= next <= |s|
    ensures StripBlocks(s, tag) == s[..start] + Seam(Blocks, s[..start], s[next..]) + StripBlocks(s[next..], tag)
  {
    AfterFirstBlock(s, tag, start, end, next);
    BlocksBehind(s[..start], s[next..], tag);
  }

  /**
   The scan goes on behind a block as if the rest were a text of its own: of any number of blocks,
   each goes with its tags, and all text between them stays.
   */
  lemma BlockThenRest(s: string, tag: Tag, start: nat, end: nat)
    requires StartsVisible(tag.open)
    requires FirstAt(s, tag.open, 0, start) && FirstAt(s, tag.close, start + |tag.open|, end)
    ensures
      var before, after := s[..start], s[end + |tag.close|..];
      StripBlocks(s, tag)
      == before + (if EndsVisible(before) && StartsVisible(after) then "\n" else "") + StripBlocks(after, tag)
  {
    FindIs(s, tag.open, 0, start);
    FindIs(s, tag.close, start + |tag.open|, end);
    BlockSeam(s, tag, start, end, end + |tag.close|);
  }

  // ---------- Markers ----------

  lemma MarkerInRest(s: string, n: nat, t: string, i: nat, e: nat)
    requires Rest(s, n, t)
    ensures MarkerAt(t, i, e) <==> MarkerAt(s, n + i, n + e)
  {
    if MarkerAt(t, i, e) {
      forall j | n + i < j < n + e ensures NameChar(s[j]) {
        assert t[j - n] == s[n + (j - n)];
      }
    }
    if MarkerAt(s, n + i, n + e) {
      forall j | i < j < e ensures NameChar(t[j]) {
        assert t[j] == s[n + j];
      }
    }
  }

  lemma NoMarkerInRest(s: string, n: nat, t: string, pos: nat, end: nat)
    requires Rest(s, n, t) && NoMarkerBetween(t, pos, end)
    ensures NoMarkerBetween(s, n + pos, n + end)
  {
    forall j: nat, e: nat | n + pos <= j < n + end ensures !MarkerAt(s, j, e) {
      if MarkerAt(s, j, e) {
        MarkerInRest(s, n, t, j - n, e - n);
      }
    }
  }

  lemma NextMarkerInRest(s: string, n: nat, t: string, pos: nat)
    requires Rest(s, n, t)
    ensures match NextMarker(t, pos)
            case Some(m) => NextMarker(s, n + pos) == Some(Marker(n + m.start, n + m.end))
            case None => NextMarker(s, n + pos) == None
  {
    match NextMarker(t, pos)
    case Some(m) =>
      MarkerInRest(s, n, t, m.start, m.end);
      NoMarkerInRest(s, n, t, pos, m.start);
      FirstMarkerIsUnique(s, n + pos, Marker(n + m.start, n + m.end));
    case None =>
      NoMarkerInRest(s, n, t, pos, |t|);
  }

  lemma MarkerPiecesFrom(s: string, pos: nat, m: Marker, next: nat)
    requires pos <= |s| && NextMarker(s, pos) == Some(m) && next == m.end + 2
    ensures pos <= m.start <= next <= |s|
    ensures MarkerPieces(s, pos) == [Piece(pos, m.start)] + MarkerPieces(s, next)
  {
    assert MarkerAt(s, m.start, m.end);
  }

  lemma MarkerStepShifts(s: string, n: nat, t: string, pos: nat, m: Marker, moved: Marker, next: nat, moved': nat)
    requires pos <= next <= |t| && NextMarker(t, pos) == Some(m) && next == m.end + 2
    requires n + pos <= moved' <= |s| && NextMarker(s, n + pos) == Some(moved) && moved' == moved.end + 2
    requires moved.start == m.start + n
    requires MarkerPieces(s, moved') == Shifted(MarkerPieces(t, next), n)
    ensures MarkerPieces(s, n + pos) == Shifted(MarkerPieces(t, pos), n)
  {
    MarkerPiecesFrom(t, pos, m, next);
    MarkerPiecesFrom(s, n + pos, moved, moved');
    ShiftedStep(MarkerPieces(t, pos), MarkerPieces(s, n + pos), Piece(pos, m.start),
                MarkerPieces(t, next), MarkerPieces(s, moved'), n);
  }

  lemma NoMarkerShifts(s: string, n: nat, t: string, pos: nat)
    requires Rest(s, n, t) && pos <= |t| && NextMarker(t, pos).None?
    ensures MarkerPieces(s, n + pos) == Shifted(MarkerPieces(t, pos), n)
  {
    NextMarkerInRest(s, n, t, pos);
    ShiftedOne(Piece(pos, |t|), n);
  }

  lemma {:induction false} MarkerPiecesShift(s: string, n: nat, t: string, pos: nat)
    requires Rest(s, n, t) && pos <= |t|
    ensures MarkerPieces(s, n + pos) == Shifted(MarkerPieces(t, pos), n)
    decreases |t| - pos
  {
    var found := NextMarker(t, pos);
    if found.None? {
      NoMarkerShifts(s, n, t, pos);
    } else {
      var next := found.value.end + 2;
      assert MarkerAt(t, found.value.start, found.value.end);
      MarkerPiecesShift(s, n, t, next);
      NextMarkerInRest(s, n, t, pos);
      MarkerStepShifts(s, n, t, pos, found.value, Marker(n + found.value.start, n + found.value.end), next, n + next);
    }
  }

  lemma FirstMarkerPiece(s: string) returns (hi: nat, rest: seq<Piece>)
    ensures hi <= |s| && (forall p | p in rest :: Within(p, s))
    ensures MarkerPieces(s, 0) == [Piece(0, hi)] + rest
  {
    var m := NextMarker(s, 0);
    hi := if m.Some? then m.value.start else |s|;
    rest := MarkerPieces(s, 0)[1..];
  }

  lemma MarkersBehind(before: string, after: string)
    ensures Render(Markers, before, after, MarkerPieces(after, 0))
            == before + Seam(Markers, before, after) + StripMarkers(after)
  {
    var hi, rest := FirstMarkerPiece(after);
    RenderAfter(Markers, before, after, hi, rest);
  }

  /** Likewise behind a marker. */
  lemma MarkerThenRest(s: string, m: Marker)
    requires FirstMarker(s, 0, m)
    ensures
      var before, after := s[..m.start], s[m.end + 2..];
      StripMarkers(s) == before + (if EndsVisible(before) then "\n" else "") + StripMarkers(after)
  {
    var next := m.end + 2;
    var after := s[next..];
    FirstMarkerIsUnique(s, 0, m);
    MarkerPiecesFrom(s, 0, m, next);
    DropIsRest(s, next);
    MarkerPiecesShift(s, next, after, 0);
    RenderFirst(Markers, s, m.start, next, after, MarkerPieces(after, 0));
    MarkersBehind(s[..m.start], after);
  }
}
