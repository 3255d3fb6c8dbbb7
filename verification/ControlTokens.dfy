/**
 The text scrubber of `src/control_tokens.rs`, from the internal-block pass on: blocks between
 internal tags are dropped, then legacy `<name|>` markers, with a newline where visible text would
 otherwise be joined.  Strings are sequences of characters; all tags and markers are ASCII.
 */
module ControlTokens {
  import opened Prelude

  datatype Tag = Tag(open: string, close: string)

  const RUNTIME: Tag := Tag("<agent_runtime>", "</agent_runtime>")
  const RUNTIME_ERROR: Tag := Tag("<agent_runtime_error>", "</agent_runtime_error>")
  const HISTORY: Tag := Tag("<rara_internal_history_context>", "</rara_internal_history_context>")

  // ---------------------------------------------------------------------------
  // Searching
  // ---------------------------------------------------------------------------

  predicate At(s: string, pat: string, i: nat) {
    i + |pat| <= |s| && forall k | 0 <= k < |pat| :: pat[k] == s[i + k]
  }

  predicate Contains(s: string, pat: string) {
    exists i: nat | i <= |s| :: At(s, pat, i)
  }

  ghost predicate FirstAt(s: string, pat: string, pos: nat, i: nat) {
    pos <= i && At(s, pat, i) && forall j | pos <= j < i :: !At(s, pat, j)
  }

  lemma FirstExists(s: string, pat: string, pos: nat, i: nat)
    requires pos <= i && At(s, pat, i)
    ensures exists j: nat :: FirstAt(s, pat, pos, j)
    decreases i - pos
  {
    if j: nat :| pos <= j < i && At(s, pat, j) {
      FirstExists(s, pat, pos, j);
    } else {
      assert FirstAt(s, pat, pos, i);
    }
  }

  /** Where the pattern first occurs from position `pos` on. */
  ghost function Find(s: string, pat: string, pos: nat): (r: Option<nat>)
    ensures r.Some? ==> FirstAt(s, pat, pos, r.value)
    ensures r.None? ==> forall i: nat | pos <= i :: !At(s, pat, i)
  {
    if i: nat :| pos <= i && At(s, pat, i) then
      FirstExists(s, pat, pos, i);
      var first: nat :| FirstAt(s, pat, pos, first);
      Some(first)
    else None
  }

  /** `str::find` from a position. */
  method FindIn(s: string, pat: string, pos: nat) returns (r: Option<nat>)
    requires pos <= |s|
    ensures r == Find(s, pat, pos)
  {
    var i := pos;
    while i + |pat| <= |s|
      invariant pos <= i <= |s| + 1
      invariant forall j: nat | pos <= j < i :: !At(s, pat, j)
    {
      if At(s, pat, i) {
        return Some(i);
      }
      i := i + 1;
    }
    return None;
  }

  // ---------------------------------------------------------------------------
  // Kept pieces
  // ---------------------------------------------------------------------------

  predicate EndsVisible(s: string) {
    s != [] && !IsWhitespace(s[|s| - 1])
  }

  predicate StartsVisible(s: string) {
    s != [] && !IsWhitespace(s[0])
  }

  /** A stretch of the text that survives a pass. */
  datatype Piece = Piece(lo: nat, hi: nat)

  predicate Within(p: Piece, s: string) {
    p.lo <= p.hi <= |s|
  }

  /** Blocks put a newline only between visible texts, markers after any visible text. */
  datatype Pass = Blocks | Markers

  predicate NeedsNewline(pass: Pass, cleaned: string, s: string, next: nat) {
    EndsVisible(cleaned) && (pass.Blocks? ==> next < |s| && !IsWhitespace(s[next]))
  }

  function Separated(pass: Pass, cleaned: string, s: string, next: nat): string {
    if NeedsNewline(pass, cleaned, s, next) then cleaned + "\n" else cleaned
  }

  function Joined(pass: Pass, cleaned: string, s: string, p: Piece): string
    requires Within(p, s)
  {
    Separated(pass, cleaned, s, p.lo) + s[p.lo..p.hi]
  }

  /** The kept pieces appended, one after the other, to what is there already. */
  function Render(pass: Pass, cleaned: string, s: string, pieces: seq<Piece>): string
    requires forall p | p in pieces :: Within(p, s)
    decreases |pieces|
  {
    if pieces == [] then cleaned
    else Render(pass, Joined(pass, cleaned, s, pieces[0]), s, pieces[1..])
  }

  lemma RenderStep(pass: Pass, cleaned: string, s: string, p: Piece, rest: seq<Piece>)
    requires Within(p, s) && forall q | q in rest :: Within(q, s)
    ensures forall q | q in [p] + rest :: Within(q, s)
    ensures Render(pass, cleaned, s, [p] + rest) == Render(pass, Joined(pass, cleaned, s, p), s, rest)
  {
  }

  lemma RenderLast(pass: Pass, cleaned: string, s: string, p: Piece)
    requires Within(p, s)
    ensures Render(pass, cleaned, s, [p]) == Joined(pass, cleaned, s, p)
  {
  }

  // ---------------------------------------------------------------------------
  // Internal blocks
  // ---------------------------------------------------------------------------

  /** What is kept from position `pos` on when the blocks of one tag are cut; an unclosed block runs to the end. */
  ghost function BlockPieces(s: string, pos: nat, tag: Tag): (r: seq<Piece>)
    requires pos <= |s| && tag.open != []
    ensures forall p | p in r :: Within(p, s)
    decreases |s| - pos
  {
    match Find(s, tag.open, pos)
    case None => [Piece(pos, |s|)]
    case Some(start) =>
      match Find(s, tag.close, start + |tag.open|)
      case None => [Piece(pos, start)]
      case Some(end) => [Piece(pos, start)] + BlockPieces(s, end + |tag.close|, tag)
  }

  /** The output that remains to be produced once `kept` has been. */
  ghost function BlocksFrom(kept: string, s: string, pos: nat, tag: Tag): string
    requires pos <= |s| && tag.open != []
  {
    Render(Blocks, kept, s, BlockPieces(s, pos, tag))
  }

  lemma BlocksFromStep(kept: string, s: string, pos: nat, tag: Tag)
    requires pos <= |s| && tag.open != []
    ensures
      var open := Find(s, tag.open, pos);
      if open.None? then BlocksFrom(kept, s, pos, tag) == Separated(Blocks, kept, s, pos) + s[pos..]
      else
        var close := Find(s, tag.close, open.value + |tag.open|);
        var more := Separated(Blocks, kept, s, pos) + s[pos..open.value];
        if close.None? then BlocksFrom(kept, s, pos, tag) == more
        else BlocksFrom(kept, s, pos, tag) == BlocksFrom(more, s, close.value + |tag.close|, tag)
  {
    match Find(s, tag.open, pos)
    case None =>
      RenderLast(Blocks, kept, s, Piece(pos, |s|));
      assert s[pos..] == s[pos..|s|];
    case Some(start) =>
      match Find(s, tag.close, start + |tag.open|)
      case None => RenderLast(Blocks, kept, s, Piece(pos, start));
      case Some(end) => RenderStep(Blocks, kept, s, Piece(pos, start), BlockPieces(s, end + |tag.close|, tag));
  }

  ghost function StripBlocks(message: string, tag: Tag): string
    requires tag.open != []
  {
    Render(Blocks, "", message, BlockPieces(message, 0, tag))
  }

  method StripBlocksLoop(message: string, tag: Tag) returns (output: string)
    requires tag.open != []
    ensures output == StripBlocks(message, tag)
  {
    ghost var goal := BlocksFrom("", message, 0, tag);
    ghost var kept := "";
    var cleaned, pos := "", 0;
    var found := FindIn(message, tag.open, pos);
    while found.Some?
      invariant 0 <= pos <= |message| && found == Find(message, tag.open, pos)
      invariant cleaned == Separated(Blocks, kept, message, pos)
      invariant BlocksFrom(kept, message, pos, tag) == goal
      decreases |message| - pos
    {
      BlocksFromStep(kept, message, pos, tag);
      cleaned := cleaned + message[pos..found.value];
      var close := FindIn(message, tag.close, found.value + |tag.open|);
      if close.None? {
        return cleaned;
      }
      kept := cleaned;
      pos := close.value + |tag.close|;
      cleaned := Separated(Blocks, cleaned, message, pos);
      found := FindIn(message, tag.open, pos);
    }
    BlocksFromStep(kept, message, pos, tag);
    output := cleaned + message[pos..];
  }

  ghost function StripInternal(message: string): string {
    StripBlocks(StripBlocks(StripBlocks(message, RUNTIME), RUNTIME_ERROR), HISTORY)
  }

  // ---------------------------------------------------------------------------
  // Legacy markers
  // ---------------------------------------------------------------------------

  predicate NameChar(c: char) {
    'a' <= c <= 'z' || 'A' <= c <= 'Z' || '0' <= c <= '9' || c == '_' || c == '-'
  }

  /** A marker opens at `start` and its bar stands at `end`. */
  predicate MarkerAt(s: string, start: nat, end: nat) {
    && start + 1 < end < |s| - 1
    && s[start] == '<' && s[end] == '|' && s[end + 1] == '>'
    && forall i | start < i < end :: NameChar(s[i])
  }

  method LegacyMarkerEnd(s: string, start: nat) returns (r: Option<nat>)
    requires start < |s| && s[start] == '<'
    ensures r.Some? ==> MarkerAt(s, start, r.value)
    ensures r.None? ==> forall end: nat :: !MarkerAt(s, start, end)
  {
    var i := start + 1;
    while i < |s|
      invariant start < i <= |s|
      invariant forall j | start < j < i :: NameChar(s[j])
    {
      if s[i] == '|' && i + 1 < |s| && s[i + 1] == '>' {
        return if i > start + 1 then Some(i) else None;
      }
      if !NameChar(s[i]) {
        return None;
      }
      i := i + 1;
    }
    return None;
  }

  datatype Marker = Marker(start: nat, end: nat)

  ghost predicate NoMarkerBetween(s: string, pos: nat, end: nat) {
    forall j: nat, e: nat | pos <= j < end :: !MarkerAt(s, j, e)
  }

  /** The first marker that opens at position `pos` or later. */
  ghost predicate FirstMarker(s: string, pos: nat, m: Marker) {
    pos <= m.start && MarkerAt(s, m.start, m.end) && NoMarkerBetween(s, pos, m.start)
  }

  lemma FirstMarkerExists(s: string, pos: nat, j: nat, e: nat)
    requires pos <= j && MarkerAt(s, j, e)
    ensures exists m :: FirstMarker(s, pos, m)
    decreases j - pos
  {
    if j': nat, e': nat :| pos <= j' < j && MarkerAt(s, j', e') {
      FirstMarkerExists(s, pos, j', e');
    } else {
      assert FirstMarker(s, pos, Marker(j, e));
    }
  }

  ghost function NextMarker(s: string, pos: nat): (r: Option<Marker>)
    ensures r.Some? ==> FirstMarker(s, pos, r.value)
    ensures r.None? ==> NoMarkerBetween(s, pos, |s|)
  {
    if j: nat, e: nat :| pos <= j && MarkerAt(s, j, e) then
      FirstMarkerExists(s, pos, j, e);
      var m :| FirstMarker(s, pos, m);
      Some(m)
    else None
  }

  /** Two bars cannot close the same marker, so the first marker is unique. */
  lemma FirstMarkerIsUnique(s: string, pos: nat, m: Marker)
    requires FirstMarker(s, pos, m)
    ensures NextMarker(s, pos) == Some(m)
  {
  }

  /** What is kept from position `pos` on when markers are cut. */
  ghost function MarkerPieces(s: string, pos: nat): (r: seq<Piece>)
    requires pos <= |s|
    ensures forall p | p in r :: Within(p, s)
    decreases |s| - pos
  {
    match NextMarker(s, pos)
    case None => [Piece(pos, |s|)]
    case Some(m) => [Piece(pos, m.start)] + MarkerPieces(s, m.end + 2)
  }

  /** The output that remains to be produced once `kept` has been. */
  ghost function MarkersFrom(kept: string, s: string, pos: nat): string
    requires pos <= |s|
  {
    Render(Markers, kept, s, MarkerPieces(s, pos))
  }

  lemma MarkersFromStep(kept: string, s: string, pos: nat)
    requires pos <= |s|
    ensures
      var m := NextMarker(s, pos);
      if m.None? then MarkersFrom(kept, s, pos) == Separated(Markers, kept, s, pos) + s[pos..]
      else
        var more := Separated(Markers, kept, s, pos) + s[pos..m.value.start];
        MarkersFrom(kept, s, pos) == MarkersFrom(more, s, m.value.end + 2)
  {
    match NextMarker(s, pos)
    case None =>
      RenderLast(Markers, kept, s, Piece(pos, |s|));
      assert s[pos..] == s[pos..|s|];
    case Some(m) => RenderStep(Markers, kept, s, Piece(pos, m.start), MarkerPieces(s, m.end + 2));
  }

  ghost function StripMarkers(message: string): string {
    Render(Markers, "", message, MarkerPieces(message, 0))
  }

  method StripMarkersLoop(message: string) returns (cleaned: string)
    ensures cleaned == StripMarkers(message)
  {
    ghost var goal := MarkersFrom("", message, 0);
    ghost var kept := "";
    cleaned := "";
    var lastCopied, idx := 0, 0;
    while idx < |message|
      invariant 0 <= lastCopied <= idx <= |message|
      invariant NoMarkerBetween(message, lastCopied, idx)
      invariant cleaned == Separated(Markers, kept, message, lastCopied)
      invariant MarkersFrom(kept, message, lastCopied) == goal
    {
      if message[idx] != '<' {
        idx := idx + 1;
        continue;
      }
      var bar := LegacyMarkerEnd(message, idx);
      if bar.None? {
        idx := idx + 1;
        continue;
      }
      FirstMarkerIsUnique(message, lastCopied, Marker(idx, bar.value));
      MarkersFromStep(kept, message, lastCopied);
      cleaned := cleaned + message[lastCopied..idx];
      kept := cleaned;
      if EndsVisible(cleaned) {
        cleaned := cleaned + "\n";
      }
      idx := bar.value + 2;
      lastCopied := idx;
    }
    MarkersFromStep(kept, message, lastCopied);
    cleaned := cleaned + message[lastCopied..];
  }

  // ---------------------------------------------------------------------------
  // The whole pass
  // ---------------------------------------------------------------------------

  ghost function Scrub(message: string): string {
    var visible := StripInternal(message);
    if '<' !in visible then visible else StripMarkers(visible)
  }

  method ScrubText(message: string) returns (r: string)
    ensures r == Scrub(message)
  {
    var output := StripBlocksLoop(message, RUNTIME);
    output := StripBlocksLoop(output, RUNTIME_ERROR);
    output := StripBlocksLoop(output, HISTORY);
    if '<' !in output {
      return output;
    }
    r := StripMarkersLoop(output);
  }
}
