/**
 Coverage and bounds of chunking. A chunk may start with a repeated heading and with text carried over from the
 chunk before; once both are cut off, the chunks hold the text's ink in order, each character once.
 */
module ChunkingCoverage {
  import opened Options
  import opened Sequences
  import opened Text
  import opened Chunking

  // ---- the statement ------------------------------------------------------------------------------

  /** A chunk taken apart: a repeated heading, text repeated from the chunk before, and the new text. */
  datatype Piece = Piece(heading: string, overlap: string, rest: string) {
    function Text(): string {
      heading + overlap + rest
    }
  }

  function Texts(pieces: seq<Piece>): (r: seq<string>)
    ensures |r| == |pieces|
  {
    if pieces == [] then [] else Texts(pieces[..|pieces| - 1]) + [pieces[|pieces| - 1].Text()]
  }

  /** The ink of the new text of all pieces. */
  function Fresh(pieces: seq<Piece>): string {
    if pieces == [] then [] else Fresh(pieces[..|pieces| - 1]) + Ink(pieces[|pieces| - 1].rest)
  }

  predicate EndsWith(s: string, suffix: string) {
    |suffix| <= |s| && s[|s| - |suffix|..] == suffix
  }

  /** A single character may exceed the limit: only an astral one at limit 1 does. */
  predicate Bounded(chunk: string, limit: nat) {
    Utf16Len(chunk) <= limit || |chunk| == 1
  }

  predicate RepeatsHeading(prefix: string, headings: set<string>) {
    |prefix| >= 2 && prefix[|prefix| - 2..] == "\n\n" && prefix[..|prefix| - 2] in headings
  }

  /** Trimmed, bounded, with new ink; the overlap ends the previous chunk and fits the budget. */
  predicate PieceOk(previous: Option<string>, piece: Piece, limit: nat, headings: set<string>) {
    && IsTrimmed(piece.Text()) && Bounded(piece.Text(), limit)
    && Ink(piece.rest) != []
    && (piece.overlap != [] ==> && previous.Some? && EndsWith(previous.value, piece.overlap)
                                && Utf16Len(piece.overlap) <= OverlapBudget(limit))
    && (piece.heading != [] ==> previous.Some? && RepeatsHeading(piece.heading, headings))
  }

  function LastText(pieces: seq<Piece>): Option<string> {
    if pieces == [] then None else Some(pieces[|pieces| - 1].Text())
  }

  /** Every piece is ok given the pieces before it. */
  predicate AllOk(pieces: seq<Piece>, limit: nat, headings: set<string>) {
    pieces == [] ||
    (var front := pieces[..|pieces| - 1];
     AllOk(front, limit, headings) && PieceOk(LastText(front), pieces[|pieces| - 1], limit, headings))
  }

  predicate Covers(ink: string, chunks: seq<string>, pieces: seq<Piece>, limit: nat, headings: set<string>) {
    Texts(pieces) == chunks && AllOk(pieces, limit, headings) && Fresh(pieces) == ink
  }

  // ---- composing covers ---------------------------------------------------------------------------

  /** Adding one piece to a cover. */
  lemma CoversPush(ink: string, chunks: seq<string>, pieces: seq<Piece>, p: Piece, limit: nat, headings: set<string>)
    requires Covers(ink, chunks, pieces, limit, headings) && PieceOk(LastText(pieces), p, limit, headings)
    ensures Covers(ink + Ink(p.rest), chunks + [p.Text()], pieces + [p], limit, headings)
    ensures LastText(pieces + [p]) == Some(p.Text())
  {
    assert (pieces + [p])[..|pieces|] == pieces;
  }

  lemma PieceOkLater(earlier: Option<string>, piece: Piece, limit: nat, headings: set<string>)
    requires PieceOk(None, piece, limit, headings)
    ensures PieceOk(earlier, piece, limit, headings)
  {
  }

  lemma LastTextOfConcat(a: seq<Piece>, b: seq<Piece>)
    ensures b != [] ==> LastText(a + b) == LastText(b)
    ensures b == [] ==> LastText(a + b) == LastText(a)
  {
    assert b == [] ==> a + b == a;
  }

  lemma {:induction false} AllOkConcat(a: seq<Piece>, b: seq<Piece>, limit: nat, headings: set<string>)
    requires AllOk(a, limit, headings) && AllOk(b, limit, headings)
    ensures AllOk(a + b, limit, headings)
    decreases |b|
  {
    if b == [] {
      assert a + b == a;
    } else {
      var n := |b| - 1;
      AllOkConcat(a, b[..n], limit, headings);
      LastTextOfConcat(a, b[..n]);
      ConcatFront(a, b);
      if n == 0 { PieceOkLater(LastText(a), b[n], limit, headings); }
    }
  }

  lemma {:induction false} TextsConcat(a: seq<Piece>, b: seq<Piece>)
    ensures Texts(a + b) == Texts(a) + Texts(b)
    decreases |b|
  {
    if b == [] {
      assert a + b == a;
    } else {
      TextsConcat(a, b[..|b| - 1]);
      ConcatFront(a, b);
    }
  }

  lemma {:induction false} FreshConcat(a: seq<Piece>, b: seq<Piece>)
    ensures Fresh(a + b) == Fresh(a) + Fresh(b)
    decreases |b|
  {
    if b == [] {
      assert a + b == a;
    } else {
      FreshConcat(a, b[..|b| - 1]);
      ConcatFront(a, b);
      ConcatAssociative(Fresh(a), Fresh(b[..|b| - 1]), Ink(b[|b| - 1].rest));
    }
  }

  lemma CoversConcat(ia: string, a: seq<string>, pa: seq<Piece>, ib: string, b: seq<string>, pb: seq<Piece>, limit: nat,
                     headings: set<string>)
    requires Covers(ia, a, pa, limit, headings) && Covers(ib, b, pb, limit, headings)
    ensures Covers(ia + ib, a + b, pa + pb, limit, headings)
  {
    AllOkConcat(pa, pb, limit, headings);
    TextsConcat(pa, pb);
    FreshConcat(pa, pb);
  }

  lemma InkOfTrimmed(s: string)
    requires IsTrimmed(s)
    ensures Ink(s) != []
  {
  }

  function Whole(chunks: seq<string>): (pieces: seq<Piece>)
  {
    seq(|chunks|, i requires 0 <= i < |chunks| => Piece("", "", chunks[i]))
  }

  predicate PiecesOk(chunks: seq<string>, limit: nat) {
    forall i | 0 <= i < |chunks| :: IsTrimmed(chunks[i]) && Bounded(chunks[i], limit)
  }

  /** Trimmed bounded chunks cover their own ink, with nothing repeated. */
  lemma {:induction false} WholeCovers(chunks: seq<string>, limit: nat, headings: set<string>)
    requires PiecesOk(chunks, limit)
    ensures Covers(InkAll(chunks), chunks, Whole(chunks), limit, headings)
  {
    if chunks != [] {
      var n := |chunks| - 1;
      var p := Piece("", "", chunks[n]);
      assert chunks == chunks[..n] + [chunks[n]];
      assert Whole(chunks) == Whole(chunks[..n]) + [p];
      assert p.Text() == chunks[n];
      WholeCovers(chunks[..n], limit, headings);
      InkAllPush(chunks[..n], chunks[n]);
      InkOfTrimmed(chunks[n]);
      CoversPush(InkAll(chunks[..n]), chunks[..n], Whole(chunks[..n]), p, limit, headings);
    }
  }

  // ---- joining ------------------------------------------------------------------------------------

  predicate AllTrimmed(units: seq<string>) {
    forall i | 0 <= i < |units| :: IsTrimmed(units[i])
  }

  lemma SpaceFacts()
    ensures Ink(" ") == [] && Utf16Len(" ") == 1 && Ink("\n") == [] && Utf16Len("\n") == 1
    ensures Ink("\n\n") == [] && Utf16Len("\n\n") == 2
  {
    assert " "[1..] == [] && "\n"[1..] == [] && "\n\n"[1..] == "\n";
    assert IsWhitespace(" "[0]) && IsWhitespace("\n"[0]) && IsWhitespace("\n\n"[0]);
  }

  lemma {:induction false} JoinLength(units: seq<string>)
    ensures Utf16Len(Join(units, " ")) == JoinedLen(units)
  {
    if |units| == 1 {
      assert SumLen(units) == SumLen(units[..0]) + Utf16Len(units[0]);
    } else if |units| > 1 {
      var front, last := units[..|units| - 1], units[|units| - 1];
      JoinLength(front);
      assert " "[1..] == [];
      Utf16LenConcat(Join(front, " ") + " ", last);
      Utf16LenConcat(Join(front, " "), " ");
    }
  }

  lemma JoinProperties(units: seq<string>)
    ensures Ink(Join(units, " ")) == InkAll(units)
    ensures Utf16Len(Join(units, " ")) == JoinedLen(units)
  {
    SpaceFacts();
    JoinInk(units, " ");
    JoinLength(units);
  }

  lemma {:induction false} JoinTrimmed(units: seq<string>)
    requires AllTrimmed(units) && units != []
    ensures IsTrimmed(Join(units, " ")) && Trim(Join(units, " ")) == Join(units, " ")
  {
    if |units| > 1 {
      JoinTrimmed(units[..|units| - 1]);
    }
    TrimOfTrimmed(Join(units, " "));
  }

  lemma {:induction false} JoinSplit(units: seq<string>, k: nat)
    requires 0 < k < |units|
    ensures Join(units, " ") == Join(units[..k], " ") + " " + Join(units[k..], " ")
  {
    var n := |units| - 1;
    if k < n {
      JoinSplit(units[..n], k);
      assert units[..n][..k] == units[..k] && units[..n][k..] == units[k..][..n - k];
      assert Join(units[k..], " ") == Join(units[k..][..n - k], " ") + " " + units[n];
    } else {
      assert units[k..] == [units[n]];
    }
  }

  lemma {:induction false} SumLenConcat(a: seq<string>, b: seq<string>)
    ensures SumLen(a + b) == SumLen(a) + SumLen(b)
  {
    if b == [] {
      assert a + b == a;
    } else {
      assert (a + b)[..|a| + |b| - 1] == a + b[..|b| - 1];
      SumLenConcat(a, b[..|b| - 1]);
    }
  }

  lemma JoinedLenPush(pending: seq<string>, unit: string)
    ensures JoinedLen(pending + [unit]) == CandidateLen(pending, unit)
  {
    SumLenConcat(pending, [unit]);
    assert SumLen([unit]) == Utf16Len(unit) by { assert [unit][..0] == []; }
  }

  /** The retained overlap is a suffix of the pending units within the budget. */
  lemma {:induction false} RetainedIsSuffix(pending: seq<string>, limit: nat) returns (k: nat)
    ensures k <= |pending| && RetainOverlap(pending, limit) == pending[k..]
    ensures JoinedLen(pending[k..]) <= OverlapBudget(limit)
  {
    if pending == [] || JoinedLen(pending) <= OverlapBudget(limit) {
      k := 0;
    } else {
      var j := RetainedIsSuffix(pending[1..], limit);
      k := j + 1;
      assert pending[1..][j..] == pending[k..];
    }
  }

  // ---- splitting ----------------------------------------------------------------------------------

  lemma {:induction false} SplitWhitespaceInk(s: string)
    ensures InkAll(SplitWhitespace(s)) == Ink(s)
  {
    if s != [] {
      if IsWhitespace(s[0]) {
        SplitWhitespaceInk(s[1..]);
      } else {
        var n := WordLen(s);
        SplitWhitespaceInk(s[n..]);
        InkConcat(s[..n], s[n..]);
        assert s == s[..n] + s[n..];
        assert ([s[..n]] + SplitWhitespace(s[n..]))[1..] == SplitWhitespace(s[n..]);
      }
    }
  }

  lemma WordsAreTrimmed(s: string)
    ensures AllTrimmed(SplitWhitespace(s))
  {
    SplitsIntoWords(s);
  }

  lemma PushTrimmedInk(target: seq<string>, value: string)
    requires AllTrimmed(target)
    ensures AllTrimmed(PushTrimmed(target, value))
    ensures InkAll(PushTrimmed(target, value)) == InkAll(target) + Ink(value)
  {
    TrimProperties(value);
    BlankHasNoInk(value);
    InkAllPush(target, Trim(value));
  }

  lemma InkUpTo(text: string, start: nat, i: nat)
    requires start <= i <= |text|
    ensures Ink(text[..i]) == Ink(text[..start]) + Ink(text[start..i])
  {
    InkSplit(text[..i], start);
    assert text[..i][..start] == text[..start] && text[..i][start..] == text[start..i];
  }

  lemma {:induction false} SentencesUpToInk(text: string, i: nat)
    requires i <= |text|
    ensures var (result, start) := SentencesUpTo(text, i);
            AllTrimmed(result) && InkAll(result) == Ink(text[..start])
  {
    if i > 0 {
      SentencesUpToInk(text, i - 1);
      var (result, start) := SentencesUpTo(text, i - 1);
      if SentenceEnd(text, i - 1) {
        PushTrimmedInk(result, text[start..i]);
        InkUpTo(text, start, i);
      }
    }
  }

  lemma SplitSentencesInk(text: string)
    ensures AllTrimmed(SplitSentences(text)) && InkAll(SplitSentences(text)) == Ink(text)
  {
    SentencesUpToInk(text, |text|);
    var (result, start) := SentencesUpTo(text, |text|);
    InkSplit(text, start);
    PushTrimmedInk(result, text[start..]);
  }

  // ---- fixed width --------------------------------------------------------------------------------

  lemma TrimBounded(s: string, limit: nat)
    requires Bounded(s, limit) && !IsBlank(s)
    ensures Bounded(Trim(s), limit) && IsTrimmed(Trim(s))
  {
    TrimProperties(s);
    if Utf16Len(s) > limit {
      TrimOfTrimmed(s);
    }
  }

  lemma PushPiece(chunks: seq<string>, pending: string, limit: nat)
    requires PiecesOk(chunks, limit) && Bounded(pending, limit)
    ensures PiecesOk(PushTrimmed(chunks, pending), limit)
    ensures InkAll(PushTrimmed(chunks, pending)) == InkAll(chunks) + Ink(pending)
  {
    TrimProperties(pending);
    if !IsBlank(pending) { TrimBounded(pending, limit); }
    PushTrimmedInk(chunks, pending);
  }

  lemma {:induction false} FixedWidthFoldOk(text: string, limit: nat)
    ensures var (chunks, pending) := FixedWidthFold(text, limit);
            && PiecesOk(chunks, limit) && Bounded(pending, limit) && InkAll(chunks) + Ink(pending) == Ink(text)
  {
    if text != [] {
      var front, c := text[..|text| - 1], text[|text| - 1];
      assert text == front + [c];
      FixedWidthFoldOk(front, limit);
      var (chunks, pending) := FixedWidthFold(front, limit);
      InkConcat(front, [c]);
      InkConcat(pending, [c]);
      Utf16LenConcat(pending, [c]);
      assert Utf16Len([c]) == Utf16Width(c) by { assert [c][1..] == []; }
      assert pending == [] ==> pending + [c] == [c];
      PushPiece(chunks, pending, limit);
    }
  }

  lemma FixedWidthCovers(text: string, limit: nat) returns (pieces: seq<Piece>)
    ensures Covers(Ink(text), FixedWidth(text, limit), pieces, limit, {})
  {
    FixedWidthFoldOk(text, limit);
    var (chunks, pending) := FixedWidthFold(text, limit);
    PushPiece(chunks, pending, limit);
    pieces := Whole(FixedWidth(text, limit));
    WholeCovers(FixedWidth(text, limit), limit, {});
  }

  // ---- packing ------------------------------------------------------------------------------------

  /** The first `o` pending units repeat the end of the last chunk. */
  ghost predicate Carried(last: string, pending: seq<string>, o: nat, limit: nat)
    requires o <= |pending|
  {
    && EndsWith(last, Join(pending[..o], " ")) && JoinedLen(pending[..o]) <= OverlapBudget(limit)
    // Why a short tail is never merged into the chunk it overlaps: together they exceed the limit.
    && Utf16Len(last) + 1 + JoinedLen(pending) > limit
  }

  ghost predicate PendingOk(last: Option<string>, pending: seq<string>, o: nat, limit: nat) {
    && AllTrimmed(pending) && JoinedLen(pending) <= limit
    && (o == 0 || (o < |pending| && last.Some? && Carried(last.value, pending, o, limit)))
  }

  /** The packing state has consumed `ink`. */
  ghost predicate PackOk(p: Packing, pieces: seq<Piece>, o: nat, ink: string, limit: nat) {
    && PendingOk(LastText(pieces), p.pending, o, limit)
    && o <= |p.pending|
    && Covers(Fresh(pieces), p.chunks, pieces, limit, {}) && ink == Fresh(pieces) + InkAll(p.pending[o..])
  }

  /** Joined units, split behind the first o of them. */
  lemma JoinedRest(pending: seq<string>, o: nat)
    requires o < |pending| && AllTrimmed(pending)
    ensures var rest := (if o == 0 then "" else " ") + Join(pending[o..], " ");
            && Join(pending, " ") == Join(pending[..o], " ") + rest
            && Ink(rest) == InkAll(pending[o..]) && Ink(rest) != []
  {
    JoinProperties(pending[o..]);
    JoinTrimmed(pending[o..]);
    InkOfTrimmed(Join(pending[o..], " "));
    SpaceFacts();
    InkConcat(" ", Join(pending[o..], " "));
    if o == 0 {
      assert pending[0..] == pending && pending[..0] == [] && "" + Join(pending, " ") == Join(pending, " ");
    } else {
      JoinSplit(pending, o);
      ConcatAssociative(Join(pending[..o], " "), " ", Join(pending[o..], " "));
    }
  }

  /** The pending units as a piece, cut where their overlap ends. */
  lemma PendingPiece(last: Option<string>, pending: seq<string>, o: nat, limit: nat) returns (piece: Piece)
    requires PendingOk(last, pending, o, limit) && pending != []
    ensures PieceOk(last, piece, limit, {}) && piece.Text() == Join(pending, " ")
        && Ink(piece.rest) == InkAll(pending[o..])
  {
    JoinTrimmed(pending);
    JoinProperties(pending);
    JoinProperties(pending[..o]);
    JoinedRest(pending, o);
    piece := Piece("", Join(pending[..o], " "), (if o == 0 then "" else " ") + Join(pending[o..], " "));
    assert "" + Join(pending[..o], " ") == Join(pending[..o], " ");
  }

  lemma ConcatAssociative(a: string, b: string, c: string)
    ensures a + b + c == a + (b + c)
  {
  }

  lemma SpacedAppend(s: string, t: string)
    ensures Ink(s + " " + t) == Ink(s) + Ink(t)
    ensures Utf16Len(s + " " + t) == Utf16Len(s) + 1 + Utf16Len(t)
  {
    SpaceFacts();
    InkConcat(s + " ", t);
    InkConcat(s, " ");
    Utf16LenConcat(s + " ", t);
    Utf16LenConcat(s, " ");
  }

  function Merged(piece: Piece, chunk: string): Piece {
    piece.(rest := piece.rest + " " + chunk)
  }

  lemma MergedText(piece: Piece, chunk: string)
    ensures Merged(piece, chunk).Text() == piece.Text() + " " + chunk
  {
    ConcatAssociative(piece.heading + piece.overlap, piece.rest, " ");
    ConcatAssociative(piece.heading + piece.overlap, piece.rest + " ", chunk);
  }

  lemma MergedTrimmed(s: string, t: string)
    requires IsTrimmed(s) && IsTrimmed(t)
    ensures IsTrimmed(s + " " + t)
  {
    var r := s + " " + t;
    assert r[0] == s[0] && r[|r| - 1] == t[|t| - 1];
  }

  /** A chunk merged behind a piece keeps the piece's cuts. */
  lemma MergePiece(previous: Option<string>, piece: Piece, chunk: string, limit: nat)
    requires PieceOk(previous, piece, limit, {}) && IsTrimmed(chunk)
    requires Utf16Len(piece.Text()) + 1 + Utf16Len(chunk) <= limit
    ensures PieceOk(previous, Merged(piece, chunk), limit, {})
    ensures Ink(Merged(piece, chunk).rest) == Ink(piece.rest) + Ink(chunk)
  {
    MergedText(piece, chunk);
    MergedTrimmed(piece.Text(), chunk);
    SpacedAppend(piece.Text(), chunk);
    SpacedAppend(piece.rest, chunk);
  }

  lemma MergeCovers(ink: string, pieces: seq<Piece>, chunk: string, limit: nat) returns (merged: seq<Piece>)
    requires Covers(ink, Texts(pieces), pieces, limit, {}) && pieces != [] && IsTrimmed(chunk)
    requires Utf16Len(pieces[|pieces| - 1].Text()) + 1 + Utf16Len(chunk) <= limit
    ensures var front, last := Texts(pieces)[..|pieces| - 1], pieces[|pieces| - 1].Text() + " " + chunk;
            Covers(ink + Ink(chunk), front + [last], merged, limit, {}) && LastText(merged) == Some(last)
  {
    var n := |pieces| - 1;
    var front, last := pieces[..n], pieces[n];
    MergePiece(LastText(front), last, chunk, limit);
    MergedText(last, chunk);
    CoversPush(Fresh(front), Texts(front), front, Merged(last, chunk), limit, {});
    ConcatAssociative(Fresh(front), Ink(last.rest), Ink(chunk));
    merged := front + [Merged(last, chunk)];
    assert Texts(pieces)[..n] == Texts(front);
  }

  /** Closing the pending units: covers everything consumed, and the last chunk ends with the pending text. */
  lemma FlushCovers(p: Packing, pieces: seq<Piece>, o: nat, ink: string, limit: nat) returns (flushed: seq<Piece>)
    requires PackOk(p, pieces, o, ink, limit)
    ensures Covers(ink, Flush(p.chunks, p.pending, limit), flushed, limit, {})
    ensures p.pending != [] ==>
              LastText(flushed).Some? && EndsWith(LastText(flushed).value, Join(p.pending, " "))
  {
    var done := Fresh(pieces);
    if p.pending == [] {
      flushed := pieces;
    } else {
      var chunk := Join(p.pending, " ");
      var n := |p.chunks| - 1;
      JoinTrimmed(p.pending);
      JoinProperties(p.pending);
      if Utf16Len(chunk) < SHORT_CHUNK && p.chunks != []
         && Utf16Len(p.chunks[n]) + 1 + Utf16Len(chunk) <= limit
      {
        assert o == 0 && p.pending[0..] == p.pending;
        flushed := MergeCovers(done, pieces, chunk, limit);
      } else {
        var piece := PendingPiece(LastText(pieces), p.pending, o, limit);
        CoversPush(done, p.chunks, pieces, piece, limit, {});
        flushed := pieces + [piece];
      }
    }
  }

  /** What is carried over after a flush is a suffix of the last chunk that together with it exceeds the limit. */
  lemma CarryOk(last: string, pending: seq<string>, unit: string, limit: nat)
    requires AllTrimmed(pending) && IsTrimmed(unit) && Utf16Len(unit) <= limit && CandidateLen(pending, unit) > limit
    requires EndsWith(last, Join(pending, " "))
    ensures var carry := Carry(pending, unit, limit);
            PendingOk(Some(last), carry + [unit], |carry|, limit)
  {
    var carry := Carry(pending, unit, limit);
    var k := RetainedIsSuffix(pending, limit);
    JoinedLenPush(carry, unit);
    assert (carry + [unit])[..|carry|] == carry;
    if carry != [] {
      JoinProperties(pending);
      EndsWithLen(last, Join(pending, " "));
      JoinSplit(pending, k);
      assert EndsWith(Join(pending, " "), Join(carry, " "));
      EndsWithTrans(last, Join(pending, " "), Join(carry, " "));
      assert Utf16Len(last) + 1 + JoinedLen(carry + [unit]) > limit;
    }
  }

  lemma EndsWithLen(s: string, suffix: string)
    requires EndsWith(s, suffix)
    ensures Utf16Len(s) >= Utf16Len(suffix)
  {
    var n := |s| - |suffix|;
    assert s == s[..n] + s[n..];
    Utf16LenConcat(s[..n], s[n..]);
  }

  lemma EndsWithTrans(s: string, middle: string, suffix: string)
    requires EndsWith(s, middle) && EndsWith(middle, suffix)
    ensures EndsWith(s, suffix)
  {
    var n := |s| - |middle|;
    assert s[n..][|middle| - |suffix|..] == s[|s| - |suffix|..];
  }

  /** An overflowing unit: flush, carry over what fits, and start again with the unit. */
  lemma OverflowOk(p: Packing, pieces: seq<Piece>, o: nat, ink: string, unit: string, limit: nat)
    returns (flushed: seq<Piece>, o': nat)
    requires PackOk(p, pieces, o, ink, limit) && IsTrimmed(unit) && Utf16Len(unit) <= limit
    requires CandidateLen(p.pending, unit) > limit
    ensures PackOk(Packing(Flush(p.chunks, p.pending, limit), Carry(p.pending, unit, limit) + [unit]),
                   flushed, o', ink + Ink(unit), limit)
  {
    flushed := FlushCovers(p, pieces, o, ink, limit);
    var carry := Carry(p.pending, unit, limit);
    o' := |carry|;
    CarryOk(LastText(flushed).value, p.pending, unit, limit);
    assert (carry + [unit])[o'..] == [unit] && InkAll([unit]) == Ink(unit) by { assert [unit][1..] == []; }
  }

  lemma AppendPending(last: Option<string>, pending: seq<string>, o: nat, unit: string, limit: nat)
    requires PendingOk(last, pending, o, limit) && o <= |pending| && IsTrimmed(unit)
    requires CandidateLen(pending, unit) <= limit
    ensures PendingOk(last, pending + [unit], o, limit)
    ensures InkAll((pending + [unit])[o..]) == InkAll(pending[o..]) + Ink(unit)
  {
    JoinedLenPush(pending, unit);
    PushSlices(pending, o, unit);
    InkAllPush(pending[o..], unit);
  }

  lemma PushSlices(pending: seq<string>, o: nat, unit: string)
    requires o <= |pending|
    ensures (pending + [unit])[o..] == pending[o..] + [unit] && (pending + [unit])[..o] == pending[..o]
  {
  }

  lemma AppendOk(p: Packing, pieces: seq<Piece>, o: nat, ink: string, unit: string, limit: nat)
    requires PackOk(p, pieces, o, ink, limit) && IsTrimmed(unit) && CandidateLen(p.pending, unit) <= limit
    ensures PackOk(Packing(p.chunks, p.pending + [unit]), pieces, o, ink + Ink(unit), limit)
  {
    var pending := p.pending + [unit];
    AppendPending(LastText(pieces), p.pending, o, unit, limit);
    ConcatAssociative(Fresh(pieces), InkAll(p.pending[o..]), Ink(unit));
    assert ink + Ink(unit) == Fresh(pieces) + InkAll(pending[o..]);
  }

  lemma OversizedOk(p: Packing, pieces: seq<Piece>, o: nat, ink: string, unit: string, nested: seq<Piece>, limit: nat)
    returns (all: seq<Piece>)
    requires PackOk(p, pieces, o, ink, limit) && Covers(Ink(unit), Oversized(unit, limit), nested, limit, {})
    ensures PackOk(Packing(Flush(p.chunks, p.pending, limit) + Oversized(unit, limit), []), all, 0, ink + Ink(unit),
        limit)
  {
    var flushed := FlushCovers(p, pieces, o, ink, limit);
    CoversConcat(ink, Flush(p.chunks, p.pending, limit), flushed, Ink(unit), Oversized(unit, limit), nested, limit, {});
    all := flushed + nested;
  }

  lemma {:induction false} PackCovers(units: seq<string>, limit: nat) returns (pieces: seq<Piece>, o: nat)
    requires AllTrimmed(units)
    ensures PackOk(Pack(units, limit), pieces, o, InkAll(units), limit)
    decreases Depth(units), |units|, 1
  {
    if units == [] {
      pieces, o := [], 0;
    } else {
      var front, unit := units[..|units| - 1], units[|units| - 1];
      DepthOfParts(units);
      assert units == front + [unit];
      InkAllPush(front, unit);
      var p := Pack(front, limit);
      pieces, o := PackCovers(front, limit);
      if Utf16Len(unit) > limit {
        var nested := OversizedCovers(unit, limit);
        pieces := OversizedOk(p, pieces, o, InkAll(front), unit, nested, limit);
        o := 0;
      } else if CandidateLen(p.pending, unit) > limit {
        pieces, o := OverflowOk(p, pieces, o, InkAll(front), unit, limit);
      } else {
        AppendOk(p, pieces, o, InkAll(front), unit, limit);
      }
    }
  }

  lemma {:induction false} OversizedCovers(unit: string, limit: nat) returns (pieces: seq<Piece>)
    ensures Covers(Ink(unit), Oversized(unit, limit), pieces, limit, {})
    decreases Depth([unit]), 0, 3
  {
    var words := SplitWhitespace(unit);
    if |words| <= 1 {
      pieces := FixedWidthCovers(unit, limit);
    } else {
      SplitsIntoWords(unit);
      WordDepth(words);
      WordsAreTrimmed(unit);
      SplitWhitespaceInk(unit);
      assert [unit][0] == unit;
      pieces := ChunkUnitsCovers(words, limit);
    }
  }

  lemma {:induction false} ChunkUnitsCovers(units: seq<string>, limit: nat) returns (pieces: seq<Piece>)
    requires AllTrimmed(units)
    ensures Covers(InkAll(units), ChunkUnits(units, limit), pieces, limit, {})
    decreases Depth(units), |units|, 2
  {
    var o;
    pieces, o := PackCovers(units, limit);
    pieces := FlushCovers(Pack(units, limit), pieces, o, InkAll(units), limit);
  }

  lemma ChunkPlainCovers(text: string, limit: nat) returns (pieces: seq<Piece>)
    ensures Covers(Ink(text), ChunkPlain(text, limit), pieces, limit, {})
  {
    SplitSentencesInk(text);
    pieces := ChunkUnitsCovers(SplitSentences(text), limit);
  }

  // ---- Markdown sections --------------------------------------------------------------------------

  lemma {:induction false} SplitNewlinesInk(text: string)
    ensures InkAll(SplitNewlines(text)) == Ink(text)
  {
    var n := IndexOf(text, '\n');
    if n < |text| {
      SplitNewlinesInk(text[n + 1..]);
      InkSplit(text, n);
      assert text[n..][1..] == text[n + 1..] && IsWhitespace(text[n..][0]);
      var rest := SplitNewlines(text[n + 1..]);
      assert ([text[..n]] + rest)[1..] == rest;
    } else {
      assert [text][1..] == [];
    }
  }

  /** Closing the current lines, and one more line, keep the ink in order. */
  lemma SectionStepInk(sections: seq<string>, current: seq<string>, line: string)
    requires AllTrimmed(sections)
    ensures var ink := InkAll(sections) + InkAll(current) + Ink(line);
            var closed := PushTrimmed(sections, Join(current, "\n"));
            && InkAll(sections) + InkAll(current + [line]) == ink
            && AllTrimmed(closed) && InkAll(closed) + InkAll([line]) == ink
  {
    InkAllPush(current, line);
    ConcatAssociative(InkAll(sections), InkAll(current), Ink(line));
    SpaceFacts();
    JoinInk(current, "\n");
    PushTrimmedInk(sections, Join(current, "\n"));
    assert InkAll([line]) == Ink(line) by { assert [line][1..] == []; }
  }

  lemma {:induction false} SectionLinesInk(lines: seq<string>)
    ensures var s := SectionLines(lines);
            AllTrimmed(s.sections) && InkAll(s.sections) + InkAll(s.current) == InkAll(lines)
  {
    if lines != [] {
      var front, line := lines[..|lines| - 1], lines[|lines| - 1];
      assert lines == front + [line];
      SectionLinesInk(front);
      InkAllPush(front, line);
      var s := SectionLines(front);
      SectionStepInk(s.sections, s.current, line);
    }
  }

  lemma MarkdownSectionsInk(text: string)
    ensures AllTrimmed(MarkdownSections(text)) && InkAll(MarkdownSections(text)) == Ink(text)
  {
    var lines := SplitNewlines(text);
    var s := SectionLines(lines);
    SplitNewlinesInk(text);
    SectionLinesInk(lines);
    SpaceFacts();
    JoinInk(s.current, "\n");
    PushTrimmedInk(s.sections, Join(s.current, "\n"));
  }

  // ---- repeated headings --------------------------------------------------------------------------

  /** The heading lines of the sections. */
  function Headings(sections: seq<string>): set<string> {
    set section | section in sections && HeadingOf(section).Some? :: HeadingOf(section).value
  }

  lemma HeadingPiece(before: Option<string>, after: Option<string>, piece: Piece, heading: string, limit: nat,
                     headings: set<string>)
    requires PieceOk(before, piece, limit, {}) && heading in headings && IsHeading(heading)
    requires Utf16Len(heading + "\n\n" + piece.Text()) <= limit
    requires after.Some? && (before.Some? ==> EndsWith(after.value, before.value))
    ensures var repeated := piece.(heading := heading + "\n\n");
            && repeated.Text() == heading + "\n\n" + piece.Text()
            && PieceOk(after, repeated, limit, headings)
            && EndsWith(repeated.Text(), piece.Text())
  {
    var repeated := piece.(heading := heading + "\n\n");
    assert piece.heading == [];
    assert repeated.Text() == heading + "\n\n" + piece.Text();
    assert heading[0] == '#';
    assert repeated.heading[..|repeated.heading| - 2] == heading;
    if piece.overlap != [] {
      EndsWithTrans(after.value, before.value, piece.overlap);
    }
  }

  lemma PlainPiece(before: Option<string>, after: Option<string>, piece: Piece, limit: nat, headings: set<string>)
    requires PieceOk(before, piece, limit, {})
    requires before.Some? ==> after.Some? && EndsWith(after.value, before.value)
    ensures PieceOk(after, piece, limit, headings)
  {
    if piece.overlap != [] {
      EndsWithTrans(after.value, before.value, piece.overlap);
    }
  }

  /** One chunk with its heading repeated, if it is a continuation and there is room. */
  lemma RepeatedPiece(heading: Option<string>, n: nat, before: Option<string>, after: Option<string>, last: Piece,
                      limit: nat, headings: set<string>) returns (piece: Piece)
    requires PieceOk(before, last, limit, {}) && (n > 0 ==> before.Some?)
    requires before.Some? ==> after.Some? && EndsWith(after.value, before.value)
    requires heading.Some? ==> heading.value in headings && IsHeading(heading.value)
    ensures PieceOk(after, piece, limit, headings) && piece.rest == last.rest && EndsWith(piece.Text(), last.Text())
    ensures piece.Text() == if heading.Some? && n > 0 then WithHeading(heading.value, last.Text(), limit)
        else last.Text()
    ensures piece.heading != [] ==> n > 0 && heading.Some? && piece.heading == heading.value + "\n\n"
  {
    piece := last;
    if heading.Some? && n > 0 && WithHeading(heading.value, last.Text(), limit) != last.Text() {
      HeadingPiece(before, after, last, heading.value, limit, headings);
      piece := last.(heading := heading.value + "\n\n");
    } else {
      PlainPiece(before, after, last, limit, headings);
    }
  }

  /** Only continuations carry a heading, and only this one. */
  predicate Carries(pieces: seq<Piece>, heading: Option<string>) {
    pieces == [] ||
    (var last := pieces[|pieces| - 1];
     && Carries(pieces[..|pieces| - 1], heading)
     && (last.heading != [] ==> |pieces| > 1 && heading.Some? && last.heading == heading.value + "\n\n"))
  }

  lemma CarriesPush(pieces: seq<Piece>, piece: Piece, heading: Option<string>)
    requires Carries(pieces, heading)
    requires piece.heading != [] ==> pieces != [] && heading.Some? && piece.heading == heading.value + "\n\n"
    ensures Carries(pieces + [piece], heading)
  {
    assert (pieces + [piece])[..|pieces|] == pieces;
  }

  /** Repeating a heading keeps the cover: only the cut of the continuation chunks moves. */
  lemma {:induction false} RepeatHeadingCovers(heading: Option<string>, split: seq<string>, pieces: seq<Piece>,
                                               limit: nat, headings: set<string>) returns (repeated: seq<Piece>)
    requires AllOk(pieces, limit, {}) && split == Texts(pieces)
    requires heading.Some? ==> heading.value in headings && IsHeading(heading.value)
    ensures Covers(Fresh(pieces), RepeatHeading(heading, split, limit), repeated, limit, headings)
    ensures |repeated| == |pieces| && Carries(repeated, heading)
    ensures pieces != [] ==> EndsWith(LastText(repeated).value, LastText(pieces).value)
  {
    if pieces == [] {
      repeated := [];
    } else {
      var n := |pieces| - 1;
      var front, last := pieces[..n], pieces[n];
      assert split[..n] == Texts(front) && split[n] == last.Text();
      var before := RepeatHeadingCovers(heading, split[..n], front, limit, headings);
      RepeatHeadingPush(heading, split, limit);
      var piece := RepeatedPiece(heading, n, LastText(front), LastText(before), last, limit, headings);
      CoversPush(Fresh(front), RepeatHeading(heading, split[..n], limit), before, piece, limit, headings);
      CarriesPush(before, piece, heading);
      repeated := before + [piece];
    }
  }

  // ---- whose heading is repeated ------------------------------------------------------------------

  /** A heading repeated for the ink between two positions: that of the section which began before and holds it all. */
  ghost predicate OwnHeading(sections: seq<string>, heading: string, from: nat, to: nat) {
    exists j :: 0 <= j < |sections| && HeadingOf(sections[j]).Some? && heading == HeadingOf(sections[j]).value + "\n\n"
                && |InkAll(sections[..j])| < from && to <= |InkAll(sections[..j + 1])|
  }

  /** Every piece that repeats a heading continues the section of that heading. */
  ghost predicate OwnHeadings(sections: seq<string>, pieces: seq<Piece>) {
    pieces == [] ||
    (var front, last := pieces[..|pieces| - 1], pieces[|pieces| - 1];
     OwnHeadings(sections, front)
     && (last.heading != [] ==> OwnHeading(sections, last.heading, |Fresh(front)|, |Fresh(pieces)|)))
  }

  lemma {:induction false} OwnHeadingsLater(front: seq<string>, section: string, pieces: seq<Piece>)
    requires OwnHeadings(front, pieces)
    ensures OwnHeadings(front + [section], pieces)
  {
    if pieces != [] {
      var first, last := pieces[..|pieces| - 1], pieces[|pieces| - 1];
      OwnHeadingsLater(front, section, first);
      if last.heading != [] {
        var j :| 0 <= j < |front| && HeadingOf(front[j]).Some? && last.heading == HeadingOf(front[j]).value + "\n\n"
                 && |InkAll(front[..j])| < |Fresh(first)| && |Fresh(pieces)| <= |InkAll(front[..j + 1])|;
        assert (front + [section])[..j] == front[..j] && (front + [section])[..j + 1] == front[..j + 1];
        assert (front + [section])[j] == front[j];
      }
    }
  }

  lemma {:induction false} NoHeadings(pieces: seq<Piece>, sections: seq<string>)
    requires forall i | 0 <= i < |pieces| :: pieces[i].heading == []
    ensures OwnHeadings(sections, pieces)
  {
    if pieces != [] { NoHeadings(pieces[..|pieces| - 1], sections); }
  }

  lemma {:induction false} PlainHasNoHeadings(pieces: seq<Piece>, limit: nat)
    requires AllOk(pieces, limit, {})
    ensures forall i | 0 <= i < |pieces| :: pieces[i].heading == []
  {
    if pieces != [] { PlainHasNoHeadings(pieces[..|pieces| - 1], limit); }
  }

  lemma SectionPosition(front: seq<string>, section: string, heading: string, from: nat, to: nat)
    requires HeadingOf(section).Some? && heading == HeadingOf(section).value + "\n\n"
    requires |InkAll(front)| < from && to <= |InkAll(front)| + |Ink(section)|
    ensures OwnHeading(front + [section], heading, from, to)
  {
    var sections, j := front + [section], |front|;
    InkAllPush(front, section);
    assert sections[..j] == front && sections[..j + 1] == sections && sections[j] == section;
  }

  /** The pieces of an oversized section behind the pieces of the sections before it. */
  lemma {:induction false} OwnSection(front: seq<string>, section: string, closed: seq<Piece>, repeated: seq<Piece>,
                                      limit: nat, headings: set<string>)
    requires OwnHeadings(front + [section], closed) && Fresh(closed) == InkAll(front)
    requires AllOk(repeated, limit, headings) && |Fresh(repeated)| <= |Ink(section)|
    requires Carries(repeated, HeadingOf(section))
    ensures OwnHeadings(front + [section], closed + repeated)
  {
    if repeated == [] {
      assert closed + repeated == closed;
    } else {
      var before, last := repeated[..|repeated| - 1], repeated[|repeated| - 1];
      OwnSection(front, section, closed, before, limit, headings);
      ConcatFront(closed, repeated);
      if last.heading != [] {
        FreshConcat(closed, before);
        FreshConcat(closed, repeated);
        CoveredChunks(before, limit, headings);
        SectionPosition(front, section, last.heading, |Fresh(closed + before)|, |Fresh(closed + repeated)|);
      }
    }
  }

  lemma RepeatHeadingPush(heading: Option<string>, split: seq<string>, limit: nat)
    requires split != []
    ensures var n := |split| - 1;
            RepeatHeading(heading, split, limit) ==
              RepeatHeading(heading, split[..n], limit)
              + [if heading.Some? && n > 0 then WithHeading(heading.value, split[n], limit) else split[n]]
  {
    assert split == split[..|split| - 1] + [split[|split| - 1]];
  }

  // ---- assembling sections ------------------------------------------------------------------------

  ghost predicate AssemblyOk(a: Assembly, pieces: seq<Piece>, ink: string, limit: nat, headings: set<string>) {
    && Covers(Fresh(pieces), a.chunks, pieces, limit, headings)
    && (a.pending == [] || (IsTrimmed(a.pending) && Utf16Len(a.pending) <= limit))
    && ink == Fresh(pieces) + Ink(a.pending)
  }

  /** Closing the pending sections. */
  lemma PushPending(a: Assembly, pieces: seq<Piece>, ink: string, limit: nat, headings: set<string>)
    returns (closed: seq<Piece>)
    requires AssemblyOk(a, pieces, ink, limit, headings)
    ensures Covers(ink, PushTrimmed(a.chunks, a.pending), closed, limit, headings)
    ensures forall sections | OwnHeadings(sections, pieces) :: OwnHeadings(sections, closed)
  {
    TrimOfTrimmed(a.pending);
    if a.pending == [] {
      closed := pieces;
    } else {
      var piece := Piece("", "", a.pending);
      assert piece.Text() == a.pending;
      InkOfTrimmed(a.pending);
      CoversPush(Fresh(pieces), a.chunks, pieces, piece, limit, headings);
      closed := pieces + [piece];
      assert closed[..|pieces|] == pieces;
    }
  }

  lemma AppendSection(pending: string, section: string)
    ensures Ink(pending + "\n\n" + section) == Ink(pending) + Ink(section)
    ensures Utf16Len(pending + "\n\n" + section) == Utf16Len(pending) + 2 + Utf16Len(section)
  {
    var glued := pending + "\n\n";
    SpaceFacts();
    InkConcat(glued, section);
    InkConcat(pending, "\n\n");
    assert Ink(glued) == Ink(pending);
    Utf16LenConcat(glued, section);
    Utf16LenConcat(pending, "\n\n");
  }

  lemma AppendTrimmed(pending: string, section: string)
    requires IsTrimmed(pending) && IsTrimmed(section)
    ensures IsTrimmed(pending + "\n\n" + section)
  {
    var r := pending + "\n\n" + section;
    assert r[0] == pending[0] && r[|r| - 1] == section[|section| - 1];
  }

  /** One section that fits: joined to the pending ones, or started anew behind them. */
  lemma FittingSection(a: Assembly, pieces: seq<Piece>, ink: string, section: string, limit: nat, headings: set<string>)
    returns (next: seq<Piece>)
    requires AssemblyOk(a, pieces, ink, limit, headings) && IsTrimmed(section) && Utf16Len(section) <= limit
    ensures var b := if a.pending == [] then Assembly(a.chunks, section)
                     else if Utf16Len(a.pending) + 2 + Utf16Len(section) > limit
                     then Assembly(PushTrimmed(a.chunks, a.pending), section)
                     else Assembly(a.chunks, a.pending + "\n\n" + section);
            AssemblyOk(b, next, ink + Ink(section), limit, headings)
    ensures forall sections | OwnHeadings(sections, pieces) :: OwnHeadings(sections, next)
  {
    next := pieces;
    if a.pending == [] {
      assert ink == Fresh(pieces);
    } else if Utf16Len(a.pending) + 2 + Utf16Len(section) > limit {
      next := PushPending(a, pieces, ink, limit, headings);
    } else {
      AppendSection(a.pending, section);
      AppendTrimmed(a.pending, section);
      ConcatAssociative(Fresh(pieces), Ink(a.pending), Ink(section));
    }
  }

  /** The chunks of one section, with its heading repeated. */
  function SectionChunks(section: string, limit: nat): seq<string> {
    RepeatHeading(HeadingOf(section), ChunkPlain(section, limit), limit)
  }

  lemma SectionPieces(section: string, limit: nat, headings: set<string>) returns (repeated: seq<Piece>)
    requires HeadingOf(section).Some? ==> HeadingOf(section).value in headings
    ensures Covers(Ink(section), SectionChunks(section, limit), repeated, limit, headings)
    ensures Carries(repeated, HeadingOf(section))
  {
    var plain := ChunkPlainCovers(section, limit);
    repeated := RepeatHeadingCovers(HeadingOf(section), ChunkPlain(section, limit), plain, limit, headings);
  }

  lemma OversizedSection(a: Assembly, pieces: seq<Piece>, front: seq<string>, section: string, limit: nat,
                         headings: set<string>)
    returns (all: seq<Piece>)
    requires AssemblyOk(a, pieces, InkAll(front), limit, headings) && OwnHeadings(front + [section], pieces)
    requires HeadingOf(section).Some? ==> HeadingOf(section).value in headings
    ensures Covers(InkAll(front) + Ink(section), PushTrimmed(a.chunks, a.pending) + SectionChunks(section, limit),
                   all, limit, headings)
    ensures OwnHeadings(front + [section], all)
  {
    var closed := PushPending(a, pieces, InkAll(front), limit, headings);
    var repeated := SectionPieces(section, limit, headings);
    CoversConcat(InkAll(front), PushTrimmed(a.chunks, a.pending), closed,
                 Ink(section), SectionChunks(section, limit), repeated, limit, headings);
    OwnSection(front, section, closed, repeated, limit, headings);
    all := closed + repeated;
  }

  lemma {:induction false} AssembleCovers(sections: seq<string>, limit: nat, headings: set<string>)
    returns (pieces: seq<Piece>)
    requires AllTrimmed(sections) && Headings(sections) <= headings
    ensures AssemblyOk(Assemble(sections, limit), pieces, InkAll(sections), limit, headings)
    ensures OwnHeadings(sections, pieces)
  {
    if sections == [] {
      pieces := [];
    } else {
      var n := |sections| - 1;
      var front, section := sections[..n], sections[n];
      assert sections == front + [section];
      InkAllPush(front, section);
      assert Headings(front) <= Headings(sections);
      assert section in sections;
      var a := Assemble(front, limit);
      var before := AssembleCovers(front, limit, headings);
      OwnHeadingsLater(front, section, before);
      if Utf16Len(section) > limit {
        pieces := OversizedSection(a, before, front, section, limit, headings);
      } else {
        assert section == sections[n];
        pieces := FittingSection(a, before, InkAll(front), section, limit, headings);
      }
    }
  }

  lemma ChunkMarkdownCovers(text: string, limit: nat) returns (pieces: seq<Piece>)
    requires !IsBlank(text)
    ensures Covers(Ink(text), ChunkMarkdown(text, limit), pieces, limit, Headings(MarkdownSections(text)))
    ensures OwnHeadings(MarkdownSections(text), pieces)
  {
    var sections := MarkdownSections(text);
    BlankHasNoInk(text);
    MarkdownSectionsInk(text);
    pieces := AssembleCovers(sections, limit, Headings(sections));
    pieces := PushPending(Assemble(sections, limit), pieces, InkAll(sections), limit, Headings(sections));
  }

  // ---- the theorem --------------------------------------------------------------------------------

  lemma {:induction false} MoreHeadings(pieces: seq<Piece>, limit: nat, headings: set<string>)
    requires AllOk(pieces, limit, {})
    ensures AllOk(pieces, limit, headings)
  {
    if pieces != [] {
      MoreHeadings(pieces[..|pieces| - 1], limit, headings);
    }
  }

  // ---- normalization ------------------------------------------------------------------------------

  /** NUL and the replacement character: the only characters that chunking may lose. */
  predicate Dropped(c: char) {
    c as int == 0 || c as int == 0xFFFD
  }

  function Legible(s: string): string {
    if s == [] then []
    else if Dropped(s[|s| - 1]) then Legible(s[..|s| - 1])
    else Legible(s[..|s| - 1]) + [s[|s| - 1]]
  }

  lemma NormalizeCharacter(c: char)
    ensures Normalize([c]) == if Dropped(c) then [] else [c]
  {
    assert [c][1..] == [];
  }

  lemma {:induction false} NormalizeConcat(a: string, b: string)
    ensures Normalize(a + b) == Normalize(a) + Normalize(b)
  {
    if a == [] {
      assert a + b == b;
    } else {
      assert (a + b)[1..] == a[1..] + b;
      NormalizeConcat(a[1..], b);
    }
  }

  /** Normalization, being character by character, drops the illegible characters and nothing else. */
  lemma {:induction false} NormalizeIsLegible(text: string)
    ensures Normalize(text) == Legible(text)
    ensures (forall c | c in text :: !Dropped(c)) ==> Normalize(text) == text
  {
    if text != [] {
      var front, last := text[..|text| - 1], text[|text| - 1];
      assert text == front + [last];
      NormalizeIsLegible(front);
      NormalizeConcat(front, [last]);
      NormalizeCharacter(last);
    }
  }

  lemma {:induction false} LegibleInk(text: string)
    ensures Ink(Legible(text)) == Legible(Ink(text))
  {
    if text != [] {
      var front, last := text[..|text| - 1], text[|text| - 1];
      assert text == front + [last];
      LegibleInk(front);
      InkConcat(front, [last]);
      InkConcat(Legible(front), [last]);
      assert [last][1..] == [];
      if IsWhitespace(last) {
        assert Ink(text) == Ink(front);
        assert Ink(Legible(text)) == Ink(Legible(front));
      } else {
        assert Ink(text) == Ink(front) + [last];
      }
    }
  }

  lemma {:induction false} LegibleIs(text: string, c: char)
    ensures c in Legible(text) <==> c in text && !Dropped(c)
  {
    if text != [] {
      LegibleIs(text[..|text| - 1], c);
      assert text == text[..|text| - 1] + [text[|text| - 1]];
    }
  }

  /** What is left to cover: the ink without the dropped characters, which is all of it if there are none. */
  lemma NormalizedInk(text: string)
    ensures Ink(Normalize(text)) == Legible(Ink(text))
    ensures (forall c | c in text :: !Dropped(c)) ==> Legible(Ink(text)) == Ink(text)
    ensures IsBlank(Normalize(text)) <==> forall c | c in text :: IsWhitespace(c) || Dropped(c)
    ensures forall c :: c in Normalize(text) <==> c in text && !Dropped(c)
  {
    NormalizeIsLegible(text);
    LegibleInk(text);
    forall c ensures c in Normalize(text) <==> c in text && !Dropped(c) { LegibleIs(text, c); }
    assert IsBlank(Normalize(text)) <==> forall c | c in Normalize(text) :: IsWhitespace(c);
  }

  /** The chunks can be cut so that the new texts hold exactly the legible ink of the text, in order, and a heading
      is repeated only in front of a continuation of its own section. */
  lemma ChunkAtCovers(text: string, limit: nat) returns (pieces: seq<Piece>)
    ensures Covers(Legible(Ink(text)), ChunkAt(text, limit), pieces, limit, Headings(MarkdownSections(Normalize(text))))
    ensures OwnHeadings(MarkdownSections(Normalize(text)), pieces)
  {
    NormalizedInk(text);
    var normalized := Normalize(text);
    BlankHasNoInk(normalized);
    if IsBlank(normalized) {
      pieces := [];
    } else if LooksLikeMarkdown(normalized) {
      pieces := ChunkMarkdownCovers(normalized, limit);
    } else {
      pieces := ChunkPlainCovers(normalized, limit);
      PlainHasNoHeadings(pieces, limit);
      NoHeadings(pieces, MarkdownSections(normalized));
      MoreHeadings(pieces, limit, Headings(MarkdownSections(normalized)));
    }
  }

  lemma {:induction false} CoveredChunks(pieces: seq<Piece>, limit: nat, headings: set<string>)
    requires AllOk(pieces, limit, headings)
    ensures forall c | c in Texts(pieces) :: IsTrimmed(c) && Bounded(c, limit)
    ensures pieces == [] <==> Fresh(pieces) == []
  {
    if pieces != [] {
      CoveredChunks(pieces[..|pieces| - 1], limit, headings);
    }
  }

  /** Beyond the basic plane, where UTF-16 takes two code units. */
  predicate Astral(c: char) {
    c as int >= 0x10000
  }

  lemma {:induction false} AstralIsInk(text: string, c: char)
    requires Astral(c)
    ensures c in Ink(text) <==> c in text
  {
    if text != [] {
      AstralIsInk(text[1..], c);
      assert text == [text[0]] + text[1..];
    }
  }

  lemma {:induction false} AstralIsWide(s: string, c: char)
    requires Astral(c) && c in s
    ensures Utf16Len(s) >= 2
  {
    if s[0] != c {
      assert s == [s[0]] + s[1..];
      AstralIsWide(s[1..], c);
    }
  }

  lemma {:induction false} InkIsContained(s: string, c: char)
    requires c in Ink(s)
    ensures c in s
  {
    if IsWhitespace(s[0]) || c != s[0] {
      InkIsContained(s[1..], c);
    }
  }

  /** Every fresh character is in some chunk. */
  lemma {:induction false} FreshIsInSomeChunk(pieces: seq<Piece>, c: char) returns (i: nat)
    requires c in Fresh(pieces)
    ensures i < |pieces| && Texts(pieces)[i] == pieces[i].Text() && c in pieces[i].Text()
  {
    var n := |pieces| - 1;
    if c in Ink(pieces[n].rest) {
      InkIsContained(pieces[n].rest, c);
      i := n;
    } else {
      i := FreshIsInSomeChunk(pieces[..n], c);
    }
  }

  lemma {:induction false} LoneCharacterIsFresh(pieces: seq<Piece>, limit: nat, headings: set<string>, chunk: string)
    requires AllOk(pieces, limit, headings) && chunk in Texts(pieces) && |chunk| == 1
    ensures chunk[0] in Fresh(pieces)
  {
    var n := |pieces| - 1;
    if chunk == pieces[n].Text() {
      assert pieces[n].rest != [];
      assert chunk == pieces[n].rest && chunk[1..] == [];
    } else {
      LoneCharacterIsFresh(pieces[..n], limit, headings, chunk);
    }
  }

  /** A chunk of one character beyond limit 1 is astral, and a character of the text. */
  lemma BoundBroken(text: string, limit: nat, chunk: string)
    requires limit >= 1 && chunk in ChunkAt(text, limit) && Utf16Len(chunk) > limit
    ensures limit == 1 && |chunk| == 1 && chunk[0] in text && Astral(chunk[0])
  {
    var pieces := ChunkAtCovers(text, limit);
    var headings := Headings(MarkdownSections(Normalize(text)));
    CoveredChunks(pieces, limit, headings);
    assert chunk[1..] == [];
    LoneCharacterIsFresh(pieces, limit, headings, chunk);
    LegibleIs(Ink(text), chunk[0]);
    InkIsContained(text, chunk[0]);
  }

  ghost predicate CoveredBy(text: string, chunks: seq<string>, limit: nat) {
    var sections := MarkdownSections(Normalize(text));
    exists pieces ::
      Covers(Legible(Ink(text)), chunks, pieces, limit, Headings(sections)) && OwnHeadings(sections, pieces)
  }

  lemma ChunkAtCoveredBy(text: string, limit: nat)
    ensures CoveredBy(text, ChunkAt(text, limit), limit)
    ensures forall c | c in ChunkAt(text, limit) :: IsTrimmed(c)
    ensures ChunkAt(text, limit) == [] <==> Legible(Ink(text)) == []
  {
    var pieces := ChunkAtCovers(text, limit);
    CoveredChunks(pieces, limit, Headings(MarkdownSections(Normalize(text))));
  }

  /**
   Chunking fails exactly on sizes below -1 or above the maximum; without a size, or with -1 or 0, the size is 1075.
   Every chunk is nonempty and trimmed, no chunk exceeds the limit (apart from a lone character at limit 1), there are
   no chunks exactly for text without legible ink, and the chunks cover the legible ink, which is all ink if the text
   has neither NUL nor the replacement character.
   */
  lemma ChunkTextSound(text: string, requested: Option<int>)
    ensures match ChunkText(text, requested)
            case Err(TooSmall) => requested.Some? && requested.value < -1
            case Err(TooLarge) => requested.Some? && requested.value > 28672
            case Ok(chunks) =>
              var limit := if requested.Some? && requested.value > 0 then requested.value else 1075;
              && (requested.Some? ==> -1 <= requested.value <= 28672)
              && (chunks == [] <==> forall c | c in text :: IsWhitespace(c) || Dropped(c))
              && (forall c | c in chunks :: IsTrimmed(c) && (Utf16Len(c) <= limit || (limit == 1 && |c| == 1)))
              && CoveredBy(text, chunks, limit)
              && ((forall c | c in text :: !Dropped(c)) ==> Legible(Ink(text)) == Ink(text))
  {
    if Limit(requested).Ok? {
      var limit := Limit(requested).value;
      ChunkAtCoveredBy(text, limit);
      NormalizedInk(text);
      BlankHasNoInk(Normalize(text));
      forall c | c in ChunkAt(text, limit) ensures Utf16Len(c) <= limit || (limit == 1 && |c| == 1) {
        if Utf16Len(c) > limit { BoundBroken(text, limit, c); }
      }
    }
  }

  /** The limit binds every chunk exactly when it is at least 2 or the text has no astral character. */
  lemma BoundHoldsIff(text: string, limit: nat)
    requires limit >= 1
    ensures (forall c | c in ChunkAt(text, limit) :: Utf16Len(c) <= limit)
            <==> limit >= 2 || forall c | c in text :: !Astral(c)
  {
    forall chunk | chunk in ChunkAt(text, limit) && Utf16Len(chunk) > limit
      ensures limit == 1 && exists c :: c in text && Astral(c)
    {
      BoundBroken(text, limit, chunk);
    }
    if limit == 1 && exists c :: c in text && Astral(c) {
      var c :| c in text && Astral(c);
      AstralIsInk(text, c);
      LegibleIs(Ink(text), c);
      var pieces := ChunkAtCovers(text, limit);
      var i := FreshIsInSomeChunk(pieces, c);
      AstralIsWide(pieces[i].Text(), c);
      assert Texts(pieces)[i] in ChunkAt(text, limit);
    }
  }

  // ---- the embedding boundary ---------------------------------------------------------------------

  const MAX_UTF16_UNITS: nat := 8000

  /** The longest prefix whose code units, counted from `units`, stay within the maximum. */
  function TakeUnits(value: string, units: nat, maximum: nat): string {
    if value == [] || units + Utf16Width(value[0]) > maximum then []
    else [value[0]] + TakeUnits(value[1..], units + Utf16Width(value[0]), maximum)
  }

  function TruncateUtf16(value: string, maximum: nat): string {
    if Utf16Len(value) <= maximum then value else TakeUnits(value, 0, maximum)
  }

  lemma {:induction false} TakenIsLongest(value: string, units: nat, maximum: nat)
    requires units <= maximum
    ensures var r := TakeUnits(value, units, maximum);
            && r <= value && units + Utf16Len(r) <= maximum
            && (|r| < |value| ==> units + Utf16Len(value[..|r| + 1]) > maximum)
  {
    if value != [] {
      if units + Utf16Width(value[0]) <= maximum {
        var rest := TakeUnits(value[1..], units + Utf16Width(value[0]), maximum);
        TakenIsLongest(value[1..], units + Utf16Width(value[0]), maximum);
        if |rest| < |value| - 1 { assert value[..|rest| + 2][1..] == value[1..][..|rest| + 1]; }
      } else {
        assert value[..1][1..] == [];
      }
    }
  }

  /** Truncation keeps the longest prefix within the maximum, which never cuts a character in two. */
  lemma TruncatedIsLongest(value: string, maximum: nat)
    ensures var r := TruncateUtf16(value, maximum);
            && r <= value && Utf16Len(r) <= maximum
            && (|r| < |value| ==> Utf16Len(value[..|r| + 1]) > maximum)
  {
    TakenIsLongest(value, 0, maximum);
  }

  /** At the default chunk size the embedding model receives every chunk unshortened. */
  lemma DefaultChunksAreNotTruncated(text: string)
    ensures var chunks := ChunkText(text, None);
            chunks.Ok? && forall c | c in chunks.value :: TruncateUtf16(c, MAX_UTF16_UNITS) == c
  {
    ChunkTextSound(text, None);
  }
}
