/** Where the chunker cuts: sentences, the overlap carried over, closing and merging chunks, headings, and Markdown. */
module ChunkingBoundaries {
  import opened Options
  import opened Text
  import opened Chunking
  import ChunkingCoverage

  // ---- sentences ----------------------------------------------------------------------------------

  /** A full stop, exclamation or question mark with whitespace or nothing behind it. */
  predicate Ends(text: string, k: nat) {
    && k < |text| && (text[k] == '.' || text[k] == '!' || text[k] == '?')
    && (k + 1 < |text| ==> IsWhitespace(text[k + 1]))
  }

  /** From the start or behind an end up to the next end or the end of the text. */
  ghost predicate IsSentence(text: string, a: nat, b: nat) {
    && a < b <= |text| && (a > 0 ==> Ends(text, a - 1)) && (b < |text| ==> Ends(text, b - 1))
    && forall k: nat | a <= k < b - 1 :: !Ends(text, k)
  }

  ghost predicate ClosedSentence(text: string, a: nat, b: nat, s: string) {
    IsSentence(text, a, b) && Ends(text, b - 1) && s == Trim(text[a..b]) && s != []
  }

  lemma SentenceEndIs(text: string, k: nat)
    requires k < |text|
    ensures SentenceEnd(text, k) <==> Ends(text, k)
  {
  }

  ghost predicate ClosedBy(text: string, i: nat, s: string) {
    exists a: nat, b: nat :: b <= i && ClosedSentence(text, a, b, s)
  }

  /** One character further, at most the sentence that is open there is closed. */
  lemma ClosedNext(text: string, start: nat, i: nat, s: string)
    requires start < i <= |text|
    requires (start > 0 ==> Ends(text, start - 1)) && forall k: nat | start <= k < i - 1 :: !Ends(text, k)
    ensures ClosedBy(text, i, s) <==> ClosedBy(text, i - 1, s) || ClosedSentence(text, start, i, s)
  {
    if a: nat, b: nat :| b <= i && ClosedSentence(text, a, b, s) {
      if b == i { LastSentenceStarts(text, a, start, i); }
    }
  }

  lemma {:induction false} SentencesClosed(text: string, i: nat)
    requires i <= |text|
    ensures var (result, start) := SentencesUpTo(text, i);
            && (start > 0 ==> Ends(text, start - 1)) && (forall k: nat | start <= k < i :: !Ends(text, k))
            && forall s :: s in result <==> ClosedBy(text, i, s)
  {
    if i > 0 {
      SentencesClosed(text, i - 1);
      SentenceEndIs(text, i - 1);
      var (before, start) := SentencesUpTo(text, i - 1);
      var result := SentencesUpTo(text, i).0;
      if Ends(text, i - 1) { assert IsSentence(text, start, i); }
      forall s ensures s in result <==> ClosedBy(text, i, s) { ClosedNext(text, start, i, s); }
    }
  }

  lemma LastSentenceStarts(text: string, a: nat, start: nat, i: nat)
    requires 0 < i <= |text| && start < i && IsSentence(text, a, i)
    requires (start > 0 ==> Ends(text, start - 1)) && forall k: nat | start <= k < i - 1 :: !Ends(text, k)
    ensures a == start
  {
  }

  /** What is left open at the end, if anything, is the last sentence. */
  lemma LastSentence(text: string, s: string)
    ensures var start := SentencesUpTo(text, |text|).1;
            (start < |text| && s == Trim(text[start..]) && s != [])
            <==> exists a: nat ::
                   IsSentence(text, a, |text|) && !Ends(text, |text| - 1) && s == Trim(text[a..]) && s != []
  {
    SentencesClosed(text, |text|);
    var start := SentencesUpTo(text, |text|).1;
    if start < |text| { assert IsSentence(text, start, |text|); }
    forall a: nat | IsSentence(text, a, |text|) && !Ends(text, |text| - 1) ensures a == start && start < |text| {
      LastSentenceStarts(text, a, start, |text|);
    }
  }

  /** The sentences are exactly the nonblank stretches between one sentence end and the next, trimmed. */
  lemma SentencesAre(text: string, s: string)
    ensures s in SplitSentences(text)
            <==> exists a: nat, b: nat :: IsSentence(text, a, b) && s == Trim(text[a..b]) && s != []
  {
    SentencesClosed(text, |text|);
    LastSentence(text, s);
    if a: nat, b: nat :| b <= |text| && ClosedSentence(text, a, b, s) { assert IsSentence(text, a, b); }
    if a: nat :| IsSentence(text, a, |text|) && !Ends(text, |text| - 1) && s == Trim(text[a..]) && s != [] {
      assert text[a..] == text[a..|text|];
    }
    if a: nat, b: nat :| IsSentence(text, a, b) && s == Trim(text[a..b]) && s != [] {
      if Ends(text, b - 1) {
        assert ClosedSentence(text, a, b, s);
      } else {
        assert b == |text| && text[a..] == text[a..b];
      }
    }
  }

  // ---- overlap ------------------------------------------------------------------------------------

  /** The longest run of units from the end that joins to at most 200 code units and at most half the limit. */
  lemma {:induction false} RetainedIsLongest(pending: seq<string>, limit: nat) returns (k: nat)
    ensures k <= |pending| && RetainOverlap(pending, limit) == pending[k..]
    ensures Utf16Len(Join(pending[k..], " ")) <= 200 && 2 * Utf16Len(Join(pending[k..], " ")) <= limit
    ensures forall j: nat | j < k ::
              Utf16Len(Join(pending[j..], " ")) > 200 || 2 * Utf16Len(Join(pending[j..], " ")) > limit
  {
    ChunkingCoverage.JoinLength(pending);
    if pending == [] || JoinedLen(pending) <= OverlapBudget(limit) {
      k := 0;
      assert pending[0..] == pending;
    } else {
      var rest := RetainedIsLongest(pending[1..], limit);
      k := rest + 1;
      assert pending[1..][rest..] == pending[k..];
      forall j: nat | j < k
        ensures Utf16Len(Join(pending[j..], " ")) > 200 || 2 * Utf16Len(Join(pending[j..], " ")) > limit
      {
        if j == 0 { assert pending[0..] == pending; } else { assert pending[1..][j - 1..] == pending[j..]; }
      }
    }
  }

  /** Appending a unit closes a chunk only when it would no longer fit; then the retained overlap is carried over,
      unless the unit does not fit behind it either. */
  lemma PackIsGreedy(units: seq<string>, unit: string, limit: nat)
    requires !IsBlank(unit) && Utf16Len(unit) <= limit
    ensures var p, q := Pack(units, limit), Pack(units + [unit], limit);
            var kept := RetainOverlap(p.pending, limit);
            if Utf16Len(Join(p.pending + [unit], " ")) <= limit then q == Packing(p.chunks, p.pending + [unit])
            else
              && q.chunks == Flush(p.chunks, p.pending, limit)
              && q.pending == (if Utf16Len(Join(kept + [unit], " ")) <= limit then kept else []) + [unit]
  {
    var p := Pack(units, limit);
    assert (units + [unit])[..|units|] == units;
    ChunkingCoverage.JoinedLenPush(p.pending, unit);
    ChunkingCoverage.JoinLength(p.pending + [unit]);
    var kept := RetainOverlap(p.pending, limit);
    ChunkingCoverage.JoinedLenPush(kept, unit);
    ChunkingCoverage.JoinLength(kept + [unit]);
  }

  /** A closed chunk of fewer than 322 code units goes to the end of the chunk before it when that still fits; any other
      becomes a chunk of its own. */
  lemma FlushMergesShort(chunks: seq<string>, pending: seq<string>, limit: nat)
    requires pending != [] && !IsBlank(Join(pending, " "))
    ensures var r, chunk := Flush(chunks, pending, limit), Trim(Join(pending, " "));
            && r != [] && (|r| == |chunks| || |r| == |chunks| + 1)
            && (forall i | 0 <= i < |chunks| && i < |r| - 1 :: r[i] == chunks[i])
            && (|r| == |chunks| <==>
                  chunks != [] && Utf16Len(chunk) < 322
                  && Utf16Len(chunks[|chunks| - 1] + " " + chunk) <= limit)
            && r[|r| - 1] == if |r| == |chunks| then chunks[|chunks| - 1] + " " + chunk else chunk
  {
    var chunk := Trim(Join(pending, " "));
    TrimProperties(Join(pending, " "));
    if chunks != [] {
      var last := chunks[|chunks| - 1];
      ChunkingCoverage.SpaceFacts();
      Utf16LenConcat(last + " ", chunk);
      Utf16LenConcat(last, " ");
    }
  }

  // ---- Markdown lines -----------------------------------------------------------------------------

  /** One to six hashes, then a space. */
  ghost predicate Heading(line: string) {
    exists n: nat :: HashesThenSpace(line, n)
  }

  predicate HashesThenSpace(line: string, n: nat) {
    1 <= n <= 6 && n < |line| && line[n] == ' ' && forall i | 0 <= i < n :: line[i] == '#'
  }

  /** A dash, star or plus sign, or a number with a full stop, then a space. */
  ghost predicate Item(line: string) {
    (|line| >= 2 && (line[0] == '-' || line[0] == '*' || line[0] == '+') && line[1] == ' ') || Numbered(line)
  }

  ghost predicate Numbered(line: string) {
    exists n: nat :: DigitsThenStop(line, n)
  }

  predicate DigitsThenStop(line: string, n: nat) {
    1 <= n < |line| - 1 && line[n] == '.' && line[n + 1] == ' ' && forall i | 0 <= i < n :: '0' <= line[i] <= '9'
  }

  ghost predicate Fence(line: string) {
    |line| >= 3 && line[0] == '`' && line[1] == '`' && line[2] == '`'
  }

  /** A closing bracket directly before a parenthesis, and an opening bracket anywhere. */
  ghost predicate Link(line: string) {
    !Fence(line) && '[' in line && exists i: nat :: i + 1 < |line| && line[i] == ']' && line[i + 1] == '('
  }

  ghost predicate Quote(line: string) {
    (|line| >= 2 && line[0] == '>' && line[1] == ' ')
    || (line != [] && line[0] == '|' && line[|line| - 1] == '|')
  }

  lemma HeadingIff(line: string)
    ensures IsHeading(line) <==> Heading(line)
  {
    var hashes := Leading(line, c => c == '#');
    if IsHeading(line) { assert HashesThenSpace(line, hashes); }
    if n: nat :| HashesThenSpace(line, n) {
      assert hashes == n;
    }
  }

  lemma ItemIff(line: string)
    ensures IsUnorderedItem(line) || IsOrderedItem(line) <==> Item(line)
  {
    var digits := Leading(line, c => '0' <= c <= '9');
    if IsOrderedItem(line) { assert DigitsThenStop(line, digits); }
    if n: nat :| DigitsThenStop(line, n) {
      assert digits == n;
    }
  }

  lemma {:induction false} ContainsPair(line: string, a: char, b: char)
    ensures Contains(line, [a, b]) <==> exists i: nat :: i + 1 < |line| && line[i] == a && line[i + 1] == b
  {
    if line != [] {
      ContainsPair(line[1..], a, b);
      assert [a, b] <= line <==> |line| >= 2 && line[0] == a && line[1] == b;
      if i: nat :| i + 1 < |line| && line[i] == a && line[i + 1] == b {
        if i > 0 { assert line[1..][i - 1] == a && line[1..][i] == b; }
      }
      if i: nat :| i + 1 < |line[1..]| && line[1..][i] == a && line[1..][i + 1] == b {
        assert line[i + 1] == a && line[i + 2] == b;
      }
    }
  }

  lemma {:induction false} ContainsOne(line: string, a: char)
    ensures Contains(line, [a]) <==> a in line
  {
    if line != [] {
      ContainsOne(line[1..], a);
      assert [a] <= line <==> line[0] == a;
      assert line == [line[0]] + line[1..];
    }
  }

  lemma LineScoreIs(line: string)
    requires !Fence(line)
    ensures LineScore(line)
            == (if Heading(line) then 2 else 0) + (if Item(line) then 1 else 0) + (if Link(line) then 1 else 0)
               + (if Quote(line) then 1 else 0)
  {
    HeadingIff(line);
    ItemIff(line);
    ContainsPair(line, ']', '(');
    ContainsOne(line, '[');
    assert "](" == [']', '('] && "[" == ['['];
  }

  // ---- Markdown detection -------------------------------------------------------------------------

  /** An odd number of fences so far. */
  ghost predicate Fenced(lines: seq<string>) {
    lines != [] && (Fence(lines[|lines| - 1]) != Fenced(lines[..|lines| - 1]))
  }

  datatype Mark = FenceMark | HeadingMark | ItemMark | LinkMark | QuoteMark

  ghost predicate Bears(line: string, mark: Mark) {
    match mark
    case FenceMark => Fence(line)
    case HeadingMark => Heading(line)
    case ItemMark => Item(line)
    case LinkMark => Link(line)
    case QuoteMark => Quote(line)
  }

  /** How many lines outside of fenced blocks bear a mark; a fence that opens a block is outside. */
  ghost function Count(lines: seq<string>, mark: Mark): nat {
    if lines == [] then 0
    else
      var front, last := lines[..|lines| - 1], lines[|lines| - 1];
      Count(front, mark) + if !Fenced(front) && Bears(last, mark) then 1 else 0
  }

  ghost function Evidence(lines: seq<string>): nat {
    2 * Count(lines, FenceMark) + 2 * Count(lines, HeadingMark) + Count(lines, ItemMark) + Count(lines, LinkMark)
    + Count(lines, QuoteMark)
  }

  lemma {:induction false} FencedFirst(line: string, rest: seq<string>)
    ensures Fenced([line] + rest) == (Fence(line) != Fenced(rest))
  {
    var all := [line] + rest;
    if rest == [] {
      assert all[..0] == [];
    } else {
      assert all[..|rest|] == [line] + rest[..|rest| - 1];
      FencedFirst(line, rest[..|rest| - 1]);
    }
  }

  /** The score of some lines, read on from inside or outside of a fenced block. */
  ghost function ScoreOf(line: string, inside: bool): nat {
    if inside then 0 else if Fence(line) then 2 else LineScore(line)
  }

  lemma FirstLineScores(lines: seq<string>, fenced: bool)
    requires lines != []
    ensures MarkdownScore(lines, fenced)
            == ScoreOf(lines[0], fenced) + MarkdownScore(lines[1..], fenced != Fence(lines[0]))
  {
    assert IsFence(lines[0]) <==> Fence(lines[0]);
  }

  lemma {:induction false} ScoreLast(front: seq<string>, last: string, fenced: bool)
    ensures MarkdownScore(front + [last], fenced)
            == MarkdownScore(front, fenced) + ScoreOf(last, fenced != Fenced(front))
  {
    var lines := front + [last];
    FirstLineScores(lines, fenced);
    if front == [] {
      assert lines[1..] == [];
    } else {
      assert lines[1..] == front[1..] + [last];
      ScoreLast(front[1..], last, fenced != Fence(front[0]));
      FirstLineScores(front, fenced);
      FencedFirst(front[0], front[1..]);
      assert front == [front[0]] + front[1..];
    }
  }

  lemma {:induction false} ScoreIsEvidence(lines: seq<string>)
    ensures MarkdownScore(lines, false) == Evidence(lines)
  {
    if lines != [] {
      var front, last := lines[..|lines| - 1], lines[|lines| - 1];
      ScoreIsEvidence(front);
      ScoreLast(front, last, false);
      assert lines == front + [last];
      if !Fence(last) { LineScoreIs(last); }
    }
  }

  /** Text is taken for Markdown exactly if the marks in its first hundred lines weigh at least three: two for a heading
      or a fenced block, one for an item, a link, or a quotation or table row, nothing inside of a fenced block. */
  lemma MarkdownIff(text: string)
    ensures var lines := Lines(text);
            LooksLikeMarkdown(text) <==> Evidence(if |lines| <= 100 then lines else lines[..100]) >= 3
  {
    var lines := Lines(text);
    ScoreIsEvidence(if |lines| <= 100 then lines else lines[..100]);
  }

  // ---- repeated headings --------------------------------------------------------------------------

  /** A continuation with the heading in front of it, unless it has it already or it would not fit. */
  ghost predicate Headed(heading: string, plain: string, chunk: string, limit: nat) {
    && (chunk == plain || chunk == heading + "\n\n" + plain)
    && (heading <= chunk || Utf16Len(heading + "\n\n" + plain) > limit)
  }

  lemma WithHeadingIsHeaded(heading: string, plain: string, limit: nat)
    ensures Headed(heading, plain, WithHeading(heading, plain, limit), limit)
  {
    assert heading <= heading + "\n\n" + plain;
  }

  /** Every later chunk of an oversized section starts with the section's heading, unless the heading would not fit. */
  lemma ContinuationsAreHeaded(a: Assembly, section: string, limit: nat, i: nat)
    requires Utf16Len(section) > limit && Lines(section) != [] && Heading(Lines(section)[0])
    requires 0 < i < |ChunkPlain(section, limit)|
    ensures var plain, before := ChunkPlain(section, limit), PushTrimmed(a.chunks, a.pending);
            var r := AddSection(a, section, limit).chunks;
            && |r| == |before| + |plain| && r[|before|] == plain[0]
            && Headed(Lines(section)[0], plain[i], r[|before| + i], limit)
  {
    HeadingIff(Lines(section)[0]);
    WithHeadingIsHeaded(Lines(section)[0], ChunkPlain(section, limit)[i], limit);
  }
}
