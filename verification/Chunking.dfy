/**
 Text normalization and chunking: sentence and word packing with overlap, short-tail merging, a fixed-width
 fallback, and Markdown sections. Lengths are UTF-16 code units. Each loop of the source is a method proved
 equal to a function; the properties of those functions are proved in ChunkingCoverage.
 */
module Chunking {
  import opened Options
  import opened Text

  const DEFAULT_CHUNK_SIZE: nat := 1075
  const MAX_CHUNK_SIZE: nat := 28672
  const OVERLAP: nat := 200
  const SHORT_CHUNK: nat := 322

  datatype ChunkingError = TooSmall | TooLarge

  datatype Result<+T> = Ok(value: T) | Err(error: ChunkingError)

  // ---- strings ------------------------------------------------------------------------------------

  /** Drops NUL and the replacement character. */
  function Normalize(text: string): string {
    if text == [] then []
    else (if text[0] as int in {0, 0xFFFD} then [] else [text[0]]) + Normalize(text[1..])
  }

  predicate StartsWith(s: string, prefix: string) {
    prefix <= s
  }

  /** text.split('\n'). */
  function SplitNewlines(text: string): (lines: seq<string>)
    ensures lines != []
  {
    var n := IndexOf(text, '\n');
    if n == |text| then [text] else [text[..n]] + SplitNewlines(text[n + 1..])
  }

  function Leading(line: string, accept: char -> bool): (n: nat)
    ensures n <= |line| && (forall i | 0 <= i < n :: accept(line[i])) && (n < |line| ==> !accept(line[n]))
  {
    if line != [] && accept(line[0]) then 1 + Leading(line[1..], accept) else 0
  }

  predicate Contains(s: string, part: string) {
    part <= s || (s != [] && Contains(s[1..], part))
  }

  // ---- Markdown detection -------------------------------------------------------------------------

  predicate IsHeading(line: string) {
    var hashes := Leading(line, c => c == '#');
    1 <= hashes <= 6 && hashes < |line| && line[hashes] == ' '
  }

  predicate IsUnorderedItem(line: string) {
    |line| >= 2 && line[0] in "-*+" && line[1] == ' '
  }

  predicate IsOrderedItem(line: string) {
    var digits := Leading(line, c => '0' <= c <= '9');
    digits > 0 && digits + 1 < |line| && line[digits] == '.' && line[digits + 1] == ' '
  }

  predicate IsFence(line: string) {
    StartsWith(line, "```")
  }

  function LineScore(line: string): nat {
    (if IsHeading(line) then 2 else 0)
    + (if IsUnorderedItem(line) || IsOrderedItem(line) then 1 else 0)
    + (if Contains(line, "](") && Contains(line, "[") then 1 else 0)
    + (if StartsWith(line, "> ") || (StartsWith(line, "|") && line[|line| - 1] == '|') then 1 else 0)
  }

  function MarkdownScore(lines: seq<string>, fenced: bool): nat {
    if lines == [] then 0
    else if IsFence(lines[0]) then (if fenced then 0 else 2) + MarkdownScore(lines[1..], !fenced)
    else (if fenced then 0 else LineScore(lines[0])) + MarkdownScore(lines[1..], fenced)
  }

  predicate LooksLikeMarkdown(text: string) {
    var lines := Lines(text);
    MarkdownScore(if |lines| <= 100 then lines else lines[..100], false) >= 3
  }

  // ---- units --------------------------------------------------------------------------------------

  function PushTrimmed(target: seq<string>, value: string): seq<string> {
    if Trim(value) == [] then target else target + [Trim(value)]
  }

  function WordLen(s: string): (n: nat)
    ensures n <= |s|
    ensures forall i | 0 <= i < n :: !IsWhitespace(s[i])
    ensures n < |s| ==> IsWhitespace(s[n])
  {
    if s == [] || IsWhitespace(s[0]) then 0 else 1 + WordLen(s[1..])
  }

  /** A nonempty string without whitespace. */
  predicate IsWord(s: string) {
    s != [] && forall i | 0 <= i < |s| :: !IsWhitespace(s[i])
  }

  function SplitWhitespace(s: string): seq<string> {
    if s == [] then []
    else if IsWhitespace(s[0]) then SplitWhitespace(s[1..])
    else var n := WordLen(s); [s[..n]] + SplitWhitespace(s[n..])
  }

  lemma {:induction false} SplitsIntoWords(s: string)
    ensures forall i | 0 <= i < |SplitWhitespace(s)| :: IsWord(SplitWhitespace(s)[i])
    decreases |s|
  {
    if s != [] { SplitsIntoWords(if IsWhitespace(s[0]) then s[1..] else s[WordLen(s)..]); }
  }

  function SumLen(units: seq<string>): nat {
    if units == [] then 0 else SumLen(units[..|units| - 1]) + Utf16Len(units[|units| - 1])
  }

  function JoinedLen(units: seq<string>): nat {
    SumLen(units) + (if units == [] then 0 else |units| - 1)
  }

  /** Length of the pending units once one more is appended. */
  function CandidateLen(pending: seq<string>, unit: string): nat {
    JoinedLen(pending) + (if pending == [] then 0 else 1) + Utf16Len(unit)
  }

  predicate SentenceEnd(text: string, i: nat)
    requires i < |text|
  {
    text[i] in ".!?" && (i + 1 == |text| || IsWhitespace(text[i + 1]))
  }

  /** The sentences closed before position i, and where the open one starts. */
  function SentencesUpTo(text: string, i: nat): (r: (seq<string>, nat))
    requires i <= |text|
    ensures r.1 <= i
  {
    if i == 0 then ([], 0)
    else
      var (result, start) := SentencesUpTo(text, i - 1);
      if SentenceEnd(text, i - 1) then (PushTrimmed(result, text[start..i]), i) else (result, start)
  }

  function SplitSentences(text: string): seq<string> {
    var (result, start) := SentencesUpTo(text, |text|);
    if start < |text| then PushTrimmed(result, text[start..]) else result
  }

  method SplitSentencesLoop(text: string) returns (result: seq<string>)
    ensures result == SplitSentences(text)
  {
    result := [];
    var start := 0;
    for i := 0 to |text|
      invariant start <= i && (result, start) == SentencesUpTo(text, i)
    {
      if text[i] in ".!?" && (i + 1 == |text| || IsWhitespace(text[i + 1])) {
        result := PushTrimmed(result, text[start..i + 1]);
        start := i + 1;
      }
    }
    if start < |text| {
      result := PushTrimmed(result, text[start..]);
    }
  }

  // ---- packing ------------------------------------------------------------------------------------

  /** The chunks and the pending piece of the fixed-width loop. */
  function FixedWidthFold(text: string, limit: nat): (seq<string>, string) {
    if text == [] then ([], [])
    else
      var (chunks, pending) := FixedWidthFold(text[..|text| - 1], limit);
      var c := text[|text| - 1];
      if pending != [] && Utf16Len(pending) + Utf16Width(c) > limit
      then (PushTrimmed(chunks, pending), [c]) else (chunks, pending + [c])
  }

  function FixedWidth(text: string, limit: nat): seq<string> {
    var (chunks, pending) := FixedWidthFold(text, limit);
    PushTrimmed(chunks, pending)
  }

  method FixedWidthLoop(text: string, limit: nat) returns (chunks: seq<string>)
    ensures chunks == FixedWidth(text, limit)
  {
    chunks := [];
    var pending := "";
    for i := 0 to |text|
      invariant (chunks, pending) == FixedWidthFold(text[..i], limit)
    {
      assert text[..i + 1][..i] == text[..i] && text[..i + 1][i] == text[i];
      if pending != [] && Utf16Len(pending) + Utf16Width(text[i]) > limit {
        chunks := PushTrimmed(chunks, pending);
        pending := "";
        assert pending + [text[i]] == [text[i]];
      }
      pending := pending + [text[i]];
    }
    assert text[..|text|] == text;
    chunks := PushTrimmed(chunks, pending);
  }

  /** Closes the pending units: appended to the previous chunk when short, else a chunk of their own. */
  function Flush(chunks: seq<string>, pending: seq<string>, limit: nat): seq<string> {
    if pending == [] then chunks
    else
      var chunk := Trim(Join(pending, " "));
      if Utf16Len(chunk) < SHORT_CHUNK && chunks != []
         && Utf16Len(chunks[|chunks| - 1]) + 1 + Utf16Len(chunk) <= limit
      then chunks[..|chunks| - 1] + [chunks[|chunks| - 1] + " " + chunk]
      else if chunk != [] then chunks + [chunk]
      else chunks
  }

  function OverlapBudget(limit: nat): nat {
    if OVERLAP < limit / 2 then OVERLAP else limit / 2
  }

  /** Drops units from the front until the rest fits the overlap budget. */
  function RetainOverlap(pending: seq<string>, limit: nat): seq<string> {
    if pending == [] || JoinedLen(pending) <= OverlapBudget(limit) then pending
    else RetainOverlap(pending[1..], limit)
  }

  method RetainOverlapLoop(pending: seq<string>, limit: nat) returns (kept: seq<string>)
    ensures kept == RetainOverlap(pending, limit)
  {
    kept := pending;
    while JoinedLen(kept) > OverlapBudget(limit)
      invariant RetainOverlap(pending, limit) == RetainOverlap(kept, limit)
      decreases |kept|
    {
      kept := kept[1..];
    }
  }

  /** The pending units after an overflow: the retained overlap if the unit still fits behind it, else nothing. */
  function Carry(pending: seq<string>, unit: string, limit: nat): seq<string> {
    var kept := RetainOverlap(pending, limit);
    if CandidateLen(kept, unit) > limit then [] else kept
  }

  datatype Packing = Packing(chunks: seq<string>, pending: seq<string>)

  /** 1 when some unit consists of several words, which is the only reason to recurse. */
  ghost function Depth(units: seq<string>): nat {
    if exists i :: 0 <= i < |units| && |SplitWhitespace(units[i])| > 1 then 1 else 0
  }

  /** Fewer units are no deeper. */
  lemma DepthOfParts(units: seq<string>)
    requires units != []
    ensures Depth(units[..|units| - 1]) <= Depth(units) && Depth([units[|units| - 1]]) <= Depth(units)
  {
    var front := units[..|units| - 1];
    assert forall i | 0 <= i < |front| :: front[i] == units[i];
    assert [units[|units| - 1]][0] == units[|units| - 1];
  }

  lemma WordDepth(words: seq<string>)
    requires forall i | 0 <= i < |words| :: IsWord(words[i])
    ensures Depth(words) == 0
  {
    forall i | 0 <= i < |words| ensures SplitWhitespace(words[i]) == [words[i]] {
      WordIsOneWord(words[i]);
    }
  }

  lemma WordIsOneWord(w: string)
    requires IsWord(w)
    ensures SplitWhitespace(w) == [w]
  {
    assert WordLen(w) == |w| && w[..|w|] == w;
    assert SplitWhitespace(w[|w|..]) == [];
  }

  /** A unit longer than the limit: split into words, or cut at fixed width when it is a single word. */
  function Oversized(unit: string, limit: nat): seq<string>
    decreases Depth([unit]), 0, 3
  {
    var words := SplitWhitespace(unit);
    if |words| <= 1 then FixedWidth(unit, limit)
    else
      SplitsIntoWords(unit);
      WordDepth(words);
      assert [unit][0] == unit;
      ChunkUnits(words, limit)
  }

  function Pack(units: seq<string>, limit: nat): Packing
    decreases Depth(units), |units|, 1
  {
    if units == [] then Packing([], [])
    else
      var front, unit := units[..|units| - 1], units[|units| - 1];
      DepthOfParts(units);
      var p := Pack(front, limit);
      if IsBlank(unit) then p
      else if Utf16Len(unit) > limit then
        Packing(Flush(p.chunks, p.pending, limit) + Oversized(unit, limit), [])
      else if CandidateLen(p.pending, unit) > limit then
        Packing(Flush(p.chunks, p.pending, limit), Carry(p.pending, unit, limit) + [unit])
      else
        Packing(p.chunks, p.pending + [unit])
  }

  function ChunkUnits(units: seq<string>, limit: nat): seq<string>
    decreases Depth(units), |units|, 2
  {
    var p := Pack(units, limit);
    Flush(p.chunks, p.pending, limit)
  }

  method ChunkUnitsLoop(units: seq<string>, limit: nat) returns (chunks: seq<string>)
    ensures chunks == ChunkUnits(units, limit)
    decreases Depth(units)
  {
    chunks := [];
    var pending: seq<string> := [];
    for i := 0 to |units|
      invariant Packing(chunks, pending) == Pack(units[..i], limit)
    {
      assert units[..i + 1][..i] == units[..i] && units[..i + 1][i] == units[i];
      var unit := units[i];
      if IsBlank(unit) {
        continue;
      }
      if Utf16Len(unit) > limit {
        chunks := Flush(chunks, pending, limit);
        pending := [];
        var words := SplitWhitespace(unit);
        var pieces;
        if |words| <= 1 {
          pieces := FixedWidthLoop(unit, limit);
        } else {
          SplitsIntoWords(unit);
          WordDepth(words);
          pieces := ChunkUnitsLoop(words, limit);
        }
        chunks := chunks + pieces;
        continue;
      }
      if CandidateLen(pending, unit) > limit {
        var overlap := pending;
        chunks := Flush(chunks, pending, limit);
        pending := RetainOverlapLoop(overlap, limit);
        if CandidateLen(pending, unit) > limit {
          pending := [];
        }
      }
      pending := pending + [unit];
    }
    assert units[..|units|] == units;
    chunks := Flush(chunks, pending, limit);
  }

  function ChunkPlain(text: string, limit: nat): seq<string> {
    ChunkUnits(SplitSentences(text), limit)
  }

  method ChunkPlainLoop(text: string, limit: nat) returns (chunks: seq<string>)
    ensures chunks == ChunkPlain(text, limit)
  {
    var sentences := SplitSentencesLoop(text);
    chunks := ChunkUnitsLoop(sentences, limit);
  }

  // ---- Markdown -----------------------------------------------------------------------------------

  datatype Sectioning = Sectioning(sections: seq<string>, current: seq<string>, fenced: bool)

  function SectionLines(lines: seq<string>): Sectioning {
    if lines == [] then Sectioning([], [], false)
    else
      var s := SectionLines(lines[..|lines| - 1]);
      var line := lines[|lines| - 1];
      if IsFence(line) then Sectioning(s.sections, s.current + [line], !s.fenced)
      else if !s.fenced && IsHeading(line) then
        Sectioning(if s.current == [] then s.sections else PushTrimmed(s.sections, Join(s.current, "\n")), [line],
            s.fenced)
      else Sectioning(s.sections, s.current + [line], s.fenced)
  }

  function MarkdownSections(text: string): seq<string> {
    var s := SectionLines(SplitNewlines(text));
    if s.current == [] then s.sections else PushTrimmed(s.sections, Join(s.current, "\n"))
  }

  method MarkdownSectionsLoop(text: string) returns (sections: seq<string>)
    ensures sections == MarkdownSections(text)
  {
    sections := [];
    var current: seq<string> := [];
    var fenced := false;
    var lines := SplitNewlines(text);
    for i := 0 to |lines|
      invariant Sectioning(sections, current, fenced) == SectionLines(lines[..i])
    {
      assert lines[..i + 1][..i] == lines[..i];
      if IsFence(lines[i]) {
        fenced := !fenced;
        current := current + [lines[i]];
      } else if !fenced && IsHeading(lines[i]) {
        if current != [] {
          sections := PushTrimmed(sections, Join(current, "\n"));
        }
        current := [lines[i]];
      } else {
        current := current + [lines[i]];
      }
    }
    assert lines[..|lines|] == lines;
    if current != [] {
      sections := PushTrimmed(sections, Join(current, "\n"));
    }
  }

  /** The heading line of a section, if it has one. */
  function HeadingOf(section: string): Option<string> {
    var lines := Lines(section);
    if lines != [] && IsHeading(lines[0]) then Some(lines[0]) else None
  }

  /** Repeats the heading in front of a continuation chunk when it fits and is not already there. */
  function WithHeading(heading: string, chunk: string, limit: nat): string {
    var candidate := heading + "\n\n" + chunk;
    if Utf16Len(candidate) <= limit && !StartsWith(chunk, heading) then candidate else chunk
  }

  function RepeatHeading(heading: Option<string>, split: seq<string>, limit: nat): (r: seq<string>)
    ensures |r| == |split|
    ensures forall i | 0 <= i < |split| ::
              r[i] == if heading.Some? && i > 0 then WithHeading(heading.value, split[i], limit) else split[i]
  {
    if |split| <= 1 || heading.None? then split
    else
      RepeatHeading(heading, split[..|split| - 1], limit)
      + [WithHeading(heading.value, split[|split| - 1], limit)]
  }

  method RepeatHeadingLoop(heading: Option<string>, split: seq<string>, limit: nat) returns (r: seq<string>)
    ensures r == RepeatHeading(heading, split, limit)
  {
    r := split;
    if heading.Some? && split != [] {
      for k := 1 to |split|
        invariant |r| == |split|
        invariant forall i | 0 <= i < |r| ::
                    r[i] == if 0 < i < k then WithHeading(heading.value, split[i], limit) else split[i]
      {
        var candidate := heading.value + "\n\n" + r[k];
        if Utf16Len(candidate) <= limit && !StartsWith(r[k], heading.value) {
          r := r[k := candidate];
        }
      }
    }
  }

  datatype Assembly = Assembly(chunks: seq<string>, pending: string)

  function AddSection(a: Assembly, section: string, limit: nat): Assembly {
    if Utf16Len(section) > limit then
      Assembly(PushTrimmed(a.chunks, a.pending)
               + RepeatHeading(HeadingOf(section), ChunkPlain(section, limit), limit), [])
    else if a.pending == [] then Assembly(a.chunks, section)
    else if Utf16Len(a.pending) + 2 + Utf16Len(section) > limit then
      Assembly(PushTrimmed(a.chunks, a.pending), section)
    else Assembly(a.chunks, a.pending + "\n\n" + section)
  }

  function Assemble(sections: seq<string>, limit: nat): Assembly {
    if sections == [] then Assembly([], [])
    else AddSection(Assemble(sections[..|sections| - 1], limit), sections[|sections| - 1], limit)
  }

  function ChunkMarkdown(text: string, limit: nat): seq<string> {
    var sections := MarkdownSections(text);
    if sections == [] then [text]
    else
      var a := Assemble(sections, limit);
      PushTrimmed(a.chunks, a.pending)
  }

  lemma AssembleNext(sections: seq<string>, i: nat, limit: nat)
    requires i < |sections|
    ensures Assemble(sections[..i + 1], limit) == AddSection(Assemble(sections[..i], limit), sections[i], limit)
  {
    assert sections[..i + 1][..i] == sections[..i];
  }

  /** The body of the loop over sections. */
  method AddSectionLoop(a: Assembly, section: string, limit: nat) returns (next: Assembly)
    ensures next == AddSection(a, section, limit)
  {
    var chunks, pending := a.chunks, a.pending;
    if Utf16Len(section) > limit {
      chunks := PushTrimmed(chunks, pending);
      var split := ChunkPlainLoop(section, limit);
      split := RepeatHeadingLoop(HeadingOf(section), split, limit);
      return Assembly(chunks + split, "");
    }
    var added := (if pending == [] then 0 else 2) + Utf16Len(section);
    if pending != [] && Utf16Len(pending) + added > limit {
      chunks := PushTrimmed(chunks, pending);
      pending := "";
    }
    if pending != [] {
      pending := pending + "\n\n";
    }
    pending := pending + section;
    return Assembly(chunks, pending);
  }

  method ChunkMarkdownLoop(text: string, limit: nat) returns (chunks: seq<string>)
    ensures chunks == ChunkMarkdown(text, limit)
  {
    var sections := MarkdownSectionsLoop(text);
    if sections == [] {
      return [text];
    }
    var a := Assembly([], "");
    for i := 0 to |sections|
      invariant a == Assemble(sections[..i], limit)
    {
      AssembleNext(sections, i, limit);
      a := AddSectionLoop(a, sections[i], limit);
    }
    assert sections[..|sections|] == sections;
    chunks := PushTrimmed(a.chunks, a.pending);
  }

  // ---- entry point --------------------------------------------------------------------------------

  function Limit(requested: Option<int>): Result<nat> {
    match requested
    case None => Ok(DEFAULT_CHUNK_SIZE)
    case Some(size) =>
      if size == -1 || size == 0 then Ok(DEFAULT_CHUNK_SIZE)
      else if size < -1 then Err(TooSmall)
      else if size > MAX_CHUNK_SIZE then Err(TooLarge)
      else Ok(size)
  }

  function ChunkAt(text: string, limit: nat): seq<string> {
    var normalized := Normalize(text);
    if IsBlank(normalized) then []
    else if LooksLikeMarkdown(normalized) then ChunkMarkdown(normalized, limit)
    else ChunkPlain(normalized, limit)
  }

  function ChunkText(text: string, requested: Option<int>): Result<seq<string>> {
    match Limit(requested)
    case Err(error) => Err(error)
    case Ok(limit) => Ok(ChunkAt(text, limit))
  }

  method ChunkTextLoops(text: string, requested: Option<int>) returns (result: Result<seq<string>>)
    ensures result == ChunkText(text, requested)
  {
    var limit := Limit(requested);
    if limit.Err? {
      return Err(limit.error);
    }
    var normalized := Normalize(text);
    if IsBlank(normalized) {
      return Ok([]);
    }
    var chunks;
    if LooksLikeMarkdown(normalized) {
      chunks := ChunkMarkdownLoop(normalized, limit.value);
    } else {
      chunks := ChunkPlainLoop(normalized, limit.value);
    }
    result := Ok(chunks);
  }
}
