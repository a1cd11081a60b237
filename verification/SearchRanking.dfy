/** Search results: fusing ranks, ordering, selecting and budgeting. Scores are reals. */
module SearchRanking {
  import opened Options
  import opened Sequences

  // ---- evidence -----------------------------------------------------------------------------------

  datatype Candidate = Memory(memoryId: string) | Chunk(stableId: string, document: string)

  /** A candidate at a one-based rank of one of the four retrievals. */
  datatype Evidence = Evidence(candidate: Candidate, rank: nat)

  datatype Ranked = Ranked(candidate: Candidate, score: real)

  function Id(c: Candidate): string {
    match c
    case Memory(id) => "m:" + id
    case Chunk(id, _) => "c:" + id
  }

  function Weight(rank: nat): (w: real)
    ensures 0.0 < w <= 1.0 / 60.0
  {
    1.0 / (60.0 + rank as real)
  }

  /** The sum of the weights of the evidence for an id. */
  function Score(evidence: seq<Evidence>, id: string): real {
    if evidence == [] then 0.0
    else
      var e := evidence[|evidence| - 1];
      Score(evidence[..|evidence| - 1], id) + if Id(e.candidate) == id then Weight(e.rank) else 0.0
  }

  function Semantic(candidates: seq<Candidate>): seq<Evidence> {
    seq(|candidates|, i requires 0 <= i < |candidates| => Evidence(candidates[i], i + 1))
  }

  /** fuse_candidates' order: memories before chunks, semantic before lexical, which carry their own ranks. */
  function Gather(semanticMemories: seq<Candidate>, lexicalMemories: seq<Evidence>,
                  semanticChunks: seq<Candidate>, lexicalChunks: seq<Evidence>): seq<Evidence> {
    Semantic(semanticMemories) + lexicalMemories + Semantic(semanticChunks) + lexicalChunks
  }

  /** An id always stands for the same candidate. */
  ghost predicate Consistent(evidence: seq<Evidence>) {
    forall a, b | a in evidence && b in evidence && Id(a.candidate) == Id(b.candidate) :: a.candidate == b.candidate
  }

  predicate Mentioned(evidence: seq<Evidence>, id: string) {
    evidence != [] && (Id(evidence[|evidence| - 1].candidate) == id || Mentioned(evidence[..|evidence| - 1], id))
  }

  /** The candidate of the first evidence for an id. */
  function First(evidence: seq<Evidence>, id: string): Candidate
    requires Mentioned(evidence, id)
  {
    var front, last := evidence[..|evidence| - 1], evidence[|evidence| - 1];
    if Mentioned(front, id) then First(front, id) else last.candidate
  }

  lemma {:induction false} MentionedIff(evidence: seq<Evidence>, id: string)
    ensures Mentioned(evidence, id) <==> exists e :: e in evidence && Id(e.candidate) == id
    ensures Mentioned(evidence, id) ==>
              exists e :: e in evidence && e.candidate == First(evidence, id) && Id(e.candidate) == id
    ensures Score(evidence, id) >= 0.0 && (Score(evidence, id) > 0.0 <==> Mentioned(evidence, id))
  {
    if evidence != [] {
      var front, last := evidence[..|evidence| - 1], evidence[|evidence| - 1];
      MentionedIff(front, id);
      assert evidence == front + [last];
    }
  }

  /** The fused map: exactly the ids with evidence, each with its candidate and its total. */
  ghost predicate IsFused(evidence: seq<Evidence>, fused: map<string, Ranked>) {
    && (forall id :: id in fused <==> Mentioned(evidence, id))
    && (forall id | id in fused :: fused[id] == Ranked(First(evidence, id), Score(evidence, id)))
  }

  method AddEvidence(fused: map<string, Ranked>, e: Evidence, ghost before: seq<Evidence>)
    returns (r: map<string, Ranked>)
    requires IsFused(before, fused)
    ensures IsFused(before + [e], r)
  {
    var id := Id(e.candidate);
    assert (before + [e])[..|before|] == before;
    MentionedIff(before, id);
    if id in fused {
      r := fused[id := fused[id].(score := fused[id].score + Weight(e.rank))];
    } else {
      r := fused[id := Ranked(e.candidate, Weight(e.rank))];
    }
  }

  /** Semantic candidates count with their one-based position. */
  method AddSemantic(fused: map<string, Ranked>, candidates: seq<Candidate>, ghost before: seq<Evidence>)
    returns (r: map<string, Ranked>)
    requires IsFused(before, fused)
    ensures IsFused(before + Semantic(candidates), r)
  {
    r := fused;
    assert before + Semantic(candidates[..0]) == before;
    for n := 0 to |candidates|
      invariant IsFused(before + Semantic(candidates[..n]), r)
    {
      var e := Evidence(candidates[n], n + 1);
      assert before + Semantic(candidates[..n + 1]) == before + Semantic(candidates[..n]) + [e];
      r := AddEvidence(r, e, before + Semantic(candidates[..n]));
    }
    assert candidates[..|candidates|] == candidates;
  }

  /** Lexical candidates carry their own rank. */
  method AddLexical(fused: map<string, Ranked>, evidence: seq<Evidence>, ghost before: seq<Evidence>)
    returns (r: map<string, Ranked>)
    requires IsFused(before, fused)
    ensures IsFused(before + evidence, r)
  {
    r := fused;
    assert before + evidence[..0] == before;
    for n := 0 to |evidence|
      invariant IsFused(before + evidence[..n], r)
    {
      assert before + evidence[..n + 1] == before + evidence[..n] + [evidence[n]];
      r := AddEvidence(r, evidence[n], before + evidence[..n]);
    }
    assert evidence[..|evidence|] == evidence;
  }

  /** fuse_candidates up to the order of the result, which a hash map leaves open. */
  method FuseCandidates(semanticMemories: seq<Candidate>, lexicalMemories: seq<Evidence>,
                        semanticChunks: seq<Candidate>, lexicalChunks: seq<Evidence>)
    returns (fused: map<string, Ranked>)
    ensures IsFused(Gather(semanticMemories, lexicalMemories, semanticChunks, lexicalChunks), fused)
  {
    fused := map[];
    fused := AddSemantic(fused, semanticMemories, []);
    assert [] + Semantic(semanticMemories) == Semantic(semanticMemories);
    fused := AddLexical(fused, lexicalMemories, Semantic(semanticMemories));
    fused := AddSemantic(fused, semanticChunks, Semantic(semanticMemories) + lexicalMemories);
    fused := AddLexical(fused, lexicalChunks, Semantic(semanticMemories) + lexicalMemories + Semantic(semanticChunks));
  }

  // ---- the score does not depend on the order of the evidence -------------------------------------

  lemma {:induction false} ScoreConcat(a: seq<Evidence>, b: seq<Evidence>, id: string)
    ensures Score(a + b, id) == Score(a, id) + Score(b, id)
  {
    if b == [] {
      assert a + b == a;
    } else {
      assert (a + b)[..|a + b| - 1] == a + b[..|b| - 1];
      ScoreConcat(a, b[..|b| - 1], id);
    }
  }

  /** Taking one piece of evidence out takes its weight out. */
  lemma ScoreWithout(evidence: seq<Evidence>, k: nat, id: string)
    requires k < |evidence|
    ensures Score(evidence, id) == Score(evidence[..k] + evidence[k + 1..], id) + Score([evidence[k]], id)
  {
    assert evidence == evidence[..k] + ([evidence[k]] + evidence[k + 1..]);
    ScoreConcat(evidence[..k], [evidence[k]] + evidence[k + 1..], id);
    ScoreConcat([evidence[k]], evidence[k + 1..], id);
    ScoreConcat(evidence[..k], evidence[k + 1..], id);
  }

  lemma MultisetWithout(s: seq<Evidence>, k: nat)
    requires k < |s|
    ensures multiset(s[..k] + s[k + 1..]) == multiset(s) - multiset{s[k]}
  {
    assert s == s[..k] + [s[k]] + s[k + 1..];
  }

  lemma {:induction false} ScoreIgnoresOrder(a: seq<Evidence>, b: seq<Evidence>, id: string)
    requires multiset(a) == multiset(b)
    ensures Score(a, id) == Score(b, id)
  {
    if a == [] {
      assert |multiset(b)| == 0;
    } else {
      var front, last := a[..|a| - 1], a[|a| - 1];
      assert last in multiset(b);
      var k :| 0 <= k < |b| && b[k] == last;
      MultisetWithout(a, |a| - 1);
      MultisetWithout(b, k);
      assert front + a[|a|..] == front;
      ScoreIgnoresOrder(front, b[..k] + b[k + 1..], id);
      ScoreWithout(b, k, id);
      ScoreWithout(a, |a| - 1, id);
    }
  }

  // ---- the order ----------------------------------------------------------------------------------

  /** Lexicographic order of strings by scalar value, which is the order of their UTF-8 bytes. */
  predicate StringLess(a: string, b: string) {
    b != [] && (a == [] || a[0] < b[0] || (a[0] == b[0] && StringLess(a[1..], b[1..])))
  }

  lemma {:induction false} StringLessTotal(a: string, b: string)
    ensures StringLess(a, b) || StringLess(b, a) || a == b
    ensures !(StringLess(a, b) && StringLess(b, a)) && !StringLess(a, a)
  {
    if a != [] {
      StringLessTotal(a[1..], a[1..]);
      if b != [] {
        StringLessTotal(a[1..], b[1..]);
        if a[0] == b[0] && a[1..] == b[1..] { assert a == [a[0]] + a[1..] && b == [b[0]] + b[1..]; }
      }
    }
  }

  lemma {:induction false} StringLessTransitive(a: string, b: string, c: string)
    requires StringLess(a, b) && StringLess(b, c)
    ensures StringLess(a, c)
  {
    if a != [] && a[0] == b[0] == c[0] { StringLessTransitive(a[1..], b[1..], c[1..]); }
  }

  /** compare_ranked_candidates: higher score, then memories before chunks, then the id. */
  predicate Before(a: Ranked, b: Ranked) {
    a.score > b.score
    || (a.score == b.score
        && ((a.candidate.Memory? && b.candidate.Chunk?)
            || (a.candidate.Memory? == b.candidate.Memory? && StringLess(Id(a.candidate), Id(b.candidate)))))
  }

  /** A strict total order on candidates with distinct ids. */
  lemma BeforeIsStrictTotal(a: Ranked, b: Ranked, c: Ranked)
    ensures !Before(a, a) && !(Before(a, b) && Before(b, a))
    ensures Before(a, b) && Before(b, c) ==> Before(a, c)
    ensures Id(a.candidate) != Id(b.candidate) ==> Before(a, b) || Before(b, a)
  {
    StringLessTotal(Id(a.candidate), Id(a.candidate));
    StringLessTotal(Id(a.candidate), Id(b.candidate));
    if StringLess(Id(a.candidate), Id(b.candidate)) && StringLess(Id(b.candidate), Id(c.candidate)) {
      StringLessTransitive(Id(a.candidate), Id(b.candidate), Id(c.candidate));
    }
  }

  ghost predicate Sorted(s: seq<Ranked>) {
    forall i, j | 0 <= i < j < |s| :: Before(s[i], s[j])
  }

  /** A sorted list is determined by its elements. */
  lemma {:induction false} SortedIsUnique(a: seq<Ranked>, b: seq<Ranked>)
    requires Sorted(a) && Sorted(b) && forall x :: x in a <==> x in b
    ensures a == b
  {
    assert b != [] ==> b[0] in b;
    if a != [] {
      assert a[0] in b && b[0] in a;
      FirstIsLeast(a, b[0]);
      FirstIsLeast(b, a[0]);
      BeforeIsStrictTotal(a[0], b[0], a[0]);
      forall x ensures x in a[1..] <==> x in b[1..] { TailElements(a, x); TailElements(b, x); }
      SortedIsUnique(a[1..], b[1..]);
      assert a == [a[0]] + a[1..] && b == [b[0]] + b[1..];
    }
  }

  lemma FirstIsLeast(s: seq<Ranked>, x: Ranked)
    requires Sorted(s) && x in s
    ensures x == s[0] || Before(s[0], x)
  {
  }

  lemma TailElements(s: seq<Ranked>, x: Ranked)
    requires Sorted(s) && s != []
    ensures x in s[1..] <==> x in s && x != s[0]
  {
    BeforeIsStrictTotal(s[0], s[0], s[0]);
    if x in s && x != s[0] {
      var i :| 0 <= i < |s| && s[i] == x;
      assert s[1..][i - 1] == x;
    }
  }

  /** The ranking of some evidence: a sorted list of exactly the candidates with evidence and their totals. */
  ghost predicate IsRanking(evidence: seq<Evidence>, ranked: seq<Ranked>) {
    && Sorted(ranked)
    && forall x :: x in ranked <==>
         x.score == Score(evidence, Id(x.candidate)) && exists e :: e in evidence && e.candidate == x.candidate
  }

  /** Sorting the fused values, in whatever order the hash map lists them, yields the ranking. */
  lemma SortedFusionRanks(evidence: seq<Evidence>, fused: map<string, Ranked>, ranked: seq<Ranked>)
    requires Consistent(evidence) && IsFused(evidence, fused)
    requires Sorted(ranked) && forall x :: x in ranked <==> x in fused.Values
    ensures IsRanking(evidence, ranked)
  {
    forall x ensures x in fused.Values <==>
        x.score == Score(evidence, Id(x.candidate)) && exists e :: e in evidence && e.candidate == x.candidate
    {
      var id := Id(x.candidate);
      MentionedIff(evidence, id);
      if e :| e in evidence && e.candidate == x.candidate {
        var d :| d in evidence && d.candidate == First(evidence, id) && Id(d.candidate) == id;
        assert fused[id].candidate == x.candidate;
      }
      if x in fused.Values {
        var i :| i in fused && fused[i] == x;
        MentionedIff(evidence, i);
      }
    }
  }

  /** The ranking depends on nothing but which evidence there is: not on its order, nor on the hash map's. */
  lemma RankingIsAFunctionOfEvidence(a: seq<Evidence>, b: seq<Evidence>, r: seq<Ranked>, s: seq<Ranked>)
    requires multiset(a) == multiset(b) && IsRanking(a, r) && IsRanking(b, s)
    ensures r == s
  {
    forall x ensures x in r <==> x in s {
      ScoreIgnoresOrder(a, b, Id(x.candidate));
      assert forall e :: e in a <==> e in b by {
        forall e ensures e in a <==> e in b { assert e in multiset(a) <==> e in multiset(b); }
      }
    }
    SortedIsUnique(r, s);
  }

  // ---- selection ----------------------------------------------------------------------------------

  ghost predicate HasDocument(s: seq<Ranked>, document: string) {
    exists x :: x in s && x.candidate.Chunk? && x.candidate.document == document
  }

  /** A chunk of a document that an earlier candidate already represents. */
  ghost predicate Repeats(s: seq<Ranked>, x: Ranked) {
    x.candidate.Chunk? && HasDocument(s, x.candidate.document)
  }

  /** The memories, and of each document the best chunk. */
  ghost function Firsts(s: seq<Ranked>): seq<Ranked> {
    if s == [] then []
    else
      var front, last := s[..|s| - 1], s[|s| - 1];
      Firsts(front) + if Repeats(front, last) then [] else [last]
  }

  lemma {:induction false} FirstsRepresent(s: seq<Ranked>, document: string)
    ensures HasDocument(Firsts(s), document) <==> HasDocument(s, document)
  {
    if s != [] {
      var front, last := s[..|s| - 1], s[|s| - 1];
      FirstsRepresent(front, document);
      assert s == front + [last];
      assert HasDocument(s, document) <==>
             HasDocument(front, document) || (last.candidate.Chunk? && last.candidate.document == document) by {
        assert last in s;
        if HasDocument(front, document) {
          var x :| x in front && x.candidate.Chunk? && x.candidate.document == document;
          assert x in s;
        }
      }
      if !Repeats(front, last) {
        assert last in Firsts(s);
        if HasDocument(Firsts(front), document) {
          var x :| x in Firsts(front) && x.candidate.Chunk? && x.candidate.document == document;
          assert x in Firsts(s);
        }
      }
    }
  }

  /** What is selected from a prefix only grows with the prefix. */
  lemma {:induction false} FirstsGrow(s: seq<Ranked>, n: nat)
    requires n <= |s|
    ensures Firsts(s[..n]) <= Firsts(s)
  {
    if n < |s| {
      FirstsGrow(s[..|s| - 1], n);
      assert s[..|s| - 1][..n] == s[..n];
    } else {
      assert s[..n] == s;
    }
  }

  /** With aggregation the first `limit` of the best chunk per document and the memories; without, just the first
      `limit`. */
  method SelectDiverse(candidates: seq<Ranked>, limit: nat, aggregate: bool) returns (selected: seq<Ranked>)
    ensures aggregate ==> selected == Take(Firsts(candidates), limit)
    ensures !aggregate ==> selected == Take(candidates, limit)
  {
    selected := [];
    var documents: set<string> := {};
    for n := 0 to |candidates|
      invariant |selected| <= limit
      invariant aggregate ==> selected == Firsts(candidates[..n])
      invariant !aggregate ==> selected == candidates[..n]
      invariant forall d :: d in documents <==> HasDocument(selected, d)
    {
      if |selected| == limit {
        FirstsGrow(candidates, n);
        return;
      }
      var candidate := candidates[n];
      assert candidates[..n + 1][..n] == candidates[..n];
      var duplicate := candidate.candidate.Chunk? && candidate.candidate.document in documents;
      if candidate.candidate.Chunk? { FirstsRepresent(candidates[..n], candidate.candidate.document); }
      if aggregate && duplicate { continue; }
      ghost var before := selected;
      if candidate.candidate.Chunk? { documents := documents + {candidate.candidate.document}; }
      selected := selected + [candidate];
      DocumentsOfPush(before, candidate);
    }
    assert candidates[..|candidates|] == candidates;
  }

  lemma DocumentsOfPush(s: seq<Ranked>, x: Ranked)
    ensures forall d :: HasDocument(s + [x], d) <==>
              HasDocument(s, d) || (x.candidate.Chunk? && x.candidate.document == d)
  {
    forall d
      ensures HasDocument(s + [x], d) <==> HasDocument(s, d) || (x.candidate.Chunk? && x.candidate.document == d)
    {
      assert x in s + [x];
      if HasDocument(s, d) {
        var y :| y in s && y.candidate.Chunk? && y.candidate.document == d;
        assert y in s + [x];
      }
    }
  }

  /** Aggregation keeps order, represents no document twice, and keeps of each document the best-ranked chunk. */
  lemma {:induction false} FirstsAreBest(s: seq<Ranked>)
    requires Sorted(s)
    ensures Sorted(Firsts(s)) && forall x | x in Firsts(s) :: x in s
    ensures forall x, y | x in Firsts(s) && y in s && x.candidate.Chunk? && y.candidate.Chunk?
                          && x.candidate.document == y.candidate.document :: x == y || Before(x, y)
    ensures forall x | x in s && x.candidate.Memory? :: x in Firsts(s)
  {
    if s != [] {
      var front, last := s[..|s| - 1], s[|s| - 1];
      FirstsAreBest(front);
      assert s == front + [last];
      forall x | x in front ensures Before(x, last) {
        var i :| 0 <= i < |front| && front[i] == x;
        assert s[i] == x;
      }
    }
  }

  // ---- similarity and budget ----------------------------------------------------------------------

  /** A projected result: its fact is never changed, its optional fields may be dropped. */
  datatype Hit = Hit(ranked: Ranked, fact: string, optional: seq<string>)

  function MinReal(a: real, b: real): real {
    if a < b then a else b
  }

  function Square(a: real): real {
    a * a
  }

  /** The similarity reported: a memory's fused score is applied twice, so it comes out squared. */
  function Similarity(h: Hit): real {
    if h.ranked.candidate.Memory? then MinReal(Square(h.ranked.score), 1.0) else h.ranked.score
  }

  function Reduced(h: Hit): Hit {
    h.(optional := [])
  }

  const BUDGET: nat := 5000
  const MAX_RESULT: nat := BUDGET / 2

  /** The form in which a result is admitted when this many bytes remain, if it is. */
  function Admitted(h: Hit, remaining: nat, bytes: Hit -> nat): (form: Option<Hit>)
    ensures form.Some? ==> bytes(form.value) <= remaining && bytes(form.value) <= MAX_RESULT
    ensures form.Some? ==> form.value == h || form.value == Reduced(h)
  {
    var form := if bytes(h) > remaining then Reduced(h) else h;
    if bytes(form) > remaining || bytes(form) > MAX_RESULT then None else Some(form)
  }

  function Append(hits: seq<Hit>, form: Option<Hit>): seq<Hit> {
    if form.Some? then hits + [form.value] else hits
  }

  /** fit_search_context, one result after the other, with the bytes that remain. */
  function FitWith(hits: seq<Hit>, bytes: Hit -> nat): (seq<Hit>, nat) {
    if hits == [] then ([], BUDGET)
    else
      var (earlier, remaining) := FitWith(hits[..|hits| - 1], bytes);
      var form := Admitted(hits[|hits| - 1], remaining, bytes);
      (Append(earlier, form), if form.Some? then remaining - bytes(form.value) else remaining)
  }

  function Fit(hits: seq<Hit>, bytes: Hit -> nat): seq<Hit> {
    FitWith(hits, bytes).0
  }

  function TotalBytes(hits: seq<Hit>, bytes: Hit -> nat): nat {
    if hits == [] then 0 else TotalBytes(hits[..|hits| - 1], bytes) + bytes(hits[|hits| - 1])
  }

  /** The response never exceeds the budget, and no result exceeds half of it. */
  lemma {:induction false} FitWithinBudget(hits: seq<Hit>, bytes: Hit -> nat)
    ensures TotalBytes(Fit(hits, bytes), bytes) + FitWith(hits, bytes).1 == 5000
    ensures forall h | h in Fit(hits, bytes) :: bytes(h) <= 2500
  {
    if hits != [] {
      var front, last := hits[..|hits| - 1], hits[|hits| - 1];
      FitWithinBudget(front, bytes);
      var (earlier, remaining) := FitWith(front, bytes);
      var form := Admitted(last, remaining, bytes);
      if form.Some? { assert (earlier + [form.value])[..|earlier|] == earlier; }
    }
  }

  method FitSearchContext(hits: seq<Hit>, bytes: Hit -> nat) returns (admitted: seq<Hit>)
    ensures admitted == Fit(hits, bytes)
  {
    var remaining: nat := BUDGET;
    admitted := [];
    for n := 0 to |hits|
      invariant (admitted, remaining) == FitWith(hits[..n], bytes)
    {
      assert hits[..n + 1][..n] == hits[..n];
      var result := hits[n];
      var size := bytes(result);
      if size > remaining {
        result := Reduced(result);
        size := bytes(result);
      }
      if size > remaining || size > MAX_RESULT { continue; }
      remaining := remaining - size;
      admitted := admitted + [result];
    }
    assert hits[..|hits|] == hits;
  }

  /** The result is not in the response, although it would be in it without its optional fields. */
  ghost predicate DroppedUnreduced(hits: seq<Hit>, i: nat, bytes: Hit -> nat)
    requires i < |hits|
  {
    && Fit(hits[..i + 1], bytes) == Fit(hits[..i], bytes)
    && Fit(hits[..i] + [Reduced(hits[i])], bytes) == Fit(hits[..i], bytes) + [Reduced(hits[i])]
  }

  /**
   Optional fields should go before a result is rejected. The rule fails exactly for a result that fits what the results
   before it left of the budget, exceeds half of the budget, and would not exceed it reduced.
   */
  lemma DroppedUnreducedIff(hits: seq<Hit>, i: nat, bytes: Hit -> nat)
    requires i < |hits|
    ensures DroppedUnreduced(hits, i, bytes)
            <==> 2500 < bytes(hits[i]) <= 5000 - TotalBytes(Fit(hits[..i], bytes), bytes)
                 && bytes(Reduced(hits[i])) <= 2500
  {
    FitWithinBudget(hits[..i], bytes);
    FitPush(hits[..i], hits[i], bytes);
    FitPush(hits[..i], Reduced(hits[i]), bytes);
    assert hits[..i + 1] == hits[..i] + [hits[i]];
    var earlier := Fit(hits[..i], bytes);
    assert forall h: Hit :: |earlier + [h]| == |earlier| + 1;
  }

  lemma FitPush(hits: seq<Hit>, h: Hit, bytes: Hit -> nat)
    ensures Fit(hits + [h], bytes) == Append(Fit(hits, bytes), Admitted(h, FitWith(hits, bytes).1, bytes))
  {
    assert (hits + [h])[..|hits|] == hits;
  }

  /** A first result of 3000 bytes that would need 100 without its optional fields is dropped. */
  lemma DroppedUnreducedExample()
    ensures exists h: Hit, bytes: Hit -> nat :: bytes(Reduced(h)) == 100 && Fit([h], bytes) == []
  {
    var h := Hit(Ranked(Memory("1"), 0.03), "fact", ["related"]);
    var bytes: Hit -> nat := (x: Hit) => if x.optional == [] then 100 else 3000;
    assert [h][..0] == [] && FitWith([], bytes) == ([], BUDGET);
    assert bytes(h) == 3000 && bytes(Reduced(h)) == 100;
  }

  /** Reported similarities do not increase within a kind of result. */
  ghost predicate Nonincreasing(hits: seq<Hit>) {
    forall i, j | 0 <= i < j < |hits| && hits[i].ranked.candidate.Memory? == hits[j].ranked.candidate.Memory? ::
      Similarity(hits[i]) >= Similarity(hits[j])
  }

  lemma SquareGrows(a: real, b: real)
    requires 0.0 <= a <= b
    ensures Square(a) <= Square(b)
  {
    assert a * a <= a * b by { assert a * (b - a) >= 0.0; }
    assert a * b <= b * b by { assert b * (b - a) >= 0.0; }
  }

  /** Squaring keeps the order of nonnegative scores, so sorted results report nonincreasing similarities per kind. */
  lemma SortedIsNonincreasing(hits: seq<Hit>)
    requires Pairwise(hits, Before) && forall h | h in hits :: h.ranked.score >= 0.0
    ensures Nonincreasing(hits)
  {
    forall i, j | 0 <= i < j < |hits| && hits[i].ranked.candidate.Memory? == hits[j].ranked.candidate.Memory?
      ensures Similarity(hits[i]) >= Similarity(hits[j])
    {
      assert Before(hits[i].ranked, hits[j].ranked);
      SquareGrows(hits[j].ranked.score, hits[i].ranked.score);
    }
  }

  /** An input with its own candidate, score and fact, and all of its optional fields or none. */
  ghost predicate FromInput(hits: seq<Hit>, h: Hit) {
    exists x :: x in hits && h.ranked == x.ranked && h.fact == x.fact && (h.optional == x.optional || h.optional == [])
  }

  /** Every admitted result is an input, perhaps without its optional fields. */
  lemma {:induction false} FitFromInput(hits: seq<Hit>, bytes: Hit -> nat, h: Hit)
    requires h in Fit(hits, bytes)
    ensures FromInput(hits, h)
  {
    if hits != [] {
      var front, last := hits[..|hits| - 1], hits[|hits| - 1];
      assert hits == front + [last];
      if h in Fit(front, bytes) {
        FitFromInput(front, bytes, h);
        var x :| x in front && h.ranked == x.ranked && h.fact == x.fact
            && (h.optional == x.optional || h.optional == []);
        assert x in hits;
      } else {
        assert last in hits;
      }
    }
  }

  ghost predicate Pairwise(hits: seq<Hit>, rel: (Ranked, Ranked) -> bool) {
    forall i, j | 0 <= i < j < |hits| :: rel(hits[i].ranked, hits[j].ranked)
  }

  lemma PushPairwise(hits: seq<Hit>, x: Hit, rel: (Ranked, Ranked) -> bool)
    requires Pairwise(hits, rel) && forall h | h in hits :: rel(h.ranked, x.ranked)
    ensures Pairwise(hits + [x], rel)
  {
  }

  /** The response is a subsequence of the results: whatever holds between results in order still does. */
  lemma {:induction false} FitKeepsOrder(hits: seq<Hit>, bytes: Hit -> nat, rel: (Ranked, Ranked) -> bool)
    requires Pairwise(hits, rel)
    ensures Pairwise(Fit(hits, bytes), rel)
  {
    if hits != [] {
      var front, last := hits[..|hits| - 1], hits[|hits| - 1];
      FitKeepsOrder(front, bytes, rel);
      var earlier := Fit(front, bytes);
      forall h | h in earlier ensures rel(h.ranked, last.ranked) {
        FitFromInput(front, bytes, h);
        var x :| x in front && h.ranked == x.ranked;
        var i :| 0 <= i < |front| && front[i] == x;
        assert hits[i] == x;
      }
      PushPairwise(earlier, last, rel);
      PushPairwise(earlier, Reduced(last), rel);
    }
  }

  /** From sorted results to the response: at most 5000 bytes, in order, similarities nonincreasing within each kind. */
  lemma ResponseIsOrdered(hits: seq<Hit>, bytes: Hit -> nat)
    requires Pairwise(hits, Before) && forall h | h in hits :: h.ranked.score >= 0.0
    ensures var response := Fit(hits, bytes);
            && TotalBytes(response, bytes) <= 5000
            && Pairwise(response, Before) && Nonincreasing(response)
            && forall h | h in response :: FromInput(hits, h)
  {
    FitKeepsOrder(hits, bytes, Before);
    FitWithinBudget(hits, bytes);
    var response := Fit(hits, bytes);
    forall h | h in response ensures FromInput(hits, h) && h.ranked.score >= 0.0 { FitFromInput(hits, bytes, h); }
    SortedIsNonincreasing(response);
  }

  // ---- the pipeline -------------------------------------------------------------------------------

  function InsertRanked(s: seq<Ranked>, x: Ranked): seq<Ranked> {
    if s == [] || Before(x, s[0]) then [x] + s else [s[0]] + InsertRanked(s[1..], x)
  }

  lemma {:induction false} InsertedElements(s: seq<Ranked>, x: Ranked, y: Ranked)
    ensures y in InsertRanked(s, x) <==> y == x || y in s
  {
    if s != [] && !Before(x, s[0]) {
      InsertedElements(s[1..], x, y);
      assert s == [s[0]] + s[1..];
    }
  }

  lemma {:induction false} InsertedSorted(s: seq<Ranked>, x: Ranked)
    requires Sorted(s) && forall y | y in s :: Id(y.candidate) != Id(x.candidate)
    ensures Sorted(InsertRanked(s, x))
  {
    if s == [] {
    } else if Before(x, s[0]) {
      forall i | 0 <= i < |s| ensures Before(x, s[i]) { BeforeIsStrictTotal(x, s[0], s[i]); }
    } else {
      BeforeIsStrictTotal(s[0], x, x);
      InsertedSorted(s[1..], x);
      var rest := InsertRanked(s[1..], x);
      forall i | 0 <= i < |rest| ensures Before(s[0], rest[i]) {
        InsertedElements(s[1..], x, rest[i]);
        if rest[i] in s[1..] {
          var k :| 0 <= k < |s[1..]| && s[1..][k] == rest[i];
          assert s[k + 1] == rest[i];
        }
      }
    }
  }

  /** The fused values, in whatever order the map yields them, sorted. */
  method SortFused(fused: map<string, Ranked>) returns (ranked: seq<Ranked>)
    requires forall id | id in fused :: Id(fused[id].candidate) == id
    ensures Sorted(ranked) && forall x :: x in ranked <==> x in fused.Values
  {
    ranked := [];
    var rest := fused.Keys;
    while rest != {}
      invariant rest <= fused.Keys && Sorted(ranked)
      invariant forall x :: x in ranked <==>
                  Id(x.candidate) in fused && Id(x.candidate) !in rest && fused[Id(x.candidate)] == x
      decreases |rest|
    {
      var id :| id in rest;
      InsertedSorted(ranked, fused[id]);
      forall x ensures x in InsertRanked(ranked, fused[id]) <==> x == fused[id] || x in ranked {
        InsertedElements(ranked, fused[id], x);
      }
      ranked := InsertRanked(ranked, fused[id]);
      rest := rest - {id};
    }
  }

  ghost predicate DistinctIds(s: seq<Ranked>) {
    forall i, j | 0 <= i < j < |s| :: Id(s[i].candidate) != Id(s[j].candidate)
  }

  lemma RankingHasDistinctIds(evidence: seq<Evidence>, ranked: seq<Ranked>)
    requires Consistent(evidence) && IsRanking(evidence, ranked)
    ensures DistinctIds(ranked)
  {
    forall i, j | 0 <= i < j < |ranked| ensures Id(ranked[i].candidate) != Id(ranked[j].candidate) {
      assert ranked[i] in ranked && ranked[j] in ranked && Before(ranked[i], ranked[j]);
      BeforeIsStrictTotal(ranked[i], ranked[i], ranked[i]);
    }
  }

  /** The selected candidates that hydration found, in the fused order. */
  function Present(selected: seq<Ranked>, hydrated: map<string, Hit>): seq<Hit> {
    if selected == [] then []
    else
      var id := Id(selected[|selected| - 1].candidate);
      Present(selected[..|selected| - 1], hydrated) + if id in hydrated then [hydrated[id]] else []
  }

  /** Results are hydrated per type and taken out of a map one by one, which restores the fused order. */
  method Reassemble(selected: seq<Ranked>, hydrated: map<string, Hit>) returns (results: seq<Hit>)
    requires DistinctIds(selected)
    ensures results == Present(selected, hydrated)
  {
    results := [];
    var byId := hydrated;
    for n := 0 to |selected|
      invariant results == Present(selected[..n], hydrated)
      invariant forall k | n <= k < |selected| ::
                  var id := Id(selected[k].candidate);
                  (id in byId <==> id in hydrated) && (id in byId ==> byId[id] == hydrated[id])
    {
      assert selected[..n + 1][..n] == selected[..n];
      var id := Id(selected[n].candidate);
      if id in byId {
        results := results + [byId[id]];
        byId := map k | k in byId && k != id :: byId[k];
      }
    }
    assert selected[..|selected|] == selected;
  }

  /** What hydration returns: hits of candidates, each with its fused score. */
  ghost predicate Hydrates(selected: seq<Ranked>, hydrated: map<string, Hit>) {
    forall x | x in selected && Id(x.candidate) in hydrated :: hydrated[Id(x.candidate)].ranked == x
  }

  lemma {:induction false} PresentIsOrdered(selected: seq<Ranked>, hydrated: map<string, Hit>)
    requires Sorted(selected) && Hydrates(selected, hydrated)
    ensures Pairwise(Present(selected, hydrated), Before)
    ensures forall h | h in Present(selected, hydrated) :: h.ranked in selected
  {
    if selected != [] {
      var front, last := selected[..|selected| - 1], selected[|selected| - 1];
      assert selected == front + [last];
      PresentIsOrdered(front, hydrated);
      var id := Id(last.candidate);
      if id in hydrated {
        forall h | h in Present(front, hydrated) ensures Before(h.ranked, hydrated[id].ranked) {
          var i :| 0 <= i < |front| && front[i] == h.ranked;
          assert selected[i] == h.ranked;
        }
        PushPairwise(Present(front, hydrated), hydrated[id], Before);
      }
    }
  }

  lemma TakeSorted(s: seq<Ranked>, limit: nat)
    requires Sorted(s) && DistinctIds(s)
    ensures Sorted(Take(s, limit)) && DistinctIds(Take(s, limit)) && forall x | x in Take(s, limit) :: x in s
  {
  }

  lemma FirstsDistinct(s: seq<Ranked>)
    requires Sorted(s) && DistinctIds(s)
    ensures DistinctIds(Firsts(s))
  {
    FirstsAreBest(s);
    var f := Firsts(s);
    forall i, j | 0 <= i < j < |f| ensures Id(f[i].candidate) != Id(f[j].candidate) {
      assert f[i] in s && f[j] in s && Before(f[i], f[j]);
      var a :| 0 <= a < |s| && s[a] == f[i];
      var b :| 0 <= b < |s| && s[b] == f[j];
      BeforeIsStrictTotal(f[i], f[i], f[j]);
      assert a != b;
    }
  }

  /**
   The whole search after retrieval. The ranking is the one the evidence determines; the selection is a prefix of it or
   of its best-per-document part; the response keeps the fused order, the budget, and the facts.
   */
  method Search(semanticMemories: seq<Candidate>, lexicalMemories: seq<Evidence>, semanticChunks: seq<Candidate>,
                lexicalChunks: seq<Evidence>, limit: nat, aggregate: bool, hydrate: seq<Ranked> -> map<string, Hit>,
                bytes: Hit -> nat)
    returns (ranked: seq<Ranked>, selected: seq<Ranked>, response: seq<Hit>)
    requires Consistent(Gather(semanticMemories, lexicalMemories, semanticChunks, lexicalChunks))
    requires forall s :: Hydrates(s, hydrate(s))
    ensures IsRanking(Gather(semanticMemories, lexicalMemories, semanticChunks, lexicalChunks), ranked)
    ensures selected == Take(if aggregate then Firsts(ranked) else ranked, limit)
    ensures Pairwise(response, Before) && Nonincreasing(response) && TotalBytes(response, bytes) <= 5000
    ensures response == Fit(Present(selected, hydrate(selected)), bytes)
    ensures forall h | h in response :: FromInput(Present(selected, hydrate(selected)), h) && bytes(h) <= 2500
  {
    ghost var evidence := Gather(semanticMemories, lexicalMemories, semanticChunks, lexicalChunks);
    var fused := FuseCandidates(semanticMemories, lexicalMemories, semanticChunks, lexicalChunks);
    forall id | id in fused ensures Id(fused[id].candidate) == id { MentionedIff(evidence, id); }
    ranked := SortFused(fused);
    SortedFusionRanks(evidence, fused, ranked);
    RankingHasDistinctIds(evidence, ranked);
    selected := SelectDiverse(ranked, limit, aggregate);
    FirstsAreBest(ranked);
    FirstsDistinct(ranked);
    TakeSorted(if aggregate then Firsts(ranked) else ranked, limit);
    var hydrated := hydrate(selected);
    var results := Reassemble(selected, hydrated);
    PresentIsOrdered(selected, hydrated);
    forall h | h in results ensures h.ranked.score >= 0.0 {
      assert h.ranked in ranked;
      MentionedIff(evidence, Id(h.ranked.candidate));
    }
    ResponseIsOrdered(results, bytes);
    FitWithinBudget(results, bytes);
    response := FitSearchContext(results, bytes);
  }
}
