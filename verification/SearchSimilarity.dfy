/** Similarities as reported: squaring a memory's score puts every memory below every chunk. */
module SearchSimilarity {
  import opened Options
  import opened SearchRanking
  import opened Sequences

  // ---- how large a fused score is -----------------------------------------------------------------

  const MAX_CANDIDATES: nat := 500

  function Mentions(evidence: seq<Evidence>, id: string): nat {
    if evidence == [] then 0
    else Mentions(evidence[..|evidence| - 1], id) + if Id(evidence[|evidence| - 1].candidate) == id then 1 else 0
  }

  ghost predicate RanksOk(evidence: seq<Evidence>) {
    forall e | e in evidence :: 1 <= e.rank <= MAX_CANDIDATES
  }

  lemma WeightBounds(rank: nat)
    requires 1 <= rank <= MAX_CANDIDATES
    ensures 1.0 / 560.0 <= Weight(rank) <= 1.0 / 61.0
  {
    Reciprocal(61.0, 60.0 + rank as real);
    Reciprocal(60.0 + rank as real, 560.0);
  }

  lemma Reciprocal(a: real, b: real)
    requires 0.0 < a <= b
    ensures 1.0 / b <= 1.0 / a
  {
    var x, y := 1.0 / a, 1.0 / b;
    assert a * x == 1.0 && b * y == 1.0;
    assert a * y <= b * y by { assert (b - a) * y >= 0.0; }
    assert a * (x - y) >= 0.0;
    assert x < y ==> a * (y - x) > 0.0;
  }

  /** Every mention is worth between 1/560 and 1/61. */
  lemma {:induction false} ScoreBounds(evidence: seq<Evidence>, id: string)
    requires RanksOk(evidence)
    ensures Mentions(evidence, id) as real / 560.0 <= Score(evidence, id) <= Mentions(evidence, id) as real / 61.0
  {
    if evidence != [] {
      var front, last := evidence[..|evidence| - 1], evidence[|evidence| - 1];
      assert last in evidence && forall e | e in front :: e in evidence;
      ScoreBounds(front, id);
      WeightBounds(last.rank);
    }
  }

  // ---- what the four retrievals return ------------------------------------------------------------

  ghost predicate DistinctCandidates(evidence: seq<Evidence>) {
    forall i, j | 0 <= i < j < |evidence| :: Id(evidence[i].candidate) != Id(evidence[j].candidate)
  }

  /** One retrieval: candidates of one kind, none twice, with ranks up to the candidate limit. */
  ghost predicate Retrieval(evidence: seq<Evidence>, memories: bool) {
    && RanksOk(evidence) && DistinctCandidates(evidence)
    && forall e | e in evidence :: e.candidate.Memory? == memories
  }

  ghost predicate Retrieved(semanticMemories: seq<Candidate>, lexicalMemories: seq<Evidence>,
                            semanticChunks: seq<Candidate>, lexicalChunks: seq<Evidence>) {
    && Retrieval(Semantic(semanticMemories), true) && Retrieval(lexicalMemories, true)
    && Retrieval(Semantic(semanticChunks), false) && Retrieval(lexicalChunks, false)
  }

  lemma {:induction false} MentionsConcat(a: seq<Evidence>, b: seq<Evidence>, id: string)
    ensures Mentions(a + b, id) == Mentions(a, id) + Mentions(b, id)
  {
    if b == [] {
      assert a + b == a;
    } else {
      assert (a + b)[..|a + b| - 1] == a + b[..|b| - 1];
      MentionsConcat(a, b[..|b| - 1], id);
    }
  }

  lemma {:induction false} NotMentioned(evidence: seq<Evidence>, id: string)
    requires forall e | e in evidence :: Id(e.candidate) != id
    ensures Mentions(evidence, id) == 0
  {
    if evidence != [] { NotMentioned(evidence[..|evidence| - 1], id); }
  }

  lemma {:induction false} MentionedOnce(evidence: seq<Evidence>, id: string)
    requires DistinctCandidates(evidence)
    ensures Mentions(evidence, id) <= 1
  {
    if evidence != [] {
      var front, last := evidence[..|evidence| - 1], evidence[|evidence| - 1];
      MentionedOnce(front, id);
      if Id(last.candidate) == id {
        forall e | e in front ensures Id(e.candidate) != id {
          var i :| 0 <= i < |front| && front[i] == e;
          assert evidence[i] == e;
        }
        NotMentioned(front, id);
      }
    }
  }

  lemma {:induction false} MentionedAtLeastOnce(evidence: seq<Evidence>, e: Evidence)
    requires e in evidence
    ensures Mentions(evidence, Id(e.candidate)) >= 1
  {
    var front, last := evidence[..|evidence| - 1], evidence[|evidence| - 1];
    assert evidence == front + [last];
    if e != last { MentionedAtLeastOnce(front, e); }
  }

  lemma KindsDiffer(evidence: seq<Evidence>, memoryId: string)
    requires Retrieval(evidence, false)
    ensures Mentions(evidence, Id(Memory(memoryId))) == 0
  {
    forall e | e in evidence ensures Id(e.candidate) != Id(Memory(memoryId)) {
      assert Id(e.candidate)[0] == 'c' && Id(Memory(memoryId))[0] == 'm';
    }
    NotMentioned(evidence, Id(Memory(memoryId)));
  }

  /** A memory is mentioned at most twice: once semantically and once lexically. */
  lemma MemoryMentions(semanticMemories: seq<Candidate>, lexicalMemories: seq<Evidence>,
                       semanticChunks: seq<Candidate>, lexicalChunks: seq<Evidence>, memoryId: string)
    requires Retrieved(semanticMemories, lexicalMemories, semanticChunks, lexicalChunks)
    ensures Mentions(Gather(semanticMemories, lexicalMemories, semanticChunks, lexicalChunks), Id(Memory(memoryId)))
        <= 2
  {
    var id := Id(Memory(memoryId));
    var sm, sc := Semantic(semanticMemories), Semantic(semanticChunks);
    MentionsConcat(sm + lexicalMemories + sc, lexicalChunks, id);
    MentionsConcat(sm + lexicalMemories, sc, id);
    MentionsConcat(sm, lexicalMemories, id);
    MentionedOnce(sm, id);
    MentionedOnce(lexicalMemories, id);
    KindsDiffer(sc, memoryId);
    KindsDiffer(lexicalChunks, memoryId);
  }

  lemma GatheredRanks(semanticMemories: seq<Candidate>, lexicalMemories: seq<Evidence>,
                      semanticChunks: seq<Candidate>, lexicalChunks: seq<Evidence>)
    requires Retrieved(semanticMemories, lexicalMemories, semanticChunks, lexicalChunks)
    ensures RanksOk(Gather(semanticMemories, lexicalMemories, semanticChunks, lexicalChunks))
  {
  }

  // ---- memories report less than chunks -----------------------------------------------------------

  /** Two mentions at the first rank squared are less than one mention at the last. */
  lemma SquareBelow(s: real)
    requires 0.0 <= s <= 2.0 / 61.0
    ensures MinReal(Square(s), 1.0) < 1.0 / 560.0
  {
    SquareGrows(s, 2.0 / 61.0);
    assert Square(2.0 / 61.0) == 4.0 / 3721.0;
  }

  /** With at most two mentions of the memory and one of the chunk, the memory reports the square of its score, the
      chunk its score, and the square is the smaller. */
  lemma MemoryReportsLess(evidence: seq<Evidence>, m: Hit, c: Hit)
    requires RanksOk(evidence) && m.ranked.candidate.Memory? && c.ranked.candidate.Chunk?
    requires m.ranked.score == Score(evidence, Id(m.ranked.candidate))
        && Mentions(evidence, Id(m.ranked.candidate)) <= 2
    requires c.ranked.score == Score(evidence, Id(c.ranked.candidate))
        && Mentions(evidence, Id(c.ranked.candidate)) >= 1
    ensures Similarity(m) == Square(m.ranked.score) < c.ranked.score == Similarity(c)
  {
    ScoreBounds(evidence, Id(m.ranked.candidate));
    ScoreBounds(evidence, Id(c.ranked.candidate));
    SquareBelow(m.ranked.score);
  }

  /** Reported similarities that never increase from one result to a later one. */
  ghost predicate InOrder(hits: seq<Hit>) {
    forall i, j | 0 <= i < j < |hits| :: Similarity(hits[i]) >= Similarity(hits[j])
  }

  ghost predicate MemoryBeforeChunk(hits: seq<Hit>) {
    exists i, j :: 0 <= i < j < |hits| && hits[i].ranked.candidate.Memory? && hits[j].ranked.candidate.Chunk?
  }

  /** Results with the scores the evidence gives them. */
  ghost predicate Scored(evidence: seq<Evidence>, hits: seq<Hit>) {
    forall h | h in hits ::
      && h.ranked.score == Score(evidence, Id(h.ranked.candidate))
      && exists e :: e in evidence && e.candidate == h.ranked.candidate
  }

  lemma InOrderIff(evidence: seq<Evidence>, hits: seq<Hit>)
    requires RanksOk(evidence) && Scored(evidence, hits) && Nonincreasing(hits)
    requires forall id :: Mentions(evidence, Id(Memory(id))) <= 2
    ensures InOrder(hits) <==> !MemoryBeforeChunk(hits)
  {
    forall i, j | 0 <= i < |hits| && 0 <= j < |hits| && hits[i].ranked.candidate.Memory?
        && hits[j].ranked.candidate.Chunk?
      ensures Similarity(hits[i]) < Similarity(hits[j])
    {
      assert hits[i] in hits && hits[j] in hits;
      var e :| e in evidence && e.candidate == hits[j].ranked.candidate;
      MentionedAtLeastOnce(evidence, e);
      assert hits[i].ranked.candidate == Memory(hits[i].ranked.candidate.memoryId);
      MemoryReportsLess(evidence, hits[i], hits[j]);
    }
  }

  /** The hydrated results, which carry the scores of the ranking. */
  lemma ResultsAreScored(evidence: seq<Evidence>, ranked: seq<Ranked>, selected: seq<Ranked>,
                         hydrated: map<string, Hit>)
    requires IsRanking(evidence, ranked) && Sorted(selected) && Hydrates(selected, hydrated)
    requires forall x | x in selected :: x in ranked
    ensures var results := Present(selected, hydrated);
            Scored(evidence, results) && Pairwise(results, Before) && forall h | h in results :: h.ranked.score >= 0.0
  {
    PresentIsOrdered(selected, hydrated);
    forall h | h in Present(selected, hydrated) ensures h.ranked in ranked && h.ranked.score >= 0.0 {
      MentionedIff(evidence, Id(h.ranked.candidate));
    }
  }

  /** Budgeting keeps scores and order. */
  lemma ResponseIsScored(evidence: seq<Evidence>, results: seq<Hit>, bytes: Hit -> nat)
    requires Scored(evidence, results) && Pairwise(results, Before) && forall h | h in results :: h.ranked.score >= 0.0
    ensures Scored(evidence, Fit(results, bytes)) && Nonincreasing(Fit(results, bytes))
  {
    ResponseIsOrdered(results, bytes);
    forall h | h in Fit(results, bytes)
      ensures h.ranked.score == Score(evidence, Id(h.ranked.candidate))
      ensures exists e :: e in evidence && e.candidate == h.ranked.candidate
    {
      assert FromInput(results, h);
      var x :| x in results && (h == x || h == Reduced(x));
    }
  }

  /** What a search selects. */
  ghost function Selection(ranked: seq<Ranked>, limit: nat, aggregate: bool): seq<Ranked> {
    Take(if aggregate then Firsts(ranked) else ranked, limit)
  }

  lemma SelectionIsRanked(evidence: seq<Evidence>, ranked: seq<Ranked>, limit: nat, aggregate: bool)
    requires Consistent(evidence) && IsRanking(evidence, ranked)
    ensures Sorted(Selection(ranked, limit, aggregate))
    ensures forall x | x in Selection(ranked, limit, aggregate) :: x in ranked
  {
    RankingHasDistinctIds(evidence, ranked);
    FirstsAreBest(ranked);
    FirstsDistinct(ranked);
    TakeSorted(if aggregate then Firsts(ranked) else ranked, limit);
  }

  /**
   For whatever the four retrievals return, the similarities of the results, and those of the response, are
   nonincreasing exactly when no memory comes before a chunk among them.
   */
  lemma ResponseInOrderIff(semanticMemories: seq<Candidate>, lexicalMemories: seq<Evidence>,
                           semanticChunks: seq<Candidate>, lexicalChunks: seq<Evidence>,
                           ranked: seq<Ranked>, limit: nat, aggregate: bool, hydrated: map<string, Hit>,
                           bytes: Hit -> nat)
    requires Retrieved(semanticMemories, lexicalMemories, semanticChunks, lexicalChunks)
    requires Consistent(Gather(semanticMemories, lexicalMemories, semanticChunks, lexicalChunks))
    requires IsRanking(Gather(semanticMemories, lexicalMemories, semanticChunks, lexicalChunks), ranked)
    requires Hydrates(Selection(ranked, limit, aggregate), hydrated)
    ensures var results := Present(Selection(ranked, limit, aggregate), hydrated);
            && (InOrder(results) <==> !MemoryBeforeChunk(results))
            && (InOrder(Fit(results, bytes)) <==> !MemoryBeforeChunk(Fit(results, bytes)))
  {
    var evidence := Gather(semanticMemories, lexicalMemories, semanticChunks, lexicalChunks);
    var results := Present(Selection(ranked, limit, aggregate), hydrated);
    SelectionIsRanked(evidence, ranked, limit, aggregate);
    ResultsAreScored(evidence, ranked, Selection(ranked, limit, aggregate), hydrated);
    ResponseIsScored(evidence, results, bytes);
    SortedIsNonincreasing(results);
    GatheredRanks(semanticMemories, lexicalMemories, semanticChunks, lexicalChunks);
    forall id ensures Mentions(evidence, Id(Memory(id))) <= 2 {
      MemoryMentions(semanticMemories, lexicalMemories, semanticChunks, lexicalChunks, id);
    }
    InOrderIff(evidence, results);
    InOrderIff(evidence, Fit(results, bytes));
  }

  // ---- an example ---------------------------------------------------------------------------------

  const OneMemory := [Memory("a")]
  const OneChunk := [Chunk("b", "d")]

  lemma ExampleScores(a: Evidence, b: Evidence)
    requires Id(a.candidate) != Id(b.candidate)
    ensures Score([a, b], Id(a.candidate)) == Weight(a.rank) && Score([a, b], Id(b.candidate)) == Weight(b.rank)
  {
    assert [a, b][..1] == [a] && [a][..0] == [];
    assert Score([], Id(a.candidate)) == 0.0 && Score([], Id(b.candidate)) == 0.0;
    assert Score([a], Id(a.candidate)) == Weight(a.rank) && Score([a], Id(b.candidate)) == 0.0;
  }

  const ExampleRanking := [Ranked(Memory("a"), 1.0 / 61.0), Ranked(Chunk("b", "d"), 1.0 / 61.0)]

  lemma ExampleEvidence()
    ensures Gather(OneMemory, [], OneChunk, []) == [Evidence(Memory("a"), 1), Evidence(Chunk("b", "d"), 1)]
    ensures Id(Memory("a")) != Id(Chunk("b", "d"))
  {
    assert Id(Memory("a"))[0] == 'm' && Id(Chunk("b", "d"))[0] == 'c';
  }

  /** A memory and a chunk, each first in its semantic retrieval, are ranked in this order. */
  lemma ExampleIsRanked(ranked: seq<Ranked>)
    requires IsRanking(Gather(OneMemory, [], OneChunk, []), ranked)
    ensures ranked == ExampleRanking
  {
    var evidence := Gather(OneMemory, [], OneChunk, []);
    var a, b := Evidence(Memory("a"), 1), Evidence(Chunk("b", "d"), 1);
    ExampleEvidence();
    ExampleScores(a, b);
    forall x ensures x in ExampleRanking <==> x in ranked {
      assert a in evidence && b in evidence;
      assert x in ranked <==>
             x.score == Score(evidence, Id(x.candidate)) && (x.candidate == a.candidate || x.candidate == b.candidate);
    }
    SortedIsUnique(ExampleRanking, ranked);
  }

  /** The hits of the example, by id. */
  function ExampleHits(): map<string, Hit> {
    map[Id(Memory("a")) := Hit(ExampleRanking[0], "fact", []),
        Id(Chunk("b", "d")) := Hit(ExampleRanking[1], "text", [])]
  }

  const ExampleResults := [Hit(ExampleRanking[0], "fact", []), Hit(ExampleRanking[1], "text", [])]

  lemma ExamplePresent()
    ensures Present(Take(ExampleRanking, 10), ExampleHits()) == ExampleResults
  {
    var first := [ExampleRanking[0]];
    ExampleEvidence();
    assert ExampleRanking[..1] == first && first[..0] == [];
    assert Present([], ExampleHits()) == [];
    assert Present(first, ExampleHits()) == [ExampleResults[0]];
    assert Present(ExampleRanking, ExampleHits()) == [ExampleResults[0]] + [ExampleResults[1]];
  }

  lemma ExampleFits(bytes: Hit -> nat)
    requires forall h :: bytes(h) == 100
    ensures Fit(ExampleResults, bytes) == ExampleResults
  {
    var first := [ExampleResults[0]];
    assert ExampleResults[..1] == first && first[..0] == [];
    var a, b := ExampleResults[0], ExampleResults[1];
    assert FitWith([], bytes) == ([], BUDGET);
    assert Admitted(a, BUDGET, bytes) == Some(a) && Append([], Some(a)) == first;
    assert FitWith(first, bytes) == (first, BUDGET - 100);
    assert Admitted(b, BUDGET - 100, bytes) == Some(b) && Append(first, Some(b)) == ExampleResults;
  }

  lemma ExampleOutOfOrder()
    ensures !InOrder(ExampleResults)
  {
    SquareBelow(1.0 / 61.0);
    assert ExampleResults[0].ranked == ExampleRanking[0] == Ranked(Memory("a"), 1.0 / 61.0);
    assert ExampleResults[1].ranked == ExampleRanking[1] == Ranked(Chunk("b", "d"), 1.0 / 61.0);
    assert Similarity(ExampleResults[0]) < Similarity(ExampleResults[1]);
  }

  lemma ExampleIsRetrieved()
    ensures Retrieved(OneMemory, [], OneChunk, []) && Consistent(Gather(OneMemory, [], OneChunk, []))
  {
    ExampleEvidence();
  }

  /** The response of that search lists the memory first and reports it as less similar. */
  lemma MemoryFirstReportsLess(ranked: seq<Ranked>, bytes: Hit -> nat)
    requires IsRanking(Gather(OneMemory, [], OneChunk, []), ranked) && forall h :: bytes(h) == 100
    ensures Retrieved(OneMemory, [], OneChunk, []) && Consistent(Gather(OneMemory, [], OneChunk, []))
    ensures Hydrates(Selection(ranked, 10, false), ExampleHits())
    ensures !InOrder(Fit(Present(Selection(ranked, 10, false), ExampleHits()), bytes))
  {
    ExampleIsRetrieved();
    ExampleIsRanked(ranked);
    ExampleHydrates();
    ExamplePresent();
    ExampleFits(bytes);
    ExampleOutOfOrder();
  }

  lemma ExampleHydrates()
    ensures Hydrates(Take(ExampleRanking, 10), ExampleHits())
  {
    ExampleEvidence();
  }
}
