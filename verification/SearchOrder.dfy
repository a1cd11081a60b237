/** How the places in the four retrievals decide the fused order. */
module SearchOrder {
  import opened SearchRanking

  /** The weight of a place is the reciprocal of sixty plus the place, so an earlier place weighs more. */
  lemma WeightIs(r: nat, s: nat)
    ensures Weight(r) * (60.0 + r as real) == 1.0
    ensures r < s <==> Weight(r) > Weight(s)
  {
    if r < s { Reciprocals(60.0 + r as real, 60.0 + s as real); }
    if s < r { Reciprocals(60.0 + s as real, 60.0 + r as real); }
  }

  lemma Reciprocals(a: real, b: real)
    requires 0.0 < a < b
    ensures 1.0 / a > 1.0 / b
  {
    assert (1.0 / b) * a < (1.0 / b) * b == 1.0;
  }

  /** No candidate twice in one retrieval. */
  ghost predicate MentionsOnce(evidence: seq<Evidence>) {
    forall i, j | 0 <= i < j < |evidence| :: Id(evidence[i].candidate) != Id(evidence[j].candidate)
  }

  /** A retrieval that lists the candidate once scores it by that place alone. */
  lemma {:induction false} ScoreOfMention(evidence: seq<Evidence>, k: nat)
    requires MentionsOnce(evidence) && k < |evidence|
    ensures Score(evidence, Id(evidence[k].candidate)) == Weight(evidence[k].rank)
  {
    var n := |evidence| - 1;
    if k < n {
      ScoreOfMention(evidence[..n], k);
    } else {
      MentionedIff(evidence[..n], Id(evidence[n].candidate));
    }
  }

  // ---- one retrieval alone ------------------------------------------------------------------------

  /** Candidates in order, with the weights of their places. */
  function InOrder(candidates: seq<Candidate>): seq<Ranked> {
    seq(|candidates|, i requires 0 <= i < |candidates| => Ranked(candidates[i], Weight(i + 1)))
  }

  lemma ScoreInOrder(candidates: seq<Candidate>, i: nat)
    requires MentionsOnce(Semantic(candidates)) && i < |candidates|
    ensures InOrder(candidates)[i].score == Score(Semantic(candidates), Id(candidates[i]))
  {
    ScoreOfMention(Semantic(candidates), i);
  }

  ghost predicate Lists(candidates: seq<Candidate>, c: Candidate) {
    exists e :: e in Semantic(candidates) && e.candidate == c
  }

  lemma ListsIff(candidates: seq<Candidate>, c: Candidate)
    ensures Lists(candidates, c) <==> c in candidates
  {
    if c in candidates {
      var i :| 0 <= i < |candidates| && candidates[i] == c;
      assert Semantic(candidates)[i] in Semantic(candidates);
    }
  }

  lemma InOrderElements(candidates: seq<Candidate>, x: Ranked)
    requires MentionsOnce(Semantic(candidates))
    ensures x in InOrder(candidates) <==>
              x.score == Score(Semantic(candidates), Id(x.candidate)) && Lists(candidates, x.candidate)
  {
    ListsIff(candidates, x.candidate);
    if x.candidate in candidates {
      var i :| 0 <= i < |candidates| && candidates[i] == x.candidate;
      ScoreInOrder(candidates, i);
      assert InOrder(candidates)[i] in InOrder(candidates);
    }
    if x in InOrder(candidates) {
      var i :| 0 <= i < |candidates| && InOrder(candidates)[i] == x;
      ScoreInOrder(candidates, i);
    }
  }

  lemma InOrderIsRanking(candidates: seq<Candidate>)
    requires MentionsOnce(Semantic(candidates))
    ensures IsRanking(Semantic(candidates), InOrder(candidates))
  {
    var r := InOrder(candidates);
    forall i, j | 0 <= i < j < |r| ensures Before(r[i], r[j]) { WeightIs(i + 1, j + 1); }
    forall x ensures x in r <==>
        x.score == Score(Semantic(candidates), Id(x.candidate))
        && exists e :: e in Semantic(candidates) && e.candidate == x.candidate
    {
      InOrderElements(candidates, x);
    }
  }

  /** When one semantic retrieval alone returns anything, its order is the ranking. */
  lemma SoleRetrievalKeepsItsOrder(memories: seq<Candidate>, chunks: seq<Candidate>, ranked: seq<Ranked>)
    requires memories == [] || chunks == []
    requires forall i, j | 0 <= i < j < |memories + chunks| :: Id((memories + chunks)[i]) != Id((memories + chunks)[j])
    requires IsRanking(Gather(memories, [], chunks, []), ranked)
    ensures |ranked| == |memories + chunks|
    ensures forall i | 0 <= i < |ranked| :: ranked[i].candidate == (memories + chunks)[i]
  {
    var all := memories + chunks;
    assert Gather(memories, [], chunks, []) == Semantic(all);
    InOrderIsRanking(all);
    RankingIsAFunctionOfEvidence(Semantic(all), Semantic(all), ranked, InOrder(all));
  }

  // ---- several retrievals -------------------------------------------------------------------------

  /** The first candidate is better placed in the retrieval, if the retrieval mentions either. */
  ghost predicate Better(evidence: seq<Evidence>, a: string, b: string) {
    forall f | f in evidence && Id(f.candidate) == b ::
      exists e :: e in evidence && Id(e.candidate) == a && e.rank < f.rank
  }

  lemma BetterScores(evidence: seq<Evidence>, a: string, b: string)
    requires MentionsOnce(evidence) && Better(evidence, a, b)
    ensures if Mentioned(evidence, a) then Score(evidence, a) > Score(evidence, b)
            else Score(evidence, a) == Score(evidence, b) == 0.0
  {
    MentionedIff(evidence, a);
    MentionedIff(evidence, b);
    if f :| f in evidence && Id(f.candidate) == b {
      var e :| e in evidence && Id(e.candidate) == a && e.rank < f.rank;
      var i :| 0 <= i < |evidence| && evidence[i] == e;
      var j :| 0 <= j < |evidence| && evidence[j] == f;
      ScoreOfMention(evidence, i);
      ScoreOfMention(evidence, j);
      WeightIs(e.rank, f.rank);
    }
  }

  /** A candidate that is better placed in every retrieval that mentions either of the two comes before the other. */
  lemma BetterPlacedComesFirst(semanticMemories: seq<Candidate>, lexicalMemories: seq<Evidence>,
                               semanticChunks: seq<Candidate>, lexicalChunks: seq<Evidence>, ranked: seq<Ranked>,
                               i: nat, j: nat)
    requires IsRanking(Gather(semanticMemories, lexicalMemories, semanticChunks, lexicalChunks), ranked)
    requires i < |ranked| && j < |ranked|
    requires var a, b := Id(ranked[i].candidate), Id(ranked[j].candidate);
             && MentionsOnce(Semantic(semanticMemories)) && Better(Semantic(semanticMemories), a, b)
             && MentionsOnce(lexicalMemories) && Better(lexicalMemories, a, b)
             && MentionsOnce(Semantic(semanticChunks)) && Better(Semantic(semanticChunks), a, b)
             && MentionsOnce(lexicalChunks) && Better(lexicalChunks, a, b)
    ensures i < j
  {
    var a, b := Id(ranked[i].candidate), Id(ranked[j].candidate);
    var m, n := Semantic(semanticMemories), Semantic(semanticChunks);
    var all := Gather(semanticMemories, lexicalMemories, semanticChunks, lexicalChunks);
    BetterScores(m, a, b);
    BetterScores(lexicalMemories, a, b);
    BetterScores(n, a, b);
    BetterScores(lexicalChunks, a, b);
    FourScores(m, lexicalMemories, n, lexicalChunks, a);
    FourScores(m, lexicalMemories, n, lexicalChunks, b);
    assert ranked[i] in ranked && ranked[j] in ranked;
    MentionedIff(all, a);
    assert Score(all, a) > Score(all, b);
    if j < i { BeforeIsStrictTotal(ranked[j], ranked[i], ranked[j]); }
  }

  lemma FourScores(a: seq<Evidence>, b: seq<Evidence>, c: seq<Evidence>, d: seq<Evidence>, id: string)
    ensures Score(a + b + c + d, id) == Score(a, id) + Score(b, id) + Score(c, id) + Score(d, id)
  {
    ScoreConcat(a + b + c, d, id);
    ScoreConcat(a + b, c, id);
    ScoreConcat(a, b, id);
  }

  // ---- ids ----------------------------------------------------------------------------------------

  /** A memory and a chunk never share an id, even when they are stored under the same one. */
  lemma IdsIdentify(a: Candidate, b: Candidate)
    requires Id(a) == Id(b)
    ensures a.Memory? == b.Memory?
    ensures if a.Memory? then a == b else a.stableId == b.stableId
  {
    assert Id(a)[0] == Id(b)[0] && Id(a)[2..] == Id(b)[2..];
  }

  // ---- ties ---------------------------------------------------------------------------------------

  /** The strings agree on k characters, and then the first ends or has the smaller character. */
  predicate SmallerAt(a: string, b: string, k: nat) {
    && k <= |a| && k < |b| && a[..k] == b[..k]
    && (k < |a| ==> a[k] < b[k])
  }

  lemma {:induction false} StringLessIff(a: string, b: string)
    ensures StringLess(a, b) <==> exists k: nat :: SmallerAt(a, b, k)
  {
    if b != [] && (a == [] || a[0] < b[0]) {
      assert SmallerAt(a, b, 0);
    } else if a != [] && b != [] && a[0] == b[0] {
      StringLessIff(a[1..], b[1..]);
      if k: nat :| SmallerAt(a[1..], b[1..], k) {
        assert a[..k + 1] == [a[0]] + a[1..][..k] && b[..k + 1] == [b[0]] + b[1..][..k];
        assert SmallerAt(a, b, k + 1);
      }
      if k: nat :| SmallerAt(a, b, k) {
        assert a[1..][..k - 1] == a[..k][1..] && b[1..][..k - 1] == b[..k][1..];
        assert SmallerAt(a[1..], b[1..], k - 1);
      }
    } else {
      assert forall k: nat | 0 < k <= |a| && k <= |b| :: a[..k][0] == a[0] && b[..k][0] == b[0];
    }
  }

  /** Of candidates with the same score, memories come before chunks, and otherwise the smaller id comes first. */
  lemma TiesBreakByKindAndId(evidence: seq<Evidence>, ranked: seq<Ranked>, i: nat, j: nat)
    requires IsRanking(evidence, ranked) && i < |ranked| && j < |ranked| && ranked[i].score == ranked[j].score
    ensures ranked[i].candidate.Memory? && ranked[j].candidate.Chunk? ==> i < j
    ensures forall k: nat | ranked[i].candidate.Memory? == ranked[j].candidate.Memory?
                            && SmallerAt(Id(ranked[i].candidate), Id(ranked[j].candidate), k) :: i < j
  {
    if j < i { BeforeIsStrictTotal(ranked[j], ranked[i], ranked[j]); }
    StringLessIff(Id(ranked[i].candidate), Id(ranked[j].candidate));
    BeforeIsStrictTotal(ranked[i], ranked[i], ranked[i]);
  }
}
