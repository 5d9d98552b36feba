/** What decides the order of search results, score by score. */
module RankingAnswers {
  import opened Prelude
  import opened HybridRanking

  // ---------- who takes part ----------

  /** A row takes part when it matches, or when nothing is asked by words, or dense search may find it. */
  lemma {:induction false} ScoredExact(rows: seq<Row>, noTokens: bool, denseEnabled: bool, row: Row)
    ensures row in Scored(rows, noTokens, denseEnabled) <==> row in rows && (row.lexical > 0 || noTokens || denseEnabled)
  {
    if |rows| != 0 {
      ScoredExact(rows[..|rows| - 1], noTokens, denseEnabled, row);
      assert rows == rows[..|rows| - 1] + [rows[|rows| - 1]];
    }
  }

  /** They keep their order, and none is doubled. */
  lemma {:induction false} ScoredDistinct(rows: seq<Row>, noTokens: bool, denseEnabled: bool)
    requires DistinctRows(rows)
    ensures DistinctRows(Scored(rows, noTokens, denseEnabled))
  {
    if |rows| != 0 {
      var n := |rows| - 1;
      ScoredDistinct(rows[..n], noTokens, denseEnabled);
      var rest := Scored(rows[..n], noTokens, denseEnabled);
      forall i | 0 <= i < |rest| ensures rest[i].id != rows[n].id {
        ScoredExact(rows[..n], noTokens, denseEnabled, rest[i]);
        var k :| 0 <= k < n && rows[..n][k] == rest[i];
        assert rows[k] == rest[i];
      }
    }
  }

  // ---------- lexical order ----------

  /** More matches first; among equals the lower layer, and then the lower id. */
  predicate MatchesBetter(a: Row, b: Row) {
    a.lexical > b.lexical || (a.lexical == b.lexical && (a.layer < b.layer || (a.layer == b.layer && a.id < b.id)))
  }

  /** Without dense search results come by how well they match. */
  lemma LexicalOrder(scored: seq<Row>, mode: Mode, vectors: seq<Vector>, a: nat, b: nat)
    requires DistinctRows(scored) && mode != Hybrid && a < |scored| && b < |scored| && MatchesBetter(scored[a], scored[b])
    ensures ComesBefore(Ranking(scored, mode, vectors), scored[a].id, scored[b].id)
  {
    var entries := LexicalEntries(scored);
    AheadComesBefore(entries, entries[a], entries[b]);
  }

  /** With it, that decides the lexical rank. */
  lemma LexicalRank(scored: seq<Row>, a: nat, b: nat)
    requires DistinctRows(scored) && a < |scored| && b < |scored| && MatchesBetter(scored[a], scored[b])
    ensures var ranks := Ranks(Sorted(LexicalEntries(scored)));
      scored[a].id in ranks && scored[b].id in ranks && ranks[scored[a].id] < ranks[scored[b].id]
  {
    var entries := LexicalEntries(scored);
    RankFollowsOrder(entries, entries[a], entries[b]);
  }

  // ---------- dense order ----------

  predicate HasVector(vectors: seq<Vector>, memory: nat) {
    exists i :: 0 <= i < |vectors| && vectors[i].memory == memory
  }

  predicate BestOf(vectors: seq<Vector>, memory: nat, best: real) {
    && best >= -1.0
    && (forall i :: 0 <= i < |vectors| && vectors[i].memory == memory ==> vectors[i].score <= best)
    && (best == -1.0 || exists i :: 0 <= i < |vectors| && vectors[i].memory == memory && vectors[i].score == best)
  }

  /** A memory's similarity is the best of its vectors, and at least -1. */
  lemma {:induction false} DenseScoreExact(vectors: seq<Vector>, memory: nat)
    ensures memory in DenseScores(vectors) <==> HasVector(vectors, memory)
    ensures memory in DenseScores(vectors) ==> BestOf(vectors, memory, DenseScores(vectors)[memory])
  {
    if |vectors| != 0 {
      var n := |vectors| - 1;
      DenseScoreExact(vectors[..n], memory);
      if i :| 0 <= i < n && vectors[..n][i].memory == memory {
        assert vectors[i].memory == memory;
      }
      if vectors[n].memory == memory {
        NewBest(vectors, memory);
      } else if memory in DenseScores(vectors) {
        SameBest(vectors, memory, DenseScores(vectors)[memory]);
      }
    }
  }

  lemma SameBest(vectors: seq<Vector>, memory: nat, best: real)
    requires |vectors| > 0 && vectors[|vectors| - 1].memory != memory && BestOf(vectors[..|vectors| - 1], memory, best)
    ensures BestOf(vectors, memory, best)
  {
    var earlier := vectors[..|vectors| - 1];
    if i :| 0 <= i < |earlier| && earlier[i].memory == memory && earlier[i].score == best {
      assert vectors[i] == earlier[i];
    }
    forall i | 0 <= i < |vectors| && vectors[i].memory == memory ensures vectors[i].score <= best {
      assert vectors[i] == earlier[i];
    }
  }

  lemma {:induction false} NewBest(vectors: seq<Vector>, memory: nat)
    requires |vectors| > 0 && vectors[|vectors| - 1].memory == memory
    requires memory in DenseScores(vectors[..|vectors| - 1]) ==>
      BestOf(vectors[..|vectors| - 1], memory, DenseScores(vectors[..|vectors| - 1])[memory])
    requires memory !in DenseScores(vectors[..|vectors| - 1]) ==> !HasVector(vectors[..|vectors| - 1], memory)
    ensures memory in DenseScores(vectors) && BestOf(vectors, memory, DenseScores(vectors)[memory])
  {
    var n := |vectors| - 1;
    var earlier := vectors[..n];
    var best := DenseScores(vectors)[memory];
    forall i | 0 <= i < |vectors| && vectors[i].memory == memory ensures vectors[i].score <= best {
      if i < n {
        assert earlier[i] == vectors[i];
        assert HasVector(earlier, memory);
      }
    }
    if best != -1.0 && best != vectors[n].score {
      var i :| 0 <= i < |earlier| && earlier[i].memory == memory && earlier[i].score == best;
      assert vectors[i] == earlier[i];
    }
  }

  lemma {:induction false} DenseEntryOf(rows: seq<Row>, scores: map<nat, real>, i: nat)
    requires i < |rows| && rows[i].id in scores
    ensures Entry(scores[rows[i].id], 0, rows[i].id) in DenseEntries(rows, scores)
  {
    var n := |rows| - 1;
    if i < n {
      DenseEntryOf(rows[..n], scores, i);
      assert rows[..n][i] == rows[i];
    }
  }

  /** The more similar of two rows with vectors has the better dense rank, and of equals the lower id. */
  lemma {:induction false} DenseRank(scored: seq<Row>, vectors: seq<Vector>, a: nat, b: nat)
    requires DistinctRows(scored) && a < |scored| && b < |scored|
    requires HasVector(vectors, scored[a].id) && HasVector(vectors, scored[b].id)
    ensures var scores := DenseScores(vectors);
      var ranks := Ranks(Sorted(DenseEntries(scored, scores)));
      var x, y := scored[a].id, scored[b].id;
      && x in scores && BestOf(vectors, x, scores[x]) && y in scores && BestOf(vectors, y, scores[y])
      && x in ranks && y in ranks
      && (scores[x] > scores[y] || (scores[x] == scores[y] && x < y) ==> ranks[x] < ranks[y])
  {
    var scores := DenseScores(vectors);
    var x, y := scored[a].id, scored[b].id;
    var entries := DenseEntries(scored, scores);
    DenseScoreExact(vectors, x);
    DenseScoreExact(vectors, y);
    DenseEntriesDistinct(scored, scores);
    DenseEntryOf(scored, scores, a);
    DenseEntryOf(scored, scores, b);
    EntryRanked(entries, Entry(scores[x], 0, x));
    EntryRanked(entries, Entry(scores[y], 0, y));
    if scores[x] > scores[y] || (scores[x] == scores[y] && x < y) {
      RankFollowsOrder(entries, Entry(scores[x], 0, x), Entry(scores[y], 0, y));
    }
  }

  // ---------- fused order ----------

  /** What a rank is worth: 1 / (60 + rank). */
  lemma ReciprocalExact(rank: nat)
    ensures Reciprocal(rank) * (60 + rank) as real == 1.0
  {
  }

  /** A row is worth the sum of its two ranks, and ranks behind all others where it is not in one of the orders. */
  function Worth(lexical: map<nat, nat>, dense: map<nat, nat>, id: nat, n: nat): real {
    Reciprocal(if id in lexical then lexical[id] else n + 1) + Reciprocal(if id in dense then dense[id] else n + 1)
  }

  /** In hybrid search the row that is worth more comes first, and of equals the lower layer, then the lower id. */
  lemma {:induction false} HybridOrder(scored: seq<Row>, vectors: seq<Vector>, a: nat, b: nat)
    requires DistinctRows(scored) && a < |scored| && b < |scored|
    requires var lexical := Ranks(Sorted(LexicalEntries(scored)));
      var dense := Ranks(Sorted(DenseEntries(scored, DenseScores(vectors))));
      var x, y := Worth(lexical, dense, scored[a].id, |scored|), Worth(lexical, dense, scored[b].id, |scored|);
      x > y || (x == y && (scored[a].layer < scored[b].layer
                           || (scored[a].layer == scored[b].layer && scored[a].id < scored[b].id)))
    ensures ComesBefore(Ranking(scored, Hybrid, vectors), scored[a].id, scored[b].id)
  {
    var lexical := Ranks(Sorted(LexicalEntries(scored)));
    var dense := Ranks(Sorted(DenseEntries(scored, DenseScores(vectors))));
    var entries := FusedEntries(scored, lexical, dense);
    AheadComesBefore(entries, entries[a], entries[b]);
  }

  // ---------- which order ----------

  /** A stored vector counts when its memory takes part. */
  lemma {:induction false} RelevantExact(vectors: seq<Vector>, scored: seq<Row>, v: Vector)
    ensures v in Relevant(vectors, scored) <==> v in vectors && exists i :: 0 <= i < |scored| && scored[i].id == v.memory
  {
    if |vectors| != 0 {
      RelevantExact(vectors[..|vectors| - 1], scored, v);
      assert vectors == vectors[..|vectors| - 1] + [vectors[|vectors| - 1]];
    }
  }

  /** Search is hybrid exactly when it is asked to be, there is a profile, and some vector counts; else it says what is missing. */
  lemma ModeExact(denseEnabled: bool, hasProfile: bool, stored: seq<Vector>, scored: seq<Row>)
    ensures var mode := ModeOf(denseEnabled, hasProfile, Relevant(stored, scored));
      && (mode == Hybrid <==>
            denseEnabled && hasProfile
            && exists v, i :: v in stored && 0 <= i < |scored| && scored[i].id == v.memory)
      && (mode == LexicalNoProfile <==> denseEnabled && !hasProfile)
      && (mode == Lexical <==> !denseEnabled)
  {
    var relevant := Relevant(stored, scored);
    if |relevant| > 0 {
      RelevantExact(stored, scored, relevant[0]);
    }
    if v, i :| v in stored && 0 <= i < |scored| && scored[i].id == v.memory {
      RelevantExact(stored, scored, v);
    }
  }

  // ---------- what is returned ----------

  /** Between 1 and 50 results are asked for, as far as there are rows, and they are the first of the ranking. */
  lemma ResultsExact(scored: seq<Row>, mode: Mode, vectors: seq<Vector>, limit: int)
    requires DistinctRows(scored)
    ensures var ranking := Ranking(scored, mode, vectors);
      var results := FirstIds(ranking, ClampLimit(limit));
      && |ranking| == |scored|
      && |results| <= |scored| && |results| <= 50
      && (limit >= 1 ==> |results| <= limit)
      && (|results| == |scored| || |results| == 50 || |results| == limit || (limit < 1 && |results| == 1))
      && forall i :: 0 <= i < |results| ==> results[i] == ranking[i].id
  {
    RankingPermutes(scored, mode, vectors);
    assert |EntryIds(Ranking(scored, mode, vectors))| == |RowIds(scored)| by {
      assert |multiset(EntryIds(Ranking(scored, mode, vectors)))| == |multiset(RowIds(scored))|;
    }
  }
}
