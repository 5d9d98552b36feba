/**
 Ranking search results: lexical order, dense order, and their reciprocal rank fusion, as
 `V11Retriever.search` computes them.  Reals stand for floating point.
 */
module HybridRanking {
  import opened Prelude

  /** A memory row that passed the filters: its id, layer order and lexical score. */
  datatype Row = Row(id: nat, layer: nat, lexical: nat)

  /** A stored vector of a memory and its similarity to the query. */
  datatype Vector = Vector(memory: nat, score: real)

  const RRF_K := 60

  // ---------- sorting by descending value, then layer, then id ----------

  datatype Entry = Entry(value: real, layer: nat, id: nat)

  predicate Ahead(a: Entry, b: Entry) {
    a.value > b.value || (a.value == b.value && (a.layer < b.layer || (a.layer == b.layer && a.id < b.id)))
  }

  /** `sorted(..., key=(-value, layer, id))`. */
  function Sorted(entries: seq<Entry>): seq<Entry> {
    if |entries| == 0 then [] else Insert(entries[0], Sorted(entries[1..]))
  }

  function Insert(entry: Entry, sorted: seq<Entry>): seq<Entry> {
    if |sorted| == 0 then [entry]
    else if Ahead(sorted[0], entry) then [sorted[0]] + Insert(entry, sorted[1..])
    else [entry] + sorted
  }

  predicate DistinctIds(entries: seq<Entry>) {
    forall i, j :: 0 <= i < j < |entries| ==> entries[i].id != entries[j].id
  }

  /** Strictly in order: a total order, since ids are distinct. */
  predicate Ordered(entries: seq<Entry>) {
    forall i, j :: 0 <= i < j < |entries| ==> Ahead(entries[i], entries[j])
  }

  lemma {:induction false} InsertMembers(entry: Entry, sorted: seq<Entry>)
    ensures multiset(Insert(entry, sorted)) == multiset(sorted) + multiset{entry}
  {
    if |sorted| != 0 {
      assert sorted == [sorted[0]] + sorted[1..];
      if Ahead(sorted[0], entry) {
        InsertMembers(entry, sorted[1..]);
      }
    }
  }

  lemma {:induction false} SortedMembers(entries: seq<Entry>)
    ensures multiset(Sorted(entries)) == multiset(entries)
  {
    if |entries| != 0 {
      SortedMembers(entries[1..]);
      InsertMembers(entries[0], Sorted(entries[1..]));
      assert entries == [entries[0]] + entries[1..];
    }
  }

  lemma {:induction false} InsertOrdered(entry: Entry, sorted: seq<Entry>)
    requires Ordered(sorted) && forall i :: 0 <= i < |sorted| ==> sorted[i].id != entry.id
    ensures Ordered(Insert(entry, sorted))
  {
    if |sorted| != 0 {
      if Ahead(sorted[0], entry) {
        var rest := Insert(entry, sorted[1..]);
        InsertOrdered(entry, sorted[1..]);
        InsertMembers(entry, sorted[1..]);
        forall j | 0 <= j < |rest| ensures Ahead(sorted[0], rest[j]) {
          assert rest[j] in multiset(rest);
          assert rest[j] == entry || rest[j] in sorted[1..];
        }
      } else {
        forall j | 0 <= j < |sorted| ensures Ahead(entry, sorted[j]) {
          assert j > 0 ==> Ahead(sorted[0], sorted[j]);
        }
      }
    }
  }

  /** The sorted list is an ordered permutation. */
  lemma {:induction false} SortedOrdered(entries: seq<Entry>)
    requires DistinctIds(entries)
    ensures Ordered(Sorted(entries)) && |Sorted(entries)| == |entries|
    ensures multiset(Sorted(entries)) == multiset(entries)
  {
    SortedMembers(entries);
    assert |Sorted(entries)| == |multiset(Sorted(entries))| == |multiset(entries)|;
    if |entries| != 0 {
      SortedOrdered(entries[1..]);
      var rest := Sorted(entries[1..]);
      forall i | 0 <= i < |rest| ensures rest[i].id != entries[0].id {
        assert rest[i] in multiset(rest);
        var k :| 0 <= k < |entries[1..]| && entries[1..][k] == rest[i];
        assert entries[k + 1] == rest[i];
      }
      InsertOrdered(entries[0], rest);
    }
  }

  // ---------- ranks ----------

  /** `{id: index for index, ... in enumerate(sorted, start=1)}`. */
  function Ranks(sorted: seq<Entry>): map<nat, nat> {
    if |sorted| == 0 then map[]
    else Ranks(sorted[..|sorted| - 1])[sorted[|sorted| - 1].id := |sorted|]
  }

  lemma {:induction false} RanksAt(sorted: seq<Entry>, i: nat)
    requires DistinctIds(sorted) && i < |sorted|
    ensures sorted[i].id in Ranks(sorted) && Ranks(sorted)[sorted[i].id] == i + 1
  {
    if i < |sorted| - 1 {
      RanksAt(sorted[..|sorted| - 1], i);
    }
  }

  lemma {:induction false} RankedAre(sorted: seq<Entry>, id: nat)
    requires id in Ranks(sorted)
    ensures 1 <= Ranks(sorted)[id] <= |sorted| && sorted[Ranks(sorted)[id] - 1].id == id
  {
    if sorted[|sorted| - 1].id != id {
      RankedAre(sorted[..|sorted| - 1], id);
    }
  }

  lemma OrderedDistinct(sorted: seq<Entry>, entries: seq<Entry>)
    requires DistinctIds(entries) && Ordered(sorted) && multiset(sorted) == multiset(entries)
    ensures DistinctIds(sorted)
    ensures forall e :: e in sorted <==> e in entries
  {
    forall e ensures e in sorted <==> e in entries {
      assert e in multiset(sorted) <==> e in multiset(entries);
    }
    forall i, j | 0 <= i < j < |sorted| ensures sorted[i].id != sorted[j].id {
      assert sorted[i] in entries && sorted[j] in entries;
      var k :| 0 <= k < |entries| && entries[k] == sorted[i];
      var l :| 0 <= l < |entries| && entries[l] == sorted[j];
      assert Ahead(sorted[i], sorted[j]);
      assert k != l;
    }
  }

  /** Some id has this rank. */
  ghost predicate IsRank(ranks: map<nat, nat>, k: nat) {
    exists id :: id in ranks && ranks[id] == k
  }

  lemma {:induction false} SortedIsOrdered(entries: seq<Entry>)
    requires DistinctIds(entries)
    ensures DistinctIds(Sorted(entries)) && |Sorted(entries)| == |entries|
    ensures forall e :: e in Sorted(entries) <==> e in entries
  {
    SortedOrdered(entries);
    OrderedDistinct(Sorted(entries), entries);
  }

  lemma {:induction false} EntryRanked(entries: seq<Entry>, e: Entry)
    requires DistinctIds(entries) && e in entries
    ensures e.id in Ranks(Sorted(entries)) && 1 <= Ranks(Sorted(entries))[e.id] <= |entries|
  {
    SortedIsOrdered(entries);
    var sorted := Sorted(entries);
    var i :| 0 <= i < |sorted| && sorted[i] == e;
    RanksAt(sorted, i);
  }

  lemma {:induction false} RankOccurs(sorted: seq<Entry>, k: nat)
    requires DistinctIds(sorted) && 1 <= k <= |sorted|
    ensures IsRank(Ranks(sorted), k)
  {
    RanksAt(sorted, k - 1);
  }

  lemma {:induction false} RanksDiffer(sorted: seq<Entry>, a: nat, b: nat)
    requires a in Ranks(sorted) && b in Ranks(sorted) && a != b
    ensures Ranks(sorted)[a] != Ranks(sorted)[b]
  {
    RankedAre(sorted, a);
    RankedAre(sorted, b);
  }

  /** Ranks are a bijection between the ids and 1..n. */
  lemma {:induction false} RanksBijective(entries: seq<Entry>)
    requires DistinctIds(entries)
    ensures forall e :: e in entries ==> e.id in Ranks(Sorted(entries)) && 1 <= Ranks(Sorted(entries))[e.id] <= |entries|
    ensures forall a, b :: a in Ranks(Sorted(entries)) && b in Ranks(Sorted(entries)) && a != b ==>
      Ranks(Sorted(entries))[a] != Ranks(Sorted(entries))[b]
    ensures forall k: nat :: 1 <= k <= |entries| ==> IsRank(Ranks(Sorted(entries)), k)
  {
    var sorted := Sorted(entries);
    SortedIsOrdered(entries);
    forall e | e in entries ensures e.id in Ranks(sorted) && 1 <= Ranks(sorted)[e.id] <= |entries| {
      EntryRanked(entries, e);
    }
    forall a, b | a in Ranks(sorted) && b in Ranks(sorted) && a != b ensures Ranks(sorted)[a] != Ranks(sorted)[b] {
      RanksDiffer(sorted, a, b);
    }
    forall k: nat | 1 <= k <= |entries| ensures IsRank(Ranks(sorted), k) {
      RankOccurs(sorted, k);
    }
  }

  /** A better entry has the smaller rank. */
  lemma {:induction false} RankFollowsOrder(entries: seq<Entry>, a: Entry, b: Entry)
    requires DistinctIds(entries) && a in entries && b in entries && Ahead(a, b)
    ensures var ranks := Ranks(Sorted(entries)); a.id in ranks && b.id in ranks && ranks[a.id] < ranks[b.id]
  {
    var sorted := Sorted(entries);
    SortedOrdered(entries);
    OrderedDistinct(sorted, entries);
    assert a in sorted && b in sorted;
    var i :| 0 <= i < |sorted| && sorted[i] == a;
    var j :| 0 <= j < |sorted| && sorted[j] == b;
    RanksAt(sorted, i);
    RanksAt(sorted, j);
    if j < i {
      assert false;
    }
  }

  // ---------- search ----------

  function ClampLimit(limit: int): (r: nat)
    ensures 1 <= r <= 50
  {
    if limit < 1 then 1 else if limit > 50 then 50 else limit
  }

  /** Rows that take part: those that match, or all without query tokens or with dense search. */
  function Scored(rows: seq<Row>, noTokens: bool, denseEnabled: bool): seq<Row> {
    if |rows| == 0 then []
    else
      var last := rows[|rows| - 1];
      Scored(rows[..|rows| - 1], noTokens, denseEnabled)
      + if last.lexical > 0 || noTokens || denseEnabled then [last] else []
  }

  function LexicalEntries(rows: seq<Row>): (r: seq<Entry>)
    ensures |r| == |rows| && forall i :: 0 <= i < |r| ==> r[i].id == rows[i].id
  {
    seq(|rows|, i requires 0 <= i < |rows| => Entry(rows[i].lexical as real, rows[i].layer, rows[i].id))
  }

  /** The stored vectors the query returns: those of rows that take part. */
  function Relevant(vectors: seq<Vector>, scored: seq<Row>): seq<Vector> {
    if |vectors| == 0 then []
    else
      var last := vectors[|vectors| - 1];
      Relevant(vectors[..|vectors| - 1], scored)
      + if exists i :: 0 <= i < |scored| && scored[i].id == last.memory then [last] else []
  }

  /** `dense_score`: the best similarity of each memory, never below -1. */
  function DenseScores(vectors: seq<Vector>): map<nat, real> {
    if |vectors| == 0 then map[]
    else
      var last, rest := vectors[|vectors| - 1], DenseScores(vectors[..|vectors| - 1]);
      rest[last.memory := Max(if last.memory in rest then rest[last.memory] else -1.0, last.score)]
  }

  function Max(a: real, b: real): real {
    if a < b then b else a
  }

  /** The entries of `dense_score.items()`, one per key, in the order of the rows. */
  function DenseEntries(rows: seq<Row>, scores: map<nat, real>): seq<Entry> {
    if |rows| == 0 then []
    else
      var last := rows[|rows| - 1];
      DenseEntries(rows[..|rows| - 1], scores)
      + if last.id in scores then [Entry(scores[last.id], 0, last.id)] else []
  }

  function RankOf(ranks: map<nat, nat>, id: nat, count: nat): nat {
    if id in ranks then ranks[id] else count + 1
  }

  function Reciprocal(rank: nat): real {
    1.0 / (RRF_K + rank) as real
  }

  function Fused(lexical: map<nat, nat>, dense: map<nat, nat>, id: nat, count: nat): real {
    Reciprocal(RankOf(lexical, id, count)) + Reciprocal(RankOf(dense, id, count))
  }

  function FusedEntries(rows: seq<Row>, lexical: map<nat, nat>, dense: map<nat, nat>): (r: seq<Entry>)
    ensures |r| == |rows| && forall i :: 0 <= i < |r| ==> r[i].id == rows[i].id
  {
    seq(|rows|, i requires 0 <= i < |rows| => Entry(Fused(lexical, dense, rows[i].id, |rows|), rows[i].layer, rows[i].id))
  }

  datatype Mode = Lexical | LexicalNoProfile | LexicalNoVectors | Hybrid

  function ModeOf(denseEnabled: bool, hasProfile: bool, vectors: seq<Vector>): Mode {
    if !denseEnabled then Lexical
    else if !hasProfile then LexicalNoProfile
    else if |vectors| == 0 then LexicalNoVectors
    else Hybrid
  }

  /** All participating rows, best first. */
  function Ranking(scored: seq<Row>, mode: Mode, vectors: seq<Vector>): seq<Entry> {
    var lexical := Sorted(LexicalEntries(scored));
    if mode != Hybrid then lexical
    else
      var dense := Sorted(DenseEntries(scored, DenseScores(vectors)));
      Sorted(FusedEntries(scored, Ranks(lexical), Ranks(dense)))
  }

  function FirstIds(ranking: seq<Entry>, limit: nat): seq<nat> {
    var n := if |ranking| < limit then |ranking| else limit;
    seq(n, i requires 0 <= i < n => ranking[i].id)
  }

  method FillRanks(sorted: seq<Entry>) returns (ranks: map<nat, nat>)
    ensures ranks == Ranks(sorted)
  {
    ranks := map[];
    for i := 0 to |sorted|
      invariant ranks == Ranks(sorted[..i])
    {
      assert sorted[..i + 1][..i] == sorted[..i];
      ranks := ranks[sorted[i].id := i + 1];
    }
    assert sorted[..|sorted|] == sorted;
  }

  method Search(rows: seq<Row>, noTokens: bool, denseEnabled: bool, hasProfile: bool, stored: seq<Vector>, limit: int)
    returns (results: seq<nat>, mode: Mode)
    ensures var scored := Scored(rows, noTokens, denseEnabled);
      && mode == ModeOf(denseEnabled, hasProfile, Relevant(stored, scored))
      && results == FirstIds(Ranking(scored, mode, Relevant(stored, scored)), ClampLimit(limit))
  {
    var scored: seq<Row> := [];
    for i := 0 to |rows|
      invariant scored == Scored(rows[..i], noTokens, denseEnabled)
    {
      assert rows[..i + 1][..i] == rows[..i];
      if rows[i].lexical > 0 || noTokens || denseEnabled {
        scored := scored + [rows[i]];
      }
    }
    assert rows[..|rows|] == rows;
    var lexicalSorted := Sorted(LexicalEntries(scored));
    var lexicalRank := FillRanks(lexicalSorted);
    mode := if denseEnabled && !hasProfile then LexicalNoProfile else Lexical;
    var ordered := lexicalSorted;
    if denseEnabled && hasProfile {
      var vectors := Relevant(stored, scored);
      var denseScore: map<nat, real> := map[];
      for i := 0 to |vectors|
        invariant denseScore == DenseScores(vectors[..i])
      {
        assert vectors[..i + 1][..i] == vectors[..i];
        var best := if vectors[i].memory in denseScore then denseScore[vectors[i].memory] else -1.0;
        denseScore := denseScore[vectors[i].memory := Max(best, vectors[i].score)];
      }
      assert vectors[..|vectors|] == vectors;
      mode := LexicalNoVectors;
      if |vectors| > 0 {
        mode := Hybrid;
        var denseRank := FillRanks(Sorted(DenseEntries(scored, denseScore)));
        ordered := Sorted(FusedEntries(scored, lexicalRank, denseRank));
      }
    }
    results := FirstIds(ordered, ClampLimit(limit));
  }

  // ---------- soundness ----------

  predicate DistinctRows(rows: seq<Row>) {
    forall i, j :: 0 <= i < j < |rows| ==> rows[i].id != rows[j].id
  }

  function RowIds(rows: seq<Row>): seq<nat> {
    seq(|rows|, i requires 0 <= i < |rows| => rows[i].id)
  }

  function EntryIds(entries: seq<Entry>): seq<nat> {
    seq(|entries|, i requires 0 <= i < |entries| => entries[i].id)
  }

  lemma {:induction false} InsertIds(entry: Entry, sorted: seq<Entry>)
    ensures multiset(EntryIds(Insert(entry, sorted))) == multiset(EntryIds(sorted)) + multiset{entry.id}
  {
    if |sorted| == 0 {
      assert EntryIds([entry]) == [entry.id];
    } else {
      assert EntryIds(sorted) == [sorted[0].id] + EntryIds(sorted[1..]);
      if Ahead(sorted[0], entry) {
        InsertIds(entry, sorted[1..]);
        assert EntryIds(Insert(entry, sorted)) == [sorted[0].id] + EntryIds(Insert(entry, sorted[1..]));
      } else {
        assert EntryIds([entry] + sorted) == [entry.id] + EntryIds(sorted);
      }
    }
  }

  lemma {:induction false} SortedIds(entries: seq<Entry>)
    ensures multiset(EntryIds(Sorted(entries))) == multiset(EntryIds(entries))
  {
    if |entries| != 0 {
      SortedIds(entries[1..]);
      InsertIds(entries[0], Sorted(entries[1..]));
      assert EntryIds(entries) == [entries[0].id] + EntryIds(entries[1..]);
    }
  }

  /**
   The output is the first `limit` of a permutation of the participating rows, in whichever
   mode the search runs.
   */
  lemma RankingPermutes(scored: seq<Row>, mode: Mode, vectors: seq<Vector>)
    requires DistinctRows(scored)
    ensures var ranking := Ranking(scored, mode, vectors);
      Ordered(ranking) && multiset(EntryIds(ranking)) == multiset(RowIds(scored))
  {
    var lexical := LexicalEntries(scored);
    var dense := Sorted(DenseEntries(scored, DenseScores(vectors)));
    var entries := if mode != Hybrid then lexical else FusedEntries(scored, Ranks(Sorted(lexical)), Ranks(dense));
    SortedOrdered(entries);
    SortedIds(entries);
    assert EntryIds(entries) == RowIds(scored);
  }

  lemma ReciprocalFalls(a: nat, b: nat)
    requires a <= b
    ensures Reciprocal(a) >= Reciprocal(b)
    ensures a < b ==> Reciprocal(a) > Reciprocal(b)
  {
    var x, y := (RRF_K + a) as real, (RRF_K + b) as real;
    assert 1.0 / x - 1.0 / y == (y - x) / (x * y) by {
      assert x * y > 0.0;
      assert (1.0 / x - 1.0 / y) * (x * y) == y - x;
    }
    if a < b {
      assert (y - x) / (x * y) > 0.0;
    }
  }

  /** At least as well ranked in both orders, and better in one. */
  predicate Dominates(lexical: map<nat, nat>, dense: map<nat, nat>, a: nat, b: nat, n: nat) {
    && RankOf(lexical, a, n) <= RankOf(lexical, b, n) && RankOf(dense, a, n) <= RankOf(dense, b, n)
    && (RankOf(lexical, a, n) < RankOf(lexical, b, n) || RankOf(dense, a, n) < RankOf(dense, b, n))
  }

  ghost predicate ComesBefore(ranking: seq<Entry>, a: nat, b: nat) {
    exists i, j :: 0 <= i < j < |ranking| && ranking[i].id == a && ranking[j].id == b
  }

  lemma FusedDominates(lexical: map<nat, nat>, dense: map<nat, nat>, a: nat, b: nat, n: nat)
    requires Dominates(lexical, dense, a, b, n)
    ensures Fused(lexical, dense, a, n) > Fused(lexical, dense, b, n)
  {
    ReciprocalFalls(RankOf(lexical, a, n), RankOf(lexical, b, n));
    ReciprocalFalls(RankOf(dense, a, n), RankOf(dense, b, n));
  }

  lemma {:induction false} AheadComesBefore(entries: seq<Entry>, a: Entry, b: Entry)
    requires DistinctIds(entries) && a in entries && b in entries && Ahead(a, b)
    ensures ComesBefore(Sorted(entries), a.id, b.id)
  {
    RankFollowsOrder(entries, a, b);
    RankedAre(Sorted(entries), a.id);
    RankedAre(Sorted(entries), b.id);
  }

  /** Fusion is sound: a row that dominates another comes before it in the hybrid ranking. */
  lemma {:induction false} Dominance(scored: seq<Row>, vectors: seq<Vector>, a: nat, b: nat)
    requires DistinctRows(scored) && a < |scored| && b < |scored|
    requires Dominates(Ranks(Sorted(LexicalEntries(scored))), Ranks(Sorted(DenseEntries(scored, DenseScores(vectors)))),
                       scored[a].id, scored[b].id, |scored|)
    ensures ComesBefore(Ranking(scored, Hybrid, vectors), scored[a].id, scored[b].id)
  {
    var lexical := Ranks(Sorted(LexicalEntries(scored)));
    var dense := Ranks(Sorted(DenseEntries(scored, DenseScores(vectors))));
    FusedDominates(lexical, dense, scored[a].id, scored[b].id, |scored|);
    var entries := FusedEntries(scored, lexical, dense);
    AheadComesBefore(entries, entries[a], entries[b]);
  }

  lemma {:induction false} DenseEntriesDistinct(rows: seq<Row>, scores: map<nat, real>)
    requires DistinctRows(rows)
    ensures DistinctIds(DenseEntries(rows, scores))
    ensures forall k :: 0 <= k < |DenseEntries(rows, scores)| ==>
      exists i :: 0 <= i < |rows| && rows[i].id == DenseEntries(rows, scores)[k].id
    ensures |DenseEntries(rows, scores)| <= |rows|
  {
    if |rows| != 0 {
      var n := |rows| - 1;
      DenseEntriesDistinct(rows[..n], scores);
      var rest := DenseEntries(rows[..n], scores);
      forall k | 0 <= k < |rest| ensures exists i :: 0 <= i < n && rows[i].id == rest[k].id {
        var i :| 0 <= i < n && rows[..n][i].id == rest[k].id;
        assert rows[i].id == rest[k].id;
      }
    }
  }

  /** Both ranks of a search are bijections onto initial segments; a row without vector ranks after all. */
  lemma {:induction false} SearchRanks(scored: seq<Row>, vectors: seq<Vector>, id: nat)
    requires DistinctRows(scored)
    ensures var dense := DenseEntries(scored, DenseScores(vectors));
      && DistinctIds(dense) && DistinctIds(LexicalEntries(scored))
      && (forall e :: e in dense && id !in Ranks(Sorted(dense)) ==>
            e.id in Ranks(Sorted(dense)) && Ranks(Sorted(dense))[e.id] < RankOf(Ranks(Sorted(dense)), id, |scored|))
  {
    var dense := DenseEntries(scored, DenseScores(vectors));
    DenseEntriesDistinct(scored, DenseScores(vectors));
    RanksBijective(dense);
  }
}
